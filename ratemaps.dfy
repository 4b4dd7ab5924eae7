/** `compute_ratemaps` and `compute_ratemaps_single_agent`: draw n_avg test
    batches, keep the selected units of every sample, count the samples
    per spatial bin and sum their activations in place, then divide every
    visited bin by its count. The trajectory generator and the network's
    `g` are supplied as one function from the batch number to the batch
    they produce. */
module Ratemaps {
  import opened Common
  import opened Binning

  /** The fields of `options` the computation reads. */
  datatype Options = Options(batchSize: nat, sequenceLength: nat, boxWidth: real, boxHeight: real)

  /** One test batch, flattened over batch and time: the positions
      `pos_batch[:, :, :2]` and the network output `model.g(inputs)`, one
      row of `units` activations per sample. */
  datatype Batch = Batch(units: nat, pos: seq<(real, real)>, g: seq<seq<real>>)

  /** A numpy array: every row of activations has the same width. */
  predicate Rectangular(b: Batch) {
    forall i :: 0 <= i < |b.g| ==> |b.g[i]| == b.units
  }

  function Arena(options: Options): Box {
    Box(options.boxWidth, options.boxHeight)
  }

  // ---------------------------------------------------------------------
  // Defaults

  /** `if not n_avg: n_avg = 1000 // options.sequence_length`: a missing or
      zero n_avg becomes the number of whole sequences in 1000 steps. */
  function ResolveNAvg(nAvg: Option<int>, sequenceLength: nat): (r: Result<int>)
    ensures r.Failure? <==> (nAvg == None || nAvg == Some(0)) && sequenceLength == 0
    ensures r.Failure? ==> r.error == ZeroDivision
    ensures r.Success? && nAvg.Some? && nAvg.value != 0 ==> r.value == nAvg.value
    ensures r.Success? && (nAvg == None || nAvg == Some(0))
            ==> 0 <= r.value && r.value * sequenceLength <= 1000 < (r.value + 1) * sequenceLength
  {
    if nAvg.Some? && nAvg.value != 0 then Success(nAvg.value)
    else if sequenceLength == 0 then Failure(ZeroDivision)
    else FloorDivBounds(1000, sequenceLength); Success(1000 / sequenceLength)
  }

  /** `np.any(idxs)`: some index is given and non-zero. */
  predicate AnyNonZero(idxs: Option<seq<int>>) {
    idxs.Some? && exists j :: 0 <= j < |idxs.value| && idxs.value[j] != 0
  }

  /** `np.arange(n)`. */
  function Range(n: nat): (r: seq<int>)
    ensures |r| == n && forall j :: 0 <= j < n ==> r[j] == j
  {
    seq(n, j => j)
  }

  /** `if not np.any(idxs): idxs = np.arange(Ng)` followed by `idxs[:Ng]`:
      the units 0 … Ng-1 unless some non-zero index was given, and never
      more than Ng of them. */
  function ResolveIdxs(idxs: Option<seq<int>>, ng: nat): (r: seq<int>)
    ensures |r| <= ng
    ensures !AnyNonZero(idxs) ==> r == Range(ng)
    ensures AnyNonZero(idxs) ==> |r| == Min(|idxs.value|, ng) && r == idxs.value[..|r|]
  {
    var given := if AnyNonZero(idxs) then idxs.value else Range(ng);
    given[..Min(|given|, ng)]
  }

  function Min(a: nat, b: nat): nat {
    if a <= b then a else b
  }

  // ---------------------------------------------------------------------
  // One batch

  /** The columns `g_batch[:, :, idxs]` reads: every index addressed the
      Python way, or an IndexError if one is outside [-units, units). */
  function Columns(idxs: seq<int>, units: nat): (r: Result<seq<nat>>)
    ensures r.Success? <==> forall j :: 0 <= j < |idxs| ==> PyIndex(idxs[j], units).Some?
    ensures r.Failure? ==> r.error == IndexError
    ensures r.Success? ==> |r.value| == |idxs|
                           && forall j :: 0 <= j < |idxs| ==> r.value[j] == PyIndex(idxs[j], units).value
  {
    if idxs == [] then Success([])
    else
      var previous :- Columns(idxs[..|idxs| - 1], units);
      var last := PyIndex(idxs[|idxs| - 1], units);
      if last.None? then Failure(IndexError) else Success(previous + [last.value])
  }

  /** The samples of one batch: position and the selected activations. */
  function Samples(b: Batch, columns: seq<nat>): (r: seq<Sample>)
    requires Rectangular(b) && |b.pos| == |b.g| && forall j :: 0 <= j < |columns| ==> columns[j] < b.units
    ensures |r| == |b.pos|
    ensures forall i :: 0 <= i < |r| ==> r[i].x == b.pos[i].0 && r[i].y == b.pos[i].1 && |r[i].g| == |columns|
    ensures forall i, j :: 0 <= i < |r| && 0 <= j < |columns| ==> r[i].g[j] == b.g[i][columns[j]]
  {
    seq(|b.pos|, i requires 0 <= i < |b.pos| =>
      Sample(b.pos[i].0, b.pos[i].1, seq(|columns|, j requires 0 <= j < |columns| => b.g[i][columns[j]])))
  }

  /** The rows of `g_batch[:, :, idxs]` laid end to end, as
      `reshape(-1, Ng)` reads them when it makes a single row. */
  function Joined(rows: seq<seq<real>>): seq<real> {
    if rows == [] then [] else Joined(rows[..|rows| - 1]) + rows[|rows| - 1]
  }

  /** m rows of k values join into m · k values. */
  lemma {:induction false} JoinedLength(rows: seq<seq<real>>, k: nat)
    requires forall i :: 0 <= i < |rows| ==> |rows[i]| == k
    ensures |Joined(rows)| == |rows| * k
  {
    if rows != [] {
      var init := rows[..|rows| - 1];
      JoinedLength(init, k);
      assert |rows| * k == |init| * k + k;
    }
  }

  /** The batch's samples when `g[index] = g_batch` broadcasts the one row
      of the reshaped selection over all batch_size · sequence_length
      rows: every sample keeps its position and carries that row. */
  function Broadcast(b: Batch, row: seq<real>): (r: seq<Sample>)
    ensures |r| == |b.pos|
    ensures forall i :: 0 <= i < |r| ==> r[i] == Sample(b.pos[i].0, b.pos[i].1, row)
  {
    seq(|b.pos|, i requires 0 <= i < |b.pos| => Sample(b.pos[i].0, b.pos[i].1, row))
  }

  /** Some sample after the first lies in the arena, so that the sample
      loop reads `g_batch[i, :]` for an i ≥ 1. */
  predicate LaterSampleKept(b: Batch, box: Box, res: nat) {
    exists i :: 1 <= i < |b.pos| && BinOf(Sample(b.pos[i].0, b.pos[i].1, []), box, res).Some?
  }

  /** What one pass of the batch loop makes of a batch before binning.
      The column selection raises IndexError. With m = batch_size ·
      sequence_length samples and k selected units, `reshape(-1, Ng)`
      raises unless Ng divides m · k, giving m · k / Ng rows, and the store
      `g[index] = g_batch` raises unless that is m rows, or one row that
      numpy broadcasts. A broadcast batch has one row only, so the sample
      loop raises IndexError at the first sample after the first that
      lies in the arena. A batch whose positions or network rows are not
      m is a ShapeMismatch. */
  function Prepare(b: Batch, options: Options, idxs: seq<int>, ng: nat, res: nat): (r: Result<seq<Sample>>)
    requires Rectangular(b)
    ensures r.Success? ==> |r.value| == options.batchSize * options.sequenceLength
    ensures r.Success? ==> forall i :: 0 <= i < |r.value| ==> |r.value[i].g| == ng
  {
    var columns :- Columns(idxs, b.units);
    var m := options.batchSize * options.sequenceLength;
    if |b.pos| != m || |b.g| != m then Failure(ShapeMismatch)
    else if |idxs| == ng || m == 0 then Success(Samples(b, columns))
    else if m * |idxs| == ng then
      var selected := Activity(Samples(b, columns));
      JoinedLength(selected, |idxs|);
      if LaterSampleKept(b, Arena(options), res) then Failure(IndexError)
      else Success(Broadcast(b, Joined(selected)))
    else Failure(ShapeMismatch)
  }

  /** When all Ng selected units are kept (`idxs` has Ng entries), the pass
      succeeds exactly when every index is valid and the batch has
      batch_size · sequence_length positions and network rows, and sample i
      then sits at position i and carries `g_batch[i, idxs[j]]` as its j-th
      activation. */
  lemma PrepareSelects(b: Batch, options: Options, idxs: seq<int>, ng: nat, res: nat)
    requires Rectangular(b) && |idxs| == ng
    ensures Prepare(b, options, idxs, ng, res).Success?
            <==> Columns(idxs, b.units).Success?
                 && |b.pos| == |b.g| == options.batchSize * options.sequenceLength
    ensures Prepare(b, options, idxs, ng, res).Success? ==>
              var r := Prepare(b, options, idxs, ng, res).value;
              |r| == |b.pos| == |b.g|
              && forall i, j :: 0 <= i < |r| && 0 <= j < ng ==>
                   PyIndex(idxs[j], b.units).Some?
                   && PyIndex(idxs[j], b.units).value < b.units
                   && r[i].x == b.pos[i].0 && r[i].y == b.pos[i].1
                   && r[i].g[j] == b.g[i][PyIndex(idxs[j], b.units).value]
  {
  }

  /** When m · k == Ng for k < Ng selected units, numpy broadcasts the one
      reshaped row over the batch: the pass returns normally exactly when
      no sample after the first lies in the arena, and every sample then
      carries the concatenation of all samples' selected activations. */
  lemma PrepareBroadcast(b: Batch, options: Options, idxs: seq<int>, ng: nat, res: nat)
    requires Rectangular(b) && Columns(idxs, b.units).Success?
    requires |b.pos| == |b.g| == options.batchSize * options.sequenceLength
    requires |idxs| < ng && |b.pos| * |idxs| == ng
    ensures Prepare(b, options, idxs, ng, res).Success? <==> !LaterSampleKept(b, Arena(options), res)
    ensures Prepare(b, options, idxs, ng, res).Failure? ==> Prepare(b, options, idxs, ng, res).error == IndexError
    ensures Prepare(b, options, idxs, ng, res).Success? ==>
              var row := Joined(Activity(Samples(b, Columns(idxs, b.units).value)));
              |row| == ng
              && forall i :: 0 <= i < |b.pos| ==> Prepare(b, options, idxs, ng, res).value[i] == Sample(b.pos[i].0, b.pos[i].1, row)
  {
    JoinedLength(Activity(Samples(b, Columns(idxs, b.units).value)), |idxs|);
  }

  /** Two samples of two units with the second unit selected and Ng = 2:
      the first sample lies in the unit arena and the second does not, so
      the pass returns normally and both samples carry [b, d], the
      selected unit of both samples. */
  lemma BroadcastExample(a: real, b: real, c: real, d: real, res: nat)
    requires res > 0
    ensures var batch := Batch(2, [(0.0, 0.0), (100.0, 100.0)], [[a, b], [c, d]]);
            Prepare(batch, Options(1, 2, 1.0, 1.0), [1], 2, res)
            == Success([Sample(0.0, 0.0, [b, d]), Sample(100.0, 100.0, [b, d])])
  {
    var batch := Batch(2, [(0.0, 0.0), (100.0, 100.0)], [[a, b], [c, d]]);
    var box := Arena(Options(1, 2, 1.0, 1.0));
    ScaleInRange(100.0, 1.0, res);
    assert BinOf(Sample(100.0, 100.0, []), box, res).None?;
    assert !LaterSampleKept(batch, box, res);
    var cs := Columns([1], 2);
    assert PyIndex([1][0], 2) == Some(1);
    assert cs.Success? && |cs.value| == 1 && cs.value[0] == 1;
    assert cs.value == [1];
    var samples := Samples(batch, [1]);
    assert samples[0].g == [b] && samples[1].g == [d];
    var selected := Activity(samples);
    assert selected == [[b], [d]];
    assert Joined(selected) == [b, d] by {
      assert selected[..1] == [[b]];
      assert Joined(selected[..1]) == [b] by {
        assert selected[..1][..0] == [];
      }
    }
    PrepareBroadcast(batch, Options(1, 2, 1.0, 1.0), [1], 2, res);
    var out := Prepare(batch, Options(1, 2, 1.0, 1.0), [1], 2, res).value;
    assert |out| == 2 && out[0] == Sample(0.0, 0.0, [b, d]) && out[1] == Sample(100.0, 100.0, [b, d]);
    assert Prepare(batch, Options(1, 2, 1.0, 1.0), [1], 2, res).Success?;
    assert out == [Sample(0.0, 0.0, [b, d]), Sample(100.0, 100.0, [b, d])];
  }

  /** What the first `count` passes of the batch loop make of their batches. */
  function Prepared(batches: nat -> Batch, options: Options, idxs: seq<int>, ng: nat, res: nat, count: nat)
    : (r: seq<Result<seq<Sample>>>)
    requires forall k: nat :: Rectangular(batches(k))
    ensures |r| == count
  {
    if count == 0 then []
    else Prepared(batches, options, idxs, ng, res, count - 1) + [Prepare(batches(count - 1), options, idxs, ng, res)]
  }

  lemma {:induction false} PreparedAt(batches: nat -> Batch, options: Options, idxs: seq<int>, ng: nat, res: nat,
                                      count: nat, k: nat)
    requires forall k: nat :: Rectangular(batches(k))
    requires k < count
    ensures Prepared(batches, options, idxs, ng, res, count)[k] == Prepare(batches(k), options, idxs, ng, res)
  {
    if k < count - 1 {
      PreparedAt(batches, options, idxs, ng, res, count - 1, k);
    }
  }

  /** The samples of several batches, one batch after the other. */
  function Flatten(batches: seq<seq<Sample>>): seq<Sample> {
    if batches == [] then [] else Flatten(batches[..|batches| - 1]) + batches[|batches| - 1]
  }

  lemma FlattenSnoc(batches: seq<seq<Sample>>, b: seq<Sample>)
    ensures Flatten(batches + [b]) == Flatten(batches) + b
  {
    assert (batches + [b])[..|batches|] == batches;
  }

  // ---------------------------------------------------------------------
  // The whole computation, as values

  /** The resolved arguments and the batches the loop bins. */
  datatype Plan = Plan(nAvg: nat, res: nat, ng: nat, idxs: seq<int>, batches: seq<seq<Sample>>)

  /** What `compute_ratemaps` bins, or the exception it raises:
      ZeroDivisionError for a defaulted n_avg with sequence_length 0,
      a negative n_avg, Ng or res fails in np.zeros, Ng = 0 fails in
      `reshape(-1, Ng)`, then the first batch that raises stops the loop. */
  function Planned(batches: nat -> Batch, options: Options, res: int, nAvg: Option<int>, ng: int,
                   idxs: Option<seq<int>>): (r: Result<Plan>)
    requires forall k: nat :: Rectangular(batches(k))
    ensures r.Success? ==> r.value.ng > 0 && |r.value.batches| == r.value.nAvg
  {
    var n :- ResolveNAvg(nAvg, options.sequenceLength);
    if n < 0 || ng < 0 || res < 0 then Failure(NegativeDimension)
    else if ng == 0 then Failure(ShapeMismatch)
    else
      var ids := ResolveIdxs(idxs, ng);
      var prepared :- Collect(Prepared(batches, options, ids, ng, res, n));
      Success(Plan(n, res, ng, ids, prepared))
  }

  /** The rows `g.reshape([-1, Ng])` and `pos.reshape([-1, 2])` hold. */
  function Activity(samples: seq<Sample>): (r: seq<seq<real>>)
    ensures |r| == |samples| && forall i :: 0 <= i < |samples| ==> r[i] == samples[i].g
  {
    seq(|samples|, i requires 0 <= i < |samples| => samples[i].g)
  }

  function Positions(samples: seq<Sample>): (r: seq<(real, real)>)
    ensures |r| == |samples| && forall i :: 0 <= i < |samples| ==> r[i] == (samples[i].x, samples[i].y)
  {
    seq(|samples|, i requires 0 <= i < |samples| => (samples[i].x, samples[i].y))
  }

  // ---------------------------------------------------------------------
  // The arrays

  /** counts is res × res, activations Ng × res × res and all_activations
      Ng × res × res × n_avg. */
  predicate Shaped(counts: array2<nat>, activations: array3<real>, allActivations: array4<real>, res: nat, ng: nat) {
    counts.Length0 == res && counts.Length1 == res
    && activations.Length0 == ng && activations.Length1 == res && activations.Length2 == res
    && allActivations.Length0 == ng && allActivations.Length1 == res && allActivations.Length2 == res
  }

  /** One pass of the sample loop: a sample inside the box adds one to its
      bin's count and its activations to the bin's sums, and also to the
      bin's slot for this batch when all_activations_flag is set. */
  method AddSample(counts: array2<nat>, activations: array3<real>, allActivations: array4<real>,
                   s: Sample, box: Box, res: nat, index: nat, flag: bool)
    requires Shaped(counts, activations, allActivations, res, |s.g|) && index < allActivations.Length3
    modifies counts, activations, allActivations
    ensures forall x, y :: 0 <= x < res && 0 <= y < res ==>
              counts[x, y] == old(counts[x, y]) + (if InBin(s, box, res, x, y) then 1 else 0)
    ensures forall u, x, y :: 0 <= u < |s.g| && 0 <= x < res && 0 <= y < res ==>
              activations[u, x, y] == old(activations[u, x, y]) + (if InBin(s, box, res, x, y) then Unit(s, u) else 0.0)
    ensures forall u, x, y, k :: 0 <= u < |s.g| && 0 <= x < res && 0 <= y < res && 0 <= k < allActivations.Length3 ==>
              allActivations[u, x, y, k]
              == old(allActivations[u, x, y, k]) + (if flag && k == index && InBin(s, box, res, x, y) then Unit(s, u) else 0.0)
  {
    var bin := BinOf(s, box, res);
    if bin.Some? {
      var xb, yb := bin.value.0, bin.value.1;
      counts[xb, yb] := counts[xb, yb] + 1;
      for u := 0 to |s.g|
        invariant forall x, y :: 0 <= x < res && 0 <= y < res ==>
                    counts[x, y] == old(counts[x, y]) + (if x == xb && y == yb then 1 else 0)
        invariant forall v, x, y :: 0 <= v < |s.g| && 0 <= x < res && 0 <= y < res ==>
                    activations[v, x, y] == old(activations[v, x, y]) + (if v < u && x == xb && y == yb then s.g[v] else 0.0)
        invariant unchanged(allActivations)
      {
        activations[u, xb, yb] := activations[u, xb, yb] + s.g[u];
      }
      if flag {
        for u := 0 to |s.g|
          invariant forall x, y :: 0 <= x < res && 0 <= y < res ==>
                      counts[x, y] == old(counts[x, y]) + (if x == xb && y == yb then 1 else 0)
          invariant forall v, x, y :: 0 <= v < |s.g| && 0 <= x < res && 0 <= y < res ==>
                      activations[v, x, y] == old(activations[v, x, y]) + (if x == xb && y == yb then s.g[v] else 0.0)
          invariant forall v, x, y, k :: 0 <= v < |s.g| && 0 <= x < res && 0 <= y < res && 0 <= k < allActivations.Length3 ==>
                      allActivations[v, x, y, k]
                      == old(allActivations[v, x, y, k]) + (if v < u && k == index && x == xb && y == yb then s.g[v] else 0.0)
        {
          allActivations[u, xb, yb, index] := allActivations[u, xb, yb, index] + s.g[u];
        }
      }
    }
  }

  /** The sample loop of one batch: every bin's count grows by the number
      of the batch's samples in it and its sums by their activations; with
      all_activations_flag, the batch's own slot receives the same sums. */
  method AddBatch(counts: array2<nat>, activations: array3<real>, allActivations: array4<real>,
                  samples: seq<Sample>, box: Box, res: nat, ng: nat, index: nat, flag: bool)
    requires Shaped(counts, activations, allActivations, res, ng) && index < allActivations.Length3
    requires forall i :: 0 <= i < |samples| ==> |samples[i].g| == ng
    modifies counts, activations, allActivations
    ensures forall x, y :: 0 <= x < res && 0 <= y < res ==>
              counts[x, y] == old(counts[x, y]) + Count(samples, box, res, x, y)
    ensures forall u, x, y :: 0 <= u < ng && 0 <= x < res && 0 <= y < res ==>
              activations[u, x, y] == old(activations[u, x, y]) + Total(samples, box, res, u, x, y)
    ensures forall u, x, y, k :: 0 <= u < ng && 0 <= x < res && 0 <= y < res && 0 <= k < allActivations.Length3 ==>
              allActivations[u, x, y, k]
              == old(allActivations[u, x, y, k]) + (if flag && k == index then Total(samples, box, res, u, x, y) else 0.0)
  {
    for i := 0 to |samples|
      invariant forall x, y :: 0 <= x < res && 0 <= y < res ==>
                  counts[x, y] == old(counts[x, y]) + Count(samples[..i], box, res, x, y)
      invariant forall u, x, y :: 0 <= u < ng && 0 <= x < res && 0 <= y < res ==>
                  activations[u, x, y] == old(activations[u, x, y]) + Total(samples[..i], box, res, u, x, y)
      invariant forall u, x, y, k :: 0 <= u < ng && 0 <= x < res && 0 <= y < res && 0 <= k < allActivations.Length3 ==>
                  allActivations[u, x, y, k]
                  == old(allActivations[u, x, y, k]) + (if flag && k == index then Total(samples[..i], box, res, u, x, y) else 0.0)
    {
      AddSample(counts, activations, allActivations, samples[i], box, res, index, flag);
      assert samples[..i + 1][..i] == samples[..i];
    }
    assert samples[..|samples|] == samples;
  }

  /** `activations[:, x, y] /= counts[x, y]` for one bin. */
  method DivideBin(activations: array3<real>, x: nat, y: nat, c: nat)
    requires x < activations.Length1 && y < activations.Length2 && c > 0
    modifies activations
    ensures forall u, x', y' :: 0 <= u < activations.Length0 && 0 <= x' < activations.Length1 && 0 <= y' < activations.Length2 ==>
              activations[u, x', y'] == if x' == x && y' == y then old(activations[u, x', y']) / c as real else old(activations[u, x', y'])
  {
    for u := 0 to activations.Length0
      invariant forall v, x', y' :: 0 <= v < activations.Length0 && 0 <= x' < activations.Length1 && 0 <= y' < activations.Length2 ==>
                  activations[v, x', y'] == if v < u && x' == x && y' == y then old(activations[v, x', y']) / c as real else old(activations[v, x', y'])
    {
      activations[u, x, y] := activations[u, x, y] / c as real;
    }
  }

  /** The division loop: every bin with a non-zero count is divided by it;
      the others are left alone. */
  method DivideBins(counts: array2<nat>, activations: array3<real>)
    requires counts.Length0 == activations.Length1 && counts.Length1 == activations.Length2
    modifies activations
    ensures forall u, x, y :: 0 <= u < activations.Length0 && 0 <= x < activations.Length1 && 0 <= y < activations.Length2 ==>
              activations[u, x, y] == if counts[x, y] > 0 then old(activations[u, x, y]) / counts[x, y] as real else old(activations[u, x, y])
  {
    for x := 0 to counts.Length0
      invariant forall u, x', y' :: 0 <= u < activations.Length0 && 0 <= x' < activations.Length1 && 0 <= y' < activations.Length2 ==>
                  activations[u, x', y'] == if x' < x && counts[x', y'] > 0 then old(activations[u, x', y']) / counts[x', y'] as real else old(activations[u, x', y'])
    {
      for y := 0 to counts.Length1
        invariant forall u, x', y' :: 0 <= u < activations.Length0 && 0 <= x' < activations.Length1 && 0 <= y' < activations.Length2 ==>
                    activations[u, x', y'] == if (x' < x || (x' == x && y' < y)) && counts[x', y'] > 0 then old(activations[u, x', y']) / counts[x', y'] as real else old(activations[u, x', y'])
      {
        if counts[x, y] > 0 {
          DivideBin(activations, x, y, counts[x, y]);
        }
      }
    }
  }

  /** `activations.reshape(Ng, -1)`: row u lists unit u's bins row-major,
      flat position k holding bin (k / res, k % res). */
  method Reshape(activations: array3<real>) returns (rateMap: array2<real>)
    requires activations.Length1 == activations.Length2
    ensures fresh(rateMap)
    ensures rateMap.Length0 == activations.Length0 && rateMap.Length1 == activations.Length1 * activations.Length1
    ensures forall u, k :: 0 <= u < rateMap.Length0 && 0 <= k < rateMap.Length1 ==> rateMap[u, k] == FlatEntry(activations, u, k)
  {
    var res := activations.Length1;
    rateMap := new real[activations.Length0, res * res];
    for u := 0 to activations.Length0
      invariant forall v, k :: 0 <= v < u && 0 <= k < res * res ==> rateMap[v, k] == FlatEntry(activations, v, k)
    {
      ReshapeUnit(activations, rateMap, u);
    }
  }

  /** Entry k of row u of the reshaped activations (0 past the end). */
  function FlatEntry(activations: array3<real>, u: nat, k: nat): real
    reads activations
  {
    var res := activations.Length1;
    if u < activations.Length0 && res == activations.Length2 && FlatBin(k, res)
    then activations[u, k / res, k % res] else 0.0
  }

  /** Row u of the rate map. */
  method ReshapeUnit(activations: array3<real>, rateMap: array2<real>, u: nat)
    requires u < rateMap.Length0
    modifies rateMap
    ensures forall v, k :: 0 <= v < rateMap.Length0 && 0 <= k < rateMap.Length1 && v != u ==>
              rateMap[v, k] == old(rateMap[v, k])
    ensures forall k :: 0 <= k < rateMap.Length1 ==> rateMap[u, k] == FlatEntry(activations, u, k)
  {
    for k := 0 to rateMap.Length1
      invariant forall v, k' :: 0 <= v < rateMap.Length0 && 0 <= k' < rateMap.Length1 && v != u ==>
                  rateMap[v, k'] == old(rateMap[v, k'])
      invariant forall k' :: 0 <= k' < k ==> rateMap[u, k'] == FlatEntry(activations, u, k')
    {
      rateMap[u, k] := FlatEntry(activations, u, k);
    }
  }

  /** Flat position k of a res × res grid names a bin. */
  predicate FlatBin(k: nat, res: nat) {
    res > 0 && k / res < res && k % res < res
  }

  lemma FlatBinHolds(k: nat, res: nat)
    requires k < res * res
    ensures FlatBin(k, res)
  {
    var q := k / res;
    assert q * res <= k;
    AtLeastSquare(q, res);
  }

  lemma FlatBins(res: nat)
    ensures forall k :: 0 <= k < res * res ==> FlatBin(k, res)
  {
    forall k | 0 <= k < res * res
      ensures FlatBin(k, res)
    {
      FlatBinHolds(k, res);
    }
  }

  lemma AtLeastSquare(q: int, res: nat)
    ensures q >= res ==> q * res >= res * res
  {
  }

  /** Row-major order: bin (x, y) sits at flat position x · res + y, and
      the position decodes back to the bin. */
  lemma FlatPosition(x: nat, y: nat, res: nat)
    requires x < res && y < res
    ensures x * res + y < res * res
    ensures (x * res + y) / res == x && (x * res + y) % res == y
  {
    AtLeastSquare(x + 1, res);
    assert (x + 1) * res == x * res + res;
    DivUnique(x * res + y, res, x, y);
  }

  /** Bin (x, y) of unit u is entry x · res + y of the unit's rate-map row. */
  lemma FlatEntryAt(activations: array3<real>, u: nat, x: nat, y: nat)
    requires u < activations.Length0 && x < activations.Length1 == activations.Length2 && y < activations.Length2
    ensures x * activations.Length1 + y < activations.Length1 * activations.Length1
    ensures FlatEntry(activations, u, x * activations.Length1 + y) == activations[u, x, y]
  {
    FlatPosition(x, y, activations.Length1);
  }


  // ---------------------------------------------------------------------
  // The whole computation, in place

  /** The state after the batches in `done`: counts and sums over all
      their samples, and with all_activations_flag each batch's own sums
      in its slot (the slots of batches still to come are 0). */
  ghost predicate Binned(counts: array2<nat>, activations: array3<real>, allActivations: array4<real>,
                         done: seq<seq<Sample>>, box: Box, res: nat, ng: nat, flag: bool)
    reads counts, activations, allActivations
  {
    Shaped(counts, activations, allActivations, res, ng) && |done| <= allActivations.Length3
    && (forall x, y :: 0 <= x < res && 0 <= y < res ==> counts[x, y] == Count(Flatten(done), box, res, x, y))
    && (forall u, x, y :: 0 <= u < ng && 0 <= x < res && 0 <= y < res ==>
          activations[u, x, y] == Total(Flatten(done), box, res, u, x, y))
    && (forall u, x, y, k :: 0 <= u < ng && 0 <= x < res && 0 <= y < res && 0 <= k < allActivations.Length3 ==>
          allActivations[u, x, y, k] == if flag && k < |done| then Total(done[k], box, res, u, x, y) else 0.0)
  }

  /** Binning one more batch extends the state to it. */
  method BinBatch(counts: array2<nat>, activations: array3<real>, allActivations: array4<real>,
                  ghost done: seq<seq<Sample>>, index: nat, samples: seq<Sample>, box: Box, res: nat, ng: nat, flag: bool)
    requires Binned(counts, activations, allActivations, done, box, res, ng, flag)
    requires index == |done| < allActivations.Length3
    requires forall i :: 0 <= i < |samples| ==> |samples[i].g| == ng
    modifies counts, activations, allActivations
    ensures Binned(counts, activations, allActivations, done + [samples], box, res, ng, flag)
  {
    AddBatch(counts, activations, allActivations, samples, box, res, ng, index, flag);
    FlattenSnoc(done, samples);
    forall x, y | 0 <= x < res && 0 <= y < res
      ensures Count(Flatten(done + [samples]), box, res, x, y) == Count(Flatten(done), box, res, x, y) + Count(samples, box, res, x, y)
    {
      CountAppend(Flatten(done), samples, box, res, x, y);
    }
    forall u, x, y | 0 <= u < ng && 0 <= x < res && 0 <= y < res
      ensures Total(Flatten(done + [samples]), box, res, u, x, y) == Total(Flatten(done), box, res, u, x, y) + Total(samples, box, res, u, x, y)
    {
      TotalAppend(Flatten(done), samples, box, res, u, x, y);
    }
  }

  /** The rates after the division: each unit's mean over the samples in each bin. */
  ghost predicate Means(activations: array3<real>, samples: seq<Sample>, box: Box, res: nat, ng: nat)
    reads activations
  {
    activations.Length0 == ng && activations.Length1 == res && activations.Length2 == res
    && forall u, x, y :: 0 <= u < ng && 0 <= x < res && 0 <= y < res ==>
         activations[u, x, y] == Mean(samples, box, res, u, x, y)
  }

  /** The division loop turns the sums into means: a visited bin is divided
      by its count, and an unvisited one keeps its zero sum. */
  method Average(counts: array2<nat>, activations: array3<real>, ghost samples: seq<Sample>, box: Box, res: nat, ng: nat)
    requires counts.Length0 == res && counts.Length1 == res
    requires activations.Length0 == ng && activations.Length1 == res && activations.Length2 == res
    requires forall x, y :: 0 <= x < res && 0 <= y < res ==> counts[x, y] == Count(samples, box, res, x, y)
    requires forall u, x, y :: 0 <= u < ng && 0 <= x < res && 0 <= y < res ==>
               activations[u, x, y] == Total(samples, box, res, u, x, y)
    modifies activations
    ensures Means(activations, samples, box, res, ng)
  {
    DivideBins(counts, activations);
  }

  /** `all_activations`: every batch's sums, bin by bin, never divided. */
  ghost predicate SumsPerBatch(allActivations: array4<real>, batches: seq<seq<Sample>>, box: Box, res: nat, ng: nat)
    reads allActivations
  {
    allActivations.Length0 == ng && allActivations.Length1 == res && allActivations.Length2 == res
    && allActivations.Length3 == |batches|
    && forall u, x, y, k :: 0 <= u < ng && 0 <= x < res && 0 <= y < res && 0 <= k < |batches| ==>
         allActivations[u, x, y, k] == Total(batches[k], box, res, u, x, y)
  }

  /** `rate_map`: row u holds unit u's rates, bin (x, y) at x · res + y. */
  ghost predicate RateMap(rateMap: array2<real>, samples: seq<Sample>, box: Box, res: nat, ng: nat)
    reads rateMap
  {
    rateMap.Length0 == ng && rateMap.Length1 == res * res
    && forall u, x, y :: 0 <= u < ng && 0 <= x < res && 0 <= y < res ==>
         x * res + y < res * res && rateMap[u, x * res + y] == Mean(samples, box, res, u, x, y)
  }

  /** The averaged activations, or with all_activations_flag the per-batch sums. */
  datatype Activations = Averaged(means: array3<real>) | PerBatch(sums: array4<real>)

  /** `activations, rate_map, g, pos`. */
  datatype Ratemaps = Ratemaps(activations: Activations, rateMap: array2<real>, g: seq<seq<real>>, pos: seq<(real, real)>)

  function Footprint(out: Ratemaps): set<object> {
    {out.rateMap} + if out.activations.Averaged? then {out.activations.means} else {out.activations.sums}
  }

  /** What a run that returns has produced for the plan. */
  ghost predicate Produced(out: Ratemaps, plan: Plan, box: Box, flag: bool)
    reads Footprint(out)
  {
    var samples := Flatten(plan.batches);
    out.g == Activity(samples) && out.pos == Positions(samples)
    && RateMap(out.rateMap, samples, box, plan.res, plan.ng)
    && (if flag then out.activations.PerBatch? && SumsPerBatch(out.activations.sums, plan.batches, box, plan.res, plan.ng)
        else out.activations.Averaged? && Means(out.activations.means, samples, box, plan.res, plan.ng))
  }

  /** The batch loop: passes 0 … n-1 draw, select and bin their batch,
      appending its rows to `g` and `pos`, until one raises. */
  method RunBatches(batches: nat -> Batch, options: Options, ids: seq<int>, ng: nat, n: nat, box: Box, res: nat,
                    counts: array2<nat>, activations: array3<real>, allActivations: array4<real>, flag: bool)
    returns (r: Result<(seq<seq<real>>, seq<(real, real)>)>, ghost done: seq<seq<Sample>>)
    requires forall k: nat :: Rectangular(batches(k))
    requires Binned(counts, activations, allActivations, [], box, res, ng, flag) && allActivations.Length3 == n
    modifies counts, activations, allActivations
    ensures var all := Collect(Prepared(batches, options, ids, ng, res, n));
            if all.Failure? then r == Failure(all.error)
            else r.Success? && done == all.value
                 && r.value.0 == Activity(Flatten(done)) && r.value.1 == Positions(Flatten(done))
                 && Binned(counts, activations, allActivations, done, box, res, ng, flag)
  {
    ghost var prepared := Prepared(batches, options, ids, ng, res, n);
    var g: seq<seq<real>> := [];
    var pos: seq<(real, real)> := [];
    done := [];
    for index := 0 to n
      invariant |done| == index
      invariant Collect(prepared[..index]) == Success(done)
      invariant g == Activity(Flatten(done)) && pos == Positions(Flatten(done))
      invariant Binned(counts, activations, allActivations, done, box, res, ng, flag)
    {
      var batch := Prepare(batches(index), options, ids, ng, res);
      PreparedAt(batches, options, ids, ng, res, n, index);
      if batch.Failure? {
        CollectFailsAt(prepared, index);
        CollectStopsAtFailure(prepared, index + 1);
        return Failure(batch.error), done;
      }
      var samples := batch.value;
      ActivityAppend(Flatten(done), samples);
      g := g + Activity(samples);
      pos := pos + Positions(samples);
      BinBatch(counts, activations, allActivations, done, index, samples, box, res, ng, flag);
      CollectStep(prepared, index, done, samples);
      FlattenSnoc(done, samples);
      done := done + [samples];
    }
    CollectAll(prepared);
    r := Success((g, pos));
  }

  lemma ActivityAppend(a: seq<Sample>, b: seq<Sample>)
    ensures Activity(a + b) == Activity(a) + Activity(b)
    ensures Positions(a + b) == Positions(a) + Positions(b)
  {
  }

  /** The division and the reshape: the means, and the rate map holding them. */
  method Finish(counts: array2<nat>, activations: array3<real>, ghost samples: seq<Sample>, box: Box, res: nat, ng: nat)
    returns (rateMap: array2<real>)
    requires counts.Length0 == res && counts.Length1 == res
    requires activations.Length0 == ng && activations.Length1 == res && activations.Length2 == res
    requires forall x, y :: 0 <= x < res && 0 <= y < res ==> counts[x, y] == Count(samples, box, res, x, y)
    requires forall u, x, y :: 0 <= u < ng && 0 <= x < res && 0 <= y < res ==>
               activations[u, x, y] == Total(samples, box, res, u, x, y)
    modifies activations
    ensures fresh(rateMap)
    ensures Means(activations, samples, box, res, ng)
    ensures RateMap(rateMap, samples, box, res, ng)
  {
    Average(counts, activations, samples, box, res, ng);
    rateMap := Reshape(activations);
    RateMapOfMeans(activations, rateMap, samples, box, res, ng);
  }

  lemma RateMapOfMeans(activations: array3<real>, rateMap: array2<real>, samples: seq<Sample>, box: Box, res: nat, ng: nat)
    requires Means(activations, samples, box, res, ng)
    requires rateMap.Length0 == ng && rateMap.Length1 == res * res
    requires forall u, k :: 0 <= u < ng && 0 <= k < res * res ==> rateMap[u, k] == FlatEntry(activations, u, k)
    ensures RateMap(rateMap, samples, box, res, ng)
  {
    forall u, x, y | 0 <= u < ng && 0 <= x < res && 0 <= y < res
      ensures x * res + y < res * res && rateMap[u, x * res + y] == Mean(samples, box, res, u, x, y)
    {
      FlatEntryAt(activations, u, x, y);
    }
  }

  /** `compute_ratemaps(model, trajectory_generator, options, res, n_avg,
      Ng, idxs, all_activations_flag)`, with `batches(index)` standing for
      what the generator and the network give on pass `index`. */
  method ComputeRatemaps(batches: nat -> Batch, options: Options, res: int, nAvg: Option<int>, ng: int,
                         idxs: Option<seq<int>>, allActivationsFlag: bool)
    returns (r: Result<Ratemaps>)
    requires forall k: nat :: Rectangular(batches(k))
    ensures r.Failure? <==> Planned(batches, options, res, nAvg, ng, idxs).Failure?
    ensures r.Failure? ==> r.error == Planned(batches, options, res, nAvg, ng, idxs).error
    ensures r.Success? ==> Produced(r.value, Planned(batches, options, res, nAvg, ng, idxs).value, Arena(options), allActivationsFlag)
  {
    var n :- ResolveNAvg(nAvg, options.sequenceLength);
    if n < 0 || ng < 0 || res < 0 {
      return Failure(NegativeDimension);
    }
    if ng == 0 {
      return Failure(ShapeMismatch);
    }
    var ids := ResolveIdxs(idxs, ng);
    var box := Arena(options);
    var counts := new nat[res, res]((_, _) => 0);
    var activations := new real[ng, res, res]((_, _, _) => 0.0);
    var allActivations := new real[ng, res, res, n]((_, _, _, _) => 0.0);
    var run, done := RunBatches(batches, options, ids, ng, n, box, res, counts, activations, allActivations, allActivationsFlag);
    if run.Failure? {
      return Failure(run.error);
    }
    var (g, pos) := run.value;
    ghost var plan := Plan(n, res, ng, ids, done);
    assert Planned(batches, options, res, nAvg, ng, idxs) == Success(plan);
    var rateMap := Finish(counts, activations, Flatten(done), box, res, ng);
    var out := if allActivationsFlag then PerBatch(allActivations) else Averaged(activations);
    r := Success(Ratemaps(out, rateMap, g, pos));
  }

  /** `compute_ratemaps_single_agent`: the same passes over the
      single-agent test batches, without per-batch sums; it always returns
      the averaged activations. */
  method ComputeRatemapsSingleAgent(batches: nat -> Batch, options: Options, res: int, nAvg: Option<int>, ng: int,
                                    idxs: Option<seq<int>>)
    returns (r: Result<Ratemaps>)
    requires forall k: nat :: Rectangular(batches(k))
    ensures r.Failure? <==> Planned(batches, options, res, nAvg, ng, idxs).Failure?
    ensures r.Failure? ==> r.error == Planned(batches, options, res, nAvg, ng, idxs).error
    ensures r.Success? ==> r.value.activations.Averaged?
    ensures r.Success? ==> Produced(r.value, Planned(batches, options, res, nAvg, ng, idxs).value, Arena(options), false)
  {
    r := ComputeRatemaps(batches, options, res, nAvg, ng, idxs, false);
  }
}
