/** The 2-D histogram average behind the rate maps: every sample of a
    trajectory falls into one of res × res spatial bins (or outside the
    box), and a bin's rate is the mean activation of the samples in it. */
module Binning {
  import opened Common

  /** The arena, `options.box_width` × `options.box_height`, centred on the origin. */
  datatype Box = Box(width: real, height: real)

  /** One time step of a test trajectory: the agent's position and the
      activations of the selected units there. */
  datatype Sample = Sample(x: real, y: real, g: seq<real>)

  /** `(p + extent / 2) / extent * res`: a coordinate rescaled so that the
      box spans [0, res). */
  function Scale(p: real, extent: real, res: nat): (r: real)
    requires extent != 0.0
    ensures p == -extent / 2.0 ==> r == 0.0
    ensures p == extent / 2.0 ==> r == res as real
  {
    (p + extent / 2.0) / extent * res as real
  }

  /** A box side of zero scales every coordinate to an infinity or a NaN,
      which no bin accepts. */
  predicate Degenerate(box: Box) {
    box.width == 0.0 || box.height == 0.0
  }

  /** The bin `(int(x), int(y))` a sample falls into, or None when the
      rescaled position is outside [0, res)². Under the `>= 0` guard,
      Python's `int` truncation is the floor. */
  function BinOf(s: Sample, box: Box, res: nat): (r: Option<(nat, nat)>)
    ensures r.Some? ==> r.value.0 < res && r.value.1 < res
    ensures r.Some? <==> !Degenerate(box)
                         && 0.0 <= Scale(s.x, box.width, res) < res as real
                         && 0.0 <= Scale(s.y, box.height, res) < res as real
  {
    if Degenerate(box) then None
    else
      var x := Scale(s.x, box.width, res);
      var y := Scale(s.y, box.height, res);
      if 0.0 <= x < res as real && 0.0 <= y < res as real then Some((x.Floor as nat, y.Floor as nat))
      else None
  }

  /** Whether sample s lands in bin (xb, yb). */
  predicate InBin(s: Sample, box: Box, res: nat, xb: nat, yb: nat) {
    BinOf(s, box, res) == Some((xb, yb))
  }

  /** Unit u of a sample's activations (0 if the sample has no such unit). */
  function Unit(s: Sample, u: nat): real {
    if u < |s.g| then s.g[u] else 0.0
  }

  /** `counts[xb, yb]`: how many samples landed in the bin. */
  function Count(samples: seq<Sample>, box: Box, res: nat, xb: nat, yb: nat): (r: nat)
    ensures r <= |samples|
  {
    if samples == [] then 0
    else
      var last := samples[|samples| - 1];
      Count(samples[..|samples| - 1], box, res, xb, yb) + (if InBin(last, box, res, xb, yb) then 1 else 0)
  }

  /** `activations[u, xb, yb]` before the division: unit u summed over the
      samples in the bin. */
  function Total(samples: seq<Sample>, box: Box, res: nat, u: nat, xb: nat, yb: nat): (r: real)
    ensures Count(samples, box, res, xb, yb) == 0 ==> r == 0.0
  {
    if samples == [] then 0.0
    else
      var last := samples[|samples| - 1];
      Total(samples[..|samples| - 1], box, res, u, xb, yb) + (if InBin(last, box, res, xb, yb) then Unit(last, u) else 0.0)
  }

  /** `activations[u, xb, yb]` after the division: the mean of unit u over
      the samples in the bin, and 0 for a bin no sample reached. */
  function Mean(samples: seq<Sample>, box: Box, res: nat, u: nat, xb: nat, yb: nat): (r: real)
    ensures Count(samples, box, res, xb, yb) == 0 ==> r == 0.0
  {
    var n := Count(samples, box, res, xb, yb);
    if n == 0 then 0.0 else Total(samples, box, res, u, xb, yb) / n as real
  }

  /** How many samples land inside the box. */
  function InRange(samples: seq<Sample>, box: Box, res: nat): nat {
    if samples == [] then 0
    else InRange(samples[..|samples| - 1], box, res) + (if BinOf(samples[|samples| - 1], box, res).Some? then 1 else 0)
  }

  // ---------------------------------------------------------------------
  // One more sample

  lemma CountSnoc(samples: seq<Sample>, s: Sample, box: Box, res: nat, xb: nat, yb: nat)
    ensures Count(samples + [s], box, res, xb, yb)
            == Count(samples, box, res, xb, yb) + (if InBin(s, box, res, xb, yb) then 1 else 0)
  {
    assert (samples + [s])[..|samples|] == samples;
  }

  lemma TotalSnoc(samples: seq<Sample>, s: Sample, box: Box, res: nat, u: nat, xb: nat, yb: nat)
    ensures Total(samples + [s], box, res, u, xb, yb)
            == Total(samples, box, res, u, xb, yb) + (if InBin(s, box, res, xb, yb) then Unit(s, u) else 0.0)
  {
    assert (samples + [s])[..|samples|] == samples;
  }

  /** Counting two runs of samples one after the other. */
  lemma {:induction false} CountAppend(a: seq<Sample>, b: seq<Sample>, box: Box, res: nat, xb: nat, yb: nat)
    ensures Count(a + b, box, res, xb, yb) == Count(a, box, res, xb, yb) + Count(b, box, res, xb, yb)
  {
    if b != [] {
      var init := b[..|b| - 1];
      CountAppend(a, init, box, res, xb, yb);
      assert (a + b)[..|a + b| - 1] == a + init;
    } else {
      assert a + b == a;
    }
  }

  /** Summing two runs of samples one after the other. */
  lemma {:induction false} TotalAppend(a: seq<Sample>, b: seq<Sample>, box: Box, res: nat, u: nat, xb: nat, yb: nat)
    ensures Total(a + b, box, res, u, xb, yb) == Total(a, box, res, u, xb, yb) + Total(b, box, res, u, xb, yb)
  {
    if b != [] {
      var init := b[..|b| - 1];
      TotalAppend(a, init, box, res, u, xb, yb);
      assert (a + b)[..|a + b| - 1] == a + init;
    } else {
      assert a + b == a;
    }
  }

  // ---------------------------------------------------------------------
  // What the binning promises

  /** A sample is kept exactly when its position lies in the box
      [-w/2, w/2) × [-h/2, h/2) (for a positive box and resolution). */
  lemma KeptIffInsideBox(s: Sample, box: Box, res: nat)
    requires box.width > 0.0 && box.height > 0.0 && res > 0
    ensures BinOf(s, box, res).Some?
            <==> -box.width / 2.0 <= s.x < box.width / 2.0 && -box.height / 2.0 <= s.y < box.height / 2.0
  {
    ScaleInRange(s.x, box.width, res);
    ScaleInRange(s.y, box.height, res);
  }

  lemma ScaleInRange(p: real, extent: real, res: nat)
    requires extent > 0.0 && res > 0
    ensures 0.0 <= Scale(p, extent, res) < res as real <==> -extent / 2.0 <= p < extent / 2.0
  {
    var q := p + extent / 2.0;
    var t := q / extent;
    assert Scale(p, extent, res) == t * res as real;
    ScaledBounds(t, res as real, extent, q);
  }

  /** With t · e == q, t · n lies in [0, n) exactly when q lies in [0, e). */
  lemma ScaledBounds(t: real, n: real, e: real, q: real)
    requires n > 0.0 && e > 0.0 && t * e == q
    ensures 0.0 <= t * n < n <==> 0.0 <= q < e
  {
    UnitInterval(t, n);
    UnitInterval(t, e);
  }

  /** Scaling by a positive k keeps t inside or outside [0, 1). */
  lemma UnitInterval(t: real, k: real)
    requires k > 0.0
    ensures 0.0 <= t * k <==> 0.0 <= t
    ensures t * k < k <==> t < 1.0
  {
    assert (t - 1.0) * k == t * k - k;
    if 0.0 <= t * k {
      PositiveFactor(t, k);
    }
    if k <= t * k {
      PositiveFactor(t - 1.0, k);
    }
  }

  lemma PositiveFactor(a: real, k: real)
    requires k > 0.0 && a * k >= 0.0
    ensures a >= 0.0
  {
  }

  /** The rate of a visited bin lies between the least and the greatest
      activation of the unit among the samples in the bin. */
  lemma MeanWithin(samples: seq<Sample>, box: Box, res: nat, u: nat, xb: nat, yb: nat, lo: real, hi: real)
    requires Count(samples, box, res, xb, yb) > 0
    requires forall i :: 0 <= i < |samples| && InBin(samples[i], box, res, xb, yb) ==> lo <= Unit(samples[i], u) <= hi
    ensures lo <= Mean(samples, box, res, u, xb, yb) <= hi
  {
    var n := Count(samples, box, res, xb, yb);
    var t := Total(samples, box, res, u, xb, yb);
    TotalBetween(samples, box, res, u, xb, yb, lo, hi);
    AverageBetween(t, n, lo, hi);
  }

  /** A sum of n terms in [lo, hi], divided by n, lies in [lo, hi]. */
  lemma AverageBetween(t: real, n: nat, lo: real, hi: real)
    requires n > 0 && Repeat(n, lo) <= t <= Repeat(n, hi)
    ensures lo <= t / n as real <= hi
  {
    Times(n, lo);
    Times(n, hi);
    DivideBetween(t, n as real, lo, hi);
  }

  lemma DivideBetween(t: real, n: real, lo: real, hi: real)
    requires n > 0.0 && n * lo <= t <= n * hi
    ensures lo <= t / n <= hi
  {
    var m := t / n;
    assert m * n == t;
    assert (m - lo) * n == t - n * lo;
    assert (hi - m) * n == n * hi - t;
    PositiveFactor(m - lo, n);
    PositiveFactor(hi - m, n);
  }

  /** x added to itself n times, which keeps the induction below linear. */
  function Repeat(n: nat, x: real): real {
    if n == 0 then 0.0 else Repeat(n - 1, x) + x
  }

  lemma {:induction false} Times(n: nat, x: real)
    ensures Repeat(n, x) == n as real * x
  {
    if n > 0 {
      Times(n - 1, x);
      assert (n - 1) as real * x + x == n as real * x;
    }
  }

  /** The sum in a bin lies between count · lo and count · hi. */
  lemma {:induction false} TotalBetween(samples: seq<Sample>, box: Box, res: nat, u: nat, xb: nat, yb: nat, lo: real, hi: real)
    requires forall i :: 0 <= i < |samples| && InBin(samples[i], box, res, xb, yb) ==> lo <= Unit(samples[i], u) <= hi
    ensures Repeat(Count(samples, box, res, xb, yb), lo) <= Total(samples, box, res, u, xb, yb)
    ensures Total(samples, box, res, u, xb, yb) <= Repeat(Count(samples, box, res, xb, yb), hi)
  {
    if samples != [] {
      var init := samples[..|samples| - 1];
      var last := samples[|samples| - 1];
      assert forall i :: 0 <= i < |init| ==> init[i] == samples[i];
      TotalBetween(init, box, res, u, xb, yb, lo, hi);
      if InBin(last, box, res, xb, yb) {
        assert lo <= Unit(last, u) <= hi;
      }
    }
  }

  // ---------------------------------------------------------------------
  // The counts add up

  /** counts[xb, 0] + … + counts[xb, n - 1]. */
  function RowCount(samples: seq<Sample>, box: Box, res: nat, xb: nat, n: nat): nat {
    if n == 0 then 0 else RowCount(samples, box, res, xb, n - 1) + Count(samples, box, res, xb, n - 1)
  }

  /** The counts of the first m rows of bins. */
  function GridCount(samples: seq<Sample>, box: Box, res: nat, m: nat): nat {
    if m == 0 then 0 else GridCount(samples, box, res, m - 1) + RowCount(samples, box, res, m - 1, res)
  }

  lemma {:induction false} RowCountSnoc(samples: seq<Sample>, s: Sample, box: Box, res: nat, xb: nat, n: nat)
    ensures RowCount(samples + [s], box, res, xb, n)
            == RowCount(samples, box, res, xb, n)
               + (if BinOf(s, box, res).Some? && BinOf(s, box, res).value.0 == xb && BinOf(s, box, res).value.1 < n
                  then 1 else 0)
  {
    if n > 0 {
      RowCountSnoc(samples, s, box, res, xb, n - 1);
      CountSnoc(samples, s, box, res, xb, n - 1);
    }
  }

  lemma {:induction false} GridCountSnoc(samples: seq<Sample>, s: Sample, box: Box, res: nat, m: nat)
    ensures GridCount(samples + [s], box, res, m)
            == GridCount(samples, box, res, m)
               + (if BinOf(s, box, res).Some? && BinOf(s, box, res).value.0 < m then 1 else 0)
  {
    if m > 0 {
      GridCountSnoc(samples, s, box, res, m - 1);
      RowCountSnoc(samples, s, box, res, m - 1, res);
    }
  }

  /** The res × res counts add up to the number of samples inside the box:
      every kept sample is counted in exactly one bin. */
  lemma {:induction false} CountsAddUp(samples: seq<Sample>, box: Box, res: nat)
    ensures GridCount(samples, box, res, res) == InRange(samples, box, res)
  {
    if samples == [] {
      EmptyGrid(box, res, res);
    } else {
      var init := samples[..|samples| - 1];
      var last := samples[|samples| - 1];
      CountsAddUp(init, box, res);
      assert init + [last] == samples;
      GridCountSnoc(init, last, box, res, res);
    }
  }

  lemma {:induction false} EmptyGrid(box: Box, res: nat, m: nat)
    ensures GridCount([], box, res, m) == 0
  {
    if m > 0 {
      EmptyGrid(box, res, m - 1);
      EmptyRow(box, res, m - 1, res);
    }
  }

  lemma {:induction false} EmptyRow(box: Box, res: nat, xb: nat, n: nat)
    ensures RowCount([], box, res, xb, n) == 0
  {
    if n > 0 {
      EmptyRow(box, res, xb, n - 1);
    }
  }
}
