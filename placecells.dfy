/** `load_place_cells`: synthetic firings of n_cells place cells on a
    circle. Each repetition visits the cells in order; the row of cell i
    is zero except for five Poisson counts written around i (the cell
    itself at rate 4, its neighbours at rates 2 and 1), and is labelled
    with the cell's angle. The Poisson draws are supplied: `poisson(d, λ)`
    is what the d-th call `np.random.poisson(λ)` returns. */
module PlaceCells {
  import opened Common

  function Abs(a: int): nat {
    if a < 0 then -a else a
  }

  /** `int(n_times / n_cells)`: the quotient rounded toward zero. */
  function TruncDiv(a: int, b: int): (r: int)
    requires b != 0
    ensures Abs(r) * Abs(b) <= Abs(a) < (Abs(r) + 1) * Abs(b)
    ensures r > 0 ==> (a < 0) == (b < 0)
    ensures r < 0 ==> (a < 0) != (b < 0)
  {
    var q := Abs(a) / Abs(b);
    FloorDivBounds(Abs(a), Abs(b));
    if (a < 0) == (b < 0) then q else -q
  }

  /** The rates of the five draws of a row, in the order they are made. */
  const Rates: seq<real> := [1.0, 2.0, 4.0, 2.0, 1.0]

  /** The (index, rate) of the five assignments `cell_firings[index] =
      np.random.poisson(rate)` for cell i of n, in program order: the four
      cells next to the wrap-around write the window i-2 … i+2 through
      negative indices, every other cell writes i-2, i-1, i, i+1 and then
      i-3. */
  function Writes(i: int, n: int): (r: seq<(int, real)>)
    ensures |r| == 5 && forall j :: 0 <= j < 5 ==> r[j].1 == Rates[j]
  {
    if i == 0 then [(-2, 1.0), (-1, 2.0), (0, 4.0), (1, 2.0), (2, 1.0)]
    else if i == 1 then [(-1, 1.0), (0, 2.0), (1, 4.0), (2, 2.0), (3, 1.0)]
    else if i == n - 2 then [(-4, 1.0), (-3, 2.0), (-2, 4.0), (-1, 2.0), (0, 1.0)]
    else if i == n - 1 then [(-3, 1.0), (-2, 2.0), (-1, 4.0), (0, 2.0), (1, 1.0)]
    else [(i - 2, 1.0), (i - 1, 2.0), (i, 4.0), (i + 1, 2.0), (i - 3, 1.0)]
  }

  /** `np.zeros(n)`. */
  function Zeros(n: nat): (r: seq<nat>)
    ensures |r| == n && forall q :: 0 <= q < n ==> r[q] == 0
  {
    seq(n, _ => 0)
  }

  /** `row[index] = value`, or the IndexError of an index outside [-n, n). */
  function Fired(row: seq<nat>, index: int, value: nat): (r: Result<seq<nat>>)
    ensures r.Success? <==> PyIndex(index, |row|).Some?
    ensures r.Failure? ==> r.error == IndexError
    ensures r.Success? ==> r.value == row[PyIndex(index, |row|).value := value]
  {
    match PyIndex(index, |row|)
    case None => Failure(IndexError)
    case Some(p) => Success(row[p := value])
  }

  /** The five writes of a window applied in order to `row`, the j-th
      with the value of draw number `draw + j`; the first index outside the
      row raises. */
  function Window(row: seq<nat>, w: seq<(int, real)>, poisson: (nat, real) -> nat, draw: nat): (r: Result<seq<nat>>)
    requires |w| == 5
    ensures r.Success? <==> forall j :: 0 <= j < 5 ==> PyIndex(w[j].0, |row|).Some?
    ensures r.Failure? ==> r.error == IndexError
    ensures r.Success? ==> |r.value| == |row|
  {
    var r1 :- Fired(row, w[0].0, poisson(draw, w[0].1));
    var r2 :- Fired(r1, w[1].0, poisson(draw + 1, w[1].1));
    var r3 :- Fired(r2, w[2].0, poisson(draw + 2, w[2].1));
    var r4 :- Fired(r3, w[3].0, poisson(draw + 3, w[3].1));
    Fired(r4, w[4].0, poisson(draw + 4, w[4].1))
  }

  /** The row of cell i, whose draws are numbered from `draw` on. */
  function CellRow(i: nat, n: nat, poisson: (nat, real) -> nat, draw: nat): (r: Result<seq<nat>>)
    ensures r.Success? <==> forall j :: 0 <= j < 5 ==> Spot(i, n, j).Some?
    ensures r.Failure? ==> r.error == IndexError
    ensures r.Success? ==> |r.value| == n
  {
    assert forall j :: 0 <= j < 5 ==> Spot(i, n, j) == PyIndex(Writes(i, n)[j].0, |Zeros(n)|);
    Window(Zeros(n), Writes(i, n), poisson, draw)
  }

  /** The angle label `i_cell / n_cells * 360`. */
  function Label(i: nat, n: nat): (r: real)
    requires n > 0
    ensures 0.0 <= r && r * n as real == i as real * 360.0
  {
    i as real / n as real * 360.0
  }

  /** The first `count` rows: row r belongs to cell r % n and uses draws
      5r … 5r + 4; a row that raises raises IndexError. */
  function CellRows(n: nat, poisson: (nat, real) -> nat, count: nat): (r: seq<Result<seq<nat>>>)
    requires n > 0
    ensures |r| == count
    ensures forall j :: 0 <= j < count ==> r[j] == CellRow(j % n, n, poisson, 5 * j)
    ensures forall j :: 0 <= j < count && r[j].Failure? ==> r[j].error == IndexError
  {
    seq(count, j requires 0 <= j < count => CellRow(j % n, n, poisson, 5 * j))
  }

  /** The labels of the first `count` rows. */
  function Labels(n: nat, count: nat): (r: seq<real>)
    requires n > 0
    ensures |r| == count
  {
    if count == 0 then [] else Labels(n, count - 1) + [Label((count - 1) % n, n)]
  }

  /** What `load_place_cells(n_times, n_cells)` returns or raises: a
      ZeroDivisionError for no cells, no rows when the quotient or the
      cell count is not positive, otherwise the rows of all repetitions or
      the IndexError of the first row that writes outside the array. */
  function Load(nTimes: int, nCells: int, poisson: (nat, real) -> nat): (r: Result<(seq<seq<nat>>, seq<real>)>)
    ensures r == Failure(ZeroDivision) <==> nCells == 0
    ensures r.Failure? && nCells != 0 ==> r.error == IndexError
    ensures r.Success? ==> |r.value.0| == |r.value.1|
  {
    if nCells == 0 then Failure(ZeroDivision)
    else
      var reps := TruncDiv(nTimes, nCells);
      if reps <= 0 || nCells < 0 then Success(([], []))
      else
        var n := nCells as nat;
        var all := CellRows(n, poisson, reps * n);
        CollectAt(all);
        var rows :- Collect(all);
        Success((rows, Labels(n, reps * n)))
  }

  // ---------------------------------------------------------------------
  // The generator

  /** One assignment `cell_firings[index] = value`. */
  method Fire(cellFirings: array<nat>, index: int, value: nat) returns (s: Status)
    modifies cellFirings
    ensures s.Raised? ==> s.error == IndexError
    ensures Fired(old(cellFirings[..]), index, value) == if s.Raised? then Failure(s.error) else Success(cellFirings[..])
  {
    var p := PyIndex(index, cellFirings.Length);
    if p.None? {
      return Raised(IndexError);
    }
    cellFirings[p.value] := value;
    return Done;
  }

  /** The five assignments of one branch of the inner loop's body, in
      program order, stopping at the first that raises. */
  method FireWindow(cellFirings: array<nat>, w: seq<(int, real)>, poisson: (nat, real) -> nat, draw: nat)
    returns (r: Result<seq<nat>>)
    requires |w| == 5
    modifies cellFirings
    ensures r == Window(old(cellFirings[..]), w, poisson, draw)
  {
    var s := Fire(cellFirings, w[0].0, poisson(draw, w[0].1));
    if s.Raised? { return Failure(IndexError); }
    s := Fire(cellFirings, w[1].0, poisson(draw + 1, w[1].1));
    if s.Raised? { return Failure(IndexError); }
    s := Fire(cellFirings, w[2].0, poisson(draw + 2, w[2].1));
    if s.Raised? { return Failure(IndexError); }
    s := Fire(cellFirings, w[3].0, poisson(draw + 3, w[3].1));
    if s.Raised? { return Failure(IndexError); }
    s := Fire(cellFirings, w[4].0, poisson(draw + 4, w[4].1));
    if s.Raised? { return Failure(IndexError); }
    return Success(cellFirings[..]);
  }

  /** The body of the inner loop: a fresh zero row and the five writes of
      the branch cell i takes (the branches are spelled out in `Writes`). */
  method FireCell(i: nat, n: nat, poisson: (nat, real) -> nat, draw: nat) returns (r: Result<seq<nat>>)
    ensures r == CellRow(i, n, poisson, draw)
  {
    var cellFirings := new nat[n](_ => 0);
    assert cellFirings[..] == Zeros(n);
    r := FireWindow(cellFirings, Writes(i, n), poisson, draw);
  }

  /** `load_place_cells(n_times, n_cells)`: for each of the int(n_times /
      n_cells) repetitions and each cell in order, fire the cell's row and
      append it and its label. */
  method LoadPlaceCells(nTimes: int, nCells: int, poisson: (nat, real) -> nat)
    returns (r: Result<(seq<seq<nat>>, seq<real>)>)
    ensures r == Load(nTimes, nCells, poisson)
  {
    if nCells == 0 {
      return Failure(ZeroDivision);
    }
    var nFiringPerCell := TruncDiv(nTimes, nCells);
    var placeCells: seq<seq<nat>> := [];
    var labels: seq<real> := [];
    if nFiringPerCell <= 0 || nCells < 0 {
      return Success((placeCells, labels));
    }
    var n: nat := nCells;
    ghost var all := CellRows(n, poisson, nFiringPerCell * n);
    var draw := 0;
    ghost var row := 0;
    for rep := 0 to nFiringPerCell
      invariant row == rep * n && row <= nFiringPerCell * n && draw == 5 * row
      invariant Collect(all[..row]) == Success(placeCells) && labels == Labels(n, row)
    {
      RowsFit(rep, nFiringPerCell, n);
      for i := 0 to n
        invariant row == rep * n + i && draw == 5 * row
        invariant Collect(all[..row]) == Success(placeCells) && labels == Labels(n, row)
      {
        DivUnique(row, n, rep, i);
        var cellFirings := FireCell(i, n, poisson, draw);
        if cellFirings.Failure? {
          CollectFailsAt(all, row);
          CollectStopsAtFailure(all, row + 1);
          return Failure(cellFirings.error);
        }
        CollectStep(all, row, placeCells, cellFirings.value);
        placeCells := placeCells + [cellFirings.value];
        labels := labels + [Label(i, n)];
        draw := draw + 5;
        row := row + 1;
      }
      NextRepetition(rep, n);
    }
    CollectAll(all);
    return Success((placeCells, labels));
  }

  /** The rows of repetition rep lie inside the reps · n rows. */
  lemma RowsFit(rep: nat, reps: nat, n: nat)
    requires rep < reps
    ensures rep * n + n <= reps * n
  {
    assert rep * n + n == (rep + 1) * n;
    MultipleBound(reps - (rep + 1), n);
    assert reps * n - (rep + 1) * n == (reps - (rep + 1)) * n;
  }

  lemma NextRepetition(rep: nat, n: nat)
    ensures rep * n + n == (rep + 1) * n
  {
  }

  /** Label r is cell r % n's. */
  lemma {:induction false} LabelsAt(n: nat, count: nat, r: nat)
    requires n > 0 && r < count
    ensures Labels(n, count)[r] == Label(r % n, n)
  {
    if r < count - 1 {
      LabelsAt(n, count - 1, r);
    }
  }

  // ---------------------------------------------------------------------
  // What the generator promises

  /** Where write j of cell i's row lands, or None for an IndexError. */
  function Spot(i: nat, n: nat, j: nat): Option<nat>
    requires j < 5
  {
    PyIndex(Writes(i, n)[j].0, n)
  }

  /** The cells next to the wrap-around (0, 1, n-2, n-1) write the cyclic
      window i-2 … i+2, modulo n, with rates 1, 2, 4, 2, 1. */
  lemma BoundaryWindow(i: nat, n: nat)
    requires 4 <= n && (i == 0 || i == 1 || i == n - 2 || i == n - 1)
    ensures forall j :: 0 <= j < 5 ==> Spot(i, n, j) == Some((i - 2 + j) % n) && Writes(i, n)[j].1 == Rates[j]
  {
    forall j | 0 <= j < 5
      ensures Spot(i, n, j) == Some((i - 2 + j) % n)
    {
      var k := Writes(i, n)[j].0;
      var c := if i <= 1 then 0 else 1;
      assert k == j - 2 + i - c * n by {
        assert j == 0 || j == 1 || j == 2 || j == 3 || j == 4;
      }
      var p := PyIndex(k, n).value;
      if p == k {
        DivUnique(i - 2 + j, n, c, p);
      } else {
        DivUnique(i - 2 + j, n, c - 1, p);
      }
    }
  }

  /** Every other cell writes i-2, i-1, i and i+1 in place and then i-3,
      which wraps to n-1 for cell 2; with six or more cells the window
      never reaches i+2. */
  lemma InteriorWindow(i: nat, n: nat)
    requires 2 <= i <= n - 3 && n >= 5
    ensures forall j :: 0 <= j < 4 ==> Spot(i, n, j) == Some(i - 2 + j)
    ensures Spot(i, n, 4) == Some((i - 3) % n)
    ensures n >= 6 ==> forall j :: 0 <= j < 5 ==> Spot(i, n, j) != Some(i + 2)
  {
    if i == 2 {
      DivUnique(i - 3, n, -1, n - 1);
    } else {
      DivUnique(i - 3, n, 0, i - 3);
    }
  }

  /** For n ≥ 4 every write of every cell lands inside the row. */
  lemma SpotsValid(i: nat, n: nat)
    requires 4 <= n && i < n
    ensures forall j :: 0 <= j < 5 ==> Spot(i, n, j).Some?
  {
  }

  /** For n ≥ 4 every write of cell i's row lands: the row is the zero row
      with the five draws written at the five spots, in order. */
  lemma CellRowWritten(i: nat, n: nat, poisson: (nat, real) -> nat, draw: nat)
    requires 4 <= n && i < n
    ensures forall j :: 0 <= j < 5 ==> Spot(i, n, j).Some? && Spot(i, n, j).value < n
    ensures CellRow(i, n, poisson, draw)
            == Success(Zeros(n)[Spot(i, n, 0).value := poisson(draw, Rates[0])]
                               [Spot(i, n, 1).value := poisson(draw + 1, Rates[1])]
                               [Spot(i, n, 2).value := poisson(draw + 2, Rates[2])]
                               [Spot(i, n, 3).value := poisson(draw + 3, Rates[3])]
                               [Spot(i, n, 4).value := poisson(draw + 4, Rates[4])])
  {
    SpotsValid(i, n);
    var w := Writes(i, n);
    assert w[0].1 == Rates[0] && w[1].1 == Rates[1] && w[2].1 == Rates[2];
    assert w[3].1 == Rates[3] && w[4].1 == Rates[4];
  }

  /** A spot that no later write of the row reuses keeps its own draw. */
  lemma SpotKeepsDraw(i: nat, n: nat, poisson: (nat, real) -> nat, draw: nat, j: nat)
    requires 4 <= n && i < n && j < 5
    requires forall j' :: j < j' < 5 ==> Spot(i, n, j') != Spot(i, n, j)
    ensures CellRow(i, n, poisson, draw).Success? && Spot(i, n, j).Some?
    ensures Spot(i, n, j).value < |CellRow(i, n, poisson, draw).value|
    ensures CellRow(i, n, poisson, draw).value[Spot(i, n, j).value] == poisson(draw + j, Rates[j])
  {
    CellRowWritten(i, n, poisson, draw);
    if j == 0 {
      assert Spot(i, n, 1) != Spot(i, n, 0) && Spot(i, n, 2) != Spot(i, n, 0);
      assert Spot(i, n, 3) != Spot(i, n, 0) && Spot(i, n, 4) != Spot(i, n, 0);
    } else if j == 1 {
      assert Spot(i, n, 2) != Spot(i, n, 1);
      assert Spot(i, n, 3) != Spot(i, n, 1) && Spot(i, n, 4) != Spot(i, n, 1);
    } else if j == 2 {
      assert Spot(i, n, 3) != Spot(i, n, 2) && Spot(i, n, 4) != Spot(i, n, 2);
    } else if j == 3 {
      assert Spot(i, n, 4) != Spot(i, n, 3);
    }
  }

  /** For n ≥ 4 the row of cell i is zero everywhere but the five spots;
      a spot holds the draw of the last write to it, and cell i's own
      entry holds the third draw, made at rate 4. */
  lemma CellRowContents(i: nat, n: nat, poisson: (nat, real) -> nat, draw: nat)
    requires 4 <= n && i < n
    ensures CellRow(i, n, poisson, draw).Success?
    ensures |CellRow(i, n, poisson, draw).value| == n
    ensures forall q :: 0 <= q < n && (forall j :: 0 <= j < 5 ==> Spot(i, n, j) != Some(q)) ==>
              CellRow(i, n, poisson, draw).value[q] == 0
    ensures forall j :: 0 <= j < 5 && (forall j' :: j < j' < 5 ==> Spot(i, n, j') != Spot(i, n, j)) ==>
              CellRow(i, n, poisson, draw).value[Spot(i, n, j).value] == poisson(draw + j, Rates[j])
    ensures CellRow(i, n, poisson, draw).value[i] == poisson(draw + 2, 4.0)
  {
    CellRowWritten(i, n, poisson, draw);
    assert Spot(i, n, 2).value == i && Spot(i, n, 3).value != i && Spot(i, n, 4).value != i;
    forall j | 0 <= j < 5 && (forall j' :: j < j' < 5 ==> Spot(i, n, j') != Spot(i, n, j))
      ensures CellRow(i, n, poisson, draw).value[Spot(i, n, j).value] == poisson(draw + j, Rates[j])
    {
      SpotKeepsDraw(i, n, poisson, draw, j);
    }
  }

  // ---------------------------------------------------------------------
  // The window the interior branch evidently means

  /** The writes every cell was evidently meant to make: the boundary
      branches' cyclic window i-2 … i+2 with rates 1, 2, 4, 2, 1, and for
      every other cell i+2 as the last write where `Writes` has i-3. */
  function SymmetricWrites(i: int, n: int): (r: seq<(int, real)>)
    ensures |r| == 5 && forall j :: 0 <= j < 5 ==> r[j].1 == Rates[j]
  {
    if i == 0 || i == 1 || i == n - 2 || i == n - 1 then Writes(i, n)
    else [(i - 2, 1.0), (i - 1, 2.0), (i, 4.0), (i + 1, 2.0), (i + 2, 1.0)]
  }

  /** The row of cell i under the corrected writes. */
  function SymmetricRow(i: nat, n: nat, poisson: (nat, real) -> nat, draw: nat): Result<seq<nat>> {
    Window(Zeros(n), SymmetricWrites(i, n), poisson, draw)
  }

  /** Under the corrected writes every cell, interior or not, writes the
      cyclic window i-2 … i+2 modulo n. */
  lemma SymmetricWindow(i: nat, n: nat)
    requires 4 <= n && i < n
    ensures forall j :: 0 <= j < 5 ==> PyIndex(SymmetricWrites(i, n)[j].0, n) == Some((i - 2 + j) % n)
  {
    if i == 0 || i == 1 || i == n - 2 || i == n - 1 {
      BoundaryWindow(i, n);
    } else {
      forall j | 0 <= j < 5
        ensures PyIndex(SymmetricWrites(i, n)[j].0, n) == Some((i - 2 + j) % n)
      {
        assert SymmetricWrites(i, n)[j].0 == i - 2 + j by {
          assert j == 0 || j == 1 || j == 2 || j == 3 || j == 4;
        }
        DivUnique(i - 2 + j, n, 0, i - 2 + j);
      }
    }
  }

  /** Five consecutive positions fall on five different cells of a ring
      of at least five. */
  lemma RingDistinct(a: int, b: int, n: nat)
    requires a < b < a + n
    ensures a % n != b % n
  {
    var qa, qb := a / n, b / n;
    assert a == qa * n + a % n && b == qb * n + b % n;
    if a % n == b % n {
      assert (qb - qa) * n == b - a;
      MultipleBound(qb - qa, n);
    }
  }

  /** With five cells or more the corrected row of cell i holds, at cell
      (i - 2 + j) mod n, the j-th draw: the cell itself at rate 4, both
      neighbours at rate 2, both cells two away at rate 1. */
  lemma SymmetricRowContents(i: nat, n: nat, poisson: (nat, real) -> nat, draw: nat, j: nat)
    requires 5 <= n && i < n && j < 5
    ensures SymmetricRow(i, n, poisson, draw).Success?
    ensures |SymmetricRow(i, n, poisson, draw).value| == n
    ensures SymmetricRow(i, n, poisson, draw).value[(i - 2 + j) % n] == poisson(draw + j, Rates[j])
  {
    var w := SymmetricWrites(i, n);
    SymmetricWindow(i, n);
    forall k | 0 <= k < 5 && k != j
      ensures PyIndex(w[k].0, n) != PyIndex(w[j].0, n)
    {
      if k < j {
        RingDistinct(i - 2 + k, i - 2 + j, n);
      } else {
        RingDistinct(i - 2 + j, i - 2 + k, n);
      }
    }
    WindowKeeps(Zeros(n), w, poisson, draw, j);
  }

  /** A window whose five writes all land leaves the row's length alone,
      and write j, when no later write reuses its cell, keeps its draw. */
  lemma WindowKeeps(row: seq<nat>, w: seq<(int, real)>, poisson: (nat, real) -> nat, draw: nat, j: nat)
    requires |w| == 5 && j < 5
    requires forall k :: 0 <= k < 5 ==> PyIndex(w[k].0, |row|).Some?
    requires forall k :: j < k < 5 ==> PyIndex(w[k].0, |row|) != PyIndex(w[j].0, |row|)
    ensures Window(row, w, poisson, draw).Success?
    ensures |Window(row, w, poisson, draw).value| == |row|
    ensures PyIndex(w[j].0, |row|).value < |row|
    ensures Window(row, w, poisson, draw).value[PyIndex(w[j].0, |row|).value] == poisson(draw + j, w[j].1)
  {
    var p := seq(5, k requires 0 <= k < 5 => PyIndex(w[k].0, |row|).value);
    assert Window(row, w, poisson, draw)
           == Success(row[p[0] := poisson(draw, w[0].1)][p[1] := poisson(draw + 1, w[1].1)]
                         [p[2] := poisson(draw + 2, w[2].1)][p[3] := poisson(draw + 3, w[3].1)]
                         [p[4] := poisson(draw + 4, w[4].1)]);
    assert forall k :: j < k < 5 ==> p[k] != p[j];
  }

  /** As written, cell 2 of six never fires cell 4, two to its right, and
      fires cell 5, three to its left, instead; the corrected row fires
      cell 4 with the fifth draw at rate 1. */
  lemma SkewedInteriorWindow(poisson: (nat, real) -> nat, draw: nat)
    ensures CellRow(2, 6, poisson, draw).Success? && |CellRow(2, 6, poisson, draw).value| == 6
    ensures CellRow(2, 6, poisson, draw).value[4] == 0
    ensures CellRow(2, 6, poisson, draw).value[5] == poisson(draw + 4, 1.0)
    ensures SymmetricRow(2, 6, poisson, draw).Success?
    ensures SymmetricRow(2, 6, poisson, draw).value[4] == poisson(draw + 4, 1.0)
    ensures SymmetricRow(2, 6, poisson, draw).value[5] == 0
  {
    SymmetricRowContents(2, 6, poisson, draw, 4);
    SymmetricRowContents(2, 6, poisson, draw, 3);
  }

  /** For n_times ≥ 0 and n_cells > 0 the repetition count is the number
      of whole rounds of n_cells in n_times. */
  lemma TruncDivBounds(a: int, b: int)
    requires a >= 0 && b > 0
    ensures TruncDiv(a, b) >= 0
    ensures TruncDiv(a, b) * b <= a < TruncDiv(a, b) * b + b
  {
    var q := a / b;
    assert TruncDiv(a, b) == q;
    assert a == q * b + a % b;
  }

  /** A cell's angle lies in [0, 360). */
  lemma LabelRange(i: nat, n: nat)
    requires i < n
    ensures 0.0 <= Label(i, n) < 360.0
  {
    var t := i as real / n as real;
    assert (1.0 - t) * n as real == (n - i) as real;
    PositiveRatio(1.0 - t, n as real);
  }

  lemma PositiveRatio(a: real, k: real)
    requires k > 0.0 && a * k > 0.0
    ensures a > 0.0
  {
  }

  /** No cells: `n_times / n_cells` raises ZeroDivisionError. */
  lemma NoCells(nTimes: int, poisson: (nat, real) -> nat)
    ensures Load(nTimes, 0, poisson) == Failure(ZeroDivision)
  {
  }

  /** A negative cell count, or fewer times than cells, makes no rows. */
  lemma NoRows(nTimes: int, nCells: int, poisson: (nat, real) -> nat)
    requires nCells != 0 && (nCells < 0 || nTimes < nCells)
    ensures Load(nTimes, nCells, poisson) == Success(([], []))
  {
    if nCells > 0 {
      NoRepetitions(nTimes, nCells);
    }
  }

  lemma NoRepetitions(a: int, b: int)
    requires 0 < b && a < b
    ensures TruncDiv(a, b) <= 0
  {
    if a >= 0 {
      DivUnique(a, b, 0, a);
    }
  }

  /** Once n_times ≥ n_cells > 0 there is at least one repetition. */
  lemma SomeRepetition(a: int, b: int)
    requires 0 < b <= a
    ensures TruncDiv(a, b) >= 1
  {
    TruncDivBounds(a, b);
    MultipleBound(TruncDiv(a, b) - 1, b);
  }

  /** With four cells or more every write lands in the row: no error. */
  lemma ManyCellsSucceed(nTimes: int, nCells: int, poisson: (nat, real) -> nat)
    requires nCells >= 4
    ensures Load(nTimes, nCells, poisson).Success?
  {
    var n: nat := nCells;
    var reps := TruncDiv(nTimes, nCells);
    if reps > 0 {
      var all := CellRows(n, poisson, reps * n);
      CollectAt(all);
      forall r | 0 <= r < reps * n
        ensures all[r].Success?
      {
        CellRowContents(r % n, n, poisson, 5 * r);
      }
    }
  }

  /** With one to three cells some write of the first repetition falls
      outside the row (index -2 or 2 for one or two cells, index 3 for
      cell 1 of three), so any call that makes a row raises IndexError. */
  lemma FewCellsFail(nTimes: int, nCells: int, poisson: (nat, real) -> nat)
    requires 1 <= nCells <= 3 && nCells <= nTimes
    ensures Load(nTimes, nCells, poisson) == Failure(IndexError)
  {
    var n: nat := nCells;
    SomeRepetition(nTimes, nCells);
    var reps := TruncDiv(nTimes, nCells);
    MultipleBound(reps, n);
    var all := CellRows(n, poisson, reps * n);
    CollectAt(all);
    var bad := if n == 3 then 1 else 0;
    DivUnique(bad, n, 0, bad);
    SmallRowFails(n, poisson, 5 * bad);
    assert all[bad].Failure?;
    var j :| 0 <= j < |all| && all[j] == Failure(Collect(all).error);
  }

  /** The row that overruns a ring of one to three cells. */
  lemma SmallRowFails(n: nat, poisson: (nat, real) -> nat, draw: nat)
    requires 1 <= n <= 3
    ensures CellRow(if n == 3 then 1 else 0, n, poisson, draw).Failure?
  {
  }

  /** A run that returns has int(n_times / n_cells) · n_cells rows, never
      more than n_times; row r is the row of cell r % n_cells, with draws
      5r … 5r + 4, and its label is that cell's angle, in [0, 360). */
  lemma RowLayout(nTimes: int, nCells: int, poisson: (nat, real) -> nat)
    requires nCells > 0 && Load(nTimes, nCells, poisson).Success?
    ensures var out := Load(nTimes, nCells, poisson).value;
            |out.0| == |out.1| && (TruncDiv(nTimes, nCells) > 0 ==> |out.0| == TruncDiv(nTimes, nCells) * nCells)
    ensures nTimes >= 0 ==> |Load(nTimes, nCells, poisson).value.0| <= nTimes
    ensures var out := Load(nTimes, nCells, poisson).value;
            forall r :: 0 <= r < |out.0| ==> Success(out.0[r]) == CellRow(r % nCells, nCells, poisson, 5 * r)
    ensures var out := Load(nTimes, nCells, poisson).value;
            forall r :: 0 <= r < |out.1| ==> out.1[r] == Label(r % nCells, nCells) && 0.0 <= out.1[r] < 360.0
  {
    var n: nat := nCells;
    var reps := TruncDiv(nTimes, nCells);
    if nTimes >= 0 {
      TruncDivBounds(nTimes, nCells);
    }
    if reps > 0 {
      var all := CellRows(n, poisson, reps * n);
      CollectAt(all);
      forall r | 0 <= r < reps * n
        ensures Labels(n, reps * n)[r] == Label(r % n, n) && 0.0 <= Labels(n, reps * n)[r] < 360.0
      {
        LabelsAt(n, reps * n, r);
        LabelRange(r % n, n);
      }
      forall r | 0 <= r < reps * n
        ensures Success(Collect(all).value[r]) == CellRow(r % n, n, poisson, 5 * r)
      {
      }
    }
  }
}
