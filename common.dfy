/** Values shared by the image-layout, rate-map and place-cell models:
    the exceptions numpy and Python raise, a failure-compatible result,
    and Python's negative-index addressing. */
module Common {

  /** The exceptions the modelled code can raise. */
  datatype Error =
    | ZeroDivision        // ZeroDivisionError from `/` or `//` by zero
    | IndexError          // an index outside [-n, n)
    | EmptyConcatenation  // np.hstack / np.vstack of an empty list
    | ShapeMismatch       // arrays whose shapes np.hstack, np.vstack or an assignment cannot join
    | NegativeDimension   // np.ones / np.zeros asked for a negative extent

  /** A computation that returns a value or raises. */
  datatype Result<+T> = Success(value: T) | Failure(error: Error) {
    predicate IsFailure() { Failure? }

    function PropagateFailure<U>(): Result<U>
      requires Failure?
    {
      Failure(error)
    }

    function Extract(): T
      requires Success?
    {
      value
    }
  }

  /** A statement that completes or raises, with no value. */
  datatype Status = Done | Raised(error: Error) {
    predicate IsFailure() { Raised? }

    function PropagateFailure<U>(): Result<U>
      requires Raised?
    {
      Failure(error)
    }
  }

  datatype Option<+T> = None | Some(value: T)

  /** The element a Python index `i` addresses in a sequence of length `n`:
      negative indices count from the end, and anything outside [-n, n)
      is an IndexError (None). */
  function PyIndex(i: int, n: nat): (r: Option<nat>)
    ensures r.Some? <==> -(n as int) <= i < n
    ensures r.Some? ==> r.value < n && (r.value == i || r.value == i + n)
  {
    if 0 <= i < n then Some(i)
    else if -(n as int) <= i < 0 then Some(i + n)
    else None
  }

  /** The values of a list of computations run in order, or the error of
      the first one that raises. */
  function Collect<T>(rs: seq<Result<T>>): (r: Result<seq<T>>)
    ensures r.Success? ==> |r.value| == |rs|
  {
    if rs == [] then Success([])
    else
      var previous :- Collect(rs[..|rs| - 1]);
      var last :- rs[|rs| - 1];
      Success(previous + [last])
  }

  /** Collect succeeds exactly when every computation does, and then holds
      their values in order; otherwise it reports some computation's error. */
  lemma {:induction false} CollectAt<T>(rs: seq<Result<T>>)
    ensures Collect(rs).Success? <==> forall j :: 0 <= j < |rs| ==> rs[j].Success?
    ensures Collect(rs).Success? ==> forall j :: 0 <= j < |rs| ==> Collect(rs).value[j] == rs[j].value
    ensures Collect(rs).Failure? ==>
              exists j :: 0 <= j < |rs| && rs[j] == Failure(Collect(rs).error) && forall i :: 0 <= i < j ==> rs[i].Success?
  {
    if rs != [] {
      var k := |rs| - 1;
      CollectAt(rs[..k]);
      if Collect(rs[..k]).Failure? {
        var j :| 0 <= j < k && rs[..k][j] == Failure(Collect(rs[..k]).error)
                 && forall i :: 0 <= i < j ==> rs[..k][i].Success?;
        assert rs[j] == rs[..k][j];
        assert forall i :: 0 <= i < j ==> rs[i] == rs[..k][i];
      }
    }
  }

  /** Running one more computation that succeeds appends its value. */
  lemma CollectStep<T>(rs: seq<Result<T>>, k: nat, previous: seq<T>, last: T)
    requires k < |rs| && Collect(rs[..k]) == Success(previous) && rs[k] == Success(last)
    ensures Collect(rs[..k + 1]) == Success(previous + [last])
  {
    assert rs[..k + 1][..k] == rs[..k];
  }

  /** A computation that raises makes the prefix ending with it raise. */
  lemma CollectFailsAt<T>(rs: seq<Result<T>>, k: nat)
    requires k < |rs| && Collect(rs[..k]).Success? && rs[k].Failure?
    ensures Collect(rs[..k + 1]) == Failure(rs[k].error)
  {
    assert rs[..k + 1][..k] == rs[..k];
  }

  /** The prefix of full length is the whole list. */
  lemma CollectAll<T>(rs: seq<Result<T>>)
    ensures Collect(rs[..|rs|]) == Collect(rs)
  {
    assert rs[..|rs|] == rs;
  }

  /** Once a computation raises, the later ones are never run: the error
      is the final outcome. */
  lemma {:induction false} CollectStopsAtFailure<T>(rs: seq<Result<T>>, k: nat)
    requires k <= |rs| && Collect(rs[..k]).Failure?
    ensures Collect(rs) == Collect(rs[..k])
  {
    if k < |rs| {
      assert rs[..|rs| - 1][..k] == rs[..k];
      CollectStopsAtFailure(rs[..|rs| - 1], k);
    } else {
      assert rs[..k] == rs;
    }
  }

  /** Euclidean division has one quotient and one remainder. */
  lemma DivUnique(k: int, n: nat, q: int, m: int)
    requires 0 <= m < n && k == q * n + m
    ensures k / n == q && k % n == m
  {
    var e := q - k / n;
    assert e * n == k % n - m;
    MultipleBound(e, n);
  }

  /** A non-zero multiple of n is at least n away from 0. */
  lemma MultipleBound(d: int, n: nat)
    ensures d >= 1 ==> d * n >= n
    ensures d <= -1 ==> d * n <= -(n as int)
  {
  }

  /** Floor division by a positive n: the quotient's multiple of n is the
      largest one not above a. */
  lemma FloorDivBounds(a: nat, n: nat)
    requires n > 0
    ensures 0 <= a / n && (a / n) * n <= a < (a / n + 1) * n
  {
    var q := a / n;
    assert a == q * n + a % n;
    assert (q + 1) * n == q * n + n;
  }
}
