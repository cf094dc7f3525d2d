/** Small shared vocabulary: optional values, the outcome of a Python
    expression that may raise, and integer sums. */
module Base {

  /** A value that may be absent (Python's `None`). */
  datatype Option<+T> = None | Some(value: T) {

    /** The value, or `default` when absent (Python's `x or default` for
        values that are never falsy). */
    function GetOr(default: T): T {
      match this
      case Some(v) => v
      case None => default
    }
  }

  /** The outcome of evaluating a Python expression: it either returns a
      value or raises. Which exception is raised is never observable in the
      modelled code (every handler catches `Exception`), so it is not kept. */
  datatype Py<+T> = Returns(value: T) | Raises

  /** Sum of a sequence of integers. */
  function Sum(xs: seq<int>): int
    decreases |xs|
  {
    if xs == [] then 0 else xs[0] + Sum(xs[1..])
  }

  lemma {:induction false} SumAppend(xs: seq<int>, ys: seq<int>)
    ensures Sum(xs + ys) == Sum(xs) + Sum(ys)
    decreases |xs|
  {
    if xs == [] {
      assert xs + ys == ys;
    } else {
      assert (xs + ys)[1..] == xs[1..] + ys;
      SumAppend(xs[1..], ys);
    }
  }

  /** Sum of `f` over a sequence, left to right. */
  function SumMap<T>(xs: seq<T>, f: T -> int): int
    decreases |xs|
  {
    if xs == [] then 0 else f(xs[0]) + SumMap(xs[1..], f)
  }

  /** When `f` yields `amounts` element by element, its sum is their sum. */
  lemma {:induction false} SumMapPointwise<T>(xs: seq<T>, f: T -> int, amounts: seq<int>)
    requires |xs| == |amounts|
    requires forall i :: 0 <= i < |xs| ==> f(xs[i]) == amounts[i]
    ensures SumMap(xs, f) == Sum(amounts)
    decreases |xs|
  {
    if xs != [] {
      assert forall i :: 0 <= i < |xs[1..]| ==> xs[1..][i] == xs[i + 1] && amounts[1..][i] == amounts[i + 1];
      SumMapPointwise(xs[1..], f, amounts[1..]);
    }
  }

  /** The values `f` reads from the elements where it reads one, in
      order. */
  function Readings<T>(xs: seq<T>, f: T -> Option<int>): (r: seq<int>)
    ensures |r| <= |xs|
    decreases |xs|
  {
    if xs == [] then []
    else (if f(xs[0]).Some? then [f(xs[0]).value] else []) + Readings(xs[1..], f)
  }

  lemma {:induction false} ReadingsAppend<T>(xs: seq<T>, ys: seq<T>, f: T -> Option<int>)
    ensures Readings(xs + ys, f) == Readings(xs, f) + Readings(ys, f)
    decreases |xs|
  {
    if xs == [] {
      assert xs + ys == ys;
    } else {
      var head := if f(xs[0]).Some? then [f(xs[0]).value] else [];
      var all := xs + ys;
      assert all[0] == xs[0] && all[1..] == xs[1..] + ys;
      assert Readings(all, f) == head + Readings(xs[1..] + ys, f);
      assert Readings(xs, f) == head + Readings(xs[1..], f);
      ReadingsAppend(xs[1..], ys, f);
      assert head + (Readings(xs[1..], f) + Readings(ys, f)) == (head + Readings(xs[1..], f)) + Readings(ys, f);
    }
  }

  /** A loop that adds what `f` reads, and 0 where it reads nothing, sums
      the readings. */
  lemma {:induction false} SumMapOfReadings<T>(xs: seq<T>, f: T -> Option<int>, g: T -> int)
    requires forall i :: 0 <= i < |xs| ==> g(xs[i]) == f(xs[i]).GetOr(0)
    ensures SumMap(xs, g) == Sum(Readings(xs, f))
    decreases |xs|
  {
    if xs != [] {
      assert forall i :: 0 <= i < |xs[1..]| ==> xs[1..][i] == xs[i + 1];
      SumMapOfReadings(xs[1..], f, g);
      var head := if f(xs[0]).Some? then [f(xs[0]).value] else [];
      SumAppend(head, Readings(xs[1..], f));
    }
  }
}
