/** Option and Result values for operations that can fail or find nothing, the integer
    minimum and maximum, the first element of a sequence that satisfies a test, and the
    number of elements that do. */
module Wrappers {

  datatype Option<+T> = None | Some(value: T) {
    function GetOr(default: T): T {
      match this
      case Some(v) => v
      case None => default
    }
  }

  datatype Result<+R, +E> = Success(value: R) | Failure(error: E) {
    predicate IsFailure() { Failure? }

    function PropagateFailure<U>(): Result<U, E>
      requires Failure?
    {
      Failure(error)
    }

    function Extract(): R
      requires Success?
    {
      value
    }
  }

  function Min(a: int, b: int): int { if a <= b then a else b }

  function Max(a: int, b: int): int { if a >= b then a else b }

  /** Index of the first row satisfying p: `.filter(p).first()` in table order, or the first match of a `for` loop. */
  function FirstWhere<T>(s: seq<T>, p: T -> bool): (r: Option<nat>)
    ensures r.Some? ==> r.value < |s| && p(s[r.value])
    ensures r.Some? ==> forall j :: 0 <= j < r.value ==> !p(s[j])
    ensures r.None? <==> forall j :: 0 <= j < |s| ==> !p(s[j])
  {
    if s == [] then None
    else if p(s[0]) then Some(0)
    else match FirstWhere(s[1..], p)
      case None => None
      case Some(j) => Some(j + 1)
  }

  /** `.filter(p).count()`: how many rows satisfy p. */
  function CountWhere<T>(s: seq<T>, p: T -> bool): (n: nat)
    ensures n <= |s|
  {
    if s == [] then 0 else CountWhere(s[..|s| - 1], p) + (if p(s[|s| - 1]) then 1 else 0)
  }

  /** CountWhere counts exactly the positions whose element satisfies p. */
  lemma {:induction false} CountWherePositions<T>(s: seq<T>, p: T -> bool)
    ensures CountWhere(s, p) == |set i | 0 <= i < |s| && p(s[i])|
  {
    if s != [] {
      var front := s[..|s| - 1];
      CountWherePositions(front, p);
      var before := set i | 0 <= i < |front| && p(front[i]);
      var all := set i | 0 <= i < |s| && p(s[i]);
      assert before == set i | 0 <= i < |s| - 1 && p(s[i]);
      if p(s[|s| - 1]) {
        assert all == before + {|s| - 1};
      } else {
        assert all == before;
      }
    }
  }

  /** A non-empty sequence is its front followed by its last element. */
  lemma FrontLast<T>(s: seq<T>)
    requires s != []
    ensures s[..|s| - 1] + [s[|s| - 1]] == s
  {
  }
}
