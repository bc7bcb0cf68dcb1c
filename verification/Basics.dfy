/** Outcome types, and facts about finite sets shared by every module. */
module Basics {

  datatype Option<+T> = None | Some(value: T)

  /** The source's thrown errors become the `Err` case. */
  datatype Result<+T, +E> = Ok(value: T) | Err(error: E)

  lemma {:induction false} SubsetCount<T>(a: set<T>, b: set<T>)
    requires a <= b
    ensures |a| <= |b| && (|a| == |b| ==> a == b)
  {
    if a != {} {
      var x :| x in a;
      SubsetCount(a - {x}, b - {x});
    }
  }

  /** The elements of a set, each once, in some order. */
  lemma {:induction false} Enumerate<T>(s: set<T>) returns (q: seq<T>)
    ensures |q| == |s| && forall x :: x in q <==> x in s
    ensures forall i, j :: 0 <= i < j < |q| ==> q[i] != q[j]
  {
    if s == {} {
      q := [];
    } else {
      var x :| x in s;
      q := Enumerate(s - {x});
      q := q + [x];
    }
  }

  ghost predicate TotalOrder<T(!new)>(leq: (T, T) -> bool) {
    && (forall x, y :: leq(x, y) || leq(y, x))
    && (forall x, y, z :: leq(x, y) && leq(y, z) ==> leq(x, z))
  }

  ghost predicate IsMinimum<T(!new)>(least: T, s: set<T>, leq: (T, T) -> bool) {
    least in s && forall x :: x in s ==> leq(least, x)
  }

  lemma {:induction false} HasMinimum<T(!new)>(s: set<T>, leq: (T, T) -> bool)
    requires s != {} && TotalOrder(leq)
    ensures exists least :: IsMinimum(least, s, leq)
  {
    var x :| x in s;
    var rest := s - {x};
    assert forall y :: y in s ==> y == x || y in rest;
    if rest == {} {
      assert IsMinimum(x, s, leq);
    } else {
      HasMinimum(rest, leq);
      var y :| IsMinimum(y, rest, leq);
      assert IsMinimum(if leq(x, y) then x else y, s, leq);
    }
  }
}
