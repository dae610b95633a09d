/** Sequences without repetition. */
module Sequences {
  ghost predicate Distinct<T>(q: seq<T>) {
    forall i, j :: 0 <= i < j < |q| ==> q[i] != q[j]
  }

  ghost function Elements<T>(q: seq<T>): set<T> {
    set t | t in q
  }

  /** A sequence without repetition is as long as the set of its elements, and the same multiset. */
  lemma {:induction false} ElementsCount<T>(q: seq<T>)
    requires Distinct(q)
    ensures |Elements(q)| == |q| && multiset(Elements(q)) == multiset(q)
  {
    if q != [] {
      var a, x := q[..|q| - 1], q[|q| - 1];
      ElementsCount(a);
      assert x !in a && q == a + [x];
      assert Elements(q) == Elements(a) + {x};
    }
  }
}
