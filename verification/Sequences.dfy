/** Sequences as sets in some order: no duplicates, and removal. */
module Sequences {
  ghost predicate NoDup<T>(q: seq<T>) {
    forall i, j :: 0 <= i < j < |q| ==> q[i] != q[j]
  }

  /** The others, in their order. */
  function Without<T(==)>(q: seq<T>, c: T): seq<T> {
    if q == [] then []
    else if q[0] == c then Without(q[1..], c)
    else [q[0]] + Without(q[1..], c)
  }

  lemma {:induction false} WithoutMembers<T>(q: seq<T>, c: T)
    ensures forall x :: x in Without(q, c) <==> x in q && x != c
    ensures NoDup(q) ==> NoDup(Without(q, c))
    ensures |Without(q, c)| <= |q|
  {
    if q != [] {
      WithoutMembers(q[1..], c);
      assert forall x :: x in q <==> x == q[0] || x in q[1..];
      if NoDup(q) {
        assert q[0] !in q[1..];
      }
    }
  }

  /** Removing a client that is not there changes nothing. */
  lemma {:induction false} WithoutAbsent<T>(q: seq<T>, c: T)
    requires c !in q
    ensures Without(q, c) == q
  {
    if q != [] {
      WithoutAbsent(q[1..], c);
    }
  }
}
