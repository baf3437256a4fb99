/** Remainders, as ring buffers and round-robin placement use them. */
module Arithmetic {
  /** A remainder is determined by any decomposition of its dividend. */
  lemma RemainderUnique(x: nat, c: nat, q: nat, r: nat)
    requires r < c && x == q * c + r
    ensures x % c == r && x / c == q
  {
    var q', r' := x / c, x % c;
    assert x == q' * c + r';
    if q' < q {
      Scale(q' + 1, q, c);
    } else if q < q' {
      Scale(q + 1, q', c);
    }
  }

  lemma Scale(a: nat, b: nat, c: nat)
    requires a <= b
    ensures a * c <= b * c
    ensures (a + 1) * c == a * c + c
  {
    assert b * c == a * c + (b - a) * c;
  }

  /** The remainder of a number less than `cap` after another. */
  lemma RemainderAfter(i: nat, d: nat, cap: nat)
    requires d < cap
    ensures (i + d) % cap == if i % cap + d < cap then i % cap + d else i % cap + d - cap
  {
    var q, r := i / cap, i % cap;
    assert i == q * cap + r;
    if r + d < cap {
      RemainderUnique(i + d, cap, q, r + d);
    } else {
      Scale(q, q, cap);
      RemainderUnique(i + d, cap, q + 1, r + d - cap);
    }
  }

  /** Two numbers less than `cap` apart have different remainders. */
  lemma DistinctSlots(i: nat, j: nat, cap: nat)
    requires i < j < i + cap
    ensures i % cap != j % cap
  {
    RemainderAfter(i, j - i, cap);
  }

  /** One lap later the remainder is the same. */
  lemma SameSlot(i: nat, cap: nat)
    requires cap > 0
    ensures (i + cap) % cap == i % cap
  {
    var q, r := i / cap, i % cap;
    assert i == q * cap + r;
    Scale(q, q, cap);
    RemainderUnique(i + cap, cap, q + 1, r);
  }
}
