/** Where a ring of n slots keeps a position: the arithmetic both rings of the model share. */
module RingSlots {
  // The ring slot of a position: the remainder modulo the ring length, by repeated subtraction.
  function Slot(pos: nat, n: nat): (i: nat)
    requires 0 < n
    ensures i < n
  {
    if pos < n then pos else Slot(pos - n, n)
  }

  // Division with remainder has one answer.
  lemma DivisionUnique(n: nat, a: nat, q: nat, r: nat)
    requires 0 < n && r < n && a == q * n + r
    ensures a / n == q
  {
    var d := a / n - q;
    assert d * n == r - a % n;
    NonzeroMultiple(d, n);
  }

  lemma NonzeroMultiple(d: int, n: nat)
    ensures d >= 1 ==> d * n >= n
    ensures d <= -1 ==> d * n + n <= 0
  {
    assert d * n - n == (d - 1) * n && d * n + n == (d + 1) * n;
  }

  // The source computes the slot with one division and one multiplication.
  lemma {:induction false} SlotIsGetIndex(num: nat, poolSize: nat)
    requires 0 < poolSize
    ensures Slot(num, poolSize) == num - num / poolSize * poolSize
  {
    if poolSize <= num {
      SlotIsGetIndex(num - poolSize, poolSize);
      var q, r := (num - poolSize) / poolSize, Slot(num, poolSize);
      assert (q + 1) * poolSize == q * poolSize + poolSize;
      DivisionUnique(poolSize, num, q + 1, r);
    } else {
      DivisionUnique(poolSize, num, 0, num);
    }
  }

  // Two positions of one window of at most `n` positions use different slots.
  lemma {:induction false} DistinctSlots(n: nat, p: nat, q: nat)
    requires 0 < n && p < q < p + n
    ensures Slot(p, n) != Slot(q, n)
    decreases q
  {
    if n <= p {
      DistinctSlots(n, p - n, q - n);
    }
  }

  lemma SlotIsRemainder(pos: nat, n: nat)
    requires 0 < n
    ensures Slot(pos, n) == pos % n
  {
    SlotIsGetIndex(pos, n);
  }
}
