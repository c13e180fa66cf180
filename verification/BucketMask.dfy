/**
 The index computation of cyber/base/atomic_hash_map.h: a key and the table size minus one,
 combined bit by bit, give the bucket that AtomicHashMapSpec uses.
*/
module BucketMask {
  import opened AtomicHashMapSpec

  // The bits that are set in both numbers.
  function And(a: nat, b: nat): nat {
    if a == 0 then 0 else (a % 2) * (b % 2) + 2 * And(a / 2, b / 2)
  }

  function Pow2(k: nat): (p: nat)
    ensures 0 < p
  {
    if k == 0 then 1 else 2 * Pow2(k - 1)
  }

  lemma MultipleIsBig(n: nat, d: int)
    ensures d == 0 || n * d >= n || n * d + n <= 0
  {
    if d > 0 {
      assert n * d == n + n * (d - 1);
    } else if d < 0 {
      assert n * d + n + n * (-d - 1) == 0;
    }
  }

  lemma QuotientIsUnique(a: int, n: nat, q: int, r: nat)
    requires r < n && a == n * q + r
    ensures a % n == r
  {
    var d := a / n - q;
    assert n * d == r - a % n;
    MultipleIsBig(n, d);
  }

  lemma RemainderOfProduct(a: int, n: nat, m: nat)
    requires 0 < n && 0 < m && 0 < n * m
    ensures (a % (n * m)) % n == a % n
  {
    var q, r := a / (n * m), a % (n * m);
    assert a == (n * m) * q + r && r == n * (r / n) + r % n;
    assert (n * m) * q == n * (m * q);
    assert n * (m * q + r / n) == n * (m * q) + n * (r / n);
    QuotientIsUnique(a, n, m * q + r / n, r % n);
  }

  lemma {:induction false} Pow2Splits(j: nat, k: nat)
    requires k <= j
    ensures Pow2(j) == Pow2(k) * Pow2(j - k)
  {
    if j == k {
    } else {
      Pow2Splits(j - 1, k);
      assert Pow2(k) * (2 * Pow2(j - 1 - k)) == 2 * (Pow2(k) * Pow2(j - 1 - k));
    }
  }

  lemma HalfRemainder(a: nat, h: nat)
    requires 0 < h
    ensures a % (2 * h) == a % 2 + 2 * ((a / 2) % h)
  {
    var q, r := (a / 2) / h, (a / 2) % h;
    assert (2 * h) * q == 2 * (h * q);
    QuotientIsUnique(a, 2 * h, q, a % 2 + 2 * r);
  }

  lemma {:induction false} AndZero(a: nat)
    ensures And(a, 0) == 0
  {
    if a == 0 {
    } else {
      AndZero(a / 2);
    }
  }

  lemma {:induction false} MaskIsRemainder(a: nat, k: nat)
    ensures And(a, Pow2(k) - 1) == a % Pow2(k)
  {
    if k == 0 {
      AndZero(a);
    } else if a == 0 {
    } else {
      var h := Pow2(k - 1);
      MaskIsRemainder(a / 2, k - 1);
      HalfRemainder(a, h);
      assert (2 * h - 1) / 2 == h - 1 && (2 * h - 1) % 2 == 1;
    }
  }

  // The key is converted to 64 bits, so this holds of negative keys too, for every table size that
  // is a power of two.
  lemma MaskIsBucket(key: Key, k: nat)
    requires k <= 64
    ensures And(key % Pow2(64), Pow2(k) - 1) == Bucket(key, Pow2(k))
  {
    Pow2Splits(64, k);
    MaskIsRemainder(key % Pow2(64), k);
    RemainderOfProduct(key, Pow2(k), Pow2(64 - k));
  }
}
