/**
 The bits of a 128-bit key, most significant first, as the crit-bit tree reads
 them: `Prefix(k, p)` is the number spelled by the first `p` bits and `Bit(k, p)`
 is the bit after them.
 */
module Bits {
  import opened Numbers

  function Pow2(n: nat): (r: nat)
    ensures r > 0
  {
    if n == 0 then 1 else 2 * Pow2(n - 1)
  }

  function Prefix(k: nat, p: nat): nat
    requires p <= 128
  {
    FloorTimes(k, Pow2(128 - p));
    k / Pow2(128 - p)
  }

  predicate Bit(k: nat, p: nat)
    requires p < 128
  {
    Prefix(k, p + 1) % 2 == 1
  }

  /** Leading zeros of `a ^ b`, counted from bit `p` on. */
  function SharedFrom(a: nat, b: nat, p: nat): (r: nat)
    requires p <= 128
    ensures p <= r <= 128
    decreases 128 - p
  {
    if p == 128 || Bit(a, p) != Bit(b, p) then p else SharedFrom(a, b, p + 1)
  }

  function SharedPrefixLen(a: nat, b: nat): (r: nat)
    ensures r <= 128
  {
    SharedFrom(a, b, 0)
  }

  lemma QuotientUnique(k: nat, d: nat, q: nat)
    requires d > 0 && q * d <= k < q * d + d
    ensures k / d == q
  {
    DivisionUnique(k, d, q, k - q * d);
  }

  lemma PrefixStep(k: nat, p: nat)
    requires p < 128
    ensures Prefix(k, p + 1) == 2 * Prefix(k, p) + (if Bit(k, p) then 1 else 0)
  {
    var d := Pow2(127 - p);
    assert Pow2(128 - p) == 2 * d;
    var q := k / d;
    FloorTimes(k, d);
    assert q * d == q / 2 * (2 * d) + q % 2 * d;
    ProductMonotone(q % 2, 1, d);
    QuotientUnique(k, 2 * d, q / 2);
  }

  lemma PrefixWhole(k: nat)
    ensures Prefix(k, 128) == k
    ensures k < TWO128 ==> Prefix(k, 0) == 0
  {
    Pow2Of128();
  }

  lemma Pow2Of128()
    ensures Pow2(128) == TWO128
  {
    assert Pow2(2) == 4;
    Pow2Square(2, 4);
    Pow2Square(4, 0x10);
    Pow2Square(8, 0x100);
    Pow2Square(16, 0x1_0000);
    Pow2Square(32, 0x1_0000_0000);
    Pow2Square(64, TWO64);
  }

  lemma Pow2Square(n: nat, v: nat)
    requires Pow2(n) == v
    ensures Pow2(2 * n) == v * v
  {
    Pow2Sum(n, n);
    hide Pow2;
  }

  lemma {:induction false} Pow2Sum(a: nat, b: nat)
    ensures Pow2(a + b) == Pow2(a) * Pow2(b)
  {
    if a > 0 {
      Pow2Sum(a - 1, b);
    }
  }

  /** Agreement on a prefix is agreement on every shorter prefix, and on the bits inside it. */
  lemma {:induction false} PrefixShorter(a: nat, b: nat, p: nat, q: nat)
    requires q <= p <= 128 && Prefix(a, p) == Prefix(b, p)
    ensures Prefix(a, q) == Prefix(b, q)
    ensures q < p ==> Bit(a, q) == Bit(b, q)
    decreases p - q
  {
    if q < p {
      PrefixShorter(a, b, p, q + 1);
      PrefixStep(a, q);
      PrefixStep(b, q);
    }
  }

  lemma {:induction false} SharedFromMeaning(a: nat, b: nat, p: nat)
    requires p <= 128 && Prefix(a, p) == Prefix(b, p)
    ensures var s := SharedFrom(a, b, p);
            Prefix(a, s) == Prefix(b, s) && (s < 128 ==> Bit(a, s) != Bit(b, s))
    decreases 128 - p
  {
    if p < 128 && Bit(a, p) == Bit(b, p) {
      PrefixStep(a, p);
      PrefixStep(b, p);
      SharedFromMeaning(a, b, p + 1);
    }
  }

  lemma SharedMeaning(a: nat, b: nat)
    requires a < TWO128 && b < TWO128
    ensures var s := SharedPrefixLen(a, b);
            Prefix(a, s) == Prefix(b, s) && (s < 128 ==> Bit(a, s) != Bit(b, s)) && (s == 128 <==> a == b)
  {
    PrefixWhole(a);
    PrefixWhole(b);
    SharedFromMeaning(a, b, 0);
  }

  /** Keys that first differ at a bit are ordered by that bit. */
  lemma CritBitOrders(a: nat, b: nat, p: nat)
    requires p < 128 && Prefix(a, p) == Prefix(b, p) && !Bit(a, p) && Bit(b, p)
    ensures a < b
  {
    PrefixStep(a, p);
    PrefixStep(b, p);
    if a >= b {
      QuotientMonotone(b, a, Pow2(127 - p));
    }
  }
}
