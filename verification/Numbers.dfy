/**
 Machine-integer ranges and the small amount of non-linear arithmetic that the
 other modules need.  Everything else in the project keeps products behind
 `Notional`, so that the solver never has to multiply two unknowns by itself.
 */
module Numbers {
  const TWO64: int := 0x1_0000_0000_0000_0000
  const TWO128: int := 0x1_0000_0000_0000_0000_0000_0000_0000_0000

  type u64 = x: int | 0 <= x < 0x1_0000_0000_0000_0000
  type u128 = x: int | 0 <= x < 0x1_0000_0000_0000_0000_0000_0000_0000_0000

  predicate FitsU64(x: int) {
    0 <= x < TWO64
  }

  /** 64-bit arithmetic of the release build: the result modulo 2^64. */
  function Wrap(x: int): (r: u64)
    ensures FitsU64(x) ==> r == x
  {
    x % TWO64
  }

  function Min(a: int, b: int): int {
    if a <= b then a else b
  }

  /** Quotient, 0 for a zero divisor: no reachable state divides by zero, where the program would stop. */
  function Quot(a: int, b: int): int {
    if b == 0 then 0 else a / b
  }

  /** `lots * price * lotSize`: the native size of `lots` lots at `price`. */
  function Notional(lots: int, price: int, lotSize: int): int {
    lots * price * lotSize
  }

  lemma NotionalSplit(a: int, b: int, price: int, lotSize: int)
    ensures Notional(a + b, price, lotSize) == Notional(a, price, lotSize) + Notional(b, price, lotSize)
  {
    assert (a + b) * price == a * price + b * price;
    assert (a * price + b * price) * lotSize == a * price * lotSize + b * price * lotSize;
  }

  lemma ProductMonotone(a: int, b: int, k: int)
    requires a <= b && 0 <= k
    ensures a * k <= b * k
  {
  }

  lemma NotionalMonotone(a: int, b: int, price: int, lotSize: int)
    requires a <= b && 0 <= price && 0 <= lotSize
    ensures Notional(a, price, lotSize) <= Notional(b, price, lotSize)
  {
    ProductMonotone(a, b, price);
    ProductMonotone(a * price, b * price, lotSize);
  }

  lemma NotionalPositive(a: int, price: int, lotSize: int)
    requires 0 < price && 0 < lotSize
    ensures Notional(a, price, lotSize) > 0 <==> a > 0
    ensures Notional(a, price, lotSize) == 0 <==> a == 0
    ensures Notional(0, price, lotSize) == 0
    ensures a >= 0 ==> a * price <= Notional(a, price, lotSize) && a <= a * price
  {
    if a >= 1 {
      ProductMonotone(1, price, a);
      ProductMonotone(1, lotSize, a * price);
    } else if a <= -1 {
      ProductMonotone(a, -1, price);
      ProductMonotone(a * price, -1, lotSize);
    }
  }

  /** Flooring a quotient never gains: `(x / d) * d <= x`, and one more step would exceed it. */
  lemma FloorTimes(x: int, d: int)
    requires 0 <= x && 0 < d
    ensures 0 <= x / d && 0 <= (x / d) * d <= x < (x / d) * d + d
  {
    assert x == (x / d) * d + x % d;
    ProductMonotone(0, x / d, d);
  }

  /** Quotient and remainder are the only ones that fit. */
  lemma DivisionUnique(x: int, d: int, q: int, r: int)
    requires 0 <= r < d && x == q * d + r
    ensures x / d == q && x % d == r
  {
    var e := x / d;
    assert x == e * d + x % d && (e + 1) * d == e * d + d && (q + 1) * d == q * d + d;
    if e < q {
      ProductMonotone(e + 1, q, d);
    } else if q < e {
      ProductMonotone(q + 1, e, d);
    }
  }

  /** The numbers below `n`. */
  function Below(n: nat): (s: set<nat>)
    ensures forall i: nat :: i in s <==> i < n
    ensures |s| == n
  {
    if n == 0 then {} else Below(n - 1) + {n - 1}
  }

  /** The elements of a sequence without repetitions. */
  function Elements(s: seq<nat>): (e: set<nat>)
    ensures forall x :: x in e <==> x in s
  {
    if s == [] then {} else Elements(s[1..]) + {s[0]}
  }

  lemma {:induction false} DistinctCount(s: seq<nat>)
    requires forall i, j :: 0 <= i < j < |s| ==> s[i] != s[j]
    ensures |Elements(s)| == |s|
  {
    if s != [] {
      DistinctCount(s[1..]);
      assert s[0] !in Elements(s[1..]);
    }
  }

  lemma QuotientAtLeast(x: int, d: int, k: int)
    requires 0 <= x && 0 < d && k * d <= x
    ensures k <= x / d
  {
    FloorTimes(x, d);
    var n := x / d;
    assert (n + 1) * d == n * d + d;
    if n < k {
      ProductMonotone(n + 1, k, d);
    }
  }

  /** Funds of `k` lots buy at least `k` lots. */
  lemma LotsFloor(funds: int, p: int, lotSize: int, k: nat)
    requires 0 < p && 0 < lotSize && Notional(k, p, lotSize) <= funds
    ensures k <= funds / lotSize / p
  {
    NotionalPositive(k, p, lotSize);
    QuotientAtLeast(funds, lotSize, k * p);
    var lots := funds / lotSize;
    ProductMonotone(0, k, p);
    QuotientAtLeast(lots, p, k);
  }

  /** Funds below one lot buy nothing. */
  lemma LotsBelow(funds: nat, p: int, lotSize: int)
    requires 0 < p && 0 < lotSize && funds < Notional(1, p, lotSize)
    ensures funds / lotSize / p == 0
  {
    FloorTimes(funds, lotSize);
    var lots := funds / lotSize;
    FloorTimes(lots, p);
    var n := lots / p;
    if n >= 1 {
      ProductMonotone(1, n, p);
      ProductMonotone(p, lots, lotSize);
    }
  }

  lemma QuotientMonotone(a: int, b: int, d: int)
    requires 0 <= a <= b && 0 < d
    ensures 0 <= a / d <= b / d
  {
    FloorTimes(a, d);
    FloorTimes(b, d);
    var x, y := a / d, b / d;
    assert (y + 1) * d == y * d + d;
    if x > y {
      ProductMonotone(y + 1, x, d);
    }
  }

  // ----- arithmetic modulo 2^64 -----

  lemma WrapSum(x: int, d: int)
    ensures Wrap(Wrap(x) + d) == Wrap(x + d)
  {
    var k := x / TWO64;
    assert x + d == Wrap(x) + d + k * TWO64;
    SameResidue(Wrap(x) + d, k);
  }

  lemma SameResidue(y: int, k: int)
    ensures (y + k * TWO64) % TWO64 == y % TWO64
  {
  }

  lemma WrapMinus(x: int, y: int)
    ensures Wrap(x - Wrap(y)) == Wrap(x - y)
  {
    var k := y / TWO64;
    assert x - Wrap(y) == x - y + k * TWO64;
    SameResidue(x - y, k);
  }
}
