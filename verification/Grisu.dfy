/** The shortest-digits printer of jsdtoa.c (Grisu2). Every 64-bit value is checked to stay in
    range; shifts and masks are written as divisions and remainders by powers of two. */
module Grisu {

  type u64 = x: int | 0 <= x < 0x1_0000_0000_0000_0000

  type u32 = x: int | 0 <= x < 0x1_0000_0000

  const TWO32: int := 0x1_0000_0000
  const TWO63: int := 0x8000_0000_0000_0000
  const TWO64: int := 0x1_0000_0000_0000_0000

  /** f * 2^e */
  datatype Diy = Diy(f: u64, e: int)

  // ----- powers -----

  function Pow2(k: nat): (p: int)
    ensures p >= 1
  {
    if k == 0 then 1 else 2 * Pow2(k - 1)
  }

  function Pow10(k: nat): (p: int)
    ensures p >= 1
  {
    if k == 0 then 1 else 10 * Pow10(k - 1)
  }

  lemma {:induction false} Pow2Add(j: nat, k: nat)
    ensures Pow2(j + k) == Pow2(j) * Pow2(k)
    decreases j
  {
    if j > 0 { Pow2Add(j - 1, k); }
  }

  lemma {:induction false} Pow2Values()
    ensures Pow2(9) == 512 && Pow2(10) == 1024 && Pow2(52) == 0x10_0000_0000_0000 && Pow2(53) == 0x20_0000_0000_0000
    ensures Pow2(56) == 0x100_0000_0000_0000 && Pow2(57) == 0x200_0000_0000_0000
    ensures Pow2(58) == 0x400_0000_0000_0000 && Pow2(59) == 0x800_0000_0000_0000
  {
    Pow2Eight(0); Pow2Eight(8); Pow2Eight(16); Pow2Eight(24); Pow2Eight(32); Pow2Eight(40); Pow2Eight(48);
    assert Pow2(0) == 1;
    Pow2Few(8); Pow2Few(48); Pow2Few(56);
  }

  lemma {:induction false} Pow2Eight(k: nat)
    ensures Pow2(k + 8) == 256 * Pow2(k)
  {
    Pow2Few(k);
    Pow2Few(k + 4);
  }

  lemma {:induction false} Pow2Few(k: nat)
    ensures Pow2(k + 1) == 2 * Pow2(k) && Pow2(k + 2) == 4 * Pow2(k) && Pow2(k + 3) == 8 * Pow2(k)
    ensures Pow2(k + 4) == 16 * Pow2(k) && Pow2(k + 5) == 32 * Pow2(k)
  {
    assert Pow2(k + 3) == 2 * Pow2(k + 2);
    assert Pow2(k + 5) == 2 * Pow2(k + 4);
  }

  // ----- multiplication -----

  /** `multiply`: the upper 64 bits of the product, rounded, from four 32-bit products. */
  method Multiply(x: Diy, y: Diy) returns (r: Diy)
    ensures r == Product(x, y)
  {
    var a: u64, b: u64 := x.f / TWO32, x.f % TWO32;
    var c: u64, d: u64 := y.f / TWO32, y.f % TWO32;
    Small(a, c); Small(b, c); Small(a, d); Small(b, d);
    var ac: u64, bc: u64, ad: u64, bd: u64 := a * c, b * c, a * d, b * d;
    var tmp: u64 := bd / TWO32 + ad % TWO32 + bc % TWO32;
    tmp := tmp + 0x8000_0000;
    Carried(x.f, y.f, a, b, c, d);
    ProductFits(x.f, y.f);
    var f: u64 := ac + ad / TWO32 + bc / TWO32 + tmp / TWO32;
    r := Diy(f, x.e + y.e + 64);
  }

  function Rounded(x: u64, y: u64): int {
    (x * y + TWO63) / TWO64
  }

  lemma {:induction false} ProductFits(x: u64, y: u64)
    ensures 0 <= Rounded(x, y) < TWO64
  {
    MulBound(x, y, TWO64 - 1);
  }

  function Product(x: Diy, y: Diy): Diy {
    ProductFits(x.f, y.f);
    Diy(Rounded(x.f, y.f), x.e + y.e + 64)
  }

  lemma {:induction false} Small(a: int, c: int)
    requires 0 <= a < TWO32 && 0 <= c < TWO32
    ensures 0 <= a * c <= (TWO32 - 1) * (TWO32 - 1)
  {
    MulBound(a, c, TWO32 - 1);
  }

  lemma {:induction false} MulBound(a: int, c: int, m: int)
    requires 0 <= a <= m && 0 <= c <= m
    ensures 0 <= a * c <= m * m
  {
    assert m * m - a * c == (m - a) * c + m * (m - c);
    MulNonNegative(a, c);
    MulNonNegative(m - a, c);
    MulNonNegative(m, m - c);
  }

  lemma {:induction false} MulMonotone(a: int, b: int, c: int)
    requires a <= b && 0 <= c
    ensures a * c <= b * c
  {
    MulNonNegative(b - a, c);
  }

  lemma {:induction false} MulNonNegative(a: int, c: int)
    requires 0 <= a && 0 <= c
    ensures 0 <= a * c
  {
  }

  /** The carries of the partial products add up to the rounded upper half. */
  lemma {:induction false} Carried(x: int, y: int, a: int, b: int, c: int, d: int)
    requires x == a * TWO32 + b && y == c * TWO32 + d
    ensures var tmp := (b * d) / TWO32 + (a * d) % TWO32 + (b * c) % TWO32 + 0x8000_0000;
      (x * y + TWO63) / TWO64 == a * c + (a * d) / TWO32 + (b * c) / TWO32 + tmp / TWO32
  {
    var ac, ad, bc, bd := a * c, a * d, b * c, b * d;
    assert x * y == ac * TWO64 + (ad + bc) * TWO32 + bd by {
      assert x * y == (a * TWO32 + b) * (c * TWO32 + d) == a * c * (TWO32 * TWO32) + a * d * TWO32 + b * c * TWO32
        + b * d;
    }
    UpperHalf(ac, ad, bc, bd);
  }

  lemma {:induction false} UpperHalf(ac: int, ad: int, bc: int, bd: int)
    ensures (ac * TWO64 + (ad + bc) * TWO32 + bd + TWO63) / TWO64
      == ac + ad / TWO32 + bc / TWO32 + (bd / TWO32 + ad % TWO32 + bc % TWO32 + 0x8000_0000) / TWO32
  {
    var q1, r1, q2, r2, q3, r3 := ad / TWO32, ad % TWO32, bc / TWO32, bc % TWO32, bd / TWO32, bd % TWO32;
    var tmp := q3 + r1 + r2 + 0x8000_0000;
    var q4, r4 := tmp / TWO32, tmp % TWO32;
    var q := ac + q1 + q2 + q4;
    assert ac * TWO64 + (ad + bc) * TWO32 + bd + TWO63 == q * TWO64 + (r4 * TWO32 + r3);
  }

  // ----- digits -----

  function Number(ds: seq<int>): int {
    if ds == [] then 0 else 10 * Number(ds[..|ds| - 1]) + ds[|ds| - 1]
  }

  /** A digit is written unless it is a leading zero; the number is the same. */
  lemma {:induction false} Written(ds: seq<int>, d: int)
    ensures Number(if d != 0 || ds != [] then ds + [d] else ds) == 10 * Number(ds) + d
  {
    assert (ds + [d])[..|ds|] == ds;
  }

  /** digits * 10^kappa, in units of 2^e, is within delta below mp. For a negative kappa both sides
      are scaled up. */
  ghost predicate Within(n: int, kappa: int, mp: int, delta: int, one: int) {
    if kappa >= 0 then mp - delta <= n * Pow10(kappa) * one <= mp
    else (mp - delta) * Pow10(-kappa) <= n * one <= mp * Pow10(-kappa)
  }

  /** x << k, x >> k and x & (2^k - 1), where one is 2^k. */
  function Shl(x: int, one: int): int {
    x * one
  }

  function Shr(x: int, one: int): int
    requires one >= 1
  {
    x / one
  }

  function Mask(x: int, one: int): int
    requires one >= 1
  {
    x % one
  }

  /** n are the digits so far, p1 and p2 what is left of the integer part and the fraction. */
  ghost predicate Left(n: int, kappa: nat, p1: int, one: int, p2: int, mp: int) {
    mp == (n * Pow10(kappa) + p1) * one + p2 && 0 <= p1 < Pow10(kappa) && 0 <= p2 < one && 0 <= Shl(p1, one) + p2 <= mp
  }

  /** `digit_gen`: first the digits of the integer part, then those of the fraction, until what is
      left is at most delta. The digits stand for a number times 10^kappa. */
  method DigitGen(mp: u64, e: int, delta: u64) returns (buffer: seq<int>, kappa: int)
    requires -59 <= e <= -56
    ensures Within(Number(buffer), kappa, mp, delta, Pow2(-e))
    ensures forall d | d in buffer :: 0 <= d <= 9
    ensures kappa <= 2 && |buffer| <= 3 + (if kappa < 0 then -kappa else 0)
    ensures delta >= 766 ==> |buffer| <= 18
  {
    hide Pow2, Pow10, Number, Within, Left, Shl, Shr, Mask;
    Pow2Values();
    Powers10();
    NumberEmpty();
    var one: u64 := Pow2(-e);
    Halves(mp, one);
    var p1: u32, p2: u64 := Shr(mp, one), Mask(mp, one);
    buffer, kappa := [], 3;
    var div: u32 := 100;
    while kappa > 0
      invariant 0 <= kappa <= 3 && (kappa > 0 ==> div == Pow10(kappa - 1))
        && Left(Number(buffer), kappa, p1, one, p2, mp)
      invariant (forall d | d in buffer :: 0 <= d <= 9) && |buffer| <= 3 - kappa
        && (kappa < 3 ==> delta < Shl(p1, one) + p2)
    {
      NextDigit(Number(buffer), kappa, p1, one, p2, mp);
      var d := p1 / div;
      Written(buffer, d);
      if d != 0 || buffer != [] { buffer := buffer + [d]; }
      p1 := p1 % div;
      kappa := kappa - 1;
      div := div / 10;
      LeftFits(Number(buffer), kappa, p1, one, p2, mp);
      var rest: u64 := Shl(p1, one) + p2;
      if rest <= delta {
        EndsWhole(Number(buffer), kappa, mp, delta, one, p1, p2);
        return;
      }
    }
    NothingWhole(Number(buffer), p1, one, p2, mp);
    buffer, kappa := Fraction(buffer, -e, p2, delta, mp);
  }

  lemma {:induction false} Halves(mp: u64, one: int)
    requires 0x100_0000_0000_0000 <= one
    ensures 0 <= Shr(mp, one) < 256 && 0 <= Mask(mp, one) < one && Left(0, 3, Shr(mp, one), one, Mask(mp, one), mp)
  {
    var q := mp / one;
    assert q >= 256 ==> q * one >= 256 * one;
    Powers10();
    MulNonNegative(q, one);
  }

  lemma {:induction false} LeftFits(n: int, kappa: nat, p1: int, one: int, p2: int, mp: int)
    requires Left(n, kappa, p1, one, p2, mp)
    ensures 0 <= Shl(p1, one) + p2 <= mp && 0 <= p2 < one
  {
  }

  lemma {:induction false} NothingWhole(n: int, p1: int, one: int, p2: int, mp: int)
    requires Left(n, 0, p1, one, p2, mp)
    ensures mp == n * one + p2 && Shl(p1, one) == 0 && 0 <= p2 < one
  {
  }

  /** The topmost digit of p1, in units of 10^(kappa - 1). */
  lemma {:induction false} NextDigit(n: int, kappa: nat, p1: int, one: int, p2: int, mp: int)
    requires 0 < kappa <= 3 && Left(n, kappa, p1, one, p2, mp) && one >= 1
    ensures var div := Pow10(kappa - 1);
      0 <= p1 / div <= 9 && 0 <= p1 % div <= p1 && Left(10 * n + p1 / div, kappa - 1, p1 % div, one, p2, mp)
    ensures kappa > 1 ==> Pow10(kappa - 1) / 10 == Pow10(kappa - 2)
  {
    var div := Pow10(kappa - 1);
    assert Pow10(kappa) == 10 * div;
    var q, r := p1 / div, p1 % div;
    Tenth(p1, div);
    Split(n, q, r, div);
    MulMonotone(r, p1, one);
    MulNonNegative(r, one);
  }

  lemma {:induction false} Tenth(p: int, div: int)
    requires 1 <= div && 0 <= p < 10 * div
    ensures p == p / div * div + p % div && 0 <= p / div <= 9 && 0 <= p % div < div && p % div <= p
  {
    var q := p / div;
    if q >= 10 { MulMonotone(10, q, div); }
    MulNonNegative(q, div);
  }

  lemma {:induction false} Split(n: int, q: int, r: int, div: int)
    ensures n * (10 * div) + (q * div + r) == (10 * n + q) * div + r
  {
  }

  lemma {:induction false} Powers10()
    ensures Pow10(0) == 1 && Pow10(1) == 10 && Pow10(2) == 100 && Pow10(3) == 1000
  {
  }

  lemma {:induction false} NumberEmpty()
    ensures Number([]) == 0
  {
  }

  lemma {:induction false} EndsWhole(n: int, kappa: nat, mp: int, delta: int, one: int, p1: int, p2: int)
    requires Left(n, kappa, p1, one, p2, mp) && Shl(p1, one) + p2 <= delta
    ensures Within(n, kappa, mp, delta, one)
  {
    assert (n * Pow10(kappa) + p1) * one == n * Pow10(kappa) * one + p1 * one;
  }

  // ----- the digits of the fraction -----

  /** After r rounds: the number scaled by 10^r, and a fraction that is a multiple of 2^r. */
  ghost predicate Scaled(n: int, mp: int, j: nat, p2: int, delta0: int, delta: int, r: nat) {
    && mp * Pow10(r) == n * Pow2(j) + p2 && delta == delta0 * Pow10(r)
    && 0 <= p2 < Pow2(j) && p2 % Pow2(r) == 0
  }

  /** The fraction gains a factor of two in every round, so it vanishes in the end, even if delta
      is zero. */
  method Fraction(buffer0: seq<int>, j: nat, fraction: u64, delta0: u64, ghost mp: int)
    returns (buffer: seq<int>, kappa: int)
    requires 56 <= j <= 59 && delta0 < fraction < Pow2(j) && mp == Number(buffer0) * Pow2(j) + fraction
    requires forall d | d in buffer0 :: 0 <= d <= 9
    ensures kappa < 0 && Within(Number(buffer), kappa, mp, delta0, Pow2(j))
    ensures forall d | d in buffer :: 0 <= d <= 9
    ensures |buffer| <= |buffer0| - kappa && (delta0 >= 766 ==> -kappa <= 15)
  {
    hide Pow2, Pow10, Number, Within, Scaled, Shr, Mask;
    Pow2Values();
    var one: u64 := Pow2(j);
    var p2: u64, delta: u64 := fraction, delta0;
    buffer, kappa := buffer0, 0;
    ghost var r := 0;
    Start(Number(buffer), mp, j, fraction, delta0);
    while p2 > delta
      invariant kappa == -r && 0 <= r <= j && 0 <= p2 < one && Scaled(Number(buffer), mp, j, p2, delta0, delta, r)
      invariant (forall d | d in buffer :: 0 <= d <= 9) && |buffer| <= |buffer0| + r
      invariant (r == 0 ==> p2 > delta) && (delta0 >= 766 ==> r <= 15)
      decreases j - r
    {
      if r == j { Vanished(Number(buffer), mp, j, p2, delta0, delta); }
      if delta0 >= 766 { FewRounds(Number(buffer), mp, j, p2, delta0, delta, r); }
      NextRound(Number(buffer), mp, j, p2, delta0, delta, r);
      p2 := p2 * 10;
      var d := Shr(p2, one);
      Written(buffer, d);
      if d != 0 || buffer != [] { buffer := buffer + [d]; }
      p2 := Mask(p2, one);
      kappa := kappa - 1;
      delta := delta * 10;
      r := r + 1;
    }
    EndsFraction(Number(buffer), r, mp, delta0, delta, j, p2);
  }

  lemma {:induction false} Start(n: int, mp: int, j: nat, p2: int, delta: int)
    requires mp == n * Pow2(j) + p2 && 0 <= p2 < Pow2(j)
    ensures Scaled(n, mp, j, p2, delta, delta, 0)
  {
  }

  lemma {:induction false} Vanished(n: int, mp: int, j: nat, p2: int, delta0: int, delta: int)
    requires Scaled(n, mp, j, p2, delta0, delta, j)
    ensures p2 == 0
  {
    var m := Pow2(j);
    var q := p2 / m;
    assert p2 == q * m;
    assert q >= 1 ==> q * m >= m;
    assert q <= -1 ==> q * m <= -m;
  }

  lemma {:induction false} FewRounds(n: int, mp: int, j: nat, p2: int, delta0: int, delta: int, r: nat)
    requires Scaled(n, mp, j, p2, delta0, delta, r) && delta0 >= 766 && delta < p2 < 0x800_0000_0000_0000
    ensures r <= 14
  {
    hide Pow10;
    Pow10Fifteen();
    MulMonotone(766, delta0, Pow10(r));
    if r >= 15 { Pow10Grows(15, r); }
  }

  lemma {:induction false} Pow10Grows(j: nat, k: nat)
    requires j <= k
    ensures Pow10(j) <= Pow10(k)
    decreases k
  {
    if j < k { Pow10Grows(j, k - 1); }
  }

  lemma {:induction false} Pow10Fifteen()
    ensures Pow10(15) == 1000000000000000
  {
    Powers10();
    assert Pow10(5) == 100 * Pow10(3) && Pow10(7) == 100 * Pow10(5) && Pow10(9) == 100 * Pow10(7);
    assert Pow10(11) == 100 * Pow10(9) && Pow10(13) == 100 * Pow10(11) && Pow10(15) == 100 * Pow10(13);
  }

  lemma {:induction false} NextRound(n: int, mp: int, j: nat, p2: int, delta0: int, delta: int, r: nat)
    requires Scaled(n, mp, j, p2, delta0, delta, r) && r < j
    ensures 0 <= Shr(p2 * 10, Pow2(j)) <= 9 && 0 <= Mask(p2 * 10, Pow2(j)) < Pow2(j)
    ensures Scaled(10 * n + Shr(p2 * 10, Pow2(j)), mp, j, Mask(p2 * 10, Pow2(j)), delta0, delta * 10, r + 1)
  {
    hide Pow2, Pow10;
    var one := Pow2(j);
    Doubled(p2, r, j);
    Ten1(r);
    Tenth(p2 * 10, one);
    TenTimes(n, p2 * 10 / one, one, mp, delta0, Pow10(r));
  }

  lemma {:induction false} Ten1(r: nat)
    ensures Pow10(r + 1) == 10 * Pow10(r)
  {
  }

  lemma {:induction false} TenTimes(n: int, q: int, one: int, mp: int, delta0: int, p: int)
    ensures (10 * n + q) * one == 10 * (n * one) + q * one
    ensures mp * (10 * p) == 10 * (mp * p) && delta0 * (10 * p) == 10 * (delta0 * p)
  {
  }

  /** Ten times a multiple of 2^r, modulo 2^j, is a multiple of 2^(r+1). */
  lemma {:induction false} Doubled(p2: int, r: nat, j: nat)
    requires 0 <= p2 && r < j && p2 % Pow2(r) == 0
    ensures (p2 * 10 % Pow2(j)) % Pow2(r + 1) == 0
  {
    var a, b := Pow2(r + 1), Pow2(j - r - 1);
    Pow2Add(r + 1, j - r - 1);
    var k := p2 / Pow2(r);
    assert p2 == k * Pow2(r);
    assert p2 * 10 == 5 * k * a;
    ModMultiple(5 * k, a, b);
  }

  lemma {:induction false} ModMultiple(k: int, a: int, b: int)
    requires a >= 1 && b >= 1
    ensures a * b >= 1 && (k * a % (a * b)) % a == 0
  {
    MulNonNegative(a - 1, b - 1);
    assert a * b == (a - 1) * (b - 1) + a + b - 1;
    var q := k * a / (a * b);
    assert k * a % (a * b) == k * a - q * (a * b) == (k - q * b) * a;
    ModZero(k - q * b, a);
  }

  lemma {:induction false} ModZero(k: int, a: int)
    requires a >= 1
    ensures k * a % a == 0
  {
    var q, r := k * a / a, k * a % a;
    assert (k - q) * a == r;
    assert k - q >= 1 ==> (k - q) * a >= a;
    assert k - q <= -1 ==> (k - q) * a <= -a;
  }

  lemma {:induction false} EndsFraction(n: int, r: nat, mp: int, delta0: int, delta: int, j: nat, p2: int)
    requires 0 < r && Scaled(n, mp, j, p2, delta0, delta, r) && p2 <= delta
    ensures Within(n, 0 - r, mp, delta0, Pow2(j))
  {
    assert (mp - delta0) * Pow10(r) == mp * Pow10(r) - delta0 * Pow10(r);
  }

  // ----- boundaries -----

  const HIDDEN_BIT: int := 0x10_0000_0000_0000
  const MIN_EXPONENT: int := -1074

  /** The value of a positive double, as `double2diy_fp` unpacks it. */
  predicate IsDouble(v: Diy) {
    (HIDDEN_BIT <= v.f < 2 * HIDDEN_BIT && MIN_EXPONENT <= v.e) || (0 < v.f < HIDDEN_BIT && v.e == MIN_EXPONENT)
  }

  /** y is x with its significand moved k places to the left. */
  predicate Moved(x: Diy, y: Diy, k: nat) {
    y.f == x.f * Pow2(k) && y.e == x.e - k
  }

  /** `normalize_boundary` */
  method NormalizeBoundary(x: Diy) returns (r: Diy, ghost k: nat)
    requires 0 < x.f < 4 * HIDDEN_BIT
    ensures Moved(x, r, k + 10) && TWO63 <= r.f < TWO64
  {
    hide Pow2;
    Pow2Values();
    var f: u64, e := x.f, x.e;
    k := 0;
    Zero();
    while f < 2 * HIDDEN_BIT
      invariant 0 < f < 4 * HIDDEN_BIT && f == x.f * Pow2(k) && e == x.e - k
      decreases 4 * HIDDEN_BIT - f
    {
      MoveOne(x.f, k);
      f, e, k := 2 * f, e - 1, k + 1;
    }
    MoveTen(x.f, k);
    r := Diy(1024 * f, e - 10);
  }

  lemma {:induction false} Zero()
    ensures Pow2(0) == 1
  {
  }

  lemma {:induction false} MoveOne(f: int, k: nat)
    ensures f * Pow2(k + 1) == 2 * (f * Pow2(k))
  {
  }

  lemma {:induction false} MoveTen(f: int, k: nat)
    ensures f * Pow2(k + 10) == 1024 * (f * Pow2(k))
  {
    hide Pow2;
    Pow2Values();
    Pow2Add(k, 10);
    assert f * (Pow2(k) * 1024) == 1024 * (f * Pow2(k));
  }

  /** The midpoints to the neighbours, unnormalized: for the smallest significand of a binade the
      lower neighbour is only half as far away. */
  function Upper(v: Diy): Diy
    requires IsDouble(v)
  {
    Diy(2 * v.f + 1, v.e - 1)
  }

  function Lower(v: Diy): Diy
    requires IsDouble(v)
  {
    if v.f == HIDDEN_BIT then Diy(4 * v.f - 1, v.e - 2) else Diy(2 * v.f - 1, v.e - 1)
  }

  /** `normalized_boundaries` */
  method NormalizedBoundaries(v: Diy) returns (minus: Diy, plus: Diy, ghost k: nat, ghost l: nat)
    requires IsDouble(v)
    ensures Moved(Upper(v), plus, k) && Moved(Lower(v), minus, l) && minus.e == plus.e && TWO63 <= plus.f
    ensures minus.f + 1536 <= plus.f
  {
    hide Pow2;
    Pow2Values();
    plus, k := NormalizeBoundary(Diy(2 * v.f + 1, v.e - 1));
    k := k + 10;
    var m := if v.f == HIDDEN_BIT then Diy(4 * v.f - 1, v.e - 2) else Diy(2 * v.f - 1, v.e - 1);
    Aligned(v, k);
    var shift: nat := m.e - plus.e;
    l := shift;
    var f: u64 := m.f * Pow2(shift);
    minus := Diy(f, plus.e);
  }

  /** The lower boundary, moved to the exponent of the upper one, stays well below it. */
  lemma {:induction false} Aligned(v: Diy, k: nat)
    requires IsDouble(v) && k >= 10
    ensures v.f == HIDDEN_BIT ==>
      0 <= (4 * v.f - 1) * Pow2(k - 1) && (4 * v.f - 1) * Pow2(k - 1) + 1536 <= (2 * v.f + 1) * Pow2(k)
    ensures v.f != HIDDEN_BIT ==>
      0 <= (2 * v.f - 1) * Pow2(k) && (2 * v.f - 1) * Pow2(k) + 1536 <= (2 * v.f + 1) * Pow2(k)
  {
    hide Pow2;
    Pow2Values();
    Pow2Add(9, k - 10);
    Pow2Few(k - 1);
    var p := Pow2(k - 1);
    assert p >= 512 by { MulMonotone(1, Pow2(k - 10), 512); }
    assert Pow2(k) == 2 * p;
    assert (2 * v.f + 1) * (2 * p) - (4 * v.f - 1) * p == 3 * p;
    assert (2 * v.f + 1) * (2 * p) - (2 * v.f - 1) * (2 * p) == 4 * p;
    MulNonNegative(4 * v.f - 1, p);
    MulNonNegative(2 * v.f - 1, 2 * p);
  }

  // ----- values -----

  ghost function Two(k: int): real {
    if k >= 0 then Pow2(k) as real else 1.0 / Pow2(-k) as real
  }

  ghost function Ten(k: int): real {
    if k >= 0 then Pow10(k) as real else 1.0 / Pow10(-k) as real
  }

  ghost function Value(x: Diy): real {
    x.f as real * Two(x.e)
  }

  lemma {:induction false} TwoNext(k: int)
    ensures Two(k + 1) == 2.0 * Two(k) && Two(k) > 0.0
  {
    if k < 0 {
      assert Pow2(-k) == 2 * Pow2(-k - 1);
      var p := Pow2(-k - 1) as real;
      assert 1.0 / p == 2.0 * (1.0 / (2.0 * p));
    }
  }

  lemma {:induction false} TenNext(k: int)
    ensures Ten(k + 1) == 10.0 * Ten(k) && Ten(k) > 0.0
  {
    if k < 0 {
      assert Pow10(-k) == 10 * Pow10(-k - 1);
      var p := Pow10(-k - 1) as real;
      assert 1.0 / p == 10.0 * (1.0 / (10.0 * p));
    }
  }

  lemma {:induction false} Units()
    ensures Two(0) == 1.0 && Ten(0) == 1.0
  {
  }

  lemma {:induction false} Assoc(a: real, b: real, c: real)
    ensures c * (a * b) == a * (c * b) && a * b * c == a * (b * c)
  {
  }

  lemma {:induction false} TwoSum(j: int, k: int)
    ensures Two(j + k) == Two(j) * Two(k)
    decreases if k < 0 then -k else k
  {
    hide Two, Ten;
    Units();
    if k > 0 {
      TwoSum(j, k - 1);
      TwoNext(j + k - 1);
      TwoNext(k - 1);
      Assoc(Two(j), Two(k - 1), 2.0);
    } else if k < 0 {
      TwoSum(j, k + 1);
      TwoNext(j + k);
      TwoNext(k);
      Assoc(Two(j), Two(k), 2.0);
    }
  }

  lemma {:induction false} TenSum(j: int, k: int)
    ensures Ten(j + k) == Ten(j) * Ten(k) && Ten(j) > 0.0
    decreases if k < 0 then -k else k
  {
    hide Two, Ten;
    Units();
    TenNext(j);
    if k > 0 {
      TenSum(j, k - 1);
      TenNext(j + k - 1);
      TenNext(k - 1);
      Assoc(Ten(j), Ten(k - 1), 10.0);
    } else if k < 0 {
      TenSum(j, k + 1);
      TenNext(j + k);
      TenNext(k);
      Assoc(Ten(j), Ten(k), 10.0);
    }
  }

  lemma {:induction false} TwoAdd(j: int, k: nat)
    ensures Two(j + k) == Two(j) * Pow2(k) as real
  {
    hide Two;
    TwoSum(j, k);
    TwoNat(k);
  }

  lemma {:induction false} TwoNat(k: nat)
    ensures Two(k) == Pow2(k) as real
  {
  }

  lemma {:induction false} MovedValue(x: Diy, y: Diy, k: nat)
    requires Moved(x, y, k)
    ensures Value(y) == Value(x)
  {
    hide Two, Pow2;
    TwoAdd(y.e, k);
    var p, t := Pow2(k) as real, Two(y.e);
    assert y.f as real == x.f as real * p;
    Assoc(x.f as real, p, t);
    assert t * p == p * t;
  }

  // ----- neighbours -----

  function Successor(v: Diy): Diy
    requires IsDouble(v)
  {
    if v.f == 2 * HIDDEN_BIT - 1 then Diy(HIDDEN_BIT, v.e + 1) else Diy(v.f + 1, v.e)
  }

  function Predecessor(v: Diy): Diy
    requires IsDouble(v)
  {
    if v.f == HIDDEN_BIT && v.e > MIN_EXPONENT then Diy(2 * HIDDEN_BIT - 1, v.e - 1) else Diy(v.f - 1, v.e)
  }

  /** The upper boundary is the midpoint to the next double. The lower one is the midpoint to the
      one before, but for the smallest normal double, for which it lies nearer. */
  lemma {:induction false} BoundariesAreMidpoints(v: Diy)
    requires IsDouble(v)
    ensures 2.0 * Value(Upper(v)) == Value(v) + Value(Successor(v))
    ensures 2.0 * Value(Lower(v)) == Value(v) + Value(Predecessor(v)) <==> v != Diy(HIDDEN_BIT, MIN_EXPONENT)
    ensures Value(v) + Value(Predecessor(v)) <= 2.0 * Value(Lower(v)) < 2.0 * Value(v)
  {
    hide Two;
    var t := Two(v.e - 2);
    TwoNext(v.e - 2);
    TwoNext(v.e - 1);
    TwoNext(v.e);
    var f := v.f as real;
    var g := f * t;
    Spread(f, 1.0, 0.0, 4.0, t);
    Spread(f, 2.0, 1.0, 2.0, t);
    Spread(f, 2.0, -1.0, 2.0, t);
    Spread(f, 4.0, -1.0, 1.0, t);
    Spread(f, 1.0, 1.0, 4.0, t);
    Spread(f, 1.0, -1.0, 4.0, t);
    assert Value(v) == 4.0 * g && Value(Upper(v)) == 4.0 * g + 2.0 * t;
    SuccessorValue(v, t);
    PredecessorValue(v, t);
    if v.f == HIDDEN_BIT {
      assert Value(Lower(v)) == 4.0 * g - t;
    } else {
      assert Value(Lower(v)) == 4.0 * g - 2.0 * t;
    }
  }

  lemma {:induction false} Spread(f: real, a: real, b: real, k: real, t: real)
    ensures (a * f + b) * (k * t) == a * k * (f * t) + b * k * t
  {
  }

  lemma {:induction false} SuccessorValue(v: Diy, t: real)
    requires IsDouble(v) && t == Two(v.e - 2)
    ensures Value(Successor(v)) == 4.0 * (v.f as real * t) + 4.0 * t
  {
    hide Two;
    TwoNext(v.e - 2);
    TwoNext(v.e - 1);
    TwoNext(v.e);
    Spread(v.f as real, 1.0, 1.0, 4.0, t);
    if v.f == 2 * HIDDEN_BIT - 1 {
      assert v.f as real == 9007199254740991.0;
    }
  }

  lemma {:induction false} PredecessorValue(v: Diy, t: real)
    requires IsDouble(v) && t == Two(v.e - 2)
    ensures Value(Predecessor(v)) == 4.0 * (v.f as real * t) - if v.f == HIDDEN_BIT && v.e > MIN_EXPONENT then 2.0 * t
      else 4.0 * t
  {
    hide Two;
    TwoNext(v.e - 2);
    TwoNext(v.e - 1);
    Spread(v.f as real, 1.0, -1.0, 4.0, t);
    if v.f == HIDDEN_BIT {
      assert v.f as real == 4503599627370496.0;
    }
  }
}
