/** The choice of a cached power of ten for js_grisu2 (jsdtoa.c): the approximation of log10(2)
    in `k_comp` is good enough for every exponent of a double. */
module PowersOfTen {
  import opened Grisu

  /** D_1_LOG2_10 */
  const LOG: real := 0.30102999566398114

  /** `k_comp` for alpha == -59: n is alpha - e + 63. */
  function KComp(n: int): int {
    -((-(n as real * LOG)).Floor)
  }

  // ----- powers of powers -----

  ghost function Power(x: real, m: nat): real {
    if m == 0 then 1.0 else x * Power(x, m - 1)
  }

  lemma {:induction false} PowerGrows(x: real, y: real, m: nat)
    requires 0.0 < x <= y
    ensures 0.0 < Power(x, m) <= Power(y, m) && (x < y && m > 0 ==> Power(x, m) < Power(y, m))
  {
    if m > 0 {
      PowerGrows(x, y, m - 1);
      var p, q := Power(x, m - 1), Power(y, m - 1);
      Product2(x, y, p, q);
    }
  }

  lemma {:induction false} Product2(x: real, y: real, p: real, q: real)
    requires 0.0 < x <= y && 0.0 < p <= q
    ensures 0.0 < x * p <= y * q && (x < y ==> x * p < y * q)
  {
    assert x * p <= x * q <= y * q;
    if x < y { assert x * q < y * q; }
  }

  lemma {:induction false} TenPower(k: int, m: nat)
    ensures Ten(k * m) == Power(Ten(k), m) && Ten(k) > 0.0
  {
    hide Ten;
    TenNext(k);
    Units();
    if m > 0 {
      TenPower(k, m - 1);
      assert k * m == k + k * (m - 1);
      TenSum(k, k * (m - 1));
    } else {
      assert k * m == 0;
    }
  }

  lemma {:induction false} TwoPower(n: int, m: nat)
    ensures Two(n * m) == Power(Two(n), m) && Two(n) > 0.0
  {
    hide Two;
    TwoNext(n);
    Units();
    if m > 0 {
      TwoPower(n, m - 1);
      assert n * m == n + n * (m - 1);
      TwoSum(n, n * (m - 1));
    } else {
      assert n * m == 0;
    }
  }

  lemma {:induction false} TenGrows(j: int, k: int)
    requires j <= k
    ensures 0.0 < Ten(j) <= Ten(k)
    decreases k - j
  {
    hide Ten;
    TenNext(j);
    if j < k { TenGrows(j + 1, k); }
  }

  lemma {:induction false} TwoGrows(j: int, k: int)
    requires j <= k
    ensures 0.0 < Two(j) <= Two(k)
    decreases k - j
  {
    hide Two;
    TwoNext(j);
    if j < k { TwoGrows(j + 1, k); }
  }

  lemma {:induction false} Opposite(k: int)
    ensures Ten(k) * Ten(-k) == 1.0 && Two(k) * Two(-k) == 1.0 && Ten(k) > 0.0 && Two(k) > 0.0
  {
    hide Ten, Two;
    Units();
    TenSum(k, -k);
    TwoSum(k, -k);
    TwoNext(k);
  }

  /** a/b is at least the logarithm of two. */
  lemma {:induction false} FromAbove(a: nat, b: nat, k: int, n: nat)
    requires b > 0 && Two(b) <= Ten(a) && a * n <= b * k
    ensures Two(n) <= Ten(k)
  {
    hide Ten, Two;
    TenPower(k, b);
    TwoPower(n, b);
    TenPower(a, n);
    TwoPower(b, n);
    PowerGrows(Two(b), Ten(a), n);
    TenGrows(a * n, b * k);
    assert k * b == b * k && n * b == b * n;
    if Ten(k) < Two(n) { PowerGrows(Ten(k), Two(n), b); }
  }

  /** a/b is at most the logarithm of two. */
  lemma {:induction false} FromBelow(a: nat, b: nat, k: int, n: nat)
    requires b > 0 && Ten(a) <= Two(b) && b * k <= a * n
    ensures Ten(k) <= Two(n)
  {
    hide Ten, Two;
    TenPower(k, b);
    TwoPower(n, b);
    TenPower(a, n);
    TwoPower(b, n);
    PowerGrows(Ten(a), Two(b), n);
    TenGrows(b * k, a * n);
    assert k * b == b * k && n * b == b * n;
    if Two(n) < Ten(k) { PowerGrows(Two(n), Ten(k), b); }
  }

  // ----- two fractions close to the logarithm -----

  ghost predicate Low(m: nat, u: nat, s: nat) {
    u as real * Two(s) <= Ten(m)
  }

  ghost predicate High(m: nat, u: nat, s: nat) {
    Ten(m) <= u as real * Two(s)
  }

  lemma {:induction false} Parts(m1: nat, u1: nat, s1: nat, m2: nat, u2: nat, s2: nat, v: nat, j: nat)
    ensures Ten(m1 + m2) == Ten(m1) * Ten(m2) && Ten(m1) > 0.0 && Ten(m2) > 0.0 && Two(s1) > 0.0 && Two(s2) > 0.0
    ensures u1 as real * Two(s1) * (u2 as real * Two(s2)) == (u1 * u2) as real * (Two(s1) * Two(s2))
    ensures v as real * Two(s1 + s2 + j) == (v * Pow2(j)) as real * (Two(s1) * Two(s2))
  {
    hide Ten, Two, Pow2;
    TenSum(m1, m2);
    TenNext(m2);
    TwoNext(s1);
    TwoNext(s2);
    TwoSum(s1, s2);
    TwoAdd(s1 + s2, j);
    Regroup(u1 as real, Two(s1), u2 as real, Two(s2));
    assert (u1 * u2) as real == u1 as real * u2 as real;
    assert (v * Pow2(j)) as real == v as real * Pow2(j) as real;
    Regroup(v as real, Two(s1) * Two(s2), 1.0, Pow2(j) as real);
  }

  lemma {:induction false} Regroup(a: real, x: real, b: real, y: real)
    ensures a * x * (b * y) == a * b * (x * y) && a * (x * y) == a * y * x
  {
    assert a * x * (b * y) == a * (x * (b * y)) == a * (b * (x * y));
  }

  lemma {:induction false} LowProduct(m1: nat, u1: nat, s1: nat, m2: nat, u2: nat, s2: nat, v: nat, j: nat)
    requires Low(m1, u1, s1) && Low(m2, u2, s2) && v * Pow2(j) <= u1 * u2
    ensures Low(m1 + m2, v, s1 + s2 + j)
  {
    hide Ten, Two, Pow2;
    Parts(m1, u1, s1, m2, u2, s2, v, j);
    var x, y, t := u1 as real * Two(s1), u2 as real * Two(s2), Two(s1) * Two(s2);
    assert x * y <= Ten(m1) * Ten(m2) by {
      assert x * y <= Ten(m1) * y;
      assert Ten(m1) * y <= Ten(m1) * Ten(m2);
    }
    RealMul((v * Pow2(j)) as real, (u1 * u2) as real, t);
  }

  lemma {:induction false} HighProduct(m1: nat, u1: nat, s1: nat, m2: nat, u2: nat, s2: nat, v: nat, j: nat)
    requires High(m1, u1, s1) && High(m2, u2, s2) && u1 * u2 <= v * Pow2(j)
    ensures High(m1 + m2, v, s1 + s2 + j)
  {
    hide Ten, Two, Pow2;
    Parts(m1, u1, s1, m2, u2, s2, v, j);
    var x, y, t := u1 as real * Two(s1), u2 as real * Two(s2), Two(s1) * Two(s2);
    assert Ten(m1) * Ten(m2) <= x * y by {
      assert Ten(m1) * Ten(m2) <= x * Ten(m2);
      assert x * Ten(m2) <= x * y;
    }
    RealMul((u1 * u2) as real, (v * Pow2(j)) as real, t);
  }

  lemma {:induction false} RealMul(a: real, b: real, c: real)
    requires a <= b && 0.0 <= c
    ensures a * c <= b * c && (a < b && 0.0 < c ==> a * c < b * c)
  {
  }

  lemma {:induction false} MorePowers()
    ensures Pow2(3) == 8 && Pow2(7) == 128 && Pow2(59) == 0x800_0000_0000_0000 && Pow2(60) == 0x1000_0000_0000_0000
    ensures Two(0) == 1.0 && Two(59) == 576460752303423488.0 && Two(60) == 1152921504606846976.0
    ensures Ten(1) == 10.0 && Ten(10) == 10000000000.0 && Ten(18) == 1000000000000000000.0
  {
    Pow2Values();
    Pow2Few(0);
    Pow2Few(3);
    Pow2Few(59);
    assert Pow10(4) == 10000 && Pow10(8) == 10000 * Pow10(4) && Pow10(10) == 100 * Pow10(8);
    assert Pow10(12) == 100 * Pow10(10) && Pow10(16) == 10000 * Pow10(12) && Pow10(18) == 100 * Pow10(16);
  }

  /** 2^485 <= 10^146 */
  lemma {:induction false} Above()
    ensures Two(485) <= Ten(146)
  {
    hide Ten, Two, Pow2;
    MorePowers();
    LowProduct(18, 1000000000000000000, 0, 18, 1000000000000000000, 0, 867361737988403547, 60);
    LowProduct(36, 867361737988403547, 60, 36, 867361737988403547, 60, 652530446799852452, 60);
    LowProduct(72, 652530446799852452, 180, 1, 10, 0, 815663058499815565, 3);
    LowProduct(73, 815663058499815565, 183, 73, 815663058499815565, 183, 577061163611608485, 60);
    TwoSum(59, 426);
    TwoNext(426);
    RealMul(Two(59), 577061163611608485.0, Two(426));
  }

  /** 10^643 <= 2^2136 */
  lemma {:induction false} Below()
    ensures Ten(643) <= Two(2136)
  {
    hide Ten, Two, Pow2;
    MorePowers();
    HighProduct(10, 10000000000, 0, 10, 10000000000, 0, 781250000000000000, 7);
    HighProduct(20, 781250000000000000, 7, 20, 781250000000000000, 7, 1058791184067875424, 59);
    HighProduct(40, 1058791184067875424, 73, 40, 1058791184067875424, 73, 972346137165803393, 60);
    HighProduct(80, 972346137165803393, 206, 80, 972346137165803393, 206, 820053235786998141, 60);
    HighProduct(160, 820053235786998141, 472, 160, 820053235786998141, 472, 583289761564511803, 60);
    HighProduct(320, 583289761564511803, 1004, 1, 10, 0, 729112201955639754, 3);
    HighProduct(321, 729112201955639754, 1007, 321, 729112201955639754, 1007, 922186984831863140, 59);
    HighProduct(642, 922186984831863140, 2073, 1, 10, 0, 1152733731039828925, 3);
    TwoSum(60, 2076);
    TwoNext(2076);
    RealMul(1152733731039828925.0, Two(60), Two(2076));
  }

  /** No fraction with a denominator below 2621 lies between them. */
  lemma {:induction false} Between(k: int, n: int)
    requires 0 < n < 2621
    ensures 643 * n < 2136 * k ==> 146 * n <= 485 * k
  {
    if 643 * n < 2136 * k && 485 * k < 146 * n { Farey(k, n); }
  }

  lemma {:induction false} Farey(k: int, n: int)
    requires 643 * n < 2136 * k && 485 * k < 146 * n
    ensures 2621 <= n
  {
    assert 643 * (485 * k) <= 643 * (146 * n - 1);
    assert 146 * (643 * n) <= 146 * (2136 * k - 1);
  }

  // ----- the choice -----

  lemma {:induction false} KCompMeans(n: int)
    ensures var k := KComp(n);
      n * 30102999566398114 <= k * 100000000000000000 < n * 30102999566398114 + 100000000000000000
  {
    var k := KComp(n);
    assert n as real * LOG == (n * 30102999566398114) as real / 100000000000000000.0;
    assert (k - 1) as real < n as real * LOG <= k as real;
  }

  /** Each power that is ever chosen is in the table. */
  lemma {:induction false} InTable(n: int)
    requires -1030 <= n <= 1080
    ensures -343 <= KComp(n) <= 343
  {
    hide KComp;
    KCompMeans(n);
  }

  /** The power chosen is the least one that is not below 2^n. */
  lemma {:induction false} Chosen(n: int)
    requires -1140 <= n <= 1140
    ensures Two(n) <= Ten(KComp(n)) <= 10.0 * Two(n)
  {
    hide Ten, Two, KComp;
    var k := KComp(n);
    KCompMeans(n);
    Above();
    Below();
    TenNext(k - 1);
    if n > 0 {
      Between(k, n);
      Between(k - 1, n);
      FromAbove(146, 485, k, n);
      FromBelow(643, 2136, k - 1, n);
    } else if n < 0 {
      Between(-k, -n);
      Between(1 - k, -n);
      FromBelow(643, 2136, -k, -n);
      FromAbove(146, 485, 1 - k, -n);
      Inverted(k, n);
      Inverted(k - 1, n);
    } else {
      Units();
    }
  }

  lemma {:induction false} Inverted(k: int, n: int)
    ensures Ten(-k) <= Two(-n) ==> Two(n) <= Ten(k)
    ensures Two(-n) <= Ten(-k) ==> Ten(k) <= Two(n)
  {
    hide Ten, Two;
    Opposite(k);
    Opposite(n);
    Inverses(Ten(k), Ten(-k), Two(n), Two(-n));
  }

  lemma {:induction false} Inverses(x: real, x1: real, y: real, y1: real)
    requires x * x1 == 1.0 && y * y1 == 1.0 && x > 0.0 && y > 0.0
    ensures x1 <= y1 ==> y <= x
    ensures y1 <= x1 ==> x <= y
  {
    assert x1 == 1.0 / x && y1 == 1.0 / y;
  }

  // ----- cached powers -----

  ghost predicate Accurate(c: Diy, mk: int) {
    -Two(c.e) <= 2.0 * (Value(c) - Ten(mk)) <= Two(c.e)
  }

  lemma {:induction false} Bracket(f: real, x: real, t: real, v: real)
    requires t > 0.0 && v == f * t && -t <= 2.0 * (v - x) <= t && 9223372036854775808.0 <= f <= 18446744073709551615.0
    ensures 5764607523034234880.0 * t < x < 18446744073709551616.0 * t
  {
    Scaled2(9223372036854775808.0, f, t, v);
    Scaled2(-18446744073709551615.0, -f, t, -v);
    Near(v, x, t);
  }

  lemma {:induction false} Scaled2(a: real, f: real, t: real, v: real)
    requires t > 0.0 && v == f * t && a <= f
    ensures a * t <= v
  {
  }

  lemma {:induction false} Near(v: real, x: real, t: real)
    requires t > 0.0 && -t <= 2.0 * (v - x) <= t && 9223372036854775808.0 * t <= v && -18446744073709551615.0 * t <= -v
    ensures 5764607523034234880.0 * t < x < 18446744073709551616.0 * t
  {
  }

  /** With the chosen power the exponent of the product is what the digit generator wants. */
  lemma {:induction false} ExponentFits(c: Diy, mk: int, n: int)
    requires TWO63 <= c.f && Accurate(c, mk) && Two(n) <= Ten(mk) <= 10.0 * Two(n)
    ensures n - 63 <= c.e <= n - 60
  {
    hide Ten, Two;
    var t, f := Two(c.e), c.f as real;
    TwoNext(c.e);
    Shifted(c.e);
    assert f <= 18446744073709551615.0 && 9223372036854775808.0 <= f;
    Bracket(f, Ten(mk), t, Value(c));
    if c.e + 64 <= n { TwoGrows(c.e + 64, n); }
    if n <= c.e + 59 { TwoGrows(n, c.e + 59); }
  }

  lemma {:induction false} Shifted(e: int)
    ensures Two(e + 64) == 18446744073709551616.0 * Two(e) && Two(e + 59) == 576460752303423488.0 * Two(e)
  {
    hide Two, Pow2;
    Pow2Values();
    Pow2Few(59);
    TwoAdd(e, 59);
    TwoAdd(e, 64);
  }

  /** Every power of ten has such an approximation. */
  lemma {:induction false} CachedExists(mk: int) returns (c: Diy)
    ensures TWO63 <= c.f && Accurate(c, mk)
  {
    hide Ten, Two;
    TenNext(mk);
    var e := Magnitude(Ten(mk));
    var t := Two(e);
    TwoNext(e);
    Shifted(e);
    var x := Ten(mk) / t;
    assert x * t == Ten(mk);
    Quotient(9223372036854775808.0, x, 18446744073709551616.0, t, Ten(mk));
    var f := (x + 0.5).Floor;
    var d := f as real - x;
    RealMul(d, 0.5, t);
    RealMul(-0.5, d, t);
    assert d * t == f as real * t - Ten(mk);
    if f < TWO64 {
      c := Diy(f, e);
    } else {
      c := Diy(TWO63, e + 1);
      assert 9223372036854775808.0 * (2.0 * t) == 18446744073709551616.0 * t;
    }
  }

  lemma {:induction false} Quotient(a: real, x: real, b: real, t: real, v: real)
    requires a * t <= v < b * t && v == x * t && t > 0.0
    ensures a <= x < b
  {
    assert 1.0 / t * t == 1.0;
    Cancel(a, x, t);
    if b <= x { RealMul(b, x, t); }
  }

  lemma {:induction false} Cancel(a: real, x: real, t: real)
    requires a * t <= x * t && t > 0.0
    ensures a <= x
  {
    if x < a { Product2(t, t, a - x, a - x); }
    assert (a - x) * t == a * t - x * t;
  }

  lemma {:induction false} Halved(a: real, t: real, x: real)
    requires 0.0 <= a && a * t <= 1.0 && 0.0 < x < t <= 1.0
    ensures (a + 1.0) * (t / 2.0) <= 1.0 && a <= 1.0 / x
  {
    assert (a + 1.0) * (t / 2.0) == (a * t + t) / 2.0;
    assert a * x <= a * t;
    assert 1.0 / x * x == 1.0;
    Cancel(a, 1.0 / x, x);
  }

  /** Every positive number lies between two neighbouring powers of two. */
  lemma {:induction false} Magnitude(x: real) returns (e: int)
    requires x > 0.0
    ensures 9223372036854775808.0 * Two(e) <= x < 18446744073709551616.0 * Two(e)
  {
    hide Two;
    Units();
    var n := 0;
    if x >= 1.0 {
      var bound := x.Floor + 1;
      while Two(n + 1) <= x
        invariant n >= 0 && Two(n) <= x && n as real <= Two(n)
        decreases bound - n
      {
        TwoNext(n);
        n := n + 1;
      }
    } else {
      var bound := (1.0 / x).Floor + 1;
      TwoNext(0);
      while x < Two(n)
        invariant n <= 0 && x < Two(n + 1) && (-n) as real * Two(n) <= 1.0 && Two(n) <= 1.0
        decreases bound + n
      {
        TwoNext(n - 1);
        Halved((-n) as real, Two(n), x);
        n := n - 1;
      }
    }
    e := n - 63;
    Shifted(e);
    TwoNext(n);
  }
}
