/** js_grisu2 (jsdtoa.c): the shortest-digits printer as a whole. */
module GrisuPrint {
  import opened Grisu
  import opened PowersOfTen

  /** The table of cached powers has each power accurate to half a unit. */
  ghost predicate Table(cached: int -> Diy) {
    forall k | -343 <= k <= 343 :: Fits(cached(k), k)
  }

  ghost predicate Fits(c: Diy, k: int) {
    TWO63 <= c.f && Accurate(c, k)
  }

  lemma {:induction false} SomeFits(k: int)
    ensures exists c :: Fits(c, k)
  {
    var c := CachedExists(k);
    assert Fits(c, k);
  }

  ghost function Cached(k: int): (c: Diy)
    ensures Fits(c, k)
  {
    SomeFits(k);
    var c :| Fits(c, k);
    c
  }

  /** There is such a table. */
  lemma {:induction false} TableExists()
    ensures exists cached :: Table(cached)
  {
    var cached := (k: int) => Cached(k);
    assert Table(cached);
  }

  /** n * 10^k */
  ghost function TimesTen(n: int, k: int): real {
    n as real * Ten(k)
  }

  ghost predicate Between(v: Diy, x: real)
    requires IsDouble(v)
  {
    Value(Lower(v)) < x < Value(Upper(v))
  }

  /** `js_grisu2`: the decimal printed lies strictly between the boundaries of v, and the digits
      fit in the buffer of 32 characters. */
  method Grisu2(v: Diy, cached: int -> Diy) returns (buffer: seq<int>, k: int)
    requires IsDouble(v) && v.e <= 971 && Table(cached)
    ensures Between(v, TimesTen(Number(buffer), k))
    ensures 0 < |buffer| <= 18 && forall d | d in buffer :: 0 <= d <= 9
  {
    hide Pow2, Two, Ten, Number, Within, Accurate;
    ghost var i, j;
    var minus, plus;
    minus, plus, j, i := NormalizedBoundaries(v);
    MovedValue(Upper(v), plus, j);
    MovedValue(Lower(v), minus, i);
    ExponentRange(v, plus, j);
    var mk := KComp(-60 - plus.e);
    Chosen(-60 - plus.e);
    InTable(-60 - plus.e);
    var c := cached(mk);
    assert Fits(c, mk);
    ExponentFits(c, mk, -60 - plus.e);
    var wp := Multiply(plus, c);
    var wm := Multiply(minus, c);
    Apart(plus.f, minus.f, c.f);
    wm, wp := wm.(f := wm.f + 1), wp.(f := wp.f - 1);
    var delta: u64 := wp.f - wm.f;
    var kappa;
    buffer, kappa := DigitGen(wp.f, wp.e, delta);
    k := kappa - mk;
    Inside(plus, minus, c, mk, Number(buffer), kappa);
    NotEmpty(buffer, kappa, wp.f, wm.f, Pow2(-wp.e));
  }

  lemma {:induction false} ExponentRange(v: Diy, plus: Diy, j: nat)
    requires IsDouble(v) && v.e <= 971 && Moved(Upper(v), plus, j)
    ensures -1140 <= plus.e <= 970
  {
    if j >= 65 {
      Pow2Add(64, j - 64);
      assert Pow2(64) == TWO64 by { Pow2Values(); Pow2Few(59); }
      MulMonotone(1, Pow2(j - 64), TWO64);
      MulMonotone(1, Upper(v).f, Pow2(j));
    }
  }

  lemma {:induction false} Apart(plus: u64, minus: u64, c: u64)
    requires minus + 1536 <= plus && TWO63 <= c
    ensures Rounded(minus, c) + 768 <= Rounded(plus, c) && 0 <= Rounded(minus, c) && Rounded(plus, c) < TWO64
  {
    ProductFits(minus, c);
    ProductFits(plus, c);
    MulMonotone(minus + 1536, plus, c);
    assert (minus + 1536) * c == minus * c + 1536 * c;
    assert 1536 * c >= 768 * TWO64;
  }

  lemma {:induction false} NotEmpty(buffer: seq<int>, kappa: int, wp: int, wm: int, one: int)
    requires Within(Number(buffer), kappa, wp, wp - wm, one) && 1 <= wm && one >= 1
    ensures buffer != []
  {
    if buffer == [] {
      assert kappa < 0 ==> wm * Pow10(-kappa) >= 1;
    }
  }

  lemma {:induction false} RoundedClose(x: u64, y: u64)
    ensures -TWO63 <= Rounded(x, y) * TWO64 - x * y <= TWO63
  {
    var n := x * y + TWO63;
    assert n == n / TWO64 * TWO64 + n % TWO64;
  }

  lemma {:induction false} RealLess(a: real, b: real, c: real)
    requires a * c < b * c && 0.0 < c
    ensures a < b
  {
    if b <= a { RealMul(b, a, c); }
  }

  /** The product with the cached power is less than one unit away from the product with the power
      itself. */
  lemma {:induction false} ProductClose(x: Diy, c: Diy, mk: int)
    requires Accurate(c, mk)
    ensures var s := Two(x.e + c.e + 64);
      var w := Rounded(x.f, c.f) as real * s;
      s > 0.0 && w - s < Value(x) * Ten(mk) < w + s
  {
    hide Two, Ten, Rounded;
    var u := Two(x.e + c.e);
    var s := Two(x.e + c.e + 64);
    Scales(x.e, c.e);
    RoundedReal(x.f, c.f);
    Close(x.f as real, c.f as real, Two(x.e), Two(c.e), u, s, Rounded(x.f, c.f) as real, Ten(mk));
  }

  lemma {:induction false} Scales(j: int, k: int)
    ensures Two(j) > 0.0 && Two(j + k) > 0.0 && Two(j + k) == Two(j) * Two(k)
    ensures Two(j + k + 64) == Two(j + k) * 18446744073709551616.0
  {
    hide Two;
    TwoNext(j + k);
    TwoNext(j);
    TwoSum(j, k);
    TwoAdd(j + k, 64);
    assert Pow2(64) == TWO64 by { Pow2Values(); Pow2Few(59); }
  }

  lemma {:induction false} RoundedReal(x: u64, y: u64)
    ensures var d := Rounded(x, y) as real * 18446744073709551616.0 - x as real * y as real;
      -9223372036854775808.0 <= d <= 9223372036854775808.0
  {
    hide Rounded;
    RoundedClose(x, y);
    RealOf(Rounded(x, y), x, y);
  }

  lemma {:induction false} RealOf(w: int, x: int, y: int)
    ensures (w * TWO64 - x * y) as real == w as real * 18446744073709551616.0 - x as real * y as real
  {
  }

  lemma {:induction false} Close(x: real, y: real, tx: real, ty: real, u: real, s: real, w: real, t: real)
    requires u == tx * ty > 0.0 && s == u * 18446744073709551616.0 && tx > 0.0 && 0.0 <= x < 18446744073709551616.0
    requires -9223372036854775808.0 <= w * 18446744073709551616.0 - x * y <= 9223372036854775808.0
    requires -ty <= 2.0 * (y * ty - t) <= ty
    ensures w * s - s < x * tx * t < w * s + s && s > 0.0
  {
    var d, p, g := w * 18446744073709551616.0 - x * y, x * tx, 2.0 * (y * ty - t);
    CloseParts(x, y, tx, ty, u, s, w, t);
    RealMul(d, 9223372036854775808.0, u);
    RealMul(-9223372036854775808.0, d, u);
    RealMul(g, ty, p);
    RealMul(-ty, g, p);
    RealMul(x, 18446744073709551616.0, u);
    Combine(w * s, x * y * u, p * t, d * u, g * p, x * u, u, s);
  }

  lemma {:induction false} Combine(ws: real, a: real, pt: real, du: real, gp: real, xu: real, u: real, s: real)
    requires u > 0.0 && s == u * 18446744073709551616.0 && xu < 18446744073709551616.0 * u
    requires du == ws - a && -9223372036854775808.0 * u <= du <= 9223372036854775808.0 * u
    requires gp == 2.0 * a - 2.0 * pt && -xu <= gp <= xu
    ensures ws - s < pt < ws + s && s > 0.0
  {
  }

  lemma {:induction false} CloseParts(x: real, y: real, tx: real, ty: real, u: real, s: real, w: real, t: real)
    requires tx > 0.0 && 0.0 <= x && u == tx * ty && s == u * 18446744073709551616.0
    ensures var d, p, g := w * 18446744073709551616.0 - x * y, x * tx, 2.0 * (y * ty - t);
      && d * u == w * s - x * y * u && p >= 0.0 && ty * p == x * u
      && -ty * p == -(x * u) && g * p == 2.0 * (x * y * u) - 2.0 * (p * t)
  {
    var p := x * tx;
    assert p * ty == x * u;
    assert y * ty * p == y * (ty * p) == y * (x * u);
    assert y * (x * u) == x * y * u;
    assert w * s == w * 18446744073709551616.0 * u;
  }

  lemma {:induction false} WithinReal(n: int, kappa: int, mp: int, delta: int, e: int)
    requires e < 0 && Within(n, kappa, mp, delta, Pow2(-e))
    ensures (mp - delta) as real * Two(e) <= n as real * Ten(kappa) <= mp as real * Two(e)
  {
    hide Pow2, Pow10, Two, Ten;
    var one, t := Pow2(-e) as real, Two(e);
    Inverse(e, kappa);
    if kappa >= 0 {
      var x := n as real * Ten(kappa);
      var i := n * Pow10(kappa);
      assert i as real == x;
      assert (i * Pow2(-e)) as real == i as real * one;
      Scale((mp - delta) as real, x, 1.0, 1.0, one, t);
      ScaleUp(x, mp as real, 1.0, 1.0, one, t);
    } else {
      var q, i := Pow10(-kappa) as real, Ten(kappa);
      assert (n * Pow2(-e)) as real == n as real * one;
      assert ((mp - delta) * Pow10(-kappa)) as real == (mp - delta) as real * q;
      assert (mp * Pow10(-kappa)) as real == mp as real * q;
      Scale((mp - delta) as real, n as real, q, i, one, t);
      ScaleUp(n as real, mp as real, q, i, one, t);
    }
  }

  lemma {:induction false} Inverse(e: int, kappa: int)
    requires e < 0
    ensures Pow2(-e) as real * Two(e) == 1.0 && Two(e) > 0.0
    ensures kappa >= 0 ==> Ten(kappa) == Pow10(kappa) as real
    ensures kappa < 0 ==> Pow10(-kappa) as real * Ten(kappa) == 1.0 && Ten(kappa) > 0.0
  {
    TwoNext(e);
    TenNext(kappa);
  }

  lemma {:induction false} Scale(a: real, n: real, q: real, i: real, one: real, t: real)
    requires a * q <= n * one && q * i == 1.0 && one * t == 1.0 && i > 0.0 && t > 0.0
    ensures a * t <= n * i
  {
    RealMul(a * q, n * one, i * t);
    assert a * q * (i * t) == a * t * (q * i) == a * t;
    assert n * one * (i * t) == n * i * (one * t) == n * i;
  }

  lemma {:induction false} ScaleUp(n: real, b: real, q: real, i: real, one: real, t: real)
    requires n * one <= b * q && q * i == 1.0 && one * t == 1.0 && i > 0.0 && t > 0.0
    ensures n * i <= b * t
  {
    RealMul(n * one, b * q, i * t);
    assert b * q * (i * t) == b * t * (q * i) == b * t;
    assert n * one * (i * t) == n * i * (one * t) == n * i;
  }

  lemma {:induction false} Distributed(w: real, s: real)
    ensures (w - 1.0) * s == w * s - s && (w + 1.0) * s == w * s + s
  {
  }

  /** The one-unit shrink of the interval makes up for the errors of both products. */
  lemma {:induction false} Inside(plus: Diy, minus: Diy, c: Diy, mk: int, n: int, kappa: int)
    requires Accurate(c, mk) && plus.e == minus.e && plus.e + c.e + 64 < 0
    requires var wp, wm := Rounded(plus.f, c.f) - 1, Rounded(minus.f, c.f) + 1;
      Within(n, kappa, wp, wp - wm, Pow2(-(plus.e + c.e + 64)))
    ensures Value(minus) < n as real * Ten(kappa - mk) < Value(plus)
  {
    hide Two, Ten, Rounded, Within, Accurate, Value;
    var e := plus.e + c.e + 64;
    var s, t, x := Two(e), Ten(mk), n as real * Ten(kappa - mk);
    ProductClose(plus, c, mk);
    ProductClose(minus, c, mk);
    WithinReal(n, kappa, Rounded(plus.f, c.f) - 1, Rounded(plus.f, c.f) - 1 - (Rounded(minus.f, c.f) + 1), e);
    TenSum(kappa - mk, mk);
    TenSum(mk, 0);
    Assoc(n as real, Ten(kappa - mk), t);
    var wp, wm := Rounded(plus.f, c.f) as real, Rounded(minus.f, c.f) as real;
    Distributed(wp, s);
    Distributed(wm, s);
    assert (Rounded(plus.f, c.f) - 1) as real == wp - 1.0;
    assert (Rounded(minus.f, c.f) + 1) as real == wm + 1.0;
    RealLess(Value(minus), x, t);
    RealLess(x, Value(plus), t);
  }
}
