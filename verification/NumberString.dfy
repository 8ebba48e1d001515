/** jsV_numbertostring (jsvalue.c) as a whole, and js_strtod behind it: a double as text, and the
    text read again. */
module NumberString {
  import opened Grisu
  import opened GrisuPrint
  import opened NumberText

  /** A double: a finite one has a sign and a positive magnitude. */
  datatype Double = Zero | NaN | Infinite(neg: bool) | Finite(neg: bool, v: Diy)

  predicate Known(x: Double) {
    x.Finite? ==> IsDouble(x.v) && x.v.e <= 971
  }

  /** What a decimal number denotes, but for its sign. */
  ghost function Denoted(d: Decimal): real {
    TimesTen(Mantissa(d), Scale10(d))
  }

  // ----- integers -----

  const INT_LIMIT := 0x8000_0000

  /** The magnitude as an integer, if it is one. */
  function Integral(v: Diy): Option<nat>
    requires IsDouble(v)
  {
    if v.e >= 0 then
      MulNat(v.f, Pow2(v.e));
      Some(v.f * Pow2(v.e))
    else if v.f % Pow2(-v.e) == 0 then Some(v.f / Pow2(-v.e)) else None
  }

  lemma {:induction false} MulNat(a: nat, b: nat)
    ensures 0 <= a * b
  {
  }

  /** The number is an integer that an int can hold. */
  predicate IsInt(x: Double)
    requires Known(x) && x.Finite?
  {
    Integral(x.v).Some? && (if x.neg then Integral(x.v).value <= INT_LIMIT else Integral(x.v).value < INT_LIMIT)
  }

  lemma {:induction false} IntegralValue(v: Diy)
    requires IsDouble(v) && Integral(v).Some?
    ensures Value(v) == Integral(v).value as real && 0 < Integral(v).value
  {
    hide Pow2;
    if v.e >= 0 {
      TwoNat(v.e);
      MulMonotone(1, v.f, Pow2(v.e));
    } else {
      var p, n := Pow2(-v.e), Integral(v).value;
      assert v.f == n * p;
      Quotient(n, p);
    }
  }

  lemma {:induction false} Quotient(n: nat, p: int)
    requires 0 < p
    ensures (n * p) as real * (1.0 / p as real) == n as real
  {
    var q, r := p as real, 1.0 / p as real;
    assert q * r == 1.0;
    assert (n * p) as real == n as real * q;
    assert n as real * q * r == n as real * (q * r);
  }

  lemma {:induction false} InTheMiddle(v: Diy)
    requires IsDouble(v)
    ensures Between(v, Value(v))
  {
    hide Two;
    BoundariesAreMidpoints(v);
    TwoNext(v.e - 1);
    var t := Two(v.e - 1);
    assert (2 * v.f + 1) as real * t == 2.0 * v.f as real * t + t;
  }

  lemma {:induction false} DigitsLength(n: nat, k: nat)
    requires n < Pow10(k)
    ensures |DigitsOf(n)| <= k
    decreases k
  {
    if n > 0 && k > 0 { DigitsLength(n / 10, k - 1); }
  }

  /** An integer as a decimal number. */
  function IntDecimal(neg: bool, n: nat): Decimal {
    Decimal(neg, DigitsOf(n), false, [], None)
  }

  lemma {:induction false} IntDenoted(neg: bool, n: nat)
    requires 0 < n <= INT_LIMIT
    ensures var d := IntDecimal(neg, n);
      && Proper(d) && Denoted(d) == n as real && RestIsZero(d.whole + d.part)
      && Render(d) == (if neg then "-" else "") + DigitText(DigitsOf(n))
  {
    hide DigitText, DigitsOf, Number, Pow10, Ten;
    DigitsOfNumber(n);
    TenThousandMillion();
    DigitsLength(n, 10);
    TenZero();
    assert DigitsOf(n) + [] == DigitsOf(n);
    IntText0(neg, DigitsOf(n));
  }

  lemma {:induction false} IntText0(neg: bool, ds: seq<Digit>)
    requires ds != []
    ensures Render(Decimal(neg, ds, false, [], None)) == (if neg then "-" else "") + DigitText(ds)
  {
    hide DigitText;
  }

  lemma {:induction false} TenZero()
    ensures Ten(0) == 1.0
  {
  }

  lemma {:induction false} TenThousandMillion()
    ensures INT_LIMIT < Pow10(10)
  {
    assert Pow10(5) == 100_000;
  }

  // ----- decimals as real numbers -----

  lemma {:induction false} SameReal(m: int, e: int, n: int, f: int)
    ensures Same(m, e, n, f) <==> TimesTen(m, e) == TimesTen(n, f)
  {
    if e >= f { SameDown(m, e, n, f); } else { SameDown(n, f, m, e); }
  }

  lemma {:induction false} SameDown(m: int, e: int, n: int, f: int)
    requires e >= f
    ensures m * Pow10(e - f) == n <==> TimesTen(m, e) == TimesTen(n, f)
  {
    hide Pow10;
    var p, t := Pow10(e - f) as real, Ten(f);
    TenSum(f, e - f);
    assert Ten(e - f) == p;
    assert m as real * Ten(e) == (m * Pow10(e - f)) as real * t;
    Cancel((m * Pow10(e - f)) as real, n as real, t);
  }

  lemma {:induction false} Cancel(a: real, b: real, t: real)
    requires t > 0.0
    ensures a * t == b * t <==> a == b
  {
    if a * t == b * t { assert (a - b) * t == 0.0; }
  }

  /** Reading gives exactly what is denoted if and only if the digits after the first 18 are zero. */
  lemma {:induction false} ReadDenoted(d: Decimal)
    requires Proper(d)
    ensures var r := Read(Render(d));
      r.Some? && r.value.neg == d.neg
      && (TimesTen(r.value.fraction, r.value.exp) == Denoted(d) <==> RestIsZero(d.whole + d.part))
  {
    hide Read, Render, Same, RestIsZero, Mantissa, Scale10, Ten, Pow10;
    ReadExact(d);
    var r := Read(Render(d)).value;
    SameReal(r.fraction, r.exp, Mantissa(d), Scale10(d));
  }

  /** At most 18 digits are lost in reading only behind a point with zeros in front of them. */
  lemma {:induction false} FewDigits(neg: bool, ds: seq<Digit>, exp: int)
    requires 0 < |ds| <= 18
    ensures var d := Layout(neg, ds, exp); d.whole != [0] ==> RestIsZero(d.whole + d.part)
  {
    hide RestIsZero;
    RoundTripDigits(neg, ds, exp);
  }

  // ----- the whole -----

  /** d is the number printed for x. */
  ghost predicate Prints(x: Double, d: Decimal)
    requires Known(x) && x.Finite?
  {
    && Proper(d) && d.neg == x.neg && Between(x.v, Denoted(d))
    && (IsInt(x) ==> Denoted(d) == Value(x.v) && d.part == [] && d.exponent == None)
    && (d.whole != [0] ==> RestIsZero(d.whole + d.part))
  }

  function Digits(buffer: seq<int>): (ds: seq<Digit>)
    requires forall i | 0 <= i < |buffer| :: 0 <= buffer[i] <= 9
    ensures ds == buffer
  {
    if buffer == [] then []
    else
      var d: Digit := buffer[|buffer| - 1];
      assert buffer == buffer[..|buffer| - 1] + [d];
      Digits(buffer[..|buffer| - 1]) + [d]
  }

  lemma {:induction false} IntPrints(x: Double)
    requires Known(x) && x.Finite? && IsInt(x)
    ensures var n := Integral(x.v).value;
      var d := IntDecimal(x.neg, n);
      Prints(x, d) && Proper(d) && 0 < n && Render(d) == (if x.neg then "-" else "") + DigitText(DigitsOf(n))
  {
    hide DigitText, DigitsOf, Integral, Between, Value, Denoted, RestIsZero, Render;
    IntegralValue(x.v);
    IntDenoted(x.neg, Integral(x.v).value);
    InTheMiddle(x.v);
  }

  lemma {:induction false} DigitsPrint(x: Double, ds: seq<Digit>, exp: int)
    requires Known(x) && x.Finite? && !IsInt(x) && 0 < |ds| <= 18 && Between(x.v, TimesTen(Number(ds), exp))
    ensures Prints(x, Layout(x.neg, ds, exp))
  {
    hide Layout, Integral, Between, Number, Ten, Denoted, RestIsZero, Proper, IsDouble;
    LayoutDenoted(x.neg, ds, exp);
    FewDigits(x.neg, ds, exp);
  }

  /** `jsV_numbertostring`: the text denotes a number strictly between the boundaries of x, and x
      itself if that is an int. Read again it is that number exactly if the digits behind the first
      18 are zero, as they are of every number that does not start with "0.". */
  method NumberToString(x: Double, cached: int -> Diy) returns (text: string, ghost d: Decimal)
    requires Known(x) && Table(cached)
    ensures x.Zero? ==> text == "0"
    ensures x.NaN? ==> text == "NaN"
    ensures x.Infinite? ==> text == if x.neg then "-Infinity" else "Infinity"
    ensures x.Finite? ==> Prints(x, d) && text == Render(d)
    ensures x.Finite? ==> var r := Read(text);
      r.Some? && r.value.neg == x.neg
      && (TimesTen(r.value.fraction, r.value.exp) == Denoted(d) <==> RestIsZero(d.whole + d.part))
  {
    hide Render, Read, Denoted, RestIsZero, Table, Ten, IsDouble, Prints, Mantissa, Scale10, Proper, IsInt;
    d := Decimal(false, [], false, [], None);
    match x
    case Zero => text := "0";
    case NaN => text := "NaN";
    case Infinite(neg) => text := if neg then "-Infinity" else "Infinity";
    case Finite(_, _) =>
      if IsInt(x) { text, d := IntToString(x); } else { text, d := DigitsToString(x, cached); }
      ReadPrinted(x, d);
  }

  /** The fast case of an int. */
  method IntToString(x: Double) returns (text: string, ghost d: Decimal)
    requires Known(x) && x.Finite? && IsInt(x)
    ensures Prints(x, d) && Proper(d) && text == Render(d)
  {
    hide Render, DigitText, DigitsOf, Integral, IsDouble, Prints, IntDecimal;
    var n: int := Integral(x.v).value;
    IntPrints(x);
    text := IntText(if x.neg then -n else n);
    d := IntDecimal(x.neg, n);
  }

  /** Any other number. */
  method DigitsToString(x: Double, cached: int -> Diy) returns (text: string, ghost d: Decimal)
    requires Known(x) && x.Finite? && !IsInt(x) && Table(cached)
    ensures Prints(x, d) && Proper(d) && text == Render(d)
  {
    hide Render, Layout, Table, Integral, TimesTen, IsDouble, Between, Number, Prints, Value, IsInt;
    var buffer, exp := Grisu2(x.v, cached);
    assert forall i | 0 <= i < |buffer| :: buffer[i] in buffer;
    var ds := Digits(buffer);
    DigitsPrint(x, ds, exp);
    text := NumberToText(x.neg, ds, exp);
    d := Layout(x.neg, ds, exp);
  }

  lemma {:induction false} ReadPrinted(x: Double, d: Decimal)
    requires Known(x) && x.Finite? && Prints(x, d)
    ensures Proper(d) && var r := Read(Render(d));
      r.Some? && r.value.neg == x.neg
      && (TimesTen(r.value.fraction, r.value.exp) == Denoted(d) <==> RestIsZero(d.whole + d.part))
  {
    hide Read, Render, Denoted, Ten, RestIsZero, IsDouble, Integral, Between;
    ReadDenoted(d);
  }

  lemma {:induction false} LayoutDenoted(neg: bool, ds: seq<Digit>, exp: int)
    requires ds != []
    ensures var d := Layout(neg, ds, exp);
      Proper(d) && d.neg == neg && Denoted(d) == TimesTen(Number(ds), exp)
  {
    hide Layout, Same, Number, Ten;
    var d := Layout(neg, ds, exp);
    LayoutValue(neg, ds, exp);
    SameReal(Mantissa(d), Scale10(d), Number(ds), exp);
  }
}
