/** Numbers as text: the layout of jsV_numbertostring (section 9.8.1 of ECMA-262 5.1) and the
    reading of js_strtod up to its last, floating, step. */
module NumberText {
  import opened Grisu

  // ----- decimal numbers -----

  type Digit = d: int | 0 <= d <= 9

  function Zeros(n: nat): (z: seq<Digit>)
    ensures |z| == n && forall d | d in z :: d == 0
  {
    if n == 0 then [] else Zeros(n - 1) + [0]
  }

  /** m * 10^e and n * 10^f are the same number. */
  ghost predicate Same(m: int, e: int, n: int, f: int) {
    if e >= f then m * Pow10(e - f) == n else m == n * Pow10(f - e)
  }

  /** A decimal number as it is written. */
  datatype Decimal = Decimal(neg: bool, whole: seq<Digit>, point: bool, part: seq<Digit>, exponent: Option<int>)

  datatype Option<T> = None | Some(value: T)

  predicate Proper(d: Decimal) {
    d.whole != [] && (!d.point ==> d.part == []) && (d.exponent.Some? ==> d.exponent.value != 0)
  }

  /** Its digits without the point, and the power of ten that goes with them. */
  function Mantissa(d: Decimal): int {
    Number(d.whole + d.part)
  }

  function Scale10(d: Decimal): int {
    (if d.exponent.Some? then d.exponent.value else 0) - |d.part|
  }

  // ----- text -----

  function DigitChar(d: Digit): char {
    ('0' as int + d) as char
  }

  function DigitText(ds: seq<Digit>): (t: string)
    ensures |t| == |ds| && forall i | 0 <= i < |ds| :: t[i] == DigitChar(ds[i])
  {
    if ds == [] then "" else DigitText(ds[..|ds| - 1]) + [DigitChar(ds[|ds| - 1])]
  }

  lemma {:induction false} DigitTextAppend(a: seq<Digit>, b: seq<Digit>)
    ensures DigitText(a + b) == DigitText(a) + DigitText(b)
  {
  }

  /** The digits of n, without leading zeros. */
  function DigitsOf(n: nat): (ds: seq<Digit>)
    ensures (ds == [] <==> n == 0)
  {
    if n == 0 then [] else DigitsOf(n / 10) + [n % 10]
  }

  lemma {:induction false} DigitsOfNumber(n: nat)
    ensures Number(DigitsOf(n)) == n
  {
    if n > 0 {
      DigitsOfNumber(n / 10);
      assert DigitsOf(n)[..|DigitsOf(n)| - 1] == DigitsOf(n / 10);
    }
  }

  function ExponentText(e: int): string {
    (if e < 0 then "e-" else "e+") + if e == 0 then "0" else DigitText(DigitsOf(if e < 0 then -e else e))
  }

  function Render(d: Decimal): string
    requires Proper(d)
  {
    (if d.neg then "-" else "") + DigitText(d.whole) + (if d.point then "." + DigitText(d.part) else "")
      + if d.exponent.Some? then ExponentText(d.exponent.value) else ""
  }

  /** The digits of a, least significant first, then written in reverse. */
  method Reversed(a0: nat) returns (text: string)
    ensures text == if a0 == 0 then "0" else DigitText(DigitsOf(a0))
  {
    var a: nat, buf := a0, [];
    ghost var low: seq<Digit> := [];
    while a != 0
      invariant DigitsOf(a0) == DigitsOf(a) + low && |buf| == |low|
      invariant forall i | 0 <= i < |low| :: buf[i] == DigitChar(low[|low| - 1 - i])
    {
      low := [a % 10] + low;
      buf := buf + [DigitChar(a % 10)];
      a := a / 10;
    }
    if |buf| == 0 { buf := buf + ['0']; }
    text := "";
    var i := |buf|;
    while i > 0
      invariant 0 <= i <= |buf| && |text| == |buf| - i && forall j | 0 <= j < |text| :: text[j] == buf[|buf| - 1 - j]
    {
      i := i - 1;
      text := text + [buf[i]];
    }
    if a0 != 0 { assert text == DigitText(low); }
  }

  /** `js_fmtexp` */
  method FormatExponent(e: int) returns (text: string)
    ensures text == ExponentText(e)
  {
    var digits := Reversed(if e < 0 then -e else e);
    text := (if e < 0 then "e-" else "e+") + digits;
  }

  /** `js_itoa` */
  method IntText(v: int) returns (text: string)
    ensures text == (if v < 0 then "-" else "") + if v == 0 then "0" else DigitText(DigitsOf(if v < 0 then -v else v))
  {
    var digits := Reversed(if v < 0 then -v else v);
    text := (if v < 0 then "-" else "") + digits;
  }

  // ----- layout -----

  /** The three layouts of a number digits * 10^exp. */
  function Layout(neg: bool, ds: seq<Digit>, exp: int): Decimal
    requires ds != []
  {
    var point := |ds| + exp;
    if point < -5 || point > 21 then Decimal(neg, ds[..1], |ds| > 1, ds[1..], Some(point - 1))
    else if point <= 0 then Decimal(neg, [0], true, Zeros(-point) + ds, None)
    else if |ds| <= point then Decimal(neg, ds + Zeros(point - |ds|), false, [], None)
    else Decimal(neg, ds[..point], true, ds[point..], None)
  }

  /** The text is laid out so that it denotes exactly digits * 10^exp. */
  lemma {:induction false} LayoutValue(neg: bool, ds: seq<Digit>, exp: int)
    requires ds != []
    ensures var d := Layout(neg, ds, exp); Proper(d) && d.neg == neg && Same(Mantissa(d), Scale10(d), Number(ds), exp)
  {
    hide Number, Zeros, Pow10;
    var point := |ds| + exp;
    SameSame(Number(ds), exp);
    if point < -5 || point > 21 {
      assert ds[..1] + ds[1..] == ds;
    } else if point <= 0 {
      LeadingZeros(1 - point, ds);
      ZerosFront(-point);
      assert [0] + (Zeros(-point) + ds) == Zeros(1 - point) + ds;
    } else if |ds| <= point {
      TrailingZeros(ds, point - |ds|);
      assert ds + Zeros(point - |ds|) + [] == ds + Zeros(point - |ds|);
      SameZeros(Number(ds), exp);
    } else {
      assert ds[..point] + ds[point..] == ds;
    }
  }

  lemma {:induction false} SameSame(n: int, e: int)
    ensures Same(n, e, n, e)
  {
  }

  lemma {:induction false} SameZeros(n: int, e: nat)
    ensures Same(n * Pow10(e), 0, n, e)
  {
  }

  lemma {:induction false} ZerosFront(n: nat)
    ensures Zeros(n + 1) == [0] + Zeros(n)
  {
    if n > 0 { ZerosFront(n - 1); }
  }

  lemma {:induction false} LeadingZeros(n: nat, ds: seq<Digit>)
    ensures Number(Zeros(n) + ds) == Number(ds)
    decreases |ds|
  {
    if ds == [] {
      assert Zeros(n) + ds == Zeros(n);
      ZerosNothing(n);
    } else {
      var m := |ds| - 1;
      assert (Zeros(n) + ds)[..n + m] == Zeros(n) + ds[..m];
      LeadingZeros(n, ds[..m]);
    }
  }

  lemma {:induction false} ZerosNothing(n: nat)
    ensures Number(Zeros(n)) == 0
  {
    if n > 0 {
      assert Zeros(n)[..n - 1] == Zeros(n - 1);
      ZerosNothing(n - 1);
    }
  }

  lemma {:induction false} TrailingZeros(ds: seq<Digit>, n: nat)
    ensures Number(ds + Zeros(n)) == Number(ds) * Pow10(n)
    decreases n
  {
    if n == 0 {
      assert ds + Zeros(0) == ds;
    } else {
      assert (ds + Zeros(n))[..|ds| + n - 1] == ds + Zeros(n - 1);
      TrailingZeros(ds, n - 1);
    }
  }

  lemma {:induction false} LayoutText(neg: bool, ds: seq<Digit>, exp: int)
    requires ds != [] && Proper(Layout(neg, ds, exp))
    ensures var point, sign, t := |ds| + exp, if neg then "-" else "", Render(Layout(neg, ds, exp));
      if point < -5 || point > 21
        then t == sign + (DigitText(ds[..1]) + if |ds| > 1 then "." + DigitText(ds[1..]) else "")
        + ExponentText(point - 1)
      else if point <= 0 then t == sign + (DigitText([0]) + "." + DigitText(Zeros(-point) + ds))
      else if |ds| <= point then t == sign + DigitText(ds + Zeros(point - |ds|))
      else t == sign + (DigitText(ds[..point]) + "." + DigitText(ds[point..]))
  {
    hide DigitText, Zeros, ExponentText;
  }

  /** The end of `jsV_numbertostring`, given the digits and the exponent. */
  method NumberToText(neg: bool, digits: seq<Digit>, exp: int) returns (text: string)
    requires digits != []
    ensures Proper(Layout(neg, digits, exp)) && text == Render(Layout(neg, digits, exp))
  {
    hide DigitText, Zeros, DigitChar, ExponentText, Layout, Render;
    LayoutValue(neg, digits, exp);
    LayoutText(neg, digits, exp);
    var point := |digits| + exp;
    var sign := if neg then "-" else "";
    if point < -5 || point > 21 {
      var first := Scientific(digits);
      var e := FormatExponent(point - 1);
      text := sign + first + e;
    } else if point <= 0 {
      var rest := Fractional(digits, -point);
      text := sign + rest;
    } else {
      var rest := Positional(digits, point);
      text := sign + rest;
    }
  }

  method Scientific(digits: seq<Digit>) returns (text: string)
    requires digits != []
    ensures text == DigitText(digits[..1]) + if |digits| > 1 then "." + DigitText(digits[1..]) else ""
  {
    hide DigitText, DigitChar;
    text := [DigitChar(digits[0])];
    assert digits[..1] == [digits[0]];
    OneDigit(digits[0]);
    if |digits| > 1 {
      text := text + ".";
      var i := 1;
      ghost var start := text;
      NoDigits();
      while i < |digits|
        invariant 1 <= i <= |digits| && text == start + DigitText(digits[1..i])
      {
        text := text + [DigitChar(digits[i])];
        NextText(digits[1..i], digits[i]);
        assert digits[1..i + 1] == digits[1..i] + [digits[i]];
        i := i + 1;
      }
      assert digits[1..i] == digits[1..];
    }
  }

  lemma {:induction false} OneDigit(d: Digit)
    ensures DigitText([d]) == [DigitChar(d)] && DigitText([0]) == "0"
  {
  }

  lemma {:induction false} NoDigits()
    ensures DigitText([]) == ""
  {
  }

  lemma {:induction false} NextText(ds: seq<Digit>, d: Digit)
    ensures DigitText(ds + [d]) == DigitText(ds) + [DigitChar(d)]
  {
    DigitTextAppend(ds, [d]);
  }

  lemma {:induction false} NextZero(n: nat)
    ensures Zeros(n + 1) == Zeros(n) + [0] && Zeros(0) == []
  {
  }

  method Fractional(digits: seq<Digit>, zeros: nat) returns (text: string)
    ensures text == DigitText([0]) + "." + DigitText(Zeros(zeros) + digits)
  {
    hide DigitText, Zeros;
    text := "0.";
    OneDigit(0);
    NoDigits();
    NextZero(0);
    var k := 0;
    while k < zeros
      invariant 0 <= k <= zeros && text == "0." + DigitText(Zeros(k))
    {
      text := text + "0";
      NextZero(k);
      NextText(Zeros(k), 0);
      k := k + 1;
    }
    var i := 0;
    while i < |digits|
      invariant 0 <= i <= |digits| && text == "0." + DigitText(Zeros(zeros) + digits[..i])
    {
      text := text + [DigitChar(digits[i])];
      NextText(Zeros(zeros) + digits[..i], digits[i]);
      assert Zeros(zeros) + digits[..i + 1] == Zeros(zeros) + digits[..i] + [digits[i]];
      i := i + 1;
    }
    assert digits[..i] == digits;
  }

  method Positional(digits: seq<Digit>, point: nat) returns (text: string)
    requires 0 < point
    ensures text == if |digits| <= point then DigitText(digits + Zeros(point - |digits|))
      else DigitText(digits[..point]) + "." + DigitText(digits[point..])
  {
    hide DigitText, Zeros;
    NoDigits();
    NextZero(0);
    text := "";
    var i, p := 0, point as int;
    while i < |digits|
      invariant 0 <= i <= |digits| && p == point - i
      invariant text == if i < point || |digits| == point then DigitText(digits[..i])
        else DigitText(digits[..point]) + "." + DigitText(digits[point..i])
    {
      text := text + [DigitChar(digits[i])];
      if i < point || |digits| == point {
        NextText(digits[..i], digits[i]);
        assert digits[..i + 1] == digits[..i] + [digits[i]];
      } else {
        NextText(digits[point..i], digits[i]);
        assert digits[point..i + 1] == digits[point..i] + [digits[i]];
      }
      i := i + 1;
      p := p - 1;
      if p == 0 && i < |digits| {
        text := text + ".";
        assert digits[point..i] == [];
      }
    }
    assert digits[..i] == digits && (point <= i ==> digits[point..i] == digits[point..]);
    if p > 0 {
      var k := 0;
      assert digits + [] == digits;
      while k < p
        invariant 0 <= k <= p && text == DigitText(digits + Zeros(k))
      {
        text := text + "0";
        NextZero(k);
        NextText(digits + Zeros(k), 0);
        assert digits + Zeros(k + 1) == digits + Zeros(k) + [0];
        k := k + 1;
      }
    } else {
      assert |digits| == point ==> digits + Zeros(0) == digits;
    }
  }

  // ----- reading -----

  function CharAt(s: string, p: nat): char {
    if p < |s| then s[p] else '\0'
  }

  predicate IsDigit(c: char) {
    '0' <= c <= '9'
  }

  function DigitValue(c: char): Digit
    requires IsDigit(c)
  {
    c as int - '0' as int
  }

  predicate IsBlank(c: char) {
    c == ' ' || c == '\t' || c == '\n' || c == '\r'
  }

  /** Where the text starts after blanks. */
  function Start(s: string, p: nat): (q: nat)
    ensures p <= q && (p <= |s| ==> q <= |s|)
    decreases |s| - p
  {
    if p < |s| && IsBlank(s[p]) then Start(s, p + 1) else p
  }

  /** The digits of the mantissa from p on, with at most one point among them. */
  function MantissaAt(s: string, p: nat, point: bool): seq<Digit>
    decreases |s| - p
  {
    if p >= |s| then []
    else if IsDigit(s[p]) then [DigitValue(s[p])] + MantissaAt(s, p + 1, point)
    else if s[p] == '.' && !point then MantissaAt(s, p + 1, true)
    else []
  }

  /** How many of them stand before the point. */
  function WholeAt(s: string, p: nat): nat
    decreases |s| - p
  {
    if p < |s| && IsDigit(s[p]) then 1 + WholeAt(s, p + 1) else 0
  }

  function MantissaEnd(s: string, p: nat, point: bool): (q: nat)
    ensures p <= q && (p <= |s| ==> q <= |s|)
    decreases |s| - p
  {
    if p >= |s| then p
    else if IsDigit(s[p]) then MantissaEnd(s, p + 1, point)
    else if s[p] == '.' && !point then MantissaEnd(s, p + 1, true)
    else p
  }

  function DigitsAt(s: string, p: nat): seq<Digit>
    decreases |s| - p
  {
    if p < |s| && IsDigit(s[p]) then [DigitValue(s[p])] + DigitsAt(s, p + 1) else []
  }

  /** The exponent in the field at p, if there is one. */
  function ExponentAt(s: string, p: nat): int {
    if CharAt(s, p) == 'E' || CharAt(s, p) == 'e' then
      if CharAt(s, p + 1) == '-' then -Number(DigitsAt(s, p + 2))
      else if CharAt(s, p + 1) == '+' then Number(DigitsAt(s, p + 2))
      else Number(DigitsAt(s, p + 1))
    else 0
  }

  function Least(a: nat, b: nat): nat {
    if a < b then a else b
  }

  /** What `js_strtod` has before its last step: a sign, an integer of at most 18 digits and a power
      of ten. None is returned for a text without digits. */
  datatype Reading = Reading(neg: bool, fraction: int, exp: int)

  function Read(s: string): Option<Reading> {
    var p := Start(s, 0);
    var neg := CharAt(s, p) == '-';
    var q := if neg || CharAt(s, p) == '+' then p + 1 else p;
    var ms := MantissaAt(s, q, false);
    var k := Least(|ms|, 18);
    if ms == [] then None
    else Some(Reading(neg, Number(ms[..k]), WholeAt(s, q) - k + ExponentAt(s, MantissaEnd(s, q, false))))
  }

  lemma {:induction false} NumberAppend(a: seq<Digit>, b: seq<Digit>)
    ensures Number(a + b) == Number(a) * Pow10(|b|) + Number(b)
    decreases |b|
  {
    if b == [] {
      assert a + b == a;
    } else {
      var n := |b| - 1;
      assert (a + b)[..|a| + n] == a + b[..n];
      NumberAppend(a, b[..n]);
      Distribute(Number(a), Pow10(n), Number(b[..n]), b[n]);
    }
  }

  lemma {:induction false} Distribute(a: int, p: int, b: int, d: int)
    ensures 10 * (a * p + b) + d == a * (10 * p) + (10 * b + d)
  {
  }

  lemma {:induction false} NumberNext(a: seq<Digit>, d: Digit)
    ensures Number(a + [d]) == 10 * Number(a) + d
  {
    assert (a + [d])[..|a|] == a;
  }

  /** `js_strtod` up to the scaling. Positions past the end read as the terminating zero. */
  method Strtod(s: string) returns (r: Option<Reading>)
    ensures r == Read(s)
  {
    hide Number, Start, MantissaAt, WholeAt, MantissaEnd, DigitsAt, Pow10;
    var p := 0;
    while IsBlank(CharAt(s, p))
      invariant 0 <= p <= |s| && Start(s, p) == Start(s, 0)
      decreases |s| - p
    {
      StartStep(s, p);
      p := p + 1;
    }
    StartStep(s, p);
    var neg := false;
    if CharAt(s, p) == '-' {
      neg := true;
      p := p + 1;
    } else if CharAt(s, p) == '+' {
      p := p + 1;
    }
    ghost var ms := MantissaAt(s, p, false);
    var whole, size, end := Extent(s, p);
    if size == 0 { return None; }
    var used := if size > 18 then 18 else size;
    var fracExp: int := whole as int - used;
    var fraction := Digits18(s, p, used);
    var exp := ExponentField(s, end);
    r := Some(Reading(neg, fraction, fracExp + exp));
  }

  lemma {:induction false} StartStep(s: string, p: nat)
    ensures Start(s, p) == if p < |s| && IsBlank(s[p]) then Start(s, p + 1) else p
  {
  }

  lemma {:induction false} MantissaStep(s: string, p: nat, point: bool)
    ensures p < |s| && IsDigit(s[p]) ==> MantissaAt(s, p, point) == [DigitValue(s[p])] + MantissaAt(s, p + 1, point)
    ensures p < |s| && IsDigit(s[p]) ==>
      MantissaEnd(s, p, point) == MantissaEnd(s, p + 1, point) && WholeAt(s, p) == 1 + WholeAt(s, p + 1)
    ensures !(p < |s| && IsDigit(s[p])) ==> WholeAt(s, p) == 0
    ensures p < |s| && s[p] == '.' && !point ==> MantissaAt(s, p, point) == MantissaAt(s, p + 1, true)
    ensures p < |s| && s[p] == '.' && !point ==> MantissaEnd(s, p, point) == MantissaEnd(s, p + 1, true)
    ensures p >= |s| || (!IsDigit(s[p]) && (s[p] != '.' || point)) ==>
      MantissaAt(s, p, point) == [] && MantissaEnd(s, p, point) == p
  {
  }

  /** The loop that counts the digits and finds the point: the digits before the point, all of
      them, and where they end. */
  method Extent(s: string, start: nat) returns (whole: nat, size: nat, end: nat)
    ensures size == |MantissaAt(s, start, false)| && whole == WholeAt(s, start) && end == MantissaEnd(s, start, false)
  {
    hide MantissaAt, WholeAt, MantissaEnd;
    var p, decPt, mantSize := start, -1, 0;
    while true
      invariant start <= p && mantSize == p - start && -1 <= decPt && (decPt < mantSize || decPt == -1)
      invariant MantissaEnd(s, p, decPt >= 0) == MantissaEnd(s, start, false)
      invariant |MantissaAt(s, start, false)| == (if decPt >= 0 then mantSize - 1 else mantSize)
        + |MantissaAt(s, p, decPt >= 0)|
      invariant if decPt >= 0 then WholeAt(s, start) == decPt else WholeAt(s, start) == mantSize + WholeAt(s, p)
      decreases |s| - p
    {
      MantissaStep(s, p, decPt >= 0);
      var c := CharAt(s, p);
      if !IsDigit(c) {
        if c != '.' || decPt >= 0 { break; }
        decPt := mantSize;
      }
      p := p + 1;
      mantSize := mantSize + 1;
    }
    end := p;
    if decPt < 0 { whole, size := mantSize, mantSize; } else { whole, size := decPt, mantSize - 1; }
  }

  /** The two loops that collect nine digits each. */
  method Digits18(s: string, start: nat, n: nat) returns (fraction: int)
    requires 0 < n <= 18 && n <= |MantissaAt(s, start, false)|
    ensures fraction == Number(MantissaAt(s, start, false)[..n])
  {
    hide Number, MantissaAt, Pow10;
    ghost var ms := MantissaAt(s, start, false);
    var p, mantSize := start, n;
    ghost var point := false;
    NumberEmpty();
    var frac1: int := 0;
    assert ms[0..] == ms;
    while mantSize > 9
      invariant 0 < mantSize <= n && (n > 9 ==> mantSize >= 9) && (n <= 9 ==> mantSize == n)
      invariant MantissaAt(s, p, point) == ms[n - mantSize..] && frac1 == Number(ms[..n - mantSize])
    {
      var d;
      d, p, point := NextMantissaDigit(s, p, point);
      Collected(ms, n - mantSize);
      frac1 := 10 * frac1 + d;
      mantSize := mantSize - 1;
    }
    var frac2: int := 0;
    ghost var k := n - mantSize;
    assert ms[k..k] == [];
    while mantSize > 0
      invariant 0 <= mantSize <= n - k && MantissaAt(s, p, point) == ms[n - mantSize..]
        && frac2 == Number(ms[k..n - mantSize])
    {
      var d;
      d, p, point := NextMantissaDigit(s, p, point);
      CollectedFrom(ms, k, n - mantSize);
      frac2 := 10 * frac2 + d;
      mantSize := mantSize - 1;
    }
    Combined(ms, k, n);
    fraction := 1000000000 * frac1 + frac2;
  }

  lemma {:induction false} Combined(ms: seq<Digit>, k: nat, n: nat)
    requires k <= n <= |ms| && (k == 0 || n - k == 9)
    ensures Number(ms[..n]) == 1000000000 * Number(ms[..k]) + Number(ms[k..n])
  {
    hide Number, Pow10;
    assert ms[..n] == ms[..k] + ms[k..n];
    if k == 0 {
      assert ms[..0] == [] && ms[0..n] == ms[..n];
      NumberEmpty();
    } else {
      NumberAppend(ms[..k], ms[k..n]);
      Nine();
    }
  }

  lemma {:induction false} Nine()
    ensures Pow10(9) == 1000000000
  {
    Powers10();
    assert Pow10(5) == 100 * Pow10(3) && Pow10(7) == 100 * Pow10(5) && Pow10(9) == 100 * Pow10(7);
  }

  lemma {:induction false} Collected(ms: seq<Digit>, i: nat)
    requires i < |ms|
    ensures Number(ms[..i + 1]) == 10 * Number(ms[..i]) + ms[i] && ms[i..] == [ms[i]] + ms[i + 1..]
  {
    assert ms[..i + 1] == ms[..i] + [ms[i]];
    NumberNext(ms[..i], ms[i]);
  }

  lemma {:induction false} CollectedFrom(ms: seq<Digit>, k: nat, i: nat)
    requires k <= i < |ms|
    ensures Number(ms[k..i + 1]) == 10 * Number(ms[k..i]) + ms[i] && ms[i..] == [ms[i]] + ms[i + 1..]
  {
    assert ms[k..i + 1] == ms[k..i] + [ms[i]];
    NumberNext(ms[k..i], ms[i]);
  }

  /** The next digit, past the point if that stands before it. */
  method NextMantissaDigit(s: string, p: nat, ghost point: bool) returns (d: Digit, q: nat, ghost after: bool)
    requires MantissaAt(s, p, point) != []
    ensures MantissaAt(s, p, point) == [d] + MantissaAt(s, q, after)
  {
    var c := CharAt(s, p);
    q, after := p + 1, point;
    if c == '.' {
      c := CharAt(s, q);
      q, after := q + 1, true;
    }
    d := DigitValue(c);
  }

  method ExponentField(s: string, start: nat) returns (exp: int)
    ensures exp == ExponentAt(s, start)
  {
    hide Number, DigitsAt;
    var p, expSign := start, false;
    exp := 0;
    if CharAt(s, p) == 'E' || CharAt(s, p) == 'e' {
      p := p + 1;
      if CharAt(s, p) == '-' {
        expSign := true;
        p := p + 1;
      } else if CharAt(s, p) == '+' {
        p := p + 1;
      }
      ghost var all := DigitsAt(s, p);
      ghost var done: seq<Digit> := [];
      NumberEmpty();
      assert all == done + all;
      while IsDigit(CharAt(s, p))
        invariant all == done + DigitsAt(s, p) && exp == Number(done)
        decreases |s| - p
      {
        DigitsStep(s, p);
        NumberNext(done, DigitValue(s[p]));
        exp := exp * 10 + DigitValue(CharAt(s, p));
        done := done + [DigitValue(s[p])];
        p := p + 1;
      }
      DigitsStep(s, p);
      assert done == all;
      if expSign { exp := -exp; }
    }
  }

  lemma {:induction false} DigitsStep(s: string, p: nat)
    ensures DigitsAt(s, p) == if p < |s| && IsDigit(s[p]) then [DigitValue(s[p])] + DigitsAt(s, p + 1) else []
  {
  }

  // ----- reading what was written -----

  /** The digits ds stand in s from p on. */
  ghost predicate Stands(s: string, p: nat, ds: seq<Digit>) {
    p + |ds| <= |s| && forall i | 0 <= i < |ds| :: s[p + i] == DigitChar(ds[i])
  }

  lemma {:induction false} StandsRest(s: string, p: nat, ds: seq<Digit>)
    requires Stands(s, p, ds) && ds != []
    ensures Stands(s, p + 1, ds[1..])
  {
    forall i | 0 <= i < |ds[1..]|
      ensures s[p + 1 + i] == DigitChar(ds[1..][i])
    {
      assert s[p + (i + 1)] == DigitChar(ds[i + 1]);
    }
  }

  lemma {:induction false} MantissaStands(s: string, p: nat, ds: seq<Digit>, point: bool)
    requires Stands(s, p, ds)
    ensures MantissaAt(s, p, point) == ds + MantissaAt(s, p + |ds|, point)
    ensures MantissaEnd(s, p, point) == MantissaEnd(s, p + |ds|, point)
    ensures WholeAt(s, p) == |ds| + WholeAt(s, p + |ds|)
    decreases |ds|
  {
    hide MantissaAt, MantissaEnd, WholeAt;
    if ds != [] {
      assert s[p] == DigitChar(ds[0]);
      StandsRest(s, p, ds);
      MantissaStep(s, p, point);
      MantissaStands(s, p + 1, ds[1..], point);
      assert ds == [ds[0]] + ds[1..];
    }
  }

  lemma {:induction false} DigitsStand(s: string, p: nat, ds: seq<Digit>)
    requires Stands(s, p, ds) && p + |ds| == |s|
    ensures DigitsAt(s, p) == ds
    decreases |ds|
  {
    hide DigitsAt;
    DigitsStep(s, p);
    if ds != [] {
      assert s[p] == DigitChar(ds[0]);
      StandsRest(s, p, ds);
      DigitsStand(s, p + 1, ds[1..]);
      assert ds == [ds[0]] + ds[1..];
    }
  }

  /** The exponent's text is read as the exponent. */
  lemma {:induction false} ExponentStands(s: string, p: nat, e: int)
    requires p <= |s| && e != 0 && s[p..] == ExponentText(e)
    ensures ExponentAt(s, p) == e
  {
    hide DigitText, DigitsAt, Number, DigitsOf;
    var n := if e < 0 then -e else e;
    var t := DigitText(DigitsOf(n));
    assert s[p..][0] == 'e' && s[p..][1] == (if e < 0 then '-' else '+');
    assert forall i | 0 <= i < |t| :: s[p..][2 + i] == t[i];
    DigitsStand(s, p + 2, DigitsOf(n));
    DigitsOfNumber(n);
  }

  /** A written number is read back as its sign, its first 18 digits and its exponent. */
  lemma {:induction false} ReadRender(d: Decimal)
    requires Proper(d)
    ensures var ms := d.whole + d.part;
      var k := Least(|ms|, 18);
      var e := if d.exponent.Some? then d.exponent.value else 0;
      Read(Render(d)) == Some(Reading(d.neg, Number(ms[..k]), |d.whole| - k + e))
  {
    hide MantissaAt, MantissaEnd, WholeAt, Number, ExponentText, ExponentAt, Start, Stands, Render;
    var s := Render(d);
    RenderStands(d);
    var q := if d.neg then 1 else 0;
    StartStep(s, 0);
    TailStops(s, if d.point then q + |d.whole| + 1 + |d.part| else q + |d.whole|, d);
    MantissaRead(s, q, d);
  }

  /** The mantissa of a written number, read from its first digit on. */
  lemma {:induction false} MantissaRead(s: string, q: nat, d: Decimal)
    requires Proper(d) && Stands(s, q, d.whole)
    requires var p1 := q + |d.whole|;
      var p2 := if d.point then p1 + 1 + |d.part| else p1;
      && (d.point ==> p1 < |s| && s[p1] == '.' && Stands(s, p1 + 1, d.part))
      && (p2 >= |s| || (!IsDigit(s[p2]) && s[p2] != '.'))
    ensures MantissaAt(s, q, false) == d.whole + d.part && WholeAt(s, q) == |d.whole|
    ensures MantissaEnd(s, q, false) == if d.point then q + |d.whole| + 1 + |d.part| else q + |d.whole|
  {
    hide MantissaAt, MantissaEnd, WholeAt, Stands;
    var p1 := q + |d.whole|;
    MantissaStands(s, q, d.whole, false);
    MantissaStep(s, p1, false);
    if d.point {
      MantissaStands(s, p1 + 1, d.part, true);
      MantissaStep(s, p1 + 1 + |d.part|, true);
      assert d.part + [] == d.part;
    } else {
      assert d.whole + [] == d.whole + d.part;
    }
  }

  /** Where the parts of a written number stand. */
  lemma {:induction false} RenderStands(d: Decimal)
    requires Proper(d)
    ensures var s, q := Render(d), if d.neg then 1 else 0;
      var p1 := q + |d.whole|;
      var p2 := if d.point then p1 + 1 + |d.part| else p1;
      && p2 <= |s| && Stands(s, q, d.whole) && IsDigit(s[q]) && (d.neg ==> s[0] == '-')
      && (d.point ==> s[p1] == '.' && Stands(s, p1 + 1, d.part))
      && s[p2..] == if d.exponent.Some? then ExponentText(d.exponent.value) else ""
  {
    hide DigitText, ExponentText;
    var sign := if d.neg then "-" else "";
    var w := DigitText(d.whole);
    var part := if d.point then "." + DigitText(d.part) else "";
    var ex := if d.exponent.Some? then ExponentText(d.exponent.value) else "";
    var s := sign + w + part + ex;
    assert Render(d) == s;
    assert forall i | 0 <= i < |w| :: s[|sign| + i] == w[i];
    if d.point {
      assert s[|sign| + |w|] == '.';
      assert forall i | 0 <= i < |d.part| :: s[|sign| + |w| + 1 + i] == DigitText(d.part)[i];
    }
    assert s[|sign| + 0] == w[0];
  }

  /** Behind the mantissa stands the exponent or nothing. */
  lemma {:induction false} TailStops(s: string, p: nat, d: Decimal)
    requires Proper(d) && p <= |s| && s[p..] == if d.exponent.Some? then ExponentText(d.exponent.value) else ""
    ensures p >= |s| || s[p] == 'e'
    ensures ExponentAt(s, p) == if d.exponent.Some? then d.exponent.value else 0
  {
    hide DigitText, DigitsAt, Number;
    if d.exponent.Some? {
      assert s[p..][0] == 'e';
      ExponentStands(s, p, d.exponent.value);
    }
  }

  lemma {:induction false} Pow10Add(j: nat, k: nat)
    ensures Pow10(j + k) == Pow10(j) * Pow10(k)
    decreases j
  {
    if j > 0 { Pow10Add(j - 1, k); }
  }

  /** Two decimal numbers are the same if they are when both are scaled to a lower power. */
  lemma {:induction false} SameAt(a: int, e: int, b: int, f: int, m: int)
    requires m <= e && m <= f
    ensures Same(a, e, b, f) <==> a * Pow10(e - m) == b * Pow10(f - m)
  {
    hide Pow10;
    if e >= f {
      Pow10Add(e - f, f - m);
      Cancelled(a, Pow10(e - f), b, Pow10(f - m));
    } else {
      Pow10Add(f - e, e - m);
      Cancelled(b, Pow10(f - e), a, Pow10(e - m));
    }
  }

  lemma {:induction false} Cancelled(a: int, p: int, b: int, q: int)
    requires q >= 1
    ensures a * p == b <==> a * (p * q) == b * q
  {
    assert a * (p * q) == a * p * q;
    var d := a * p - b;
    assert d * q == a * p * q - b * q;
    assert d >= 1 ==> d * q >= q;
    assert d <= -1 ==> d * q <= -q;
  }

  lemma {:induction false} SameTrans(a: int, e: int, b: int, f: int, c: int, g: int)
    requires Same(b, f, c, g)
    ensures Same(a, e, b, f) <==> Same(a, e, c, g)
  {
    hide Same, Pow10;
    var m := if e <= f && e <= g then e else if f <= g then f else g;
    SameAt(a, e, b, f, m);
    SameAt(b, f, c, g, m);
    SameAt(a, e, c, g, m);
  }

  lemma {:induction false} NumberZero(ds: seq<Digit>)
    ensures 0 <= Number(ds) && (Number(ds) == 0 <==> forall i | 0 <= i < |ds| :: ds[i] == 0)
    decreases |ds|
  {
    if ds != [] {
      NumberZero(ds[..|ds| - 1]);
      assert forall i | 0 <= i < |ds| - 1 :: ds[..|ds| - 1][i] == ds[i];
    }
  }

  /** Only the first 18 digits of a text count. */
  ghost predicate RestIsZero(ms: seq<Digit>) {
    forall i | 18 <= i < |ms| :: ms[i] == 0
  }

  /** Reading gives exactly the number written if and only if every digit after the first 18 of its
      mantissa, leading zeros counted, is zero. */
  lemma {:induction false} ReadExact(d: Decimal)
    requires Proper(d)
    ensures var r := Read(Render(d));
      r.Some? && r.value.neg == d.neg
      && (Same(r.value.fraction, r.value.exp, Mantissa(d), Scale10(d)) <==> RestIsZero(d.whole + d.part))
  {
    hide Number, Read, Render, Same, Pow10;
    ReadRender(d);
    var ms := d.whole + d.part;
    if |ms| <= 18 {
      assert ms[..|ms|] == ms;
      SameSame(Number(ms), Scale10(d));
    } else {
      var r := Read(Render(d)).value;
      assert ms == ms[..18] + ms[18..];
      NumberAppend(ms[..18], ms[18..]);
      NumberZero(ms[18..]);
      assert forall i | 18 <= i < |ms| :: ms[18..][i - 18] == ms[i];
      SameAt(r.fraction, r.exp, Mantissa(d), Scale10(d), Scale10(d));
      PowZero();
    }
  }

  lemma {:induction false} PowZero()
    ensures Pow10(0) == 1
  {
  }

  /** The round trip: the text that jsV_numbertostring makes of digits * 10^exp is read by js_strtod
      as exactly that number, if and only if no digit other than zero is beyond the first 18. */
  lemma {:induction false} RoundTrip(neg: bool, ds: seq<Digit>, exp: int)
    requires ds != []
    ensures var d := Layout(neg, ds, exp);
      Proper(d) && var r := Read(Render(d));
      r.Some? && r.value.neg == neg
        && (Same(r.value.fraction, r.value.exp, Number(ds), exp) <==> RestIsZero(d.whole + d.part))
  {
    hide Number, Read, Render, Same, Layout, Pow10;
    var d := Layout(neg, ds, exp);
    LayoutValue(neg, ds, exp);
    ReadExact(d);
    var r := Read(Render(d)).value;
    SameTrans(r.fraction, r.exp, Mantissa(d), Scale10(d), Number(ds), exp);
  }

  /** When that is, in terms of the digits: at most 18 digits, or zeros from there on, with as many
      zeros in front as a point at or before the first digit asks for. */
  lemma {:induction false} RoundTripDigits(neg: bool, ds: seq<Digit>, exp: int)
    requires ds != []
    ensures var point, d := |ds| + exp, Layout(neg, ds, exp);
      var before := if -5 <= point <= 0 then 1 - point else 0;
      RestIsZero(d.whole + d.part) <==> forall i | 18 - before <= i < |ds| :: ds[i] == 0
  {
    var point, d := |ds| + exp, Layout(neg, ds, exp);
    var before := if -5 <= point <= 0 then 1 - point else 0;
    var ms := d.whole + d.part;
    if -5 <= point <= 0 {
      ZerosFront(-point);
      assert ms == Zeros(before) + ds;
      assert forall i | 0 <= i < |ds| :: ms[before + i] == ds[i];
      assert forall i | before <= i < |ms| :: ms[i] == ds[i - before];
    } else {
      if |ds| <= point <= 21 {
        ZerosBehind(ds, point - |ds|);
        assert ms == ds + Zeros(point - |ds|);
      } else {
        assert ms == ds;
      }
    }
  }

  lemma {:induction false} ZerosBehind(ds: seq<Digit>, n: nat)
    ensures RestIsZero(ds + Zeros(n)) <==> forall i | 18 <= i < |ds| :: ds[i] == 0
  {
    var ms := ds + Zeros(n);
    assert forall i | 0 <= i < |ds| :: ms[i] == ds[i];
    forall i | |ds| <= i < |ms|
      ensures ms[i] == 0
    {
      assert ms[i] == Zeros(n)[i - |ds|];
      assert Zeros(n)[i - |ds|] in Zeros(n);
    }
  }

  /** Seventeen digits with the point one place before them: "0.0" and the digits, of which the last
      one is lost. */
  lemma {:induction false} RoundTripFails(ds: seq<Digit>)
    requires |ds| == 17 && ds[16] != 0
    ensures var d := Layout(false, ds, -18);
      Proper(d) && var r := Read(Render(d));
      r.Some? && !Same(r.value.fraction, r.value.exp, Number(ds), -18)
  {
    hide Number, Read, Render, Same, Layout;
    RoundTrip(false, ds, -18);
    RoundTripDigits(false, ds, -18);
  }
}
