/** All the spellings of a decimal number, and what js_strtod reads of each. */
module NumberForms {
  import opened Grisu
  import opened NumberText
  import opened Utf

  /** Blanks, a sign, digits with or without a point among them, and an exponent: a letter, a sign and
      digits, each of which may be missing. */
  datatype Spelling = Spelling(blanks: string, sign: string, whole: seq<Digit>, point: bool, part: seq<Digit>,
    mark: string, esign: string, es: seq<Digit>)

  predicate Spellable(x: Spelling) {
    && (forall i | 0 <= i < |x.blanks| :: x.blanks[i] in [' ', '\t', '\n', '\r'])
    && x.sign in ["", "+", "-"] && x.whole + x.part != [] && (!x.point ==> x.part == [])
    && x.mark in ["", "e", "E"] && x.esign in ["", "+", "-"] && (x.mark == "" ==> x.esign == "" && x.es == [])
  }

  function PartText(x: Spelling): string {
    if x.point then "." + DigitText(x.part) else ""
  }

  function ExpText(x: Spelling): string {
    x.mark + x.esign + DigitText(x.es)
  }

  function Spelled(x: Spelling): string {
    x.blanks + x.sign + DigitText(x.whole) + PartText(x) + ExpText(x)
  }

  /** A text behind which none of these goes on. */
  predicate Ends(rest: string) {
    rest == "" || !(('0' <= rest[0] <= '9') || rest[0] == '.' || rest[0] == 'e' || rest[0] == 'E'
      || rest[0] == '+' || rest[0] == '-')
  }

  lemma {:induction false} Slices(x: Spelling, rest: string)
    ensures var s := Spelled(x) + rest;
      var q := |x.blanks| + |x.sign|;
      var p2 := q + |x.whole| + |PartText(x)|;
      && At(s, 0, x.blanks) && At(s, |x.blanks|, x.sign) && At(s, q, DigitText(x.whole))
      && At(s, q + |x.whole|, PartText(x)) && At(s, p2, ExpText(x)) && At(s, p2 + |ExpText(x)|, rest)
      && |s| == p2 + |ExpText(x)| + |rest|
  {
    hide DigitText, At, PartText, ExpText;
    var s := Spelled(x) + rest;
    var whole, part, tail := DigitText(x.whole), PartText(x), ExpText(x);
    AtWhole(s);
    AtParts(s, 0, Spelled(x), rest);
    AtParts(s, 0, x.blanks + x.sign + whole + part, tail);
    AtParts(s, 0, x.blanks + x.sign + whole, part);
    AtParts(s, 0, x.blanks + x.sign, whole);
    AtParts(s, 0, x.blanks, x.sign);
  }

  /** Where the parts of the text are. */
  lemma {:induction false} Places(x: Spelling, rest: string)
    requires Spellable(x)
    ensures var s := Spelled(x) + rest;
      var q := |x.blanks| + |x.sign|;
      var p1 := q + |x.whole|;
      var p2 := p1 + |PartText(x)|;
      var p3 := p2 + |ExpText(x)|;
      && p3 <= |s| && s[p3..] == rest
      && (forall i | 0 <= i < |x.blanks| :: s[i] == x.blanks[i])
      && (x.sign != "" ==> s[|x.blanks|] == x.sign[0])
      && Stands(s, q, x.whole) && At(s, p1, PartText(x)) && At(s, p2, ExpText(x))
  {
    hide DigitText, At, PartText, ExpText, Stands, Spelled;
    var s := Spelled(x) + rest;
    Slices(x, rest);
    var q := |x.blanks| + |x.sign|;
    AtEnd(s, q + |x.whole| + |PartText(x)| + |ExpText(x)|, rest);
    forall i | 0 <= i < |x.blanks|
      ensures i < |s| && s[i] == x.blanks[i]
    {
      AtChar(s, 0, x.blanks, i);
    }
    if x.sign != "" { AtChar(s, |x.blanks|, x.sign, 0); }
    StandsThere(s, q, x.whole);
  }

  lemma {:induction false} AtChar(s: string, p: nat, t: string, i: nat)
    requires At(s, p, t) && i < |t|
    ensures p + i < |s| && s[p + i] == t[i]
  {
    assert s[p + i] == s[p..p + |t|][i];
  }

  lemma {:induction false} AtIn(s: string, p: nat, t: string)
    requires At(s, p, t)
    ensures p + |t| <= |s|
  {
  }

  lemma {:induction false} AtWhole(s: string)
    ensures At(s, 0, s)
  {
  }

  lemma {:induction false} AtEnd(s: string, p: nat, t: string)
    requires At(s, p, t) && |s| == p + |t|
    ensures s[p..] == t
  {
  }

  lemma {:induction false} PartPlaces(x: Spelling, s: string, p: nat)
    requires Spellable(x) && At(s, p, PartText(x))
    ensures x.point ==> |PartText(x)| == 1 + |x.part| && p < |s| && s[p] == '.' && Stands(s, p + 1, x.part)
  {
    hide DigitText, At, Stands;
    if x.point {
      AtChar(s, p, PartText(x), 0);
      AtParts(s, p, ".", DigitText(x.part));
      StandsThere(s, p + 1, x.part);
    }
  }

  lemma {:induction false} ExpPlaces(x: Spelling, s: string, p: nat)
    requires Spellable(x) && At(s, p, ExpText(x))
    ensures |ExpText(x)| == |x.mark| + |x.esign| + |x.es| && p + |ExpText(x)| <= |s|
    ensures x.mark != "" ==> p < |s| && s[p] == x.mark[0]
    ensures x.mark != "" && x.esign != "" ==> p + 1 < |s| && s[p + 1] == x.esign[0]
    ensures Stands(s, p + |x.mark| + |x.esign|, x.es)
  {
    hide DigitText, At, Stands;
    AtParts(s, p, x.mark + x.esign, DigitText(x.es));
    AtParts(s, p, x.mark, x.esign);
    StandsThere(s, p + |x.mark| + |x.esign|, x.es);
    if x.mark != "" { AtChar(s, p, x.mark, 0); }
    if x.mark != "" && x.esign != "" { AtChar(s, p + 1, x.esign, 0); }
  }

  lemma {:induction false} StandsThere(s: string, p: nat, ds: seq<Digit>)
    requires At(s, p, DigitText(ds))
    ensures p + |ds| <= |s| && Stands(s, p, ds)
  {
    hide At;
    AtIn(s, p, DigitText(ds));
    forall i | 0 <= i < |ds|
      ensures s[p + i] == DigitChar(ds[i])
    {
      AtChar(s, p, DigitText(ds), i);
    }
  }

  lemma {:induction false} StartBehind(s: string, p: nat, n: nat)
    requires p <= n <= |s| && (forall i | p <= i < n :: IsBlank(s[i])) && (n == |s| || !IsBlank(s[n]))
    ensures NumberText.Start(s, p) == n
    decreases n - p
  {
    if p < n { StartBehind(s, p + 1, n); }
  }

  lemma {:induction false} DigitsReadHere(s: string, p: nat, ds: seq<Digit>)
    requires Stands(s, p, ds) && !IsDigit(CharAt(s, p + |ds|))
    ensures DigitsAt(s, p) == ds
    decreases |ds|
  {
    hide DigitsAt;
    DigitsStep(s, p);
    if ds != [] {
      assert s[p + 0] == DigitChar(ds[0]);
      StandsRest(s, p, ds);
      DigitsReadHere(s, p + 1, ds[1..]);
      assert ds == [ds[0]] + ds[1..];
    }
  }

  /** The exponent of a spelling. */
  function ExpOf(x: Spelling): int {
    if x.esign == "-" then -Number(x.es) else Number(x.es)
  }

  /** Every spelling, whatever stands behind it, is read as its sign, the number of its first 18 digits
      and the power of ten that belongs to them. */
  lemma {:induction false} ReadSpelled(x: Spelling, rest: string)
    requires Spellable(x) && Ends(rest)
    ensures var ms := x.whole + x.part;
      var k := Least(|ms|, 18);
      Read(Spelled(x) + rest) == Some(Reading(x.sign == "-", Number(ms[..k]), |x.whole| - k + ExpOf(x)))
  {
    hide MantissaAt, MantissaEnd, WholeAt, Number, ExponentAt, NumberText.Start, Stands, DigitText, PartText;
    hide ExpText, At, Spelled;
    var s := Spelled(x) + rest;
    Places(x, rest);
    var q := |x.blanks| + |x.sign|;
    var p2 := q + |x.whole| + |PartText(x)|;
    PartPlaces(x, s, q + |x.whole|);
    ExpPlaces(x, s, p2);
    PartSize(x);
    assert |DigitText(x.whole)| == |x.whole|;
    FirstChar(x, s, q);
    StartBehind(s, 0, |x.blanks|);
    ExponentRead(x, s, p2, rest);
    MantissaHere(x, s, q, p2);
  }

  lemma {:induction false} PartSize(x: Spelling)
    ensures |PartText(x)| == if x.point then 1 + |x.part| else 0
  {
  }

  /** What stands behind the blanks and the sign is a digit or the point. */
  lemma {:induction false} FirstChar(x: Spelling, s: string, q: nat)
    requires Spellable(x) && Stands(s, q, x.whole)
    requires x.point ==> q + |x.whole| < |s| && s[q + |x.whole|] == '.'
    requires q == |x.blanks| + |x.sign| && q <= |s| && (x.sign != "" ==> s[|x.blanks|] == x.sign[0])
    ensures q < |s| && (IsDigit(s[q]) || s[q] == '.')
    ensures !IsBlank(s[|x.blanks|])
    ensures x.sign == "" ==> s[q] != '-' && s[q] != '+'
  {
    if x.whole != [] { assert s[q + 0] == DigitChar(x.whole[0]); }
  }

  lemma {:induction false} MantissaHere(x: Spelling, s: string, q: nat, p2: nat)
    requires Spellable(x) && Stands(s, q, x.whole)
    requires p2 == q + |x.whole| + if x.point then 1 + |x.part| else 0
    requires x.point ==> q + |x.whole| < |s| && s[q + |x.whole|] == '.' && Stands(s, q + |x.whole| + 1, x.part)
    requires p2 >= |s| || (!IsDigit(s[p2]) && s[p2] != '.')
    ensures MantissaAt(s, q, false) == x.whole + x.part && WholeAt(s, q) == |x.whole| && MantissaEnd(s, q, false) == p2
  {
    hide MantissaAt, MantissaEnd, WholeAt, Stands;
    var p1 := q + |x.whole|;
    MantissaStands(s, q, x.whole, false);
    MantissaStep(s, p1, false);
    if x.point {
      MantissaStands(s, p1 + 1, x.part, true);
      MantissaStep(s, p1 + 1 + |x.part|, true);
      assert x.part + [] == x.part;
    } else {
      assert x.whole + [] == x.whole + x.part;
    }
  }

  lemma {:induction false} ExponentRead(x: Spelling, s: string, p: nat, rest: string)
    requires Spellable(x) && Ends(rest) && p + |ExpText(x)| <= |s| && s[p + |ExpText(x)|..] == rest
    requires x.mark != "" ==> p < |s| && s[p] == x.mark[0]
    requires x.mark != "" && x.esign != "" ==> p + 1 < |s| && s[p + 1] == x.esign[0]
    requires Stands(s, p + |x.mark| + |x.esign|, x.es)
    ensures ExponentAt(s, p) == ExpOf(x)
    ensures p >= |s| || (!IsDigit(s[p]) && s[p] != '.')
  {
    hide DigitsAt, Number, DigitText;
    var a := p + |x.mark| + |x.esign|;
    assert p + |ExpText(x)| == a + |x.es|;
    if rest != "" { assert s[a + |x.es|] == s[p + |ExpText(x)|..][0]; }
    DigitsReadHere(s, a, x.es);
    NumberEmpty();
    if x.mark != "" && x.esign == "" && x.es != [] { assert s[a + 0] == DigitChar(x.es[0]); }
  }
}
