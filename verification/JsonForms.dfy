/** The texts of JSON, character by character: what is parsed though it is never printed, which is
    white space in front, numbers of every form, escapes in either case and characters as they are;
    and what is printed. */
module JsonForms {
  import opened Utf
  import opened Grisu
  import opened NumberText
  import opened NumberForms
  import opened JsonText
  import opened JsonLexer
  import opened JsonParser
  import opened JsonRoundTrip

  /** The value that a whole text of one token is parsed as. */
  lemma {:induction false} OneToken(s: string, t: Token, v: Json)
    requires Lex(s, 0) == Tok(t, |s|)
    requires match t
      case TString(x) => v == JStr(x)
      case TNumber(r) => v == JNum(r)
      case TNull => v == JNull
      case _ => false
    ensures Parse(s) == Some(v)
  {
    hide Lex, At, Stops;
    Whole(s);
    AfterIs(s, v, |s|);
  }

  // ----- strings of one character -----

  lemma {:induction false} LookRune(s: string, p: nat, r: Rune)
    requires At(s, p, RuneText(r))
    ensures p < |s| && Look(s, p) == (if r in [10, 13, 0x2028, 0x2029] then 10 else r)
    ensures r != 13 ==> Behind(s, p) == p + |RuneText(r)|
  {
    hide At, RuneAt;
    RuneBack(s, p, r);
    ByteIn(s, p, RuneText(r), 0);
  }

  lemma {:induction false} QuoteEnds(s: string, p: nat)
    requires At(s, p, "\"")
    ensures p < |s| && Look(s, p) == 34 && Behind(s, p) == p + 1
    ensures StringAt(s, p).Some? && StringAt(s, p).value.0 == [] && StringAt(s, p).value.1 == p + 1
  {
    hide At, Look, Behind, StringAt;
    ByteIn(s, p, "\"", 0);
    AsciiIn(s, p, "\"", 0);
    StringStep(s, p);
  }

  lemma {:induction false} NothingBehind(s: string)
    ensures StringAt(s, |s|) == None
  {
  }

  /** A text that begins with a quotation mark. */
  lemma {:induction false} InQuotes(s: string)
    requires At(s, 0, "\"")
    ensures s != [] && (StringAt(s, 1).None? ==> Lex(s, 0) == Bad)
    ensures StringAt(s, 1).Some? ==> Lex(s, 0) == Tok(TString(Cut(StringAt(s, 1).value.0)), StringAt(s, 1).value.1)
  {
    hide At, Look, Behind, StringAt, Lex, Cut;
    QuoteEnds(s, 0);
    NoWhite(s, 0);
  }

  lemma {:induction false} BadParse(s: string)
    requires Lex(s, 0) == Bad || (Lex(s, 0).Tok? && Lex(s, 0).t.TString? && Lex(s, Lex(s, 0).q) == Bad)
    ensures Parse(s) == None
  {
    hide Lex;
  }

  /** A text that is one string. */
  lemma {:induction false} OneString(s: string, x: string)
    requires At(s, 0, "\"") && s != [] && StringAt(s, 1).Some? && StringAt(s, 1).value.0 == x
    requires StringAt(s, 1).value.1 == |s|
    ensures Parse(s) == Some(JStr(Cut(x)))
  {
    hide At, StringAt, Lex, Cut, Parse;
    InQuotes(s);
    OneToken(s, TString(Cut(x)), JStr(Cut(x)));
  }

  lemma {:induction false} NoString(s: string)
    requires At(s, 0, "\"") && s != [] && StringAt(s, 1).None?
    ensures Parse(s) == None
  {
    hide At, StringAt, Lex, Cut, Parse;
    InQuotes(s);
    BadParse(s);
  }

  lemma {:induction false} CutRune(r: Rune)
    requires r != 0
    ensures Cut(RuneText(r)) == RuneText(r)
  {
    hide RuneText, Cut;
    NoZeroByte(r);
    CutMeans(RuneText(r));
  }

  /** Where the character and the closing mark are. */
  lemma {:induction false} Between(c: string)
    ensures var s := "\"" + c + "\"";
      At(s, 0, "\"") && At(s, 1, c) && At(s, 1 + |c|, "\"") && |s| == |c| + 2
  {
    hide At;
    var s := "\"" + c + "\"";
    AtWhole(s);
    AtParts(s, 0, "\"" + c, "\"");
    AtParts(s, 0, "\"", c);
  }

  /** A character stands for itself, but for control characters, the quotation mark, the backslash and
      the two line separators, which are no string. */
  lemma {:induction false} PlainString(r: Rune)
    ensures Parse("\"" + RuneText(r) + "\"") ==
      if r < 32 || r in [34, 92, 0x2028, 0x2029] then None else Some(JStr(RuneText(r)))
  {
    hide At, Look, Behind, StringAt, Parse, RuneText, Cut;
    var c := RuneText(r);
    var s := "\"" + c + "\"";
    Between(c);
    LookRune(s, 1, r);
    QuoteEnds(s, 1 + |c|);
    StringStep(s, 1);
    if r == 34 {
      assert RuneText(34) == "\"" by { MarkText(); }
      QuoteThrice(s);
    } else if r == 92 {
      NothingBehind(s);
      NoString(s);
    } else if r < 32 || r == 0x2028 || r == 0x2029 {
      NoString(s);
    } else {
      assert c + [] == c;
      OneString(s, c);
      CutRune(r);
    }
  }

  lemma {:induction false} MarkText()
    ensures RuneText(34) == "\""
  {
  }

  lemma {:induction false} QuoteThrice(s: string)
    requires |s| == 3 && At(s, 0, "\"") && At(s, 1, "\"") && At(s, 2, "\"")
    ensures Parse(s) == None
  {
    hide At, Look, Behind, StringAt, Parse, Cut, Lex;
    InQuotes(s);
    QuoteEnds(s, 1);
    QuoteEnds(s, 2);
    NoWhite(s, 2);
    NothingBehind(s);
    BadParse(s);
  }

  // ----- escapes -----

  /** The letters of the escapes of one letter, and what each stands for. */
  const LETTERS: seq<Rune> := [34, 92, 98, 102, 110, 114, 116]
  const MEANT: seq<Rune> := [34, 92, 8, 12, 10, 13, 9]

  /** A backslash and a character other than u is one of these, or no string. */
  lemma {:induction false} LetterEscape(r: Rune)
    requires r != 117
    ensures r !in LETTERS ==> Parse("\"" + ("\\" + RuneText(r)) + "\"") == None
    ensures forall i | 0 <= i < 7 && LETTERS[i] == r ::
      Parse("\"" + ("\\" + RuneText(r)) + "\"") == Some(JStr([MEANT[i] as char]))
  {
    hide At, Look, Behind, StringAt, Parse, RuneText, Cut;
    var c := "\\" + RuneText(r);
    var s := "\"" + c + "\"";
    Between(c);
    AtParts(s, 1, "\\", RuneText(r));
    ByteIn(s, 1, "\\", 0);
    AsciiIn(s, 1, "\\", 0);
    LookRune(s, 2, r);
    QuoteEnds(s, 1 + |c|);
    StringStep(s, 1);
    if r in LETTERS {
      var i :| 0 <= i < 7 && LETTERS[i] == r;
      OneLetter(r, i);
      assert RuneText(MEANT[i]) + [] == RuneText(MEANT[i]);
      OneString(s, RuneText(MEANT[i]));
      CutRune(MEANT[i]);
    } else {
      NoString(s);
    }
  }

  lemma {:induction false} OneLetter(r: Rune, i: nat)
    requires i < 7 && LETTERS[i] == r
    ensures Letter(r) == Some(MEANT[i]) && RuneText(MEANT[i]) == [MEANT[i] as char] && r !in [10, 13, 0x2028, 0x2029]
    ensures MEANT[i] != 0 && forall j | 0 <= j < 7 && LETTERS[j] == r :: j == i
  {
  }

  /** The digits of each value, in either case. */
  const HEX: seq<string> := ["0", "1", "2", "3", "4", "5", "6", "7", "8", "9", "aA", "bB", "cC", "dD", "eE", "fF"]

  lemma {:induction false} HexIs(c: char, i: nat)
    requires i < 16 && c in HEX[i]
    ensures IsHex(c as int) && HexValue(c as int) == i && 48 <= c as int < 128
  {
  }

  /** The escape \u with four digits a, b, c and d, in either case, is that character. */
  lemma {:induction false} HexEscape(t: string, a: nat, b: nat, c: nat, d: nat)
    requires |t| == 4 && a < 16 && b < 16 && c < 16 && d < 16
    requires t[0] in HEX[a] && t[1] in HEX[b] && t[2] in HEX[c] && t[3] in HEX[d]
    ensures var r: Rune := a * 4096 + b * 256 + c * 16 + d;
      Parse("\"" + ("\\u" + t) + "\"") == Some(JStr(if r == 0 then "" else RuneText(r)))
  {
    hide At, Look, Behind, StringAt, Parse, RuneText, Cut, HexAt;
    var r: Rune := a * 4096 + b * 256 + c * 16 + d;
    var u := "\\u" + t;
    var s := "\"" + u + "\"";
    Between(u);
    AtParts(s, 1, "\\u", t);
    InText(s, 3, t);
    AsciiIn(s, 1, "\\u", 0);
    AsciiIn(s, 1, "\\u", 1);
    HexThere(s, 3, t, a, b, c, d);
    QuoteEnds(s, 7);
    StringStep(s, 1);
    assert RuneText(r) + [] == RuneText(r);
    OneString(s, RuneText(r));
    if r == 0 { CutZero(); } else { CutRune(r); }
  }

  lemma {:induction false} CutZero()
    ensures Cut(RuneText(0)) == ""
  {
  }

  lemma {:induction false} HexThere(s: string, p: nat, t: string, a: nat, b: nat, c: nat, d: nat)
    requires |t| == 4 && a < 16 && b < 16 && c < 16 && d < 16 && p <= |s| && At(s, p, t)
    requires t[0] in HEX[a] && t[1] in HEX[b] && t[2] in HEX[c] && t[3] in HEX[d]
    ensures HexAt(s, p) == (RuneText(a * 4096 + b * 256 + c * 16 + d), p + 4)
  {
    hide At, Look, Behind, HexValue, IsHex, RuneText;
    HexIs(t[0], a);
    HexIs(t[1], b);
    HexIs(t[2], c);
    HexIs(t[3], d);
    AsciiIn(s, p, t, 0);
    AsciiIn(s, p, t, 1);
    AsciiIn(s, p, t, 2);
    AsciiIn(s, p, t, 3);
  }

  /** A character that is none of these ends the escape, and stands for itself. */
  lemma {:induction false} NoHexEscape(r: Rune)
    requires 32 <= r && r !in [34, 92, 0x2028, 0x2029]
    requires forall i, c | 0 <= i < 16 && c in HEX[i] :: c as int != r
    ensures Parse("\"" + ("\\u" + RuneText(r)) + "\"") == Some(JStr(RuneText(r)))
  {
    hide At, Look, Behind, StringAt, Parse, RuneText, Cut, IsHex;
    var u := "\\u" + RuneText(r);
    var s := "\"" + u + "\"";
    Between(u);
    AtParts(s, 1, "\\u", RuneText(r));
    AsciiIn(s, 1, "\\u", 0);
    AsciiIn(s, 1, "\\u", 1);
    LookRune(s, 3, r);
    NotHex(r);
    QuoteEnds(s, 1 + |u|);
    StringStep(s, 1);
    StringStep(s, 3);
    assert RuneText(r) + [] == RuneText(r) && [] + RuneText(r) == RuneText(r);
    OneString(s, RuneText(r));
    CutRune(r);
  }

  lemma {:induction false} NotHex(r: Rune)
    requires forall i, c | 0 <= i < 16 && c in HEX[i] :: c as int != r
    ensures !IsHex(r)
  {
    if IsHex(r) {
      var i := if r < 58 then r - 48 else if r < 71 then r - 55 else r - 87;
      assert r as char in HEX[i] by { HexHas(r, i); }
    }
  }

  lemma {:induction false} HexHas(r: Rune, i: nat)
    requires IsHex(r) && i == if r < 58 then r - 48 else if r < 71 then r - 55 else r - 87
    ensures i < 16 && r as char in HEX[i]
  {
  }

  // ----- white space -----

  /** In front of a value exactly these characters may stand. */
  lemma {:induction false} WhiteInFront(r: Rune)
    ensures Parse(RuneText(r) + "null") == Some(JNull) <==>
      r in [9, 10, 11, 12, 13, 32, 0xA0, 0xFEFF, 0x2028, 0x2029]
  {
    hide At, Look, Behind, Parse, RuneText, Lex;
    var s, n := RuneText(r) + "null", |RuneText(r)|;
    AtWhole(s);
    AtParts(s, 0, RuneText(r), "null");
    LookRune(s, 0, r);
    assert "null" == ['n'] + "ull";
    LexWord(s, n, 'n', "ull", TNull);
    AsciiIn(s, n, "null", 0);
    if r in [9, 10, 11, 12, 13, 32, 0xA0, 0xFEFF, 0x2028, 0x2029] {
      BehindIs(s, r);
      SkipWhite(s, 0);
      OneToken(s, TNull, JNull);
    } else {
      NoWhite(s, 0);
      NullNotFirst(s, r);
    }
  }

  lemma {:induction false} BehindIs(s: string, r: Rune)
    requires At(s, 0, RuneText(r)) && Look(s, |RuneText(r)|) == 110
    ensures Behind(s, 0) == |RuneText(r)|
  {
    hide At, RuneText;
    LookRune(s, 0, r);
    RuneBack(s, 0, r);
  }

  /** No other character begins a token that is read as null. */
  lemma {:induction false} NullNotFirst(s: string, r: Rune)
    requires Lex(s, 0) == LexAt(s, 0) && Look(s, 0) == r && !IsWhite(r)
    requires r != 13 && r != 0x2028 && r != 0x2029
    requires Behind(s, 0) <= |s| && Lex(s, Behind(s, 0)) == Tok(TNull, |s|) && Look(s, Behind(s, 0)) == 110
    ensures Parse(s) != Some(JNull)
  {
    hide Look, Behind, Lex, NumberEnd, Read, StringAt, At, ValueAt, WordEnd;
    Whole(s);
    AfterIs(s, JNull, |s|);
    if Lex(s, 0).Tok? {
      NoWord(s, Behind(s, 0));
      NotNull(s, Lex(s, 0).t, Lex(s, 0).q);
    }
  }

  lemma {:induction false} NoWord(s: string, p: nat)
    requires p <= |s| && Look(s, p) == 110
    ensures WordEnd(s, p, "ull") == None
  {
    hide Look, Behind;
  }

  lemma {:induction false} NotNull(s: string, t: Token, q: nat)
    requires q <= |s| && !t.TNull? && (t.TPunct? ==> Lex(s, q) == Tok(TNull, |s|))
    requires Lex(s, |s|) == Tok(TEnd, |s|)
    ensures ValueAt(s, t, q).Done? ==> ValueAt(s, t, q).v != JNull
  {
    hide Lex, MembersAt, ElementsAt;
    if t == TPunct(123) { NullMember(s, |s|); }
    if t == TPunct(91) { NullElement(s); }
  }

  lemma {:induction false} NullMember(s: string, q: nat)
    requires q <= |s|
    ensures MembersAt(s, TNull, q, PNil) == Fail
  {
    hide Lex;
  }

  lemma {:induction false} NullElement(s: string)
    requires Lex(s, |s|) == Tok(TEnd, |s|)
    ensures ElementsAt(s, TNull, |s|, INil) == Fail
  {
    hide Lex;
    AfterIs(s, JNull, |s|);
  }

  // ----- numbers -----

  /** The spellings of section 15.12.1.1 of ECMA-262 5.1. */
  predicate JsonNumber(x: Spelling) {
    && x.blanks == "" && x.sign != "+" && x.whole != [] && (x.whole[0] == 0 ==> x.whole == [0])
    && (x.point ==> x.part != []) && (x.mark != "" ==> x.es != [])
  }

  lemma {:induction false} DigitsPast(s: string, p: nat, ds: seq<Digit>)
    requires Stands(s, p, ds) && !Dec(Look(s, p + |ds|))
    ensures DigitsEnd(s, p) == p + |ds|
    ensures SomeDigits(s, p) == if ds == [] then None else Some(p + |ds|)
    decreases |ds|
  {
    hide Look, Behind;
    if ds != [] {
      assert s[p + 0] == DigitChar(ds[0]);
      Ascii(s, p);
      StandsRest(s, p, ds);
      DigitsPast(s, p + 1, ds[1..]);
    }
  }

  lemma {:induction false} WholePast(s: string, p: nat, ds: seq<Digit>)
    requires Stands(s, p, ds) && !Dec(Look(s, p + |ds|)) && (ds != [] && ds[0] == 0 ==> ds == [0])
    ensures WholeEnd(s, p) == if ds == [] then None else Some(p + |ds|)
  {
    hide Look, Behind, SomeDigits;
    DigitsPast(s, p, ds);
    if ds != [] {
      assert s[p + 0] == DigitChar(ds[0]);
      Ascii(s, p);
    }
  }

  /** What comes behind the digits is no digit. */
  lemma {:induction false} LookAt(s: string, p: nat)
    requires p <= |s| && (p < |s| ==> s[p] in ['.', 'e', 'E', '+', '-'])
    ensures Look(s, p) == (if p < |s| then s[p] as int else 0) && (p < |s| ==> Behind(s, p) == p + 1)
  {
    if p < |s| { Ascii(s, p); }
  }

  lemma {:induction false} FractionPast(x: Spelling, s: string, p: nat)
    requires Spellable(x) && p + |PartText(x)| <= |s| && !Dec(Look(s, p + |PartText(x)|))
    requires Look(s, p + |PartText(x)|) != 46
    requires x.point ==> |PartText(x)| == 1 + |x.part| && p < |s| && s[p] == '.' && Stands(s, p + 1, x.part)
    ensures FractionEnd(s, p) == if x.point && x.part == [] then None else Some(p + |PartText(x)|)
  {
    hide Look, Behind, SomeDigits, Stands;
    if x.point {
      LookAt(s, p);
      DigitsPast(s, p + 1, x.part);
    }
  }

  lemma {:induction false} ExponentPast(x: Spelling, s: string, p: nat)
    requires Spellable(x) && |s| == p + |x.mark| + |x.esign| + |x.es|
    requires x.mark != "" ==> p < |s| && s[p] == x.mark[0]
    requires x.mark != "" && x.esign != "" ==> p + 1 < |s| && s[p + 1] == x.esign[0]
    requires Stands(s, p + |x.mark| + |x.esign|, x.es)
    ensures ExponentEnd(s, p) == if x.mark != "" && x.es == [] then None else Some(|s|)
  {
    hide Look, Behind, SomeDigits;
    LookAt(s, |s|);
    DigitsPast(s, p + |x.mark| + |x.esign|, x.es);
    if x.mark != "" {
      LookAt(s, p);
      if x.esign != "" { LookAt(s, p + 1); }
      else if x.es != [] {
        assert s[p + 1 + 0] == DigitChar(x.es[0]);
        Ascii(s, p + 1);
      } else { LookAt(s, p + 1); }
    }
  }

  /** The ends of its three parts. */
  lemma {:induction false} PartsPast(x: Spelling, s: string)
    requires Spellable(x) && s == Spelled(x) && x.blanks == ""
    requires x.whole != [] && x.whole[0] == 0 ==> x.whole == [0]
    ensures WholeEnd(s, |x.sign|) == (if x.whole == [] then None else Some(|x.sign| + |x.whole|))
    ensures TailPast(x, s)
  {
    hide Look, Behind, WholeEnd, TailPast, At, PartText, ExpText, DigitText, Stands, Spelled;
    assert s == Spelled(x) + "";
    Places(x, "");
    WholeHere(x, s, |x.sign| + |x.whole|);
    TailIsPast(x, s);
  }

  predicate TailPast(x: Spelling, s: string) {
    var p1 := |x.sign| + |x.whole|;
    var p2 := p1 + |PartText(x)|;
    && p1 <= p2 <= |s| && FractionEnd(s, p1) == (if x.point && x.part == [] then None else Some(p2))
    && ExponentEnd(s, p2) == (if x.mark != "" && x.es == [] then None else Some(|s|))
  }

  lemma {:induction false} TailIsPast(x: Spelling, s: string)
    requires Spellable(x) && s == Spelled(x) && x.blanks == ""
    ensures TailPast(x, s)
  {
    hide Look, Behind, FractionEnd, ExponentEnd, At, PartText, ExpText, DigitText, Stands, Spelled;
    assert s == Spelled(x) + "";
    Places(x, "");
    var p1 := |x.sign| + |x.whole|;
    FractionHere(x, s, p1);
    ExponentHere(x, s, p1 + |PartText(x)|);
  }

  lemma {:induction false} LookPast(x: Spelling, s: string, p: nat)
    requires Spellable(x) && At(s, p, ExpText(x)) && |s| == p + |ExpText(x)|
    ensures !Dec(Look(s, p)) && Look(s, p) != 46
  {
    hide Look, Behind, At, ExpText, Stands;
    ExpPlaces(x, s, p);
    LookAt(s, p);
  }

  lemma {:induction false} WholeHere(x: Spelling, s: string, p: nat)
    requires Spellable(x) && |x.sign| <= p && p == |x.sign| + |x.whole| && Stands(s, |x.sign|, x.whole)
    requires At(s, p, PartText(x)) && At(s, p + |PartText(x)|, ExpText(x))
    requires |s| == p + |PartText(x)| + |ExpText(x)| && (x.whole != [] && x.whole[0] == 0 ==> x.whole == [0])
    ensures WholeEnd(s, |x.sign|) == if x.whole == [] then None else Some(p)
  {
    hide Look, Behind, WholeEnd, At, PartText, ExpText, Stands;
    PartSize(x);
    PartPlaces(x, s, p);
    if x.point { LookAt(s, p); } else { LookPast(x, s, p); }
    WholePast(s, |x.sign|, x.whole);
  }

  lemma {:induction false} FractionHere(x: Spelling, s: string, p: nat)
    requires Spellable(x) && At(s, p, PartText(x)) && At(s, p + |PartText(x)|, ExpText(x))
    requires |s| == p + |PartText(x)| + |ExpText(x)|
    ensures FractionEnd(s, p) == if x.point && x.part == [] then None else Some(p + |PartText(x)|)
  {
    hide Look, Behind, FractionEnd, At, PartText, ExpText, Stands;
    PartPlaces(x, s, p);
    LookPast(x, s, p + |PartText(x)|);
    FractionPast(x, s, p);
  }

  lemma {:induction false} ExponentHere(x: Spelling, s: string, p: nat)
    requires Spellable(x) && At(s, p, ExpText(x)) && |s| == p + |ExpText(x)|
    ensures ExponentEnd(s, p) == if x.mark != "" && x.es == [] then None else Some(|s|)
  {
    hide Look, Behind, ExponentEnd, At, ExpText, Stands;
    ExpPlaces(x, s, p);
    ExponentPast(x, s, p);
  }

  /** The end of the number that is written. */
  lemma {:induction false} NumberPast(x: Spelling, s: string)
    requires Spellable(x) && s == Spelled(x) && x.blanks == "" && x.sign != "+"
    requires x.whole != [] && x.whole[0] == 0 ==> x.whole == [0]
    ensures NumberEnd(s, 0) == if JsonNumber(x) then Some(|s|) else None
  {
    hide Look, Behind, WholeEnd, FractionEnd, ExponentEnd, PartText, Spelled;
    PartsPast(x, s);
    Begins(x, s);
    if x.sign == "-" { MinusBehind(x, s); }
  }

  lemma {:induction false} MinusBehind(x: Spelling, s: string)
    requires Spellable(x) && s == Spelled(x) && x.blanks == "" && x.sign == "-"
    ensures Behind(s, 0) == 1
  {
    hide Look, Behind, At, PartText, ExpText, DigitText, Stands, Spelled;
    assert s == Spelled(x) + "";
    Places(x, "");
    LookAt(s, 0);
  }

  lemma {:induction false} SignLook(x: Spelling, s: string)
    requires Spellable(x) && x.sign != "+" && |x.sign| <= |s| && (x.sign != "" ==> s[0] == '-')
    requires Stands(s, |x.sign|, x.whole) && (x.whole == [] ==> |x.sign| < |s| && s[|x.sign|] == '.')
    ensures Look(s, 0) == 45 <==> x.sign == "-"
    ensures x.sign == "" ==> (if x.whole == [] then Look(s, 0) == 46 else Dec(Look(s, 0)))
  {
    hide Look, Behind;
    if x.sign == "-" { Ascii(s, 0); }
    else if x.whole == [] { LookAt(s, 0); }
    else {
      assert s[0 + 0] == DigitChar(x.whole[0]);
      Ascii(s, 0);
    }
  }

  /** Of all spellings of numbers those of JSON are parsed, as the number that they denote, and no
      others. (With further digits behind a zero, where the number ends at the zero, see EndNotAsked.) */
  lemma {:induction false} NumberParsed(x: Spelling)
    requires Spellable(x) && x.blanks == "" && (x.whole != [] && x.whole[0] == 0 ==> x.whole == [0])
    ensures var ms := x.whole + x.part;
      var k := Least(|ms|, 18);
      Parse(Spelled(x)) == if JsonNumber(x) then
        Some(JNum(Reading(x.sign == "-", Number(ms[..k]), |x.whole| - k + ExpOf(x)))) else None
  {
    hide Look, Behind, NumberEnd, At, PartText, ExpText, DigitText, Stands, Spelled, Lex, Read, Parse, Number;
    var s := Spelled(x);
    assert s == s + "" && s[0..] == s;
    ReadSpelled(x, "");
    Begins(x, s);
    NoWhite(s, 0);
    if x.sign != "+" { NumberPast(x, s); }
    if JsonNumber(x) { OneToken(s, TNumber(Read(s).value), JNum(Read(s).value)); }
    else { BadParse(s); }
  }

  /** A zero with further digits behind it is a token of its own, but the value is read on from the
      zero: the text is parsed as the whole number that it spells if and only if its second digit
      begins a token too. */
  lemma {:induction false} ZeroInFront(x: Spelling)
    requires Spellable(x) && x.blanks == "" && x.sign != "+" && |x.whole| > 1 && x.whole[0] == 0
    ensures var ms := x.whole + x.part;
      var k := Least(|ms|, 18);
      Parse(Spelled(x)) == if (x.whole[1] == 0 && |x.whole| > 2) || JsonNumber(Rest(x)) then
        Some(JNum(Reading(x.sign == "-", Number(ms[..k]), |x.whole| - k + ExpOf(x)))) else None
  {
    hide Look, Behind, NumberEnd, At, PartText, ExpText, DigitText, Stands, Spelled, Lex, Read, Parse, Number;
    var s, p := Spelled(x), |x.sign| + 1;
    assert s == s + "" && s[0..] == s;
    ReadSpelled(x, "");
    Begins(x, s);
    NoWhite(s, 0);
    ZeroToken(x, s);
    RestRead(x, s);
    SecondToken(x, s);
    NoWhite(s, p);
    NumberThen(s, p, Read(s).value);
  }

  /** The spelling behind the first digit. */
  function Rest(x: Spelling): Spelling
    requires x.whole != []
  {
    x.(sign := "", whole := x.whole[1..])
  }

  lemma {:induction false} RestRead(x: Spelling, s: string)
    requires Spellable(x) && x.blanks == "" && |x.whole| > 1 && s == Spelled(x)
    ensures |x.sign| + 1 <= |s| && Read(s[|x.sign| + 1..]).Some?
  {
    hide Read, Number, PartText, ExpText, DigitText;
    var y := Rest(x);
    RestParts(x);
    assert x.whole == [x.whole[0]] + x.whole[1..];
    DigitTextAppend([x.whole[0]], x.whole[1..]);
    Regrouped(x.sign, DigitText([x.whole[0]]), DigitText(y.whole), PartText(y), ExpText(y));
    assert s[|x.sign| + 1..] == Spelled(y) + "";
    ReadSpelled(y, "");
  }

  lemma {:induction false} Regrouped(a: string, b: string, c: string, d: string, e: string)
    ensures [] + a + (b + c) + d + e == a + b + ([] + [] + c + d + e)
    ensures (a + b + ([] + [] + c + d + e))[|a| + |b|..] == [] + [] + c + d + e
  {
  }

  lemma {:induction false} RestParts(x: Spelling)
    requires x.whole != []
    ensures PartText(Rest(x)) == PartText(x) && ExpText(Rest(x)) == ExpText(x)
  {
  }

  lemma {:induction false} NumberThen(s: string, p: nat, r: Reading)
    requires p <= |s| && Lex(s, 0) == Tok(TNumber(r), p)
    ensures Parse(s) == if Lex(s, p).Bad? then None else Some(JNum(r))
  {
    hide Lex;
  }

  lemma {:induction false} ZeroToken(x: Spelling, s: string)
    requires Spellable(x) && x.blanks == "" && x.sign != "+" && |x.whole| > 1 && x.whole[0] == 0 && s == Spelled(x)
    ensures |x.sign| + 1 <= |s| && NumberEnd(s, 0) == Some(|x.sign| + 1)
  {
    hide Look, Behind, PartText, ExpText, DigitText, Stands, Spelled, At;
    assert s == Spelled(x) + "";
    Places(x, "");
    Begins(x, s);
    if x.sign == "-" { MinusBehind(x, s); }
    DigitLook(s, |x.sign|, x.whole, 0);
    DigitLook(s, |x.sign|, x.whole, 1);
  }

  lemma {:induction false} DigitLook(s: string, p: nat, ds: seq<Digit>, i: nat)
    requires Stands(s, p, ds) && i < |ds|
    ensures p + i < |s| && Look(s, p + i) == ds[i] as int + 48 && Behind(s, p + i) == p + i + 1
  {
    hide Look, Behind;
    assert s[p + i] == DigitChar(ds[i]);
    Ascii(s, p + i);
  }

  lemma {:induction false} SecondToken(x: Spelling, s: string)
    requires Spellable(x) && x.blanks == "" && x.sign != "+" && |x.whole| > 1 && s == Spelled(x)
    ensures |x.sign| + 1 <= |s| && Dec(Look(s, |x.sign| + 1))
    ensures NumberEnd(s, |x.sign| + 1).Some? <==> (x.whole[1] == 0 && |x.whole| > 2) || JsonNumber(Rest(x))
  {
    hide Look, Behind, PartText, ExpText, DigitText, Stands, Spelled, At, WholeEnd, FractionEnd, ExponentEnd;
    assert s == Spelled(x) + "";
    Places(x, "");
    var p := |x.sign| + 1;
    DigitLook(s, |x.sign|, x.whole, 1);
    if x.whole[1] == 0 && |x.whole| > 2 {
      DigitLook(s, |x.sign|, x.whole, 2);
      ZeroThenDigit(s, p);
    } else {
      TailIsPast(x, s);
      RestWhole(x, s);
    }
  }

  lemma {:induction false} ZeroThenDigit(s: string, p: nat)
    requires p + 1 < |s| && Look(s, p) == 48 && Behind(s, p) == p + 1 && Dec(Look(s, p + 1))
    ensures NumberEnd(s, p).Some?
  {
    hide Look, Behind;
  }

  lemma {:induction false} RestWhole(x: Spelling, s: string)
    requires Spellable(x) && x.blanks == "" && |x.whole| > 1 && s == Spelled(x) && (x.whole[1] == 0 ==> |x.whole| == 2)
    ensures WholeEnd(s, |x.sign| + 1) == Some(|x.sign| + |x.whole|)
  {
    hide Look, Behind, PartText, ExpText, DigitText, Stands, Spelled, At, WholeEnd;
    assert s == Spelled(x) + "";
    Places(x, "");
    var p := |x.sign| + |x.whole|;
    PartSize(x);
    PartPlaces(x, s, p);
    if x.point { LookAt(s, p); } else { LookPast(x, s, p); }
    StandsRest(s, |x.sign|, x.whole);
    WholePast(s, |x.sign| + 1, x.whole[1..]);
  }

  lemma {:induction false} Begins(x: Spelling, s: string)
    requires Spellable(x) && x.blanks == "" && s == Spelled(x)
    ensures var c := Look(s, 0); if x.sign == "+" then c == 43 else if x.sign == "-" then c == 45
      else if x.whole == [] then c == 46 else Dec(c)
  {
    hide Look, Behind, At, PartText, ExpText, DigitText, Stands, Spelled;
    assert s == Spelled(x) + "";
    Places(x, "");
    PartPlaces(x, s, |x.sign| + |x.whole|);
    if x.sign == "+" { LookAt(s, 0); } else { SignLook(x, s); }
  }

  // ----- what is printed -----

  function Capital(i: nat): char
    requires i < 16
  {
    HEX[i][|HEX[i]| - 1]
  }

  /** One character as a string: an escape of one letter, four capital digits, or itself. */
  lemma {:induction false} RunePrinted(r: Rune)
    requires r != 0
    ensures forall i | 0 <= i < 7 && MEANT[i] == r :: Quote(RuneText(r)) == "\"" + ("\\" + [LETTERS[i] as char]) + "\""
    ensures r !in MEANT && 32 <= r < 128 ==> Quote(RuneText(r)) == "\"" + [r as char] + "\""
    ensures forall a, b, c, d | 0 <= a < 16 && 0 <= b < 16 && 0 <= c < 16 && 0 <= d < 16
      && r == a * 4096 + b * 256 + c * 16 + d && r !in MEANT && (r < 32 || r > 127) ::
      Quote(RuneText(r)) == "\"" + ("\\u" + [Capital(a), Capital(b), Capital(c), Capital(d)]) + "\""
  {
    hide Escape, RuneText, Capital, Quote;
    OneQuoted(r);
    forall i | 0 <= i < 7 && MEANT[i] == r
      ensures Escape(r) == "\\" + [LETTERS[i] as char]
    {
      LetterPrinted(r, i);
    }
    if r !in MEANT && 32 <= r < 128 { SelfPrinted(r); }
    forall a, b, c, d | 0 <= a < 16 && 0 <= b < 16 && 0 <= c < 16 && 0 <= d < 16
      && r == a * 4096 + b * 256 + c * 16 + d && r !in MEANT && (r < 32 || r > 127)
      ensures Escape(r) == "\\u" + [Capital(a), Capital(b), Capital(c), Capital(d)]
    {
      DigitsPrinted(r, a, b, c, d);
    }
  }

  lemma {:induction false} LetterPrinted(r: Rune, i: nat)
    requires i < 7 && MEANT[i] == r
    ensures Escape(r) == "\\" + [LETTERS[i] as char]
  {
  }

  lemma {:induction false} SelfPrinted(r: Rune)
    requires r !in MEANT && 32 <= r < 128
    ensures Escape(r) == [r as char]
  {
    assert MEANT[0] == 34 && MEANT[1] == 92;
  }

  lemma {:induction false} DigitsPrinted(r: Rune, a: nat, b: nat, c: nat, d: nat)
    requires a < 16 && b < 16 && c < 16 && d < 16 && r == a * 4096 + b * 256 + c * 16 + d
    requires r !in MEANT && (r < 32 || r > 127)
    ensures Escape(r) == "\\u" + [Capital(a), Capital(b), Capital(c), Capital(d)]
  {
    hide HexDigit, Capital;
    assert MEANT[2] == 8 && MEANT[3] == 12 && MEANT[4] == 10 && MEANT[5] == 13 && MEANT[6] == 9;
    HexOf(r, a, b, c, d);
    CapitalDigit(a);
    CapitalDigit(b);
    CapitalDigit(c);
    CapitalDigit(d);
  }

  lemma {:induction false} HexOf(r: int, a: nat, b: nat, c: nat, d: nat)
    requires a < 16 && b < 16 && c < 16 && d < 16 && r == a * 4096 + b * 256 + c * 16 + d
    ensures r / 4096 == a && r / 256 % 16 == b && r / 16 % 16 == c && r % 16 == d
  {
    var x := a * 256 + b * 16 + c;
    var y := a * 16 + b;
    assert r == 16 * x + d && x == 16 * y + c;
    assert r / 16 == x && r / 256 == y && r / 4096 == a;
  }

  lemma {:induction false} CapitalDigit(i: nat)
    requires i < 16
    ensures Capital(i) == HexDigit(i)
  {
  }

  lemma {:induction false} OneQuoted(r: Rune)
    requires r != 0
    ensures Quote(RuneText(r)) == "\"" + Escape(r) + "\""
  {
    hide At, RuneText, RuneAt, Escape, Quoted, ByteAt;
    var s := RuneText(r);
    AtWhole(s);
    RuneBack(s, 0, r);
    ByteEnd(s, |s|);
    FirstByte(s, r);
    QuotedStep(s, 0);
    QuotedStep(s, |s|);
    assert Escape(r) + [] == Escape(r);
  }

  lemma {:induction false} FirstByte(s: string, r: Rune)
    requires s == RuneText(r) && r != 0
    ensures ByteAt(s, 0) != 0
  {
  }

  lemma {:induction false} TwoItems(v: Json, u: Json, gap: nat, level: nat)
    ensures var deep, out := Indent(gap, level + 1), Indent(gap, level);
      Text(JArr(ICons(v, ICons(u, INil))), gap, level)
        == "[" + (deep + Text(v, gap, level + 1)) + ("," + deep + Text(u, gap, level + 1)) + out + "]"
    ensures Text(JArr(INil), gap, level) == "[]"
  {
    hide Text, Indent, ItemsText;
    var last := ICons(u, INil);
    TextDef(JArr(ICons(v, last)), gap, level);
    TextDef(JArr(INil), gap, level);
    ItemsStep(ICons(v, last), true, gap, level + 1);
    ItemsStep(last, false, gap, level + 1);
    ItemsStep(INil, true, gap, level + 1);
    ItemsStep(INil, false, gap, level + 1);
    var a, b := Indent(gap, level + 1) + Text(v, gap, level + 1),
      "," + Indent(gap, level + 1) + Text(u, gap, level + 1);
    assert [] + Indent(gap, level + 1) == Indent(gap, level + 1) && b + [] == b;
    assert ItemsText(ICons(v, last), true, gap, level + 1) == a + b;
    assert "[" + (a + b) == "[" + a + b;
    assert "[" + [] + [] + "]" == "[]";
  }

  /** With a gap each element is on a line of its own, as many gaps deep as there are brackets around
      it, and the closing bracket is one less deep. */
  lemma {:induction false} ArrayLines(v: Json, u: Json, gap: nat, level: nat)
    requires gap > 0
    ensures var deep, out := "\n" + Spaces((level + 1) * gap), "\n" + Spaces(level * gap);
      Text(JArr(ICons(v, ICons(u, INil))), gap, level)
        == "[" + (deep + Text(v, gap, level + 1)) + ("," + deep + Text(u, gap, level + 1)) + out + "]"
    ensures Text(JArr(INil), gap, level) == "[]"
  {
    hide Text, Spaces;
    TwoItems(v, u, gap, level);
  }

  lemma {:induction false} ArrayLine(v: Json, u: Json, level: nat)
    ensures Text(JArr(ICons(v, ICons(u, INil))), 0, level)
      == "[" + Text(v, 0, level + 1) + ("," + Text(u, 0, level + 1)) + "]"
    ensures Text(JArr(INil), 0, level) == "[]"
  {
    hide Text, Spaces;
    TwoItems(v, u, 0, level);
    var a, b := Text(v, 0, level + 1), Text(u, 0, level + 1);
    assert [] + a == a && "," + [] + b == "," + b;
    assert "[" + a + ("," + b) + [] == "[" + a + ("," + b);
  }

  /** A member and its value. */
  function MemberText(name: string, v: Json, gap: nat, level: nat): string {
    Quote(name) + ":" + (if gap == 0 then [] else " ") + Text(v, gap, level)
  }

  lemma {:induction false} MemberIs(name: string, v: Json, gap: nat, level: nat)
    ensures NameText(name, gap, level) + Text(v, gap, level) == Indent(gap, level) + MemberText(name, v, gap, level)
  {
    hide Text, Indent, Quote;
    var a, b, c, d := Indent(gap, level), Quote(name), if gap == 0 then [] else " ", Text(v, gap, level);
    assert a + b + ":" + c + d == a + (b + ":" + c + d);
  }

  lemma {:induction false} TwoMembers(m: string, v: Json, n: string, u: Json, gap: nat, level: nat)
    requires !v.JOther? && !u.JOther?
    ensures var deep, out := Indent(gap, level + 1), Indent(gap, level);
      Text(JObj(PCons(m, v, PCons(n, u, PNil))), gap, level)
        == "{" + (deep + MemberText(m, v, gap, level + 1)) + ("," + (deep + MemberText(n, u, gap, level + 1))) + out
          + "}"
    ensures Text(JObj(PNil), gap, level) == "{}"
  {
    hide Text, Indent, PropsText, NameText, MemberText, Shown;
    var last := PCons(n, u, PNil);
    var props := PCons(m, v, last);
    TextDef(JObj(props), gap, level);
    TextDef(JObj(PNil), gap, level);
    PropsStep(props, true, gap, level + 1);
    PropsStep(last, false, gap, level + 1);
    PropsStep(PNil, true, gap, level + 1);
    PropsStep(PNil, false, gap, level + 1);
    MemberIs(m, v, gap, level + 1);
    MemberIs(n, u, gap, level + 1);
    var a, b := NameText(m, gap, level + 1) + Text(v, gap, level + 1),
      NameText(n, gap, level + 1) + Text(u, gap, level + 1);
    FirstPart(NameText(m, gap, level + 1), Text(v, gap, level + 1));
    LastPart(NameText(n, gap, level + 1), Text(u, gap, level + 1));
    assert PropsText(props, true, gap, level + 1) == a + ("," + b);
    assert "{" + (a + ("," + b)) == "{" + a + ("," + b);
    assert "{" + [] + [] + "}" == "{}";
  }

  lemma {:induction false} FirstPart(a: string, b: string)
    ensures [] + a + b == a + b
  {
  }

  lemma {:induction false} LastPart(a: string, b: string)
    ensures "," + a + b + [] == "," + (a + b)
  {
  }

  /** The members of an object likewise, each behind its name. */
  lemma {:induction false} ObjectLines(m: string, v: Json, n: string, u: Json, gap: nat, level: nat)
    requires gap > 0 && !v.JOther? && !u.JOther?
    ensures var deep, out := "\n" + Spaces((level + 1) * gap), "\n" + Spaces(level * gap);
      Text(JObj(PCons(m, v, PCons(n, u, PNil))), gap, level)
        == "{" + (deep + (Quote(m) + ":" + " " + Text(v, gap, level + 1)))
          + ("," + (deep + (Quote(n) + ":" + " " + Text(u, gap, level + 1)))) + out + "}"
    ensures Text(JObj(PNil), gap, level) == "{}"
  {
    hide Text, Spaces, Quote;
    TwoMembers(m, v, n, u, gap, level);
  }

  lemma {:induction false} ObjectLine(m: string, v: Json, n: string, u: Json, level: nat)
    requires !v.JOther? && !u.JOther?
    ensures Text(JObj(PCons(m, v, PCons(n, u, PNil))), 0, level)
      == "{" + (Quote(m) + ":" + Text(v, 0, level + 1)) + ("," + (Quote(n) + ":" + Text(u, 0, level + 1))) + "}"
    ensures Text(JObj(PNil), 0, level) == "{}"
  {
    hide Text, Spaces, Quote;
    TwoMembers(m, v, n, u, 0, level);
    FirstPart(MemberText(m, v, 0, level + 1), []);
    NoIndent(Quote(m), Text(v, 0, level + 1));
    NoIndent(Quote(n), Text(u, 0, level + 1));
  }

  lemma {:induction false} NoIndent(a: string, b: string)
    ensures [] + (a + ":" + [] + b) == a + ":" + b
  {
  }
}
