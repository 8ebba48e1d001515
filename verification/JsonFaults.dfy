/** Where JSON.parse does not do what it is for: what comes behind the value is not looked at
    (json.c), an escape \u may lack its digits, and a string ends at a zero rune (jslex.c). */
module JsonFaults {
  import opened Utf
  import opened NumberText
  import opened JsonText
  import opened JsonLexer
  import opened JsonParser
  import opened JsonRoundTrip

  // ----- text behind the value -----

  /** The parse of a text that must be one value. */
  function WholeParse(s: string): Option<Json> {
    match Lex(s, 0)
    case Bad => None
    case Tok(t, q) =>
      match ValueAt(s, t, q)
      case Fail => None
      case Done(v, end, _) => if end.TEnd? then Some(v) else None
  }

  /** The first token behind the value that s begins with, if it does. */
  function TokenBehind(s: string): Lexed {
    match Lex(s, 0)
    case Bad => Bad
    case Tok(t, q) =>
      match ValueAt(s, t, q)
      case Fail => Bad
      case Done(_, end, r) => Tok(end, r)
  }

  /** JSON_parse gives something else than it should exactly for texts whose value is followed by a
      token. It is then the value, where there should be an error. */
  lemma {:induction false} EndNotAsked(s: string)
    ensures Parse(s) != WholeParse(s) <==> TokenBehind(s).Tok? && !TokenBehind(s).t.TEnd?
    ensures Parse(s) != WholeParse(s) ==> Parse(s).Some? && WholeParse(s).None?
  {
    hide Lex, ValueAt;
  }

  /** The same of a printed value and any text behind it: of the text only the first token counts. */
  lemma {:induction false} TrailingText(v: Json, gap: nat, rest: string)
    requires Written(v) && (v.JNum? ==> Stops(Text(v, gap, 0) + rest, |Text(v, gap, 0)|))
    ensures var s, e := Text(v, gap, 0) + rest, |Text(v, gap, 0)|;
      && TokenBehind(s) == Lex(s, e)
      && Parse(s) == (if Lex(s, e).Bad? then None else Some(Sense(v)))
      && (Parse(s) == WholeParse(s) <==> Lex(s, e).Bad? || Lex(s, e).t.TEnd?)
  {
    hide Lex, Text, Stops, ValueAt, Sense;
    var s := Text(v, gap, 0) + rest;
    assert s[0..|Text(v, gap, 0)|] == Text(v, gap, 0);
    ValueBack(s, 0, v, gap, 0);
    EndNotAsked(s);
  }

  /** A number behind any other value, as in `[]5` and `"a"1`, is accepted. */
  lemma {:induction false} NumberBehind(v: Json, gap: nat, k: int)
    requires Written(v) && !v.JNum? && -0x8000_0000 <= k < 0x8000_0000
    ensures var s := Text(v, gap, 0) + WholeText(k); Parse(s) == Some(Sense(v)) && WholeParse(s) == None
  {
    hide Lex, Text, Stops, Parse, WholeParse, Sense, WholeText, Written;
    var t, u := Text(v, gap, 0), WholeText(k);
    var s := t + u;
    assert s[|t|..|t| + |u|] == u;
    EndStops(s);
    LexInt(s, |t|, k);
    TrailingText(v, gap, u);
    EndNotAsked(s);
  }

  lemma {:induction false} EndStops(s: string)
    ensures Stops(s, |s|)
  {
  }

  // ----- escapes without digits -----

  predicate FourHex(s: string, p: nat) {
    var p1 := Behind(s, p);
    var p2 := Behind(s, p1);
    IsHex(Look(s, p)) && IsHex(Look(s, p1)) && IsHex(Look(s, p2)) && IsHex(Look(s, Behind(s, p2)))
  }

  /** The strings of section 15.12.1.1 of ECMA-262 5.1, where a \u has four digits. */
  function StrictAt(s: string, p: nat): (r: Option<(string, nat)>)
    requires p <= |s|
    decreases |s| - p
  {
    var c := Look(s, p);
    if c == 34 then Some(([], Behind(s, p)))
    else if c < 32 then None
    else if c == 92 then
      var p1 := Behind(s, p);
      if Look(s, p1) == 117 && !FourHex(s, Behind(s, p1)) then None
      else
        match EscapeAt(s, p1)
        case None => None
        case Some((t, q)) => Before(t, StrictAt(s, q))
    else Before(RuneText(c), StrictAt(s, Behind(s, p)))
  }

  /** The scan of the string from p on meets a \u without four digits. */
  predicate ShortU(s: string, p: nat)
    requires p <= |s|
    decreases |s| - p
  {
    var c := Look(s, p);
    if c == 34 || c < 32 then false
    else if c == 92 then
      var p1 := Behind(s, p);
      (Look(s, p1) == 117 && !FourHex(s, Behind(s, p1)))
        || (EscapeAt(s, p1).Some? && ShortU(s, EscapeAt(s, p1).value.1))
    else ShortU(s, Behind(s, p))
  }

  /** Every string is read as it should be, and something else is read as a string exactly if it
      would be one but for escapes without their digits. */
  lemma {:induction false} StringsStrict(s: string, p: nat)
    requires p <= |s|
    ensures StrictAt(s, p).Some? ==> StringAt(s, p) == StrictAt(s, p)
    ensures StringAt(s, p) == StrictAt(s, p) <==> !(StringAt(s, p).Some? && ShortU(s, p))
    ensures StrictAt(s, p).Some? <==> StringAt(s, p).Some? && !ShortU(s, p)
    decreases |s| - p
  {
    hide StringAt, Look, Behind, RuneText, EscapeAt, FourHex;
    StringStep(s, p);
    var c := Look(s, p);
    if c != 34 && c >= 32 && c != 92 {
      StringsStrict(s, Behind(s, p));
    } else if c == 92 {
      var e := EscapeAt(s, Behind(s, p));
      if e.Some? { StringsStrict(s, e.value.1); }
    }
  }

  /** The escape itself is dropped, with the digits that it has. */
  lemma {:induction false} ShortDropped(s: string, p: nat)
    requires p <= |s|
    ensures FourHex(s, p) <==> HexAt(s, p).0 != []
  {
    hide Look, Behind, RuneText, HexValue;
  }

  /** The string "\u" is read as the empty string. */
  lemma {:induction false} ShortEscape(s: string, p: nat)
    requires At(s, p, "\"\\u\"")
    ensures p <= |s| && Lex(s, p) == Tok(TString([]), p + 4) && p + 1 <= |s| && StrictAt(s, p + 1) == None
  {
    hide Lex, At, Look, Behind, StringAt;
    var t := "\"\\u\"";
    InText(s, p, t);
    AsciiIn(s, p, t, 0);
    AsciiIn(s, p, t, 1);
    AsciiIn(s, p, t, 2);
    AsciiIn(s, p, t, 3);
    StringStep(s, p + 1);
    StringStep(s, p + 3);
    Grouped("", "", "", "");
    assert StringAt(s, p + 3) == Some(("", p + 4));
    assert StringAt(s, p + 1) == Some(("", p + 4));
    NoWhite(s, p);
  }

  // ----- zero runes -----

  /** A string token is the string that was written exactly if no rune in it is zero; otherwise it
      ends in front of the first. */
  lemma {:induction false} ZeroEnds(s: string, p: nat)
    requires p <= |s| && Look(s, p) == 34 && StringAt(s, Behind(s, p)).Some?
    ensures var (t, q) := StringAt(s, Behind(s, p)).value;
      && LexAt(s, p) == Tok(TString(Cut(t)), q) && Cut(t) <= t && '\0' !in Cut(t)
      && (LexAt(s, p) == Tok(TString(t), q) <==> '\0' !in t)
  {
    hide StringAt, Look, Behind, Cut;
    CutMeans(StringAt(s, Behind(s, p)).value.0);
  }

  /** The string "\u0000x" is read as the empty string. */
  lemma {:induction false} ZeroEscape(s: string, p: nat)
    requires At(s, p, "\"\\u0000x\"")
    ensures p <= |s| && Lex(s, p) == Tok(TString([]), p + 9)
  {
    hide Lex, At, Look, Behind, StringAt, HexAt, HexDigit;
    var t := "\"\\u0000x\"";
    InText(s, p, t);
    AsciiIn(s, p, t, 0);
    AsciiIn(s, p, t, 1);
    AsciiIn(s, p, t, 2);
    AsciiIn(s, p, t, 7);
    AsciiIn(s, p, t, 8);
    assert t == "\"\\u" + ("0000" + "x\"");
    AtParts(s, p, "\"\\u", "0000" + "x\"");
    AtParts(s, p + 3, "0000", "x\"");
    ZeroHex();
    HexReads(s, p + 3, 0);
    StringStep(s, p + 1);
    StringStep(s, p + 7);
    StringStep(s, p + 8);
    assert StringAt(s, p + 8) == Some(("", p + 9));
    ZeroEndsAt(s, p + 1, p + 9);
    NoWhite(s, p);
  }

  lemma {:induction false} ZeroHex()
    ensures [HexDigit(0), HexDigit(0), HexDigit(0), HexDigit(0)] == "0000"
  {
  }

  lemma {:induction false} ZeroEndsAt(s: string, p: nat, q: nat)
    requires p + 6 <= |s| && StringAt(s, p) == Before(RuneText(0), StringAt(s, p + 6)) && StringAt(s, p + 6).Some?
    requires StringAt(s, p + 6).value.1 == q
    ensures StringAt(s, p).Some? && StringAt(s, p).value.1 == q && Cut(StringAt(s, p).value.0) == []
  {
    hide StringAt;
    var t := StringAt(s, p).value.0;
    assert t == RuneText(0) + StringAt(s, p + 6).value.0;
    assert t[0] == '\0';
  }
}
