/** JSON.parse as the engine runs it (jslex.c, json.c): the lexer's position, character and
    lookahead, and the recursive parser on them. */
module JsonReader {
  import opened Utf
  import opened NumberText
  import opened JsonText
  import opened JsonLexer
  import opened JsonParser

  class Reader {
    const text: string
    /** J->source, behind the character that is in lexchar. */
    var source: nat
    var lexchar: Rune
    var lookahead: Token
    ghost var at: nat

    ghost predicate Valid()
      reads this
    {
      at <= |text| && lexchar == Look(text, at) && source == Behind(text, at)
    }

    /** `jsY_initlex` */
    constructor (s: string)
      ensures Valid() && text == s && at == 0
    {
      text, source, lookahead := s, 0, TEnd;
      lexchar := 0;
      new;
      Load();
    }

    /** The character at source. */
    method Load()
      requires source <= |text|
      modifies this
      ensures Valid() && at == old(source) && lookahead == old(lookahead)
    {
      at := source;
      var (c, n) := RuneAt(text, source);
      source := source + n;
      if c == 13 && ByteAt(text, source) == 10 { source := source + 1; }
      lexchar := if IsNewline(c) then 10 else c;
    }

    /** `jsY_next`: never called at the end of the text. */
    method Next()
      requires Valid() && lexchar != 0
      modifies this
      ensures Valid() && at == Behind(text, old(at)) && lookahead == old(lookahead)
    {
      Load();
    }

    method Digits()
      requires Valid()
      modifies this
      ensures Valid() && at == DigitsEnd(text, old(at)) && lookahead == old(lookahead)
    {
      while Dec(lexchar)
        invariant Valid() && DigitsEnd(text, at) == DigitsEnd(text, old(at)) && lookahead == old(lookahead)
        decreases |text| - at
      {
        Next();
      }
    }

    /** Digits, or the error exit. */
    method SomeOf() returns (ok: bool)
      requires Valid()
      modifies this
      ensures ok == SomeDigits(text, old(at)).Some? && lookahead == old(lookahead)
      ensures ok ==> Valid() && at == SomeDigits(text, old(at)).value
    {
      if !Dec(lexchar) { return false; }
      Next();
      Digits();
      return true;
    }

    method LexWhole() returns (ok: bool)
      requires Valid()
      modifies this
      ensures ok == WholeEnd(text, old(at)).Some? && lookahead == old(lookahead)
      ensures ok ==> Valid() && at == WholeEnd(text, old(at)).value
    {
      hide Look, Behind, SomeDigits;
      if lexchar == 48 {
        Next();
        ok := true;
      } else {
        ok := SomeOf();
      }
    }

    method LexFraction() returns (ok: bool)
      requires Valid()
      modifies this
      ensures ok == FractionEnd(text, old(at)).Some? && lookahead == old(lookahead)
      ensures ok ==> Valid() && at == FractionEnd(text, old(at)).value
    {
      hide Look, Behind, SomeDigits;
      ok := true;
      if lexchar == 46 {
        Next();
        ok := SomeOf();
      }
    }

    method LexExponent() returns (ok: bool)
      requires Valid()
      modifies this
      ensures ok == ExponentEnd(text, old(at)).Some? && lookahead == old(lookahead)
      ensures ok ==> Valid() && at == ExponentEnd(text, old(at)).value
    {
      hide Look, Behind, SomeDigits;
      ok := true;
      if lexchar == 101 || lexchar == 69 {
        Next();
        if lexchar == 45 || lexchar == 43 { Next(); }
        ok := SomeOf();
      }
    }

    /** `lexjsonnumber` */
    method LexNumber() returns (ok: bool, r: Reading)
      requires Valid() && (Dec(lexchar) || lexchar == 45)
      modifies this
      ensures lookahead == old(lookahead)
      ensures ok <==> NumberEnd(text, old(at)).Some? && Read(text[old(at)..]).Some?
      ensures ok ==> Valid() && at == NumberEnd(text, old(at)).value && Some(r) == Read(text[old(at)..])
    {
      hide Look, Behind, WholeEnd, FractionEnd, ExponentEnd, Read;
      var s := source - 1;
      OneByte(text, at);
      r := Reading(false, 0, 0);
      if lexchar == 45 { Next(); }
      ok := LexWhole();
      if !ok { return; }
      ok := LexFraction();
      if !ok { return; }
      ok := LexExponent();
      if !ok { return; }
      var n := Strtod(text[s..]);
      if n.None? { return false, r; }
      return true, n.value;
    }

    static lemma {:induction false} OneByte(s: string, p: nat)
      requires p < |s| && (Dec(Look(s, p)) || Look(s, p) == 45)
      ensures Behind(s, p) == p + 1
    {
    }

    /** Up to four hexadecimal digits of a \u escape; the result is 1 if there are fewer. */
    method LexHex() returns (few: bool, x: Rune)
      requires Valid()
      modifies this
      ensures Valid() && lookahead == old(lookahead) && at == HexAt(text, old(at)).1
      ensures HexAt(text, old(at)).0 == if few then [] else RuneText(x)
    {
      hide Look, Behind, RuneText;
      if !IsHex(lexchar) { return true, 0; }
      var a := HexValue(lexchar);
      Next();
      if !IsHex(lexchar) { return true, 0; }
      var b := HexValue(lexchar);
      Next();
      if !IsHex(lexchar) { return true, 0; }
      var c := HexValue(lexchar);
      Next();
      if !IsHex(lexchar) { return true, 0; }
      var d := HexValue(lexchar);
      Next();
      return false, a * 4096 + b * 256 + c * 16 + d;
    }

    /** `lexjsonescape`; t is what it appends to the buffer. */
    method LexEscape() returns (ok: bool, t: string)
      requires Valid()
      modifies this
      ensures lookahead == old(lookahead) && ok == EscapeAt(text, old(at)).Some?
      ensures ok ==> Valid() && EscapeAt(text, old(at)) == Some((t, at))
    {
      if lexchar == 117 {
        Next();
        var few, x := LexHex();
        return true, if few then [] else RuneText(x);
      }
      var c := Letter(lexchar);
      if c.None? { return false, []; }
      Next();
      return true, RuneText(c.value);
    }

    /** `lexjsonstring`: the buffer is filled rune by rune. */
    method LexString() returns (ok: bool, lexbuf: string)
      requires Valid()
      modifies this
      ensures lookahead == old(lookahead) && ok == StringAt(text, old(at)).Some?
      ensures ok ==> Valid() && StringAt(text, old(at)) == Some((lexbuf, at))
    {
      hide Look, Behind, RuneText, StringAt, EscapeAt;
      lexbuf := [];
      BeforeNothing(StringAt(text, at));
      while lexchar != 34
        invariant Valid() && lookahead == old(lookahead)
        invariant StringAt(text, old(at)) == Before(lexbuf, StringAt(text, at))
        decreases |text| - at
      {
        StringStep(text, at);
        if lexchar < 32 { return false, lexbuf; }
        if lexchar == 92 {
          Next();
          var good, t := LexEscape();
          if !good { return false, lexbuf; }
          BeforeTwice(lexbuf, t, StringAt(text, at));
          lexbuf := lexbuf + t;
        } else {
          BeforeTwice(lexbuf, RuneText(lexchar), StringAt(text, Behind(text, at)));
          lexbuf := lexbuf + RuneText(lexchar);
          Next();
        }
      }
      StringStep(text, at);
      Next();
      assert lexbuf + [] == lexbuf;
      return true, lexbuf;
    }

    static lemma {:induction false} BeforeNothing(r: Option<(string, nat)>)
      ensures Before([], r) == r
    {
      if r.Some? { assert [] + r.value.0 == r.value.0; }
    }

    static lemma {:induction false} BeforeTwice(a: string, b: string, r: Option<(string, nat)>)
      ensures Before(a, Before(b, r)) == Before(a + b, r)
    {
      if r.Some? { assert a + (b + r.value.0) == a + b + r.value.0; }
    }

    /** The rest of a word, one expected character after the other. */
    method LexWord(w: string) returns (ok: bool)
      requires Valid() && forall c | c in w :: 'a' <= c <= 'z'
      modifies this
      ensures lookahead == old(lookahead) && ok == WordEnd(text, old(at), w).Some?
      ensures ok ==> Valid() && WordEnd(text, old(at), w) == Some(at)
    {
      hide Look, Behind;
      var i := 0;
      assert w[0..] == w;
      while i < |w|
        invariant 0 <= i <= |w| && Valid() && lookahead == old(lookahead)
        invariant WordEnd(text, at, w[i..]) == WordEnd(text, old(at), w)
      {
        assert w[i] in w && w[i..][1..] == w[i + 1..];
        if lexchar != w[i] as int { return false; }
        Next();
        i := i + 1;
      }
      return true;
    }

    /** `jsY_lexjson` */
    method LexJson() returns (ok: bool, t: Token)
      requires Valid()
      modifies this
      ensures lookahead == old(lookahead) && ok == Lex(text, old(at)).Tok?
      ensures ok ==> Valid() && Lex(text, old(at)) == Tok(t, at)
    {
      hide Look, Behind, StringAt, NumberEnd, Read, WordEnd, LexAt;
      while IsWhite(lexchar)
        invariant Valid() && lookahead == old(lookahead) && Lex(text, at) == Lex(text, old(at))
        decreases |text| - at
      {
        SkipWhite(text, at);
        Next();
      }
      NoWhite(text, at);
      ok, t := LexToken();
    }

    method LexToken() returns (ok: bool, t: Token)
      requires Valid() && !IsWhite(lexchar)
      modifies this
      ensures lookahead == old(lookahead) && ok == LexAt(text, old(at)).Tok?
      ensures ok ==> Valid() && LexAt(text, old(at)) == Tok(t, at)
    {
      hide Look, Behind, StringAt, NumberEnd, Read, WordEnd;
      t := TEnd;
      if Dec(lexchar) || lexchar == 45 {
        var r;
        ok, r := LexNumber();
        t := TNumber(r);
      } else if IsPunct(lexchar) {
        t := TPunct(lexchar);
        Next();
        ok := true;
      } else if lexchar == 34 {
        Next();
        var x;
        ok, x := LexString();
        t := TString(Cut(x));
      } else if lexchar == 102 {
        Next();
        ok := LexWord("alse");
        t := TFalse;
      } else if lexchar == 110 {
        Next();
        ok := LexWord("ull");
        t := TNull;
      } else if lexchar == 116 {
        Next();
        ok := LexWord("rue");
        t := TTrue;
      } else {
        ok := lexchar == 0;
      }
    }

    /** `jsonnext` */
    method JsonNext() returns (ok: bool)
      requires Valid()
      modifies this
      ensures ok == Lex(text, old(at)).Tok?
      ensures ok ==> Valid() && Lex(text, old(at)) == Tok(lookahead, at)
    {
      var t;
      ok, t := LexJson();
      if ok { lookahead := t; }
    }

    /** What a call leaves when parsing has come to p. */
    ghost predicate Came(p: Parsed, r: Option<Json>)
      reads this
    {
      match p
      case Fail => r == None
      case Done(v, t, q) => Valid() && r == Some(v) && lookahead == t && at == q
    }

    /** A value that is complete but for the token behind it. */
    method Complete(v: Json) returns (r: Option<Json>)
      requires Valid()
      modifies this
      ensures Came(After(text, v, old(at)), r)
    {
      hide Lex, Look, Behind;
      var ok := JsonNext();
      r := if ok then Some(v) else None;
    }

    /** `jsonvalue` */
    method Value() returns (r: Option<Json>)
      requires Valid()
      modifies this
      ensures Came(ValueAt(text, old(lookahead), old(at)), r)
      decreases |text| - at, if lookahead.TEnd? then 0 else 2
    {
      hide Lex, After, MembersAt, ElementsAt, Look, Behind;
      match lookahead {
        case TString(x) => r := Complete(JStr(x));
        case TNumber(n) => r := Complete(JNum(n));
        case TTrue => r := Complete(JBool(true));
        case TFalse => r := Complete(JBool(false));
        case TNull => r := Complete(JNull);
        case TEnd => r := None;
        case TPunct(c) =>
          if c == 123 {
            r := ObjectValue();
          } else if c == 91 {
            r := ArrayValue();
          } else {
            r := None;
            NoValue(text, c, at);
          }
      }
    }

    static lemma {:induction false} NoValue(s: string, c: Rune, q: nat)
      requires q <= |s| && c != 123 && c != 91
      ensures ValueAt(s, TPunct(c), q) == Fail
    {
      hide Lex, MembersAt, ElementsAt;
    }

    method ObjectValue() returns (r: Option<Json>)
      requires Valid() && lookahead == TPunct(123)
      modifies this
      ensures Came(ValueAt(text, old(lookahead), old(at)), r)
      decreases |text| - at, 2, 0
    {
      hide Lex, After, MembersAt, ElementsAt, Look, Behind;
      var ok := JsonNext();
      if !ok { return None; }
      if lookahead == TPunct(125) {
        r := Complete(JObj(PNil));
      } else {
        r := Members();
      }
    }

    /** The properties of an object, each stored in it as it is parsed. */
    method Members() returns (r: Option<Json>)
      requires Valid()
      modifies this
      ensures Came(MembersAt(text, old(lookahead), old(at), PNil), r)
      decreases |text| - at, 1
    {
      hide Lex, After, ValueAt, Look, Behind, Put;
      ghost var t, q := lookahead, at;
      var props := PNil;
      while true
        invariant Valid() && q <= at && MembersAt(text, lookahead, at, props) == MembersAt(text, t, q, PNil)
        decreases |text| - at
      {
        if !lookahead.TString? { return None; }
        var name := lookahead.text;
        var ok := JsonNext();
        if !ok || lookahead != TPunct(58) { return None; }
        ok := JsonNext();
        if !ok { return None; }
        var v := Value();
        if v.None? { return None; }
        props := Put(props, name, v.value);
        if lookahead != TPunct(44) { break; }
        ok := JsonNext();
        if !ok { return None; }
      }
      if lookahead != TPunct(125) { return None; }
      r := Complete(JObj(props));
    }

    method ArrayValue() returns (r: Option<Json>)
      requires Valid() && lookahead == TPunct(91)
      modifies this
      ensures Came(ValueAt(text, old(lookahead), old(at)), r)
      decreases |text| - at, 2, 0
    {
      hide Lex, After, MembersAt, ElementsAt, Look, Behind;
      var ok := JsonNext();
      if !ok { return None; }
      if lookahead == TPunct(93) {
        r := Complete(JArr(INil));
      } else {
        r := Elements();
      }
    }

    method Elements() returns (r: Option<Json>)
      requires Valid()
      modifies this
      ensures Came(ElementsAt(text, old(lookahead), old(at), INil), r)
      decreases |text| - at, if lookahead.TEnd? then 1 else 3
    {
      hide Lex, After, ValueAt, Look, Behind, Append;
      ghost var t, q := lookahead, at;
      var items := INil;
      while true
        invariant Valid() && q <= at && ElementsAt(text, lookahead, at, items) == ElementsAt(text, t, q, INil)
        invariant q < at || lookahead == t
        decreases |text| - at
      {
        var v := Value();
        if v.None? { return None; }
        items := Append(items, v.value);
        if lookahead != TPunct(44) { break; }
        var ok := JsonNext();
        if !ok { return None; }
      }
      if lookahead != TPunct(93) { return None; }
      r := Complete(JArr(items));
    }
  }

  /** `JSON_parse` without a reviver */
  method JsonParse(s: string) returns (r: Option<Json>)
    ensures r == Parse(s)
  {
    hide Lex, ValueAt, Look, Behind;
    var reader := new Reader(s);
    var ok := reader.JsonNext();
    if !ok { return None; }
    r := reader.Value();
  }
}
