/** The grammar of section 15.12.1 of ECMA-262 5.1 as a relation between texts and values, and that
    JSON_parse reads exactly what it derives. */
module JsonGrammar {
  import opened Utf
  import opened Grisu
  import opened NumberText
  import opened JsonText
  import opened JsonLexer
  import opened JsonParser
  import opened JsonRoundTrip
  import opened JsonFaults

  // ----- the grammar -----

  /** The value v begins with the token t, has q behind that token, and ends at e. */
  ghost predicate ValueIs(s: string, t: Token, q: nat, v: Json, e: nat)
    decreases e - q, 1
  {
    q <= e <= |s| &&
    match v
    case JStr(x) => t == TString(x) && e == q
    case JNum(r) => t == TNumber(r) && e == q
    case JBool(b) => t == (if b then TTrue else TFalse) && e == q
    case JNull => t == TNull && e == q
    case JArr(items) =>
      t == TPunct(91) && if items.INil? then Lex(s, q) == Tok(TPunct(93), e) else ElementsIs(s, q, items, e)
    case JObj(props) =>
      && t == TPunct(123)
      && ((props == PNil && Lex(s, q) == Tok(TPunct(125), e))
          || exists ms :: MembersIs(s, q, ms, e) && props == PutAll(PNil, ms))
    case _ => false
  }

  /** A comma at h, and where it ends. */
  predicate CommaAt(s: string, h: nat) {
    h <= |s| && Lex(s, h).Tok? && Lex(s, h).t == TPunct(44)
  }

  /** The token at p is not the end. */
  predicate TokenAt(s: string, p: nat) {
    p <= |s| && Lex(s, p).Tok? && !Lex(s, p).t.TEnd?
  }

  /** Elements with commas between them from p on, and the bracket at the end. */
  ghost predicate ElementsIs(s: string, p: nat, items: Items, e: nat)
    decreases e - p, 0
  {
    && p <= e <= |s| && items.ICons? && TokenAt(s, p)
    && exists h | p < h <= e ::
      && ValueIs(s, Lex(s, p).t, Lex(s, p).q, items.v, h)
      && if items.rest.INil? then Lex(s, h) == Tok(TPunct(93), e)
        else CommaAt(s, h) && ElementsIs(s, Lex(s, h).q, items.rest, e)
  }

  /** Members, each a string, a colon and a value, and the brace at the end. */
  ghost predicate MembersIs(s: string, p: nat, ms: Props, e: nat)
    decreases e - p, 0
  {
    && p <= e <= |s| && ms.PCons? && Lex(s, p).Tok? && Lex(s, p).t == TString(ms.name)
    && ColonAt(s, Lex(s, p).q) && var p1 := Lex(s, Lex(s, p).q).q;
    && TokenAt(s, p1)
    && exists h | p < h <= e ::
      && ValueIs(s, Lex(s, p1).t, Lex(s, p1).q, ms.v, h)
      && if ms.rest.PNil? then Lex(s, h) == Tok(TPunct(125), e)
        else CommaAt(s, h) && MembersIs(s, Lex(s, h).q, ms.rest, e)
  }

  predicate ColonAt(s: string, h: nat) {
    h <= |s| && Lex(s, h).Tok? && Lex(s, h).t == TPunct(58)
  }

  // ----- what is derived is read -----

  lemma {:induction false} ValueRead(s: string, t: Token, q: nat, v: Json, e: nat)
    requires ValueIs(s, t, q, v, e)
    ensures ValueAt(s, t, q) == After(s, v, e)
    decreases e - q, 1
  {
    hide Lex, After, MembersAt, ElementsAt, ElementsIs, MembersIs;
    match v
    case JArr(items) =>
      if items.ICons? {
        ElementsRead(s, q, items, e, INil);
        AppendIsJoin(INil, items);
        NotClosed(s, q, items, e);
      }
    case JObj(props) =>
      if !(props == PNil && Lex(s, q) == Tok(TPunct(125), e)) {
        var ms :| MembersIs(s, q, ms, e) && props == PutAll(PNil, ms);
        MembersRead(s, q, ms, e, PNil);
        Named(s, q, ms, e);
      }
    case _ =>
  }

  /** A value does not begin with a closing bracket. */
  lemma {:induction false} NotClosed(s: string, p: nat, items: Items, e: nat)
    requires ElementsIs(s, p, items, e)
    ensures Lex(s, p).Tok? && Lex(s, p).t != TPunct(93)
  {
    hide Lex;
  }

  lemma {:induction false} Named(s: string, p: nat, ms: Props, e: nat)
    requires MembersIs(s, p, ms, e)
    ensures Lex(s, p).Tok? && Lex(s, p).t.TString?
  {
    hide Lex, ValueIs;
  }

  lemma {:induction false} ElementsRead(s: string, p: nat, items: Items, e: nat, acc: Items)
    requires ElementsIs(s, p, items, e)
    ensures Lex(s, p).Tok?
      && ElementsAt(s, Lex(s, p).t, Lex(s, p).q, acc) == After(s, JArr(AppendAll(acc, items)), e)
    decreases e - p, 0
  {
    hide Lex, After, ValueAt, ValueIs, Append;
    var h :| p < h <= e && ValueIs(s, Lex(s, p).t, Lex(s, p).q, items.v, h)
      && if items.rest.INil? then Lex(s, h) == Tok(TPunct(93), e)
        else CommaAt(s, h) && ElementsIs(s, Lex(s, h).q, items.rest, e);
    ValueRead(s, Lex(s, p).t, Lex(s, p).q, items.v, h);
    AfterIs(s, items.v, h);
    if items.rest.ICons? { ElementsRead(s, Lex(s, h).q, items.rest, e, Append(acc, items.v)); }
  }

  lemma {:induction false} MembersRead(s: string, p: nat, ms: Props, e: nat, acc: Props)
    requires MembersIs(s, p, ms, e)
    ensures Lex(s, p).Tok? && MembersAt(s, Lex(s, p).t, Lex(s, p).q, acc) == After(s, JObj(PutAll(acc, ms)), e)
    decreases e - p, 0
  {
    hide Lex, After, ValueAt, ValueIs, Put;
    var p1 := Lex(s, Lex(s, p).q).q;
    var h :| p < h <= e && ValueIs(s, Lex(s, p1).t, Lex(s, p1).q, ms.v, h)
      && if ms.rest.PNil? then Lex(s, h) == Tok(TPunct(125), e)
        else CommaAt(s, h) && MembersIs(s, Lex(s, h).q, ms.rest, e);
    ValueRead(s, Lex(s, p1).t, Lex(s, p1).q, ms.v, h);
    AfterIs(s, ms.v, h);
    if ms.rest.PCons? { MembersRead(s, Lex(s, h).q, ms.rest, e, Put(acc, ms.name, ms.v)); }
  }

  // ----- what is read is derived -----

  lemma {:induction false} AfterGives(s: string, v: Json, h: nat)
    requires h <= |s| && After(s, v, h).Done?
    ensures var r := After(s, v, h); r.v == v && Lex(s, h) == Tok(r.t, r.q)
  {
    hide Lex;
  }

  lemma {:induction false} ValueSound(s: string, t: Token, q: nat) returns (e: nat)
    requires q <= |s| && ValueAt(s, t, q).Done?
    ensures var r := ValueAt(s, t, q); ValueIs(s, t, q, r.v, e) && r == After(s, r.v, e)
    decreases |s| - q, if t.TEnd? then 0 else 2
  {
    hide Lex, After, MembersAt, ElementsAt, ElementsIs, MembersIs, PutAll;
    e := q;
    match t
    case TPunct(c) => e := GroupSound(s, c, q);
    case TString(x) => AfterGives(s, JStr(x), q);
    case TNumber(r) => AfterGives(s, JNum(r), q);
    case TTrue => AfterGives(s, JBool(true), q);
    case TFalse => AfterGives(s, JBool(false), q);
    case TNull => AfterGives(s, JNull, q);
    case TEnd =>
  }

  lemma {:induction false} GroupSound(s: string, c: Rune, q: nat) returns (e: nat)
    requires q <= |s| && ValueAt(s, TPunct(c), q).Done?
    ensures var r := ValueAt(s, TPunct(c), q); ValueIs(s, TPunct(c), q, r.v, e) && r == After(s, r.v, e)
    decreases |s| - q, 1
  {
    hide Lex, After, MembersAt, ElementsAt, ElementsIs, MembersIs, PutAll;
    e := Lex(s, q).q;
    if c == 123 {
      if Lex(s, q).t == TPunct(125) {
        AfterGives(s, JObj(PNil), e);
      } else {
        var ms;
        ms, e := MembersSound(s, q, PNil);
        AfterGives(s, JObj(PutAll(PNil, ms)), e);
        MembersBounds(s, q, ms, e);
      }
    } else if Lex(s, q).t == TPunct(93) {
      AfterGives(s, JArr(INil), e);
    } else {
      var items;
      items, e := ElementsSound(s, q, INil);
      AppendIsJoin(INil, items);
      AfterGives(s, JArr(items), e);
      ElementsBounds(s, q, items, e);
    }
  }

  lemma {:induction false} ElementsSound(s: string, p: nat, acc: Items) returns (items: Items, e: nat)
    requires p <= |s| && Lex(s, p).Tok? && ElementsAt(s, Lex(s, p).t, Lex(s, p).q, acc).Done?
    ensures e <= |s| && ElementsIs(s, p, items, e)
    ensures ElementsAt(s, Lex(s, p).t, Lex(s, p).q, acc) == After(s, JArr(AppendAll(acc, items)), e)
    decreases |s| - p, 0
  {
    hide Lex, After, ValueAt, ValueIs, Append;
    var t, q := Lex(s, p).t, Lex(s, p).q;
    NoEnd(s, q);
    var v := ValueAt(s, t, q).v;
    var h := ValueSound(s, t, q);
    AfterGives(s, v, h);
    ValueBounds(s, t, q, v, h);
    e := Lex(s, h).q;
    if Lex(s, h).t == TPunct(44) {
      var rest;
      rest, e := ElementsSound(s, Lex(s, h).q, Append(acc, v));
      ElementsBounds(s, Lex(s, h).q, rest, e);
      items := ICons(v, rest);
    } else {
      items := ICons(v, INil);
    }
  }

  lemma {:induction false} NoEnd(s: string, q: nat)
    ensures q <= |s| ==> ValueAt(s, TEnd, q) == Fail
  {
  }

  lemma {:induction false} ValueBounds(s: string, t: Token, q: nat, v: Json, e: nat)
    requires ValueIs(s, t, q, v, e)
    ensures q <= e <= |s|
  {
    hide ElementsIs, MembersIs, Lex;
  }

  lemma {:induction false} ElementsBounds(s: string, p: nat, items: Items, e: nat)
    requires ElementsIs(s, p, items, e)
    ensures p <= e <= |s| && items.ICons?
  {
    hide ValueIs, Lex;
  }

  lemma {:induction false} MembersSound(s: string, p: nat, acc: Props) returns (ms: Props, e: nat)
    requires p <= |s| && Lex(s, p).Tok? && MembersAt(s, Lex(s, p).t, Lex(s, p).q, acc).Done?
    ensures e <= |s| && MembersIs(s, p, ms, e)
    ensures MembersAt(s, Lex(s, p).t, Lex(s, p).q, acc) == After(s, JObj(PutAll(acc, ms)), e)
    decreases |s| - p, 0
  {
    hide Lex, After, ValueAt, ValueIs, Put;
    var name, p1 := Lex(s, p).t.text, Lex(s, Lex(s, p).q).q;
    var t, q := Lex(s, p1).t, Lex(s, p1).q;
    NoEnd(s, q);
    var v := ValueAt(s, t, q).v;
    var h := ValueSound(s, t, q);
    AfterGives(s, v, h);
    ValueBounds(s, t, q, v, h);
    e := Lex(s, h).q;
    if Lex(s, h).t == TPunct(44) {
      var rest;
      rest, e := MembersSound(s, Lex(s, h).q, Put(acc, name, v));
      MembersBounds(s, Lex(s, h).q, rest, e);
      ms := PCons(name, v, rest);
    } else {
      ms := PCons(name, v, PNil);
    }
  }

  lemma {:induction false} MembersBounds(s: string, p: nat, ms: Props, e: nat)
    requires MembersIs(s, p, ms, e)
    ensures p <= e <= |s| && ms.PCons?
  {
    hide ValueIs, Lex;
  }

  // ----- whole texts -----

  /** The text begins with a value that ends at e. */
  ghost predicate Begins(s: string, v: Json, e: nat) {
    e <= |s| && Lex(s, 0).Tok? && ValueIs(s, Lex(s, 0).t, Lex(s, 0).q, v, e)
  }

  /** JSON_parse returns the value that the text begins with, if a token or the end follows it; in
      particular it returns nothing for any other text. */
  lemma {:induction false} ParseDerives(s: string, v: Json)
    ensures Parse(s) == Some(v) <==> exists e :: Begins(s, v, e) && Lex(s, e).Tok?
  {
    hide Lex, After, ValueAt, ValueIs;
    if Parse(s) == Some(v) {
      var e := ValueSound(s, Lex(s, 0).t, Lex(s, 0).q);
      AfterGives(s, v, e);
      assert Begins(s, v, e);
    }
    forall e | Begins(s, v, e) && Lex(s, e).Tok?
      ensures Parse(s) == Some(v)
    {
      ValueRead(s, Lex(s, 0).t, Lex(s, 0).q, v, e);
      AfterIs(s, v, e);
    }
  }

  /** A text that is one value, to its end, is read by the strict parse. */
  lemma {:induction false} WholeDerives(s: string, v: Json)
    ensures WholeParse(s) == Some(v) <==> exists e :: Begins(s, v, e) && Lex(s, e).Tok? && Lex(s, e).t.TEnd?
  {
    hide Lex, After, ValueAt, ValueIs;
    if WholeParse(s) == Some(v) {
      var e := ValueSound(s, Lex(s, 0).t, Lex(s, 0).q);
      AfterGives(s, v, e);
      assert Begins(s, v, e);
    }
    forall e | Begins(s, v, e) && Lex(s, e).Tok? && Lex(s, e).t.TEnd?
      ensures WholeParse(s) == Some(v)
    {
      ValueRead(s, Lex(s, 0).t, Lex(s, 0).q, v, e);
      AfterIs(s, v, e);
    }
  }
}
