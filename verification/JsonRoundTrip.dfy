/** What JSON.stringify prints for a value, JSON.parse reads as that value (sections 15.12.2 and
    15.12.3 of ECMA-262 5.1), with any gap of spaces. */
module JsonRoundTrip {
  import opened NameOrder
  import opened Utf
  import opened NumberText
  import opened JsonText
  import opened JsonLexer
  import opened JsonParser

  // ----- what stands behind a value -----

  lemma {:induction false} StopsAt(s: string, p: nat, c: char)
    requires At(s, p, [c]) && (c == ',' || c == '\n' || c == ']' || c == '}')
    ensures Stops(s, p)
  {
    hide At, Look, Behind;
    ByteIn(s, p, [c], 0);
    AsciiIn(s, p, [c], 0);
  }

  lemma {:induction false} Closes(s: string, p: nat, gap: nat, level: nat, c: char)
    requires At(s, p, Indent(gap, level) + [c]) && (c == ']' || c == '}')
    ensures p <= |s| && Stops(s, p) && Lex(s, p) == Tok(TPunct(c as int), p + |Indent(gap, level)| + 1)
  {
    hide At, Look, Behind, Lex, Stops, Spaces;
    InText(s, p, Indent(gap, level) + [c]);
    AtParts(s, p, Indent(gap, level), [c]);
    SkipIndent(s, p, gap, level);
    LexPunct(s, p + |Indent(gap, level)|, c);
    if gap > 0 {
      AtParts(s, p, "\n", Spaces(level * gap));
      StopsAt(s, p, '\n');
    } else {
      StopsAt(s, p, c);
    }
  }

  lemma {:induction false} Comma(s: string, p: nat, t: string)
    requires At(s, p, "," + t)
    ensures p + 1 <= |s| && Stops(s, p) && Lex(s, p) == Tok(TPunct(44), p + 1) && At(s, p + 1, t)
  {
    hide At, Look, Behind, Lex, Stops;
    AtParts(s, p, ",", t);
    InText(s, p, ",");
    StopsAt(s, p, ',');
    LexPunct(s, p, ',');
  }

  // ----- lists of elements and properties -----

  function AppendAll(acc: Items, items: Items): Items
    decreases items
  {
    if items.INil? then acc else AppendAll(Append(acc, items.v), items.rest)
  }

  function JoinItems(a: Items, b: Items): Items {
    if a.INil? then b else ICons(a.v, JoinItems(a.rest, b))
  }

  lemma {:induction false} AppendIsJoin(acc: Items, items: Items)
    ensures AppendAll(acc, items) == JoinItems(acc, items)
    decreases items
  {
    if items.INil? { JoinNothing(acc); } else {
      AppendIsJoin(Append(acc, items.v), items.rest);
      JoinAppend(acc, items.v, items.rest);
    }
  }

  lemma {:induction false} JoinNothing(a: Items)
    ensures JoinItems(a, INil) == a
  {
    if a.ICons? { JoinNothing(a.rest); }
  }

  lemma {:induction false} JoinAppend(a: Items, v: Json, b: Items)
    ensures JoinItems(Append(a, v), b) == JoinItems(a, ICons(v, b))
  {
    if a.ICons? { JoinAppend(a.rest, v, b); }
  }

  function JoinProps(a: Props, b: Props): Props {
    if a.PNil? then b else PCons(a.name, a.v, JoinProps(a.rest, b))
  }

  predicate AllBelow(a: Props, name: string) {
    a.PCons? ==> Less(a.name, name) && AllBelow(a.rest, name)
  }

  /** Properties that come in order stay in order. */
  lemma {:induction false} PutIsJoin(acc: Props, props: Props)
    requires Sorted(props) && (props.PCons? ==> AllBelow(acc, props.name))
    ensures PutAll(acc, props) == JoinProps(acc, props)
    decreases props
  {
    hide Less;
    if props.PNil? { JoinNone(acc); } else {
      PutLast(acc, props.name, props.v);
      JoinPut(acc, props.name, props.v, props.rest);
      if props.rest.PCons? { BelowLast(acc, props.name, props.v, props.rest.name); }
      PutIsJoin(Put(acc, props.name, props.v), props.rest);
    }
  }

  lemma {:induction false} JoinNone(a: Props)
    ensures JoinProps(a, PNil) == a
  {
    if a.PCons? { JoinNone(a.rest); }
  }

  lemma {:induction false} PutLast(a: Props, name: string, v: Json)
    requires AllBelow(a, name)
    ensures Put(a, name, v) == JoinProps(a, PCons(name, v, PNil))
  {
    if a.PCons? {
      LessAsym(a.name, name);
      PutLast(a.rest, name, v);
    }
  }

  lemma {:induction false} JoinPut(a: Props, name: string, v: Json, b: Props)
    ensures JoinProps(JoinProps(a, PCons(name, v, PNil)), b) == JoinProps(a, PCons(name, v, b))
  {
    if a.PCons? { JoinPut(a.rest, name, v, b); }
  }

  lemma {:induction false} BelowLast(a: Props, name: string, v: Json, next: string)
    requires AllBelow(a, name) && Less(name, next)
    ensures AllBelow(JoinProps(a, PCons(name, v, PNil)), next)
  {
    if a.PCons? {
      LessTrans(a.name, name, next);
      BelowLast(a.rest, name, v, next);
    }
  }

  lemma {:induction false} SortedStrip(props: Props)
    requires Sorted(props)
    ensures Sorted(StripProps(props))
    ensures var r := StripProps(props);
      r.PCons? && props.PCons? ==> r.name == props.name || Less(props.name, r.name)
  {
    hide Less, Strip;
    if props.PCons? {
      SortedStrip(props.rest);
      var r := StripProps(props.rest);
      if r.PCons? && props.rest.PCons? && r.name != props.rest.name { LessTrans(props.name, props.rest.name, r.name); }
    }
  }

  // ----- values -----

  lemma {:induction false} Grouped(a: string, b: string, c: string, d: string)
    ensures [] + a + b + c + d == a + (b + (c + d)) && [] + d == d
  {
    assert [] + a == a;
    assert a + b + c + d == a + (b + (c + d));
  }

  lemma {:induction false} Grouped3(a: string, b: string, c: string)
    ensures a + b + c == a + (b + c)
  {
  }

  /** The lookahead has been read at p; parsing goes on as if v had been read up to e. */
  ghost predicate Reads(s: string, p: nat, v: Json, e: nat) {
    && p <= |s| && e <= |s| && Lex(s, p).Tok?
    && ValueAt(s, Lex(s, p).t, Lex(s, p).q) == After(s, v, e)
  }

  /** A printed value is parsed as what it is in JSON, whatever comes behind it. */
  lemma {:induction false} ValueBack(s: string, p: nat, v: Json, gap: nat, level: nat)
    requires Written(v) && At(s, p, Text(v, gap, level)) && (v.JNum? ==> Stops(s, p + |Text(v, gap, level)|))
    ensures Reads(s, p, Sense(v), p + |Text(v, gap, level)|)
    decreases v, 2
  {
    hide At, Stops, Text, Reads, Sense;
    match v
    case JArr(_) => ArrayBack(s, p, v, gap, level);
    case JObj(_) => ObjectBack(s, p, v, gap, level);
    case _ => SimpleBack(s, p, v, gap, level);
  }

  lemma {:induction false} SimpleBack(s: string, p: nat, v: Json, gap: nat, level: nat)
    requires !v.JArr? && !v.JObj? && Written(v) && At(s, p, Text(v, gap, level))
    requires v.JNum? ==> Stops(s, p + |Text(v, gap, level)|)
    ensures Reads(s, p, Sense(v), p + |Text(v, gap, level)|)
  {
    hide Lex, At, Stops, Text, After, Look, Behind, MembersAt, ElementsAt, Quote, WholeText;
    TextDef(v, gap, level);
    InText(s, p, Text(v, gap, level));
    match v
    case JStr(x) => LexQuote(s, p, x);
    case JNum(r) => LexInt(s, p, IntOf(r));
    case JBool(b) =>
      assert "true" == ['t'] + "rue" && "false" == ['f'] + "alse";
      if b { LexWord(s, p, 't', "rue", TTrue); } else { LexWord(s, p, 'f', "alse", TFalse); }
    case JNull | JNaN | JOther =>
      assert "null" == ['n'] + "ull";
      LexWord(s, p, 'n', "ull", TNull);
    case _ =>
  }

  lemma {:induction false} ArrayBack(s: string, p: nat, v: Json, gap: nat, level: nat)
    requires v.JArr? && Written(v) && At(s, p, Text(v, gap, level))
    ensures Reads(s, p, Sense(v), p + |Text(v, gap, level)|)
    decreases v, 1
  {
    hide Lex, At, Stops, Text, After, Look, Behind, ItemsText, Indent, SenseItems;
    TextDef(v, gap, level);
    InText(s, p, Text(v, gap, level));
    var items := v.items;
    ItemsStep(items, true, gap, level + 1);
    if items.INil? {
      assert Text(v, gap, level) == "[" + "]";
      AtParts(s, p, "[", "]");
      LexPunct(s, p, '[');
      LexPunct(s, p + 1, ']');
      SenseNothing();
    } else {
      var t := ItemsText(items, true, gap, level + 1);
      var close := Indent(gap, level) + "]";
      assert Text(v, gap, level) == "[" + (t + close);
      AtParts(s, p, "[", t + close);
      LexPunct(s, p, '[');
      ItemsBack(s, p + 1, items, gap, level + 1, INil);
      AppendIsJoin(INil, SenseItems(items));
    }
  }

  lemma {:induction false} SenseNothing()
    ensures SenseItems(INil) == INil && SenseProps(PNil) == PNil
  {
  }

  /** The elements from one on, and the bracket behind them. */
  lemma {:induction false} ItemsBack(s: string, p: nat, items: Items, gap: nat, level: nat, acc: Items)
    requires items.ICons? && WrittenItems(items) && 0 < level
    requires At(s, p, ItemsText(items, true, gap, level) + (Indent(gap, level - 1) + "]"))
    ensures var e := p + |ItemsText(items, true, gap, level)| + |Indent(gap, level - 1)| + 1;
      && p <= |s| && e <= |s| && Lex(s, p).Tok?
      && ElementsAt(s, Lex(s, p).t, Lex(s, p).q, acc) == After(s, JArr(AppendAll(acc, SenseItems(items))), e)
      && Lex(s, p).t != TPunct(93)
    decreases items, 0
  {
    hide Lex, At, Stops, Text, After, Look, Behind, ItemsText, Indent, ValueAt, Sense, Append;
    var v, rest, close := items.v, items.rest, Indent(gap, level - 1) + "]";
    var ind, t, tail := Indent(gap, level), Text(v, gap, level), ItemsText(rest, false, gap, level);
    ItemsStep(items, true, gap, level);
    ItemsStep(rest, false, gap, level);
    InText(s, p, ItemsText(items, true, gap, level) + close);
    Grouped(ind, t, tail, close);
    AtParts(s, p, ind, t + (tail + close));
    AtParts(s, p + |ind|, t, tail + close);
    SkipIndent(s, p, gap, level);
    var e := p + |ind| + |t|;
    if rest.INil? {
      Grouped("", "", "", close);
      Closes(s, e, gap, level - 1, ']');
      ValueBack(s, p + |ind|, v, gap, level);
    } else {
      CommaItems(rest, gap, level);
      Grouped3(",", ItemsText(rest, true, gap, level), close);
      Comma(s, e, ItemsText(rest, true, gap, level) + close);
      ValueBack(s, p + |ind|, v, gap, level);
      ItemsBack(s, e + 1, rest, gap, level, Append(acc, Sense(v)));
    }
    NotClosing(s, p + |ind|, v, gap, level);
    AfterIs(s, Sense(v), e);
  }

  lemma {:induction false} AfterIs(s: string, v: Json, q: nat)
    requires q <= |s| && Lex(s, q).Tok?
    ensures After(s, v, q) == Done(v, Lex(s, q).t, Lex(s, q).q)
  {
    hide Lex;
  }

  /** A value does not begin with a closing bracket. */
  lemma {:induction false} NotClosing(s: string, p: nat, v: Json, gap: nat, level: nat)
    requires Reads(s, p, Sense(v), p + |Text(v, gap, level)|) && Lex(s, p + |Text(v, gap, level)|).Tok?
    ensures Lex(s, p).t != TPunct(93) && Lex(s, p).t != TPunct(125)
  {
    hide Lex, Text, MembersAt, ElementsAt, Sense;
  }

  lemma {:induction false} CommaItems(items: Items, gap: nat, level: nat)
    requires items.ICons?
    ensures ItemsText(items, false, gap, level) == "," + ItemsText(items, true, gap, level)
  {
    hide Indent, Text, ItemsText;
    ItemsStep(items, true, gap, level);
    ItemsStep(items, false, gap, level);
  }

  lemma {:induction false} ObjectBack(s: string, p: nat, v: Json, gap: nat, level: nat)
    requires v.JObj? && Written(v) && At(s, p, Text(v, gap, level))
    ensures Reads(s, p, Sense(v), p + |Text(v, gap, level)|)
    decreases v, 1
  {
    hide Lex, At, Stops, Text, After, Look, Behind, PropsText, Indent, SenseProps, Shown;
    TextDef(v, gap, level);
    InText(s, p, Text(v, gap, level));
    var props := v.props;
    if Shown(props).PNil? {
      NoneShown(props, true, gap, level + 1);
      assert Text(v, gap, level) == "{" + "}";
      AtParts(s, p, "{", "}");
      LexPunct(s, p, '{');
      LexPunct(s, p + 1, '}');
    } else {
      var t := PropsText(props, true, gap, level + 1);
      var close := Indent(gap, level) + "}";
      assert Text(v, gap, level) == "{" + (t + close);
      AtParts(s, p, "{", t + close);
      LexPunct(s, p, '{');
      PropsBack(s, p + 1, props, gap, level + 1, PNil);
    }
  }

  lemma {:induction false} NoneShown(props: Props, first: bool, gap: nat, level: nat)
    requires Shown(props).PNil?
    ensures PropsText(props, first, gap, level) == [] && SenseProps(props) == PNil
  {
    if props.PCons? { NoneShown(props.rest, first, gap, level); }
  }

  lemma {:induction false} CommaProps(props: Props, gap: nat, level: nat)
    requires Shown(props).PCons?
    ensures PropsText(props, false, gap, level) == "," + PropsText(props, true, gap, level)
  {
    hide Text, NameText, PropsText;
    PropsStep(props, true, gap, level);
    PropsStep(props, false, gap, level);
    if props.v.JOther? { CommaProps(props.rest, gap, level); }
  }

  /** The properties from one on, and the brace behind them. */
  lemma {:induction false} PropsBack(s: string, p: nat, props: Props, gap: nat, level: nat, acc: Props)
    requires Shown(props).PCons? && WrittenProps(props) && 0 < level
    requires At(s, p, PropsText(props, true, gap, level) + (Indent(gap, level - 1) + "}"))
    ensures var e := p + |PropsText(props, true, gap, level)| + |Indent(gap, level - 1)| + 1;
      && p <= |s| && e <= |s| && Lex(s, p).Tok? && Lex(s, p).t.TString?
      && MembersAt(s, Lex(s, p).t, Lex(s, p).q, acc) == After(s, JObj(PutAll(acc, SenseProps(props))), e)
    decreases props, 1
  {
    hide Lex, At, Text, After, PropsText, Indent, MembersAt, SenseProps, PutAll;
    PropsStep(props, true, gap, level);
    SenseStep(props);
    if props.v.JOther? { PropsBack(s, p, props.rest, gap, level, acc); } else { PropBack(s, p, props, gap, level, acc);
      }
  }

  lemma {:induction false} SenseStep(props: Props)
    ensures SenseProps(props) == match props
      case PNil => PNil
      case PCons(name, v, rest) => if v.JOther? then SenseProps(rest) else PCons(name, Sense(v), SenseProps(rest))
  {
  }

  lemma {:induction false} PropBack(s: string, p: nat, props: Props, gap: nat, level: nat, acc: Props)
    requires props.PCons? && !props.v.JOther? && WrittenProps(props) && 0 < level
    requires At(s, p, PropsText(props, true, gap, level) + (Indent(gap, level - 1) + "}"))
    ensures var e := p + |PropsText(props, true, gap, level)| + |Indent(gap, level - 1)| + 1;
      && p <= |s| && e <= |s| && Lex(s, p).Tok? && Lex(s, p).t.TString?
      && MembersAt(s, Lex(s, p).t, Lex(s, p).q, acc) == After(s, JObj(PutAll(acc, SenseProps(props))), e)
    decreases props, 0
  {
    hide Lex, At, Stops, Text, After, PropsText, Indent, ValueAt, Sense, Put, SenseProps, Shown, NameText;
    var name, v, rest, close := props.name, props.v, props.rest, Indent(gap, level - 1) + "}";
    var h, t, tail := NameText(name, gap, level), Text(v, gap, level), PropsText(rest, false, gap, level);
    PropsStep(props, true, gap, level);
    SenseStep(props);
    InText(s, p, PropsText(props, true, gap, level) + close);
    Grouped(h, t, tail, close);
    AtParts(s, p, h, t + (tail + close));
    AtParts(s, p + |h|, t, tail + close);
    var b := NameBack(s, p, name, gap, level);
    var e := p + |h| + |t|;
    if Shown(rest).PNil? {
      NoneShown(rest, false, gap, level);
      Grouped("", "", "", close);
      Closes(s, e, gap, level - 1, '}');
      ValueBack(s, p + |h|, v, gap, level);
      AfterIs(s, Sense(v), e);
    } else {
      CommaProps(rest, gap, level);
      Grouped3(",", PropsText(rest, true, gap, level), close);
      Comma(s, e, PropsText(rest, true, gap, level) + close);
      ValueBack(s, p + |h|, v, gap, level);
      AfterIs(s, Sense(v), e);
      PropsBack(s, e + 1, rest, gap, level, Put(acc, name, Sense(v)));
    }
  }

  /** A name, the colon, and where the value's first token is read. */
  lemma {:induction false} NameBack(s: string, p: nat, name: string, gap: nat, level: nat) returns (a: nat)
    requires At(s, p, NameText(name, gap, level)) && ValidFrom(name, 0)
    ensures var e := p + |NameText(name, gap, level)|;
      && p <= |s| && e <= |s| && a <= |s| && Lex(s, p) == Tok(TString(name), a)
      && Lex(s, a) == Tok(TPunct(58), a + 1) && a + 1 <= |s| && Lex(s, a + 1) == Lex(s, e)
  {
    hide Lex, At, Indent, Quote, ValidFrom, Spaces;
    var ind, q, sp := Indent(gap, level), Quote(name), if gap == 0 then [] else " ";
    InText(s, p, NameText(name, gap, level));
    assert NameText(name, gap, level) == ind + (q + (":" + sp));
    AtParts(s, p, ind, q + (":" + sp));
    AtParts(s, p + |ind|, q, ":" + sp);
    AtParts(s, p + |ind| + |q|, ":", sp);
    SkipIndent(s, p, gap, level);
    LexQuote(s, p + |ind|, name);
    a := p + |ind| + |q|;
    LexPunct(s, a, ':');
    if gap > 0 {
      OneSpace();
      SkipSpaces(s, a + 1, 1);
    }
  }

  lemma {:induction false} OneSpace()
    ensures Spaces(1) == " "
  {
  }

  // ----- the round trip -----

  /** Written with any gap, its properties in any order, and parsed again, a value is what it is in
      JSON. */
  lemma {:induction false} TextSense(v: Json, gap: nat)
    requires Written(v)
    ensures Parse(Text(v, gap, 0)) == Some(Sense(v))
  {
    hide Lex, Text, At, Stops, After, ValueAt, Sense;
    var s := Text(v, gap, 0);
    assert s[0..|s|] == s;
    Whole(s);
    ValueBack(s, 0, v, gap, 0);
    AfterIs(s, Sense(v), |s|);
  }

  /** Of values with their properties in order, as they are printed. */
  lemma {:induction false} RoundTrip(v: Json, gap: nat)
    requires Good(v)
    ensures Parse(Text(v, gap, 0)) == Some(Strip(v))
  {
    hide Parse, Text, Sense, Strip, Good, Written;
    GoodSense(v);
    TextSense(v, gap);
  }

  lemma {:induction false} GoodSense(v: Json)
    requires Good(v)
    ensures Written(v) && Sense(v) == Strip(v)
  {
    hide Put, PutAll, Less, Sorted;
    match v
    case JArr(items) => GoodSenseItems(items);
    case JObj(props) =>
      GoodSenseProps(props);
      SortedStrip(props);
      PutIsJoin(PNil, StripProps(props));
    case _ =>
  }

  lemma {:induction false} GoodSenseItems(items: Items)
    requires GoodItems(items)
    ensures WrittenItems(items) && SenseItems(items) == StripItems(items)
  {
    hide Good, Written, Sense, Strip;
    if items.ICons? {
      GoodSense(items.v);
      GoodSenseItems(items.rest);
    }
  }

  lemma {:induction false} GoodSenseProps(props: Props)
    requires GoodProps(props)
    ensures WrittenProps(props) && SenseProps(props) == StripProps(props)
  {
    hide Good, Written, Sense, Strip, ValidFrom;
    if props.PCons? {
      GoodSense(props.v);
      GoodSenseProps(props.rest);
    }
  }

  lemma {:induction false} Whole(s: string)
    ensures At(s, 0, s) && Stops(s, |s|) && Lex(s, |s|) == Tok(TEnd, |s|)
  {
    assert Look(s, |s|) == 0;
  }

  /** A value of JSON is kept as it is. */
  predicate Pure(v: Json) {
    match v
    case JNaN => false
    case JOther => false
    case JArr(items) => PureItems(items)
    case JObj(props) => PureProps(props)
    case _ => true
  }

  predicate PureItems(items: Items) {
    items.ICons? ==> Pure(items.v) && PureItems(items.rest)
  }

  predicate PureProps(props: Props) {
    props.PCons? ==> Pure(props.v) && PureProps(props.rest)
  }

  lemma {:induction false} StripPure(v: Json)
    ensures Strip(v) == v <==> Pure(v)
  {
    match v
    case JArr(items) => StripPureItems(items);
    case JObj(props) => StripPureProps(props);
    case _ =>
  }

  lemma {:induction false} StripPureItems(items: Items)
    ensures StripItems(items) == items <==> PureItems(items)
  {
    if items.ICons? {
      StripPure(items.v);
      StripPureItems(items.rest);
    }
  }

  function Length(props: Props): nat {
    if props.PNil? then 0 else 1 + Length(props.rest)
  }

  lemma {:induction false} StripLength(props: Props)
    ensures Length(StripProps(props)) <= Length(props)
  {
    if props.PCons? { StripLength(props.rest); }
  }

  lemma {:induction false} StripPureProps(props: Props)
    ensures StripProps(props) == props <==> PureProps(props)
  {
    if props.PCons? {
      StripPure(props.v);
      StripPureProps(props.rest);
      StripLength(props.rest);
    }
  }

  /** The round trip gives back exactly the values of JSON. */
  lemma {:induction false} RoundTripExact(v: Json, gap: nat)
    requires Good(v)
    ensures Parse(Text(v, gap, 0)) == Some(v) <==> Pure(v)
  {
    hide Text, Parse, Strip, Good, Pure;
    RoundTrip(v, gap);
    StripPure(v);
  }

  // ----- the properties of an object -----

  /** The value of the property of that name. */
  function Lookup(props: Props, name: string): Option<Json> {
    match props
    case PNil => None
    case PCons(n, v, rest) => if n == name then Some(v) else Lookup(rest, name)
  }

  /** Storing a property changes that one and no other, and keeps the order. */
  lemma {:induction false} PutMeans(props: Props, name: string, v: Json, other: string)
    ensures Lookup(Put(props, name, v), other) == if other == name then Some(v) else Lookup(props, other)
    ensures Sorted(props) ==> Sorted(Put(props, name, v))
    ensures var r := Put(props, name, v);
      r.PCons? && (r.name == name || (props.PCons? && r.name == props.name))
  {
    hide Less;
    if props.PCons? {
      LessTotal(props.name, name);
      PutMeans(props.rest, name, v, other);
    }
  }

  /** The last value that the list has for the name. */
  function LastOf(props: Props, name: string): Option<Json> {
    match props
    case PNil => None
    case PCons(n, v, rest) =>
      if LastOf(rest, name).Some? then LastOf(rest, name) else if n == name then Some(v) else None
  }

  lemma {:induction false} PutAllMeans(acc: Props, props: Props, name: string)
    requires Sorted(acc)
    ensures Sorted(PutAll(acc, props))
    ensures Lookup(PutAll(acc, props), name) == if LastOf(props, name).Some? then LastOf(props, name)
      else Lookup(acc, name)
    decreases props
  {
    hide Put, Sorted;
    if props.PCons? {
      PutMeans(acc, props.name, props.v, name);
      PutAllMeans(Put(acc, props.name, props.v), props.rest, name);
    }
  }

  /** An object that is written with its members in any order, and with names that come again, is
      parsed as the object that has for each name the last value written, and no other names. */
  lemma {:induction false} MembersAnyOrder(props: Props, gap: nat) returns (r: Props)
    requires WrittenProps(props)
    ensures Parse(Text(JObj(props), gap, 0)) == Some(JObj(r)) && Sorted(r)
    ensures forall name :: Lookup(r, name) == LastOf(SenseProps(props), name)
  {
    hide Parse, Text, SenseProps, PutAll, LastOf, WrittenProps;
    TextSense(JObj(props), gap);
    r := PutAll(PNil, SenseProps(props));
    PutAllMeans(PNil, SenseProps(props), "");
    forall name
      ensures Lookup(r, name) == LastOf(SenseProps(props), name)
    {
      PutAllMeans(PNil, SenseProps(props), name);
    }
  }
}
