/** JSON.parse without a reviver (json.c) as functions, and the round trip: what is printed for a
    value is parsed as that value. */
module JsonParser {
  import opened NameOrder
  import opened Utf
  import opened Grisu
  import opened NumberText
  import opened JsonText
  import opened JsonLexer

  // ----- parsing -----

  datatype Parsed = Fail | Done(v: Json, t: Token, q: nat)

  /** A value is complete once the token behind it has been read. */
  function After(s: string, v: Json, q: nat): (r: Parsed)
    requires q <= |s|
    ensures r.Done? ==> q <= r.q <= |s| && (!r.t.TEnd? ==> q < r.q)
  {
    match Lex(s, q)
    case Bad => Fail
    case Tok(t, r) => Done(v, t, r)
  }

  /** js_setproperty on a new object: its properties, sorted by name. */
  function Put(props: Props, name: string, v: Json): Props {
    match props
    case PNil => PCons(name, v, PNil)
    case PCons(n, u, rest) =>
      if n == name then PCons(name, v, rest)
      else if Less(name, n) then PCons(name, v, props)
      else PCons(n, u, Put(rest, name, v))
  }

  function Append(items: Items, v: Json): Items {
    if items.INil? then ICons(v, INil) else ICons(items.v, Append(items.rest, v))
  }

  /** `jsonvalue`, where t is the lookahead and q the position behind it. */
  function ValueAt(s: string, t: Token, q: nat): (r: Parsed)
    requires q <= |s|
    ensures r.Done? ==> q <= r.q <= |s| && (!r.t.TEnd? ==> q < r.q)
    decreases |s| - q, if t.TEnd? then 0 else 2
  {
    match t
    case TString(x) => After(s, JStr(x), q)
    case TNumber(r) => After(s, JNum(r), q)
    case TTrue => After(s, JBool(true), q)
    case TFalse => After(s, JBool(false), q)
    case TNull => After(s, JNull, q)
    case TEnd => Fail
    case TPunct(c) =>
      match Lex(s, q)
      case Bad => Fail
      case Tok(t1, q1) =>
        if c == 123 then
          if t1 == TPunct(125) then After(s, JObj(PNil), q1) else MembersAt(s, t1, q1, PNil)
        else if c == 91 then
          if t1 == TPunct(93) then After(s, JArr(INil), q1) else ElementsAt(s, t1, q1, INil)
        else Fail
  }

  function MembersAt(s: string, t: Token, q: nat, acc: Props): (r: Parsed)
    requires q <= |s|
    ensures r.Done? ==> q <= r.q <= |s| && (!r.t.TEnd? ==> q < r.q)
    decreases |s| - q, 1
  {
    match (t, Lex(s, q))
    case (TString(name), Tok(TPunct(c), q1)) =>
      if c != 58 then Fail
      else
        (match Lex(s, q1)
         case Bad => Fail
         case Tok(t2, q2) =>
           match ValueAt(s, t2, q2)
           case Fail => Fail
           case Done(v, t3, q3) =>
             if t3 == TPunct(44) then
               match Lex(s, q3)
               case Bad => Fail
               case Tok(t4, q4) => MembersAt(s, t4, q4, Put(acc, name, v))
             else if t3 == TPunct(125) then After(s, JObj(Put(acc, name, v)), q3)
             else Fail)
    case _ => Fail
  }

  function ElementsAt(s: string, t: Token, q: nat, acc: Items): (r: Parsed)
    requires q <= |s|
    ensures r.Done? ==> q <= r.q <= |s| && (!r.t.TEnd? ==> q < r.q)
    decreases |s| - q, if t.TEnd? then 1 else 3
  {
    match ValueAt(s, t, q)
    case Fail => Fail
    case Done(v, t1, q1) =>
      if t1 == TPunct(44) then
        match Lex(s, q1)
        case Bad => Fail
        case Tok(t2, q2) => ElementsAt(s, t2, q2, Append(acc, v))
      else if t1 == TPunct(93) then After(s, JArr(Append(acc, v)), q1)
      else Fail
  }

  /** `JSON_parse`: what follows the value must begin with a token, and is not looked at further. */
  function Parse(s: string): Option<Json> {
    match Lex(s, 0)
    case Bad => None
    case Tok(t, q) =>
      match ValueAt(s, t, q)
      case Fail => None
      case Done(v, _, _) => Some(v)
  }

  // ----- values that are kept -----

  predicate Sorted(props: Props) {
    props.PCons? && props.rest.PCons? ==> Less(props.name, props.rest.name) && Sorted(props.rest)
  }

  /** Integers of 32 bits and strings of non-zero runes. */
  predicate Written(v: Json) {
    match v
    case JNum(r) => IsInt(r)
    case JStr(s) => ValidFrom(s, 0)
    case JArr(items) => WrittenItems(items)
    case JObj(props) => WrittenProps(props)
    case _ => true
  }

  predicate WrittenItems(items: Items) {
    items.ICons? ==> Written(items.v) && WrittenItems(items.rest)
  }

  predicate WrittenProps(props: Props) {
    props.PCons? ==> ValidFrom(props.name, 0) && Written(props.v) && WrittenProps(props.rest)
  }

  /** The same, with the properties of each object in order. */
  predicate Good(v: Json) {
    match v
    case JNum(r) => IsInt(r)
    case JStr(s) => ValidFrom(s, 0)
    case JArr(items) => GoodItems(items)
    case JObj(props) => Sorted(props) && GoodProps(props)
    case _ => true
  }

  predicate GoodItems(items: Items) {
    items.ICons? ==> Good(items.v) && GoodItems(items.rest)
  }

  predicate GoodProps(props: Props) {
    props.PCons? ==> ValidFrom(props.name, 0) && Good(props.v) && GoodProps(props.rest)
  }

  function PutAll(acc: Props, props: Props): Props
    decreases props
  {
    if props.PNil? then acc else PutAll(Put(acc, props.name, props.v), props.rest)
  }

  /** What a value is in JSON: NaN and what is not printed are null, such properties are left out,
      and of properties with the same name the last one counts. */
  function Sense(v: Json): Json {
    match v
    case JNaN => JNull
    case JOther => JNull
    case JArr(items) => JArr(SenseItems(items))
    case JObj(props) => JObj(PutAll(PNil, SenseProps(props)))
    case _ => v
  }

  function SenseItems(items: Items): Items {
    if items.INil? then INil else ICons(Sense(items.v), SenseItems(items.rest))
  }

  function SenseProps(props: Props): Props {
    match props
    case PNil => PNil
    case PCons(name, v, rest) => if v.JOther? then SenseProps(rest) else PCons(name, Sense(v), SenseProps(rest))
  }

  /** The same of a value whose properties are in order: they stay as they are. */
  function Strip(v: Json): Json {
    match v
    case JNaN => JNull
    case JOther => JNull
    case JArr(items) => JArr(StripItems(items))
    case JObj(props) => JObj(StripProps(props))
    case _ => v
  }

  function StripItems(items: Items): Items {
    if items.INil? then INil else ICons(Strip(items.v), StripItems(items.rest))
  }

  function StripProps(props: Props): Props {
    match props
    case PNil => PNil
    case PCons(name, v, rest) => if v.JOther? then StripProps(rest) else PCons(name, Strip(v), StripProps(rest))
  }

  // ----- tokens that are read back -----

  lemma {:induction false} Ascii(s: string, p: nat)
    requires p < |s| && 0 < s[p] as int < 128 && s[p] != '\r'
    ensures Look(s, p) == s[p] as int && Behind(s, p) == p + 1
  {
  }

  lemma {:induction false} AsciiIn(s: string, p: nat, t: string, i: nat)
    requires At(s, p, t) && i < |t| && 0 < t[i] as int < 128 && t[i] != '\r'
    ensures Look(s, p + i) == t[i] as int && Behind(s, p + i) == p + i + 1
  {
    ByteIn(s, p, t, i);
    Ascii(s, p + i);
  }

  lemma {:induction false} NoWhite(s: string, p: nat)
    requires p <= |s| && !IsWhite(Look(s, p))
    ensures Lex(s, p) == LexAt(s, p)
  {
    hide LexAt;
  }

  lemma {:induction false} SkipWhite(s: string, p: nat)
    requires p < |s| && IsWhite(Look(s, p))
    ensures Lex(s, p) == Lex(s, Behind(s, p))
  {
    hide LexAt;
  }

  lemma {:induction false} SkipSpaces(s: string, p: nat, n: nat)
    requires At(s, p, Spaces(n))
    ensures Lex(s, p) == Lex(s, p + n)
  {
    hide Lex, Spaces, Look, Behind, At;
    if n > 0 {
      SpacesStep(n);
      AtParts(s, p, Spaces(n - 1), " ");
      SkipSpaces(s, p, n - 1);
      AsciiIn(s, p + n - 1, " ", 0);
      ByteIn(s, p + n - 1, " ", 0);
      SkipWhite(s, p + n - 1);
    }
  }

  lemma {:induction false} SkipIndent(s: string, p: nat, gap: nat, level: nat)
    requires At(s, p, Indent(gap, level)) && p <= |s|
    ensures Lex(s, p) == Lex(s, p + |Indent(gap, level)|)
  {
    hide Lex, Spaces, Look, Behind, At;
    if gap > 0 {
      AtParts(s, p, "\n", Spaces(level * gap));
      AsciiIn(s, p, "\n", 0);
      ByteIn(s, p, "\n", 0);
      SkipWhite(s, p);
      SkipSpaces(s, p + 1, level * gap);
    }
  }

  lemma {:induction false} LexPunct(s: string, p: nat, c: char)
    requires At(s, p, [c]) && IsPunct(c as int)
    ensures Lex(s, p) == Tok(TPunct(c as int), p + 1)
  {
    hide Lex, At, Look, Behind;
    ByteIn(s, p, [c], 0);
    AsciiIn(s, p, [c], 0);
    NoWhite(s, p);
  }

  lemma {:induction false} LexWord(s: string, p: nat, c: char, w: string, t: Token)
    requires At(s, p, [c] + w)
    requires (c == 't' && w == "rue" && t == TTrue) || (c == 'f' && w == "alse" && t == TFalse)
      || (c == 'n' && w == "ull" && t == TNull)
    ensures Lex(s, p) == Tok(t, p + 1 + |w|)
  {
    hide Lex, At, Look, Behind, WordEnd;
    AtParts(s, p, [c], w);
    ByteIn(s, p, [c], 0);
    AsciiIn(s, p, [c], 0);
    NoWhite(s, p);
    WordBack(s, p + 1, w);
  }

  lemma {:induction false} WordBack(s: string, p: nat, w: string)
    requires At(s, p, w) && p <= |s| && forall c | c in w :: 'a' <= c <= 'z'
    ensures WordEnd(s, p, w) == Some(p + |w|)
    decreases |w|
  {
    hide At, Look, Behind;
    if w != [] {
      assert w[0] in w;
      AsciiIn(s, p, w, 0);
      ByteIn(s, p, w, 0);
      assert w == [w[0]] + w[1..];
      AtParts(s, p, [w[0]], w[1..]);
      assert forall c | c in w[1..] :: c in w;
      WordBack(s, p + 1, w[1..]);
    }
  }

  // ----- strings -----

  lemma {:induction false} HexBack(d: int)
    requires 0 <= d < 16
    ensures IsHex(HexDigit(d) as int) && HexValue(HexDigit(d) as int) == d
    ensures 48 <= HexDigit(d) as int <= 70
  {
  }

  lemma {:induction false} HexParts(c: Rune)
    ensures c / 4096 * 4096 + c / 256 % 16 * 256 + c / 16 % 16 * 16 + c % 16 == c && c / 4096 < 16
  {
  }

  lemma {:induction false} HexReads(s: string, p: nat, c: Rune)
    requires At(s, p, [HexDigit(c / 4096), HexDigit(c / 256 % 16), HexDigit(c / 16 % 16), HexDigit(c % 16)]) && p <= |s|
    ensures HexAt(s, p) == (RuneText(c), p + 4)
  {
    hide At, Look, Behind, HexDigit, HexValue, IsHex, RuneText;
    HexParts(c);
    var t := [HexDigit(c / 4096), HexDigit(c / 256 % 16), HexDigit(c / 16 % 16), HexDigit(c % 16)];
    HexBack(c / 4096);
    HexBack(c / 256 % 16);
    HexBack(c / 16 % 16);
    HexBack(c % 16);
    AsciiIn(s, p, t, 0);
    AsciiIn(s, p, t, 1);
    AsciiIn(s, p, t, 2);
    AsciiIn(s, p, t, 3);
  }

  /** One rune as it is printed. */
  lemma {:induction false} EscapeReads(s: string, p: nat, c: Rune)
    requires At(s, p, Escape(c)) && c != 0 && p + |Escape(c)| <= |s|
    ensures StringAt(s, p) == Before(RuneText(c), StringAt(s, p + |Escape(c)|))
  {
    hide At, Look, Behind, HexAt, RuneText, StringAt, HexDigit;
    var t := Escape(c);
    StringStep(s, p);
    if t[0] != '\\' {
      AsciiIn(s, p, t, 0);
    } else {
      AsciiIn(s, p, t, 0);
      AsciiIn(s, p, t, 1);
      if t[1] == 'u' {
        var h := [HexDigit(c / 4096), HexDigit(c / 256 % 16), HexDigit(c / 16 % 16), HexDigit(c % 16)];
        assert t == "\\u" + h;
        AtParts(s, p, "\\u", h);
        HexReads(s, p + 2, c);
      }
    }
  }

  lemma {:induction false} StringStep(s: string, p: nat)
    requires p <= |s|
    ensures var c := Look(s, p);
      StringAt(s, p) ==
        if c == 34 then Some(([], Behind(s, p)))
        else if c < 32 then None
        else if c == 92 then
          match EscapeAt(s, Behind(s, p))
          case None => None
          case Some((t, q)) => Before(t, StringAt(s, q))
        else Before(RuneText(c), StringAt(s, Behind(s, p)))
  {
  }

  lemma {:induction false} StringReads(s: string, p: nat, x: string, i: nat)
    requires i <= |x| && ValidFrom(x, i) && At(s, p, Quoted(x, i) + "\"")
    ensures p <= |s| && StringAt(s, p) == Some((x[i..], p + |Quoted(x, i)| + 1))
    decreases |x| - i
  {
    hide At, Look, Behind, RuneText, StringAt, Escape, RuneAt, Quoted;
    QuotedStep(x, i);
    AtParts(s, p, Quoted(x, i), "\"");
    InText(s, p, Quoted(x, i) + "\"");
    if i == |x| {
      ByteEnd(x, i);
      assert Quoted(x, i) == [] && x[i..] == [];
      AsciiIn(s, p, "\"", 0);
      StringStep(s, p);
    } else {
      var (c, n) := RuneAt(x, i);
      NotZero(x, i);
      AtParts(s, p, Escape(c), Quoted(x, i + n));
      InText(s, p, Escape(c));
      EscapeReads(s, p, c);
      AtParts(s, p + |Escape(c)|, Quoted(x, i + n), "\"");
      StringReads(s, p + |Escape(c)|, x, i + n);
      PrefixAt(x, i, RuneText(c));
    }
  }

  lemma {:induction false} ByteEnd(s: string, p: nat)
    requires p >= |s|
    ensures ByteAt(s, p) == 0
  {
  }

  lemma {:induction false} NotZero(x: string, i: nat)
    requires i < |x| && ValidFrom(x, i)
    ensures ByteAt(x, i) != 0 && RuneAt(x, i).0 != 0 && At(x, i, RuneText(RuneAt(x, i).0))
    ensures |RuneText(RuneAt(x, i).0)| == RuneAt(x, i).1 && i + RuneAt(x, i).1 <= |x|
      && ValidFrom(x, i + RuneAt(x, i).1)
  {
  }

  lemma {:induction false} PrefixAt(x: string, i: nat, t: string)
    requires At(x, i, t)
    ensures x[i..] == t + x[i + |t|..]
  {
  }

  lemma {:induction false} InText(s: string, p: nat, t: string)
    requires At(s, p, t)
    ensures p + |t| <= |s|
  {
  }

  lemma {:induction false} NoZeros(x: string, i: nat)
    requires i <= |x| && ValidFrom(x, i)
    ensures '\0' !in x[i..]
    decreases |x| - i
  {
    hide RuneAt, RuneText, ValidFrom, At, ByteAt;
    if i < |x| {
      NotZero(x, i);
      var (c, n) := RuneAt(x, i);
      PrefixAt(x, i, RuneText(c));
      NoZeroByte(c);
      NoZeros(x, i + n);
    }
  }

  lemma {:induction false} NoZeroByte(r: Rune)
    requires r != 0
    ensures '\0' !in RuneText(r)
  {
  }

  lemma {:induction false} LexQuote(s: string, p: nat, x: string)
    requires At(s, p, Quote(x)) && ValidFrom(x, 0)
    ensures p <= |s| && Lex(s, p) == Tok(TString(x), p + |Quote(x)|)
  {
    hide Lex, At, Look, Behind, StringAt, Quoted, ValidFrom, Cut;
    var t := Quoted(x, 0) + "\"";
    assert Quote(x) == "\"" + t;
    InText(s, p, Quote(x));
    AtParts(s, p, "\"", t);
    AsciiIn(s, p, "\"", 0);
    NoWhite(s, p);
    StringReads(s, p + 1, x, 0);
    assert x[0..] == x;
    NoZeros(x, 0);
    CutMeans(x);
  }

  // ----- numbers -----

  /** No digit, point or exponent stands here. */
  predicate Stops(s: string, p: nat) {
    !Dec(Look(s, p)) && Look(s, p) != 46 && Look(s, p) != 101 && Look(s, p) != 69
    && !IsDigit(CharAt(s, p)) && CharAt(s, p) != '.' && CharAt(s, p) != 'e' && CharAt(s, p) != 'E'
  }

  lemma {:induction false} DigitsRead(s: string, p: nat, ds: seq<Digit>)
    requires Stands(s, p, ds) && Stops(s, p + |ds|)
    ensures DigitsEnd(s, p) == p + |ds|
    decreases |ds|
  {
    hide Look, Behind;
    if ds != [] {
      assert s[p] == DigitChar(ds[0]);
      Ascii(s, p);
      StandsRest(s, p, ds);
      DigitsRead(s, p + 1, ds[1..]);
    }
  }

  /** The digits of a whole number, zero included. */
  function IntDigits(n: nat): seq<Digit> {
    if n == 0 then [0] else DigitsOf(n)
  }

  lemma {:induction false} DigitsShort(n: nat, k: nat)
    requires n < Pow10(k)
    ensures |DigitsOf(n)| <= k
    decreases n
  {
    if n > 0 { DigitsShort(n / 10, k - 1); }
  }

  lemma {:induction false} DigitsFirst(n: nat)
    requires n > 0
    ensures DigitsOf(n)[0] != 0
  {
    if n >= 10 { DigitsFirst(n / 10); }
  }

  lemma {:induction false} IntDigitsMean(n: nat)
    requires n <= 0x8000_0000
    ensures 0 < |IntDigits(n)| <= 10 && Number(IntDigits(n)) == n && (n > 0 ==> IntDigits(n)[0] != 0)
    ensures (if n == 0 then "0" else DigitText(DigitsOf(n))) == DigitText(IntDigits(n))
  {
    hide DigitText, Number;
    if n == 0 {
      NumberZeroDigit();
    } else {
      DigitsOfNumber(n);
      DigitsFirst(n);
      assert Pow10(5) == 100000 && Pow10(10) == 100000 * Pow10(5);
      DigitsShort(n, 10);
    }
  }

  lemma {:induction false} NumberZeroDigit()
    ensures Number([0]) == 0 && DigitText([0]) == "0"
  {
  }

  /** js_strtod on an integer and whatever follows it. */
  lemma {:induction false} IntReads(u: string, neg: bool, ds: seq<Digit>)
    requires 0 < |ds| <= 18 && (neg ==> CharAt(u, 0) == '-') && Stands(u, if neg then 1 else 0, ds)
    requires var e := (if neg then 1 else 0) + |ds|;
      !IsDigit(CharAt(u, e)) && CharAt(u, e) != '.' && CharAt(u, e) != 'e' && CharAt(u, e) != 'E'
    ensures Read(u) == Some(Reading(neg, Number(ds), 0))
  {
    hide MantissaAt, MantissaEnd, WholeAt, Number, NumberText.Start;
    var q := if neg then 1 else 0;
    assert u[q] == DigitChar(ds[0]);
    StartStep(u, 0);
    MantissaStands(u, q, ds, false);
    MantissaStep(u, q + |ds|, false);
    assert ds + [] == ds && ds[..|ds|] == ds;
  }

  lemma {:induction false} LexInt(s: string, p: nat, v: int)
    requires -0x8000_0000 <= v < 0x8000_0000 && At(s, p, WholeText(v)) && Stops(s, p + |WholeText(v)|)
    ensures p <= |s|
    ensures Lex(s, p) == Tok(TNumber(Reading(v < 0, if v < 0 then -v else v, 0)), p + |WholeText(v)|)
  {
    hide Lex, At, Look, Behind, Read, IntDigits, NumberEnd, Stops, Number, DigitText, DigitsOf;
    var n := if v < 0 then -v else v;
    var ds, sign := IntDigits(n), if v < 0 then "-" else "";
    IntDigitsMean(n);
    assert WholeText(v) == sign + DigitText(ds);
    InText(s, p, WholeText(v));
    AtParts(s, p, sign, DigitText(ds));
    StandsAt(s, p + |sign|, ds);
    LexDigits(s, p, v < 0, n);
  }

  lemma {:induction false} LexDigits(s: string, p: nat, neg: bool, n: nat)
    requires n <= 0x8000_0000 && At(s, p, if neg then "-" else "") && Stands(s, if neg then p + 1 else p, IntDigits(n))
    requires Stops(s, (if neg then p + 1 else p) + |IntDigits(n)|)
    ensures p <= |s|
    ensures Lex(s, p) == Tok(TNumber(Reading(neg, n, 0)), (if neg then p + 1 else p) + |IntDigits(n)|)
  {
    hide Lex, At, Look, Behind, Read, IntDigits, NumberEnd, Stops, Number, DigitText;
    var ds := IntDigits(n);
    IntDigitsMean(n);
    Signed(s, p, neg, ds);
    NumberReads(s, p, neg, n);
    Suffix(s, p, neg, ds);
    IntReads(s[p..], neg, ds);
    NoWhite(s, p);
  }

  lemma {:induction false} StandsAt(s: string, p: nat, ds: seq<Digit>)
    requires At(s, p, DigitText(ds))
    ensures Stands(s, p, ds)
  {
    hide At;
    InText(s, p, DigitText(ds));
    forall i | 0 <= i < |ds|
      ensures s[p + i] == DigitChar(ds[i])
    {
      ByteIn(s, p, DigitText(ds), i);
    }
  }

  lemma {:induction false} Signed(s: string, p: nat, neg: bool, ds: seq<Digit>)
    requires At(s, p, if neg then "-" else "") && Stands(s, if neg then p + 1 else p, ds) && ds != []
    ensures p < |s| && (if neg then Look(s, p) == 45 && s[p] == '-' && Behind(s, p) == p + 1 else Dec(Look(s, p)))
  {
    hide At, Look, Behind;
    if neg {
      ByteIn(s, p, "-", 0);
      AsciiIn(s, p, "-", 0);
    } else {
      assert s[p + 0] == DigitChar(ds[0]);
      Ascii(s, p);
    }
  }

  lemma {:induction false} NumberReads(s: string, p: nat, neg: bool, n: nat)
    requires n <= 0x8000_0000 && p < |s| && Stands(s, if neg then p + 1 else p, IntDigits(n))
    requires if neg then Look(s, p) == 45 && Behind(s, p) == p + 1 else Dec(Look(s, p))
    requires Stops(s, (if neg then p + 1 else p) + |IntDigits(n)|)
    ensures NumberEnd(s, p) == Some((if neg then p + 1 else p) + |IntDigits(n)|)
  {
    hide Look, Behind, IntDigits, WholeEnd, SomeDigits;
    WholeReads(s, if neg then p + 1 else p, n);
  }

  lemma {:induction false} WholeReads(s: string, a: nat, n: nat)
    requires n <= 0x8000_0000 && Stands(s, a, IntDigits(n)) && Stops(s, a + |IntDigits(n)|)
    ensures WholeEnd(s, a) == Some(a + |IntDigits(n)|)
  {
    hide Look, Behind, IntDigits, DigitsEnd, Stops, Number, DigitText;
    var ds := IntDigits(n);
    IntDigitsMean(n);
    assert s[a + 0] == DigitChar(ds[0]);
    Ascii(s, a);
    if n == 0 { ZeroDigits(); } else {
      StandsRest(s, a, ds);
      DigitsRead(s, a + 1, ds[1..]);
    }
  }

  lemma {:induction false} ZeroDigits()
    ensures IntDigits(0) == [0]
  {
  }

  lemma {:induction false} Suffix(s: string, p: nat, neg: bool, ds: seq<Digit>)
    requires p < |s| && (neg ==> s[p] == '-') && Stands(s, if neg then p + 1 else p, ds)
    requires Stops(s, (if neg then p + 1 else p) + |ds|)
    ensures var u, q := s[p..], if neg then 1 else 0;
      && Stands(u, q, ds) && (neg ==> CharAt(u, 0) == '-')
      && var e := q + |ds|; !IsDigit(CharAt(u, e)) && CharAt(u, e) != '.' && CharAt(u, e) != 'e' && CharAt(u, e) != 'E'
  {
    var u, q := s[p..], if neg then 1 else 0;
    forall i | 0 <= i < |ds|
      ensures u[q + i] == DigitChar(ds[i])
    {
      assert s[p + q + i] == DigitChar(ds[i]);
    }
    assert CharAt(u, q + |ds|) == CharAt(s, p + q + |ds|);
  }
}
