/** JSON.stringify without hooks (json.c): values, the text that is printed for them, and the
    printer with its growing buffer. */
module JsonText {
  import opened Utf
  import opened Grisu
  import opened NumberText

  /** JOther is undefined or a function. A number is given by the decimal it is read as. */
  datatype Json =
    | JNull | JBool(b: bool) | JNaN | JOther
    | JNum(r: Reading)
    | JStr(s: string)
    | JArr(items: Items)
    | JObj(props: Props)

  datatype Items = INil | ICons(v: Json, rest: Items)

  datatype Props = PNil | PCons(name: string, v: Json, rest: Props)

  /** A 32-bit integer. */
  predicate IsInt(r: Reading) {
    r.exp == 0 && 0 <= r.fraction && (r.neg ==> 0 < r.fraction <= 0x8000_0000) && (!r.neg ==> r.fraction < 0x8000_0000)
  }

  function IntOf(r: Reading): int {
    if r.neg then -r.fraction else r.fraction
  }

  function WholeText(v: int): string {
    (if v < 0 then "-" else "") + if v == 0 then "0" else DigitText(DigitsOf(if v < 0 then -v else v))
  }

  // ----- strings -----

  function HexDigit(d: int): char
    requires 0 <= d < 16
  {
    "0123456789ABCDEF"[d]
  }

  function Escape(c: Rune): (t: string)
    ensures t != []
  {
    if c == 34 then "\\\""
    else if c == 92 then "\\\\"
    else if c == 8 then "\\b"
    else if c == 12 then "\\f"
    else if c == 10 then "\\n"
    else if c == 13 then "\\r"
    else if c == 9 then "\\t"
    else if c < 32 || c > 127 then
      "\\u" + [HexDigit(c / 4096), HexDigit(c / 256 % 16), HexDigit(c / 16 % 16), HexDigit(c % 16)]
    else [c as char]
  }

  function Quoted(s: string, p: nat): string
    decreases |s| - p
  {
    if ByteAt(s, p) == 0 then [] else Escape(RuneAt(s, p).0) + Quoted(s, p + RuneAt(s, p).1)
  }

  function Quote(s: string): string {
    "\"" + Quoted(s, 0) + "\""
  }

  // ----- values -----

  function Spaces(n: nat): (t: string)
    ensures |t| == n && forall c | c in t :: c == ' '
  {
    if n == 0 then [] else Spaces(n - 1) + [' ']
  }

  /** With a gap of spaces each element is on its own line; without one, gap is 0. */
  function Indent(gap: nat, level: nat): string {
    if gap == 0 then [] else "\n" + Spaces(level * gap)
  }

  /** The properties that are printed. */
  function Shown(props: Props): Props {
    match props
    case PNil => PNil
    case PCons(name, v, rest) => if v.JOther? then Shown(rest) else PCons(name, v, Shown(rest))
  }

  function Text(v: Json, gap: nat, level: nat): string
    decreases v, 1
  {
    TextNode(v, gap, level)
  }

  lemma {:induction false} TextDef(v: Json, gap: nat, level: nat)
    ensures Text(v, gap, level) == TextNode(v, gap, level)
  {
  }

  function TextNode(v: Json, gap: nat, level: nat): string
    decreases v, 0
  {
    match v
    case JNull => "null"
    case JBool(b) => if b then "true" else "false"
    case JNaN => "null"
    case JOther => "null"
    case JNum(r) => WholeText(IntOf(r))
    case JStr(s) => Quote(s)
    case JArr(items) =>
      "[" + ItemsText(items, true, gap, level + 1) + (if items.INil? then [] else Indent(gap, level)) + "]"
    case JObj(props) =>
      "{" + PropsText(props, true, gap, level + 1) + (if Shown(props).PNil? then [] else Indent(gap, level)) + "}"
  }

  /** The elements, each behind a comma but the first. */
  function ItemsText(items: Items, first: bool, gap: nat, level: nat): string
    decreases items
  {
    match items
    case INil => []
    case ICons(v, rest) =>
      (if first then [] else ",") + Indent(gap, level) + Text(v, gap, level) + ItemsText(rest, false, gap, level)
  }

  function NameText(name: string, gap: nat, level: nat): string {
    Indent(gap, level) + Quote(name) + ":" + if gap == 0 then [] else " "
  }

  function PropsText(props: Props, first: bool, gap: nat, level: nat): string
    decreases props
  {
    match props
    case PNil => []
    case PCons(name, v, rest) =>
      if v.JOther? then PropsText(rest, first, gap, level)
      else
        (if first then [] else ",") + NameText(name, gap, level) + Text(v, gap, level)
        + PropsText(rest, false, gap, level)
  }

  lemma {:induction false} ItemsStep(items: Items, first: bool, gap: nat, level: nat)
    ensures ItemsText(items, first, gap, level) == match items
      case INil => []
      case ICons(v, rest) =>
        (if first then [] else ",") + Indent(gap, level) + Text(v, gap, level) + ItemsText(rest, false, gap, level)
  {
  }

  lemma {:induction false} PropsStep(props: Props, first: bool, gap: nat, level: nat)
    ensures PropsText(props, first, gap, level) == match props
      case PNil => []
      case PCons(name, v, rest) =>
        if v.JOther? then PropsText(rest, first, gap, level)
        else
          (if first then [] else ",") + NameText(name, gap, level) + Text(v, gap, level)
          + PropsText(rest, false, gap, level)
    ensures Shown(props) == match props
      case PNil => PNil
      case PCons(name, v, rest) => if v.JOther? then Shown(rest) else PCons(name, v, Shown(rest))
  {
  }

  // ----- the printer -----

  predicate Ints(v: Json) {
    match v
    case JNum(r) => IsInt(r)
    case JArr(items) => IntItems(items)
    case JObj(props) => IntProps(props)
    case _ => true
  }

  predicate IntItems(items: Items) {
    items.ICons? ==> Ints(items.v) && IntItems(items.rest)
  }

  predicate IntProps(props: Props) {
    props.PCons? ==> Ints(props.v) && IntProps(props.rest)
  }

  class Printer {
    var sb: string

    constructor ()
      ensures sb == []
    {
      sb := [];
    }

    /** `js_putc`, `js_puts` */
    method Put(t: string)
      modifies this
      ensures sb == old(sb) + t
    {
      sb := sb + t;
    }

    /** `fmtstr` */
    method FmtStr(s: string)
      modifies this
      ensures sb == old(sb) + Quote(s)
    {
      hide Quoted, Escape, RuneAt, ByteAt;
      Put("\"");
      var p := 0;
      ghost var start := sb;
      while ByteAt(s, p) != 0
        invariant sb + Quoted(s, p) == start + Quoted(s, 0)
        decreases |s| - p
      {
        QuotedStep(s, p);
        var (c, n) := RuneAt(s, p);
        Assoc3(sb, Escape(c), Quoted(s, p + n));
        Put(Escape(c));
        p := p + n;
      }
      QuotedStep(s, p);
      Nothing(sb);
      Put("\"");
      Flat(old(sb), "\"", Quoted(s, 0), [], "\"");
    }

    /** `fmtindent`, where there is a gap */
    method FmtIndent(gap: nat, level: nat)
      modifies this
      ensures sb == old(sb) + Indent(gap, level)
    {
      if gap == 0 { return; }
      Put("\n");
      var i := 0;
      while i < level
        invariant 0 <= i <= level && sb == old(sb) + "\n" + Spaces(i * gap)
      {
        Put(Spaces(gap));
        SpacesAdd(i * gap, gap);
        i := i + 1;
      }
    }

    /** `fmtobject` */
    method FmtObject(props0: Props, gap: nat, level: nat)
      requires IntProps(props0)
      modifies this
      ensures sb == old(sb) + Text(JObj(props0), gap, level)
      decreases props0, 2
    {
      hide Text, Indent, PropsText, Shown;
      TextDef(JObj(props0), gap, level);
      Put("{");
      ghost var start := sb;
      var props, n := props0, 0;
      while props.PCons?
        invariant IntProps(props) && (props == props0 || props < props0)
        invariant sb + PropsText(props, n == 0, gap, level + 1) == start + PropsText(props0, true, gap, level + 1)
        invariant if n == 0 then Shown(props) == Shown(props0) else Shown(props0).PCons?
        decreases props
      {
        PropsStep(props, n == 0, gap, level + 1);
        var shown := FmtProperty(props.name, props.v, n == 0, gap, level + 1);
        if shown { n := n + 1; }
        props := props.rest;
      }
      PropsStep(props, n == 0, gap, level + 1);
      Nothing(sb);
      if n > 0 { FmtIndent(gap, level); }
      Put("}");
      Flat(old(sb), "{", PropsText(props0, true, gap, level + 1), if n > 0 then Indent(gap, level) else [], "}");
    }

    /** One turn of that loop: what was put in front of a value that is not printed is taken back. */
    method FmtProperty(name: string, v: Json, first: bool, gap: nat, level: nat) returns (shown: bool)
      requires Ints(v)
      modifies this
      ensures shown == !v.JOther?
      ensures shown ==> forall rest: string ::
        sb + rest == old(sb) + ((if first then [] else ",") + NameText(name, gap, level) + Text(v, gap, level) + rest)
      ensures !shown ==> sb == old(sb)
      decreases v, 4
    {
      hide Text, Indent, NameText;
      var save := |sb|;
      if !first { Put(","); }
      FmtName(name, gap, level);
      shown := FmtValue(v, gap, level);
      if !shown { sb := sb[..save]; }
    }

    method FmtName(name: string, gap: nat, level: nat)
      modifies this
      ensures sb == old(sb) + NameText(name, gap, level)
    {
      hide Indent, Quote;
      FmtIndent(gap, level);
      FmtStr(name);
      Put(":");
      if gap > 0 { Put(" "); }
      Flat(old(sb), Indent(gap, level), Quote(name), ":", if gap > 0 then " " else []);
    }

    /** `fmtarray` */
    method FmtArray(items0: Items, gap: nat, level: nat)
      requires IntItems(items0)
      modifies this
      ensures sb == old(sb) + Text(JArr(items0), gap, level)
      decreases items0, 2
    {
      hide Text, Indent, ItemsText;
      TextDef(JArr(items0), gap, level);
      Put("[");
      ghost var start := sb;
      var items, i := items0, 0;
      while items.ICons?
        invariant IntItems(items) && (items == items0 || items < items0)
        invariant sb + ItemsText(items, i == 0, gap, level + 1) == start + ItemsText(items0, true, gap, level + 1)
        decreases items
      {
        ItemsStep(items, i == 0, gap, level + 1);
        FmtElement(items.v, i == 0, gap, level + 1);
        items, i := items.rest, i + 1;
      }
      ItemsStep(items, i == 0, gap, level + 1);
      Nothing(sb);
      if items0.ICons? { FmtIndent(gap, level); }
      Put("]");
      Flat(old(sb), "[", ItemsText(items0, true, gap, level + 1), if items0.INil? then [] else Indent(gap, level), "]");
    }

    method FmtElement(v: Json, first: bool, gap: nat, level: nat)
      requires Ints(v)
      modifies this
      ensures forall rest: string ::
        sb + rest == old(sb) + ((if first then [] else ",") + Indent(gap, level) + Text(v, gap, level) + rest)
      decreases v, 4
    {
      hide Text, Indent;
      if !first { Put(","); }
      FmtIndent(gap, level);
      var shown := FmtValue(v, gap, level);
      if !shown {
        Put("null");
        TextDef(v, gap, level);
      }
    }

    /** `fmtvalue`: false for what is not printed. */
    method FmtValue(v: Json, gap: nat, level: nat) returns (shown: bool)
      requires Ints(v)
      modifies this
      ensures shown == !v.JOther? && sb == if shown then old(sb) + Text(v, gap, level) else old(sb)
      decreases v, 3
    {
      hide Text;
      TextDef(v, gap, level);
      match v {
        case JOther => return false;
        case JNull => Put("null");
        case JBool(b) => Put(if b then "true" else "false");
        case JNaN => Put("null");
        case JNum(r) =>
          var t := IntText(IntOf(r));
          Put(t);
        case JStr(s) => FmtStr(s);
        case JArr(items) => FmtArray(items, gap, level);
        case JObj(props) => FmtObject(props, gap, level);
      }
      return true;
    }
  }

  lemma {:induction false} SpacesAdd(a: nat, b: nat)
    ensures Spaces(a + b) == Spaces(a) + Spaces(b)
    decreases b
  {
    hide Spaces;
    SpacesStep(a + b);
    SpacesStep(b);
    if b > 0 {
      SpacesAdd(a, b - 1);
      Assoc3(Spaces(a), Spaces(b - 1), [' ']);
    }
  }

  lemma {:induction false} SpacesStep(n: nat)
    ensures Spaces(n) == if n == 0 then [] else Spaces(n - 1) + [' ']
  {
  }

  lemma {:induction false} Assoc3(a: string, b: string, c: string)
    ensures a + (b + c) == (a + b) + c
  {
  }

  lemma {:induction false} Flat(o: string, a: string, b: string, c: string, d: string)
    ensures o + a + b + c + d == o + (a + b + c + d) && o + a + b + d == o + (a + b + d)
    ensures c == [] ==> o + a + b + c == o + a + b && a + b + c == a + b
    ensures d == [] ==> o + a + b + c == o + (a + b + c + d)
  {
    assert o + a + b == o + (a + b);
    assert o + (a + b) + c == o + (a + b + c);
  }

  lemma {:induction false} Nothing(a: string)
    ensures a + [] == a
  {
  }

  lemma {:induction false} QuotedStep(s: string, p: nat)
    ensures ByteAt(s, p) != 0 ==>
      p < |s| && Quoted(s, p) == Escape(RuneAt(s, p).0) + Quoted(s, p + RuneAt(s, p).1)
    ensures ByteAt(s, p) == 0 ==> Quoted(s, p) == []
  {
  }

  /** `JSON_stringify`: a gap is at most ten spaces. */
  method Stringify(v: Json, space: int) returns (text: Option<string>)
    requires Ints(v)
    ensures text.Some? <==> !v.JOther?
    ensures text.Some? ==> text.value == Text(v, if space < 0 then 0 else if space > 10 then 10 else space, 0)
  {
    var n := if space < 0 then 0 else if space > 10 then 10 else space;
    var p := new Printer();
    var shown := p.FmtValue(v, n, 0);
    text := if shown then Some(p.sb) else None;
  }
}
