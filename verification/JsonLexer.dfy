/** The tokens of JSON (the end of jslex.c), as functions of the text and a position. */
module JsonLexer {
  import opened Utf
  import opened NumberText

  predicate IsNewline(c: int) {
    c == 10 || c == 13 || c == 0x2028 || c == 0x2029
  }

  /** White space, newlines included. */
  predicate IsWhite(c: int) {
    c == 9 || c == 11 || c == 12 || c == 32 || c == 0xA0 || c == 0xFEFF || c == 10
  }

  /** `jsY_next`: the character at p, where every newline is a line feed. */
  function Look(s: string, p: nat): (c: Rune)
    ensures c != 0 ==> p < |s|
  {
    var c := RuneAt(s, p).0;
    if IsNewline(c) then 10 else c
  }

  /** Where the next character starts. */
  function Behind(s: string, p: nat): (q: nat)
    ensures p < q && (p < |s| ==> q <= |s|)
  {
    var (c, n) := RuneAt(s, p);
    if c == 13 && ByteAt(s, p + n) == 10 then p + n + 1 else p + n
  }

  function White(s: string, p: nat): (q: nat)
    ensures p <= q && (p <= |s| ==> q <= |s|)
    decreases |s| - p
  {
    if IsWhite(Look(s, p)) then White(s, Behind(s, p)) else p
  }

  // ----- numbers -----

  predicate Dec(c: int) {
    48 <= c <= 57
  }

  function DigitsEnd(s: string, p: nat): (q: nat)
    ensures p <= q && (p <= |s| ==> q <= |s|)
    decreases |s| - p
  {
    if Dec(Look(s, p)) then DigitsEnd(s, Behind(s, p)) else p
  }

  /** At least one digit. */
  function SomeDigits(s: string, p: nat): (r: Option<nat>)
    ensures r.Some? ==> p < r.value <= |s|
  {
    if Dec(Look(s, p)) then Some(DigitsEnd(s, Behind(s, p))) else None
  }

  function WholeEnd(s: string, p: nat): (r: Option<nat>)
    ensures r.Some? ==> p < r.value <= |s|
  {
    if Look(s, p) == 48 then Some(Behind(s, p)) else SomeDigits(s, p)
  }

  function FractionEnd(s: string, p: nat): (r: Option<nat>)
    requires p <= |s|
    ensures r.Some? ==> p <= r.value <= |s|
  {
    if Look(s, p) == 46 then SomeDigits(s, Behind(s, p)) else Some(p)
  }

  function ExponentEnd(s: string, p: nat): (r: Option<nat>)
    requires p <= |s|
    ensures r.Some? ==> p <= r.value <= |s|
  {
    if Look(s, p) == 101 || Look(s, p) == 69 then
      var q := Behind(s, p);
      SomeDigits(s, if Look(s, q) == 45 || Look(s, q) == 43 then Behind(s, q) else q)
    else Some(p)
  }

  /** The grammar of section 15.12.1.1 of ECMA-262 5.1. */
  function NumberEnd(s: string, p: nat): (r: Option<nat>)
    ensures r.Some? ==> p < r.value <= |s|
  {
    match WholeEnd(s, if Look(s, p) == 45 then Behind(s, p) else p)
    case None => None
    case Some(a) =>
      match FractionEnd(s, a)
      case None => None
      case Some(b) => ExponentEnd(s, b)
  }

  // ----- strings -----

  predicate IsHex(c: int) {
    Dec(c) || 97 <= c <= 102 || 65 <= c <= 70
  }

  function HexValue(c: int): (h: int)
    requires IsHex(c)
    ensures 0 <= h < 16
  {
    if c <= 57 then c - 48 else if c >= 97 then c - 87 else c - 55
  }

  /** Four hexadecimal digits. A sequence that is too short is dropped without an error. */
  function HexAt(s: string, p: nat): (r: (string, nat))
    requires p <= |s|
    ensures p <= r.1 <= |s|
  {
    if !IsHex(Look(s, p)) then ([], p) else
    var p1 := Behind(s, p);
    if !IsHex(Look(s, p1)) then ([], p1) else
    var p2 := Behind(s, p1);
    if !IsHex(Look(s, p2)) then ([], p2) else
    var p3 := Behind(s, p2);
    if !IsHex(Look(s, p3)) then ([], p3) else
    var x := HexValue(Look(s, p)) * 4096 + HexValue(Look(s, p1)) * 256 + HexValue(Look(s, p2)) * 16
      + HexValue(Look(s, p3));
    (RuneText(x), Behind(s, p3))
  }

  /** What a one-letter escape stands for. */
  function Letter(c: int): Option<Rune> {
    if c == 34 || c == 92 then Some(c)
    else if c == 98 then Some(8)
    else if c == 102 then Some(12)
    else if c == 110 then Some(10)
    else if c == 114 then Some(13)
    else if c == 116 then Some(9)
    else None
  }

  /** `lexjsonescape`, behind the backslash */
  function EscapeAt(s: string, p: nat): (r: Option<(string, nat)>)
    requires p <= |s|
    ensures r.Some? ==> p <= r.value.1 <= |s|
  {
    var c := Look(s, p);
    if c == 117 then Some(HexAt(s, Behind(s, p)))
    else if Letter(c).Some? then Some((RuneText(Letter(c).value), Behind(s, p)))
    else None
  }

  /** `lexjsonstring`, behind the quotation mark */
  function StringAt(s: string, p: nat): (r: Option<(string, nat)>)
    requires p <= |s|
    ensures r.Some? ==> p < r.value.1 <= |s|
    decreases |s| - p
  {
    var c := Look(s, p);
    if c == 34 then Some(([], Behind(s, p)))
    else if c < 32 then None
    else if c == 92 then
      match EscapeAt(s, Behind(s, p))
      case None => None
      case Some((t, q)) => Before(t, StringAt(s, q))
    else Before(RuneText(c), StringAt(s, Behind(s, p)))
  }

  function Before(t: string, r: Option<(string, nat)>): Option<(string, nat)> {
    if r.None? then None else Some((t + r.value.0, r.value.1))
  }

  /** What js_intern keeps of the buffer: the string up to its first zero byte. */
  function Cut(t: string): string {
    if t == [] || t[0] == '\0' then [] else [t[0]] + Cut(t[1..])
  }

  /** Nothing is lost exactly if there is no zero byte. */
  lemma {:induction false} CutMeans(t: string)
    ensures Cut(t) <= t && '\0' !in Cut(t) && (Cut(t) == t <==> '\0' !in t)
    ensures Cut(t) < t ==> t[|Cut(t)|] == '\0'
  {
    if t != [] {
      assert t == [t[0]] + t[1..];
      if t[0] != '\0' { CutMeans(t[1..]); }
    }
  }

  // ----- tokens -----

  datatype Token = TEnd | TPunct(c: Rune) | TString(text: string) | TNumber(r: Reading) | TTrue | TFalse | TNull

  datatype Lexed = Bad | Tok(t: Token, q: nat)

  /** The rest of a word. */
  function WordEnd(s: string, p: nat, w: string): (r: Option<nat>)
    requires p <= |s|
    ensures r.Some? ==> p <= r.value <= |s|
    decreases |w|
  {
    if w == [] then Some(p)
    else if w[0] as int != 0 && Look(s, p) == w[0] as int then WordEnd(s, Behind(s, p), w[1..])
    else None
  }

  function Word(t: Token, r: Option<nat>): Lexed {
    if r.None? then Bad else Tok(t, r.value)
  }

  predicate IsPunct(c: int) {
    c == 44 || c == 58 || c == 91 || c == 93 || c == 123 || c == 125
  }

  /** `jsY_lexjson` */
  function Lex(s: string, p: nat): (r: Lexed)
    requires p <= |s|
    ensures r.Tok? ==> p <= r.q <= |s| && (!r.t.TEnd? ==> p < r.q)
  {
    LexAt(s, White(s, p))
  }

  function LexAt(s: string, p: nat): (r: Lexed)
    requires p <= |s|
    ensures r.Tok? ==> p <= r.q <= |s| && (!r.t.TEnd? ==> p < r.q)
  {
    var c := Look(s, p);
    if Dec(c) || c == 45 then
      match (NumberEnd(s, p), Read(s[p..]))
      case (Some(q), Some(r)) => Tok(TNumber(r), q)
      case _ => Bad
    else if IsPunct(c) then Tok(TPunct(c), Behind(s, p))
    else if c == 34 then
      match StringAt(s, Behind(s, p))
      case None => Bad
      case Some((t, q)) => Tok(TString(Cut(t)), q)
    else if c == 102 then Word(TFalse, WordEnd(s, Behind(s, p), "alse"))
    else if c == 110 then Word(TNull, WordEnd(s, Behind(s, p), "ull"))
    else if c == 116 then Word(TTrue, WordEnd(s, Behind(s, p), "rue"))
    else if c == 0 then Tok(TEnd, p)
    else Bad
  }
}
