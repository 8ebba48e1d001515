/** Patterns of the MuJS regular expression engine (regexp.c): the parse tree, what a
    pattern means on a given text, and the tests the parser makes on a tree. */
module RegexpTree {

  type Rune = r: nat | r < 0x10000

  const REPINF := 255
  const MAXSUB := 10
  const MAXPROG := 32 * 1024

  /** The single-rune tests I_ANYNL, I_ANY, I_CHAR, I_CCLASS and I_NCCLASS. */
  datatype RuneTest = AnyNL | Any | Char(c: Rune) | Class(spans: seq<(Rune, Rune)>) | NotClass(spans: seq<(Rune, Rune)>)

  datatype Assertion = Bol | Eol | Word | NotWord

  /** Parse trees. Null is the missing node of an empty pattern. */
  datatype Node =
    | Null
    | Cat(x: Node, y: Node)
    | Alt(x: Node, y: Node)
    | Rep(x: Node, ng: bool, m: nat, n: nat)
    | Assert(a: Assertion)
    | Par(k: nat, x: Node)
    | Pla(x: Node)
    | Nla(x: Node)
    | One(t: RuneTest)

  /** `empty`: may the node match without consuming a rune? */
  predicate Empty(node: Node) {
    match node
    case Null => true
    case Cat(x, y) => Empty(x) && Empty(y)
    case Alt(x, y) => Empty(x) || Empty(y)
    case Rep(x, _, m, _) => Empty(x) || m == 0
    case Par(_, x) => Empty(x)
    case One(_) => false
    case _ => true
  }

  /** What the parser guarantees of the trees it builds: bounded counts, no unbounded
      repeat of a possibly empty node, and capture numbers above the whole-match slot 0. */
  predicate Accepted(node: Node) {
    match node
    case Cat(x, y) => Accepted(x) && Accepted(y)
    case Alt(x, y) => Accepted(x) && Accepted(y)
    case Rep(x, _, m, n) => Accepted(x) && m < REPINF && m <= n <= REPINF && (n == REPINF ==> !Empty(x))
    case Par(k, x) => 0 < k < MAXSUB && Accepted(x)
    case Pla(x) => Accepted(x)
    case Nla(x) => Accepted(x)
    case _ => true
  }

  /** Bounded and unbounded repeats, written out with `?`, `*` and `+`. */
  datatype Re =
    | Eps
    | Then(x: Re, y: Re)
    | Or(x: Re, y: Re)
    | Opt(x: Re, ng: bool)
    | Star(x: Re, ng: bool)
    | Plus(x: Re, ng: bool)
    | Test(a: Assertion)
    | Group(k: nat, x: Re)
    | Look(positive: bool, x: Re)
    | Rune1(t: RuneTest)

  function Copies(x: Re, count: nat): Re {
    if count == 0 then Eps else Then(Copies(x, count - 1), x)
  }

  /** x{m,n} is m copies of x followed by n-m optional copies; x{m,} ends in a loop. */
  function Repeat(x: Re, ng: bool, m: nat, n: nat): Re
    requires m <= n
  {
    if m == n then Copies(x, m)
    else if n < REPINF then Then(Copies(x, m), Copies(Opt(x, ng), n - m))
    else if m == 0 then Star(x, ng)
    else Then(Copies(x, m - 1), Plus(x, ng))
  }

  function Expand(node: Node): Re
    requires Accepted(node)
  {
    match node
    case Null => Eps
    case Cat(x, y) => Then(Expand(x), Expand(y))
    case Alt(x, y) => Or(Expand(x), Expand(y))
    case Rep(x, ng, m, n) => Repeat(Expand(x), ng, m, n)
    case Assert(a) => Test(a)
    case Par(k, x) => Group(k, Expand(x))
    case Pla(x) => Look(true, Expand(x))
    case Nla(x) => Look(false, Expand(x))
    case One(t) => Rune1(t)
  }

  predicate MayBeEmpty(re: Re) {
    match re
    case Then(x, y) => MayBeEmpty(x) && MayBeEmpty(y)
    case Or(x, y) => MayBeEmpty(x) || MayBeEmpty(y)
    case Plus(x, _) => MayBeEmpty(x)
    case Group(_, x) => MayBeEmpty(x)
    case Rune1(_) => false
    case _ => true
  }

  /** Every loop body consumes, and capture numbers are in range. */
  predicate Loopable(re: Re) {
    match re
    case Then(x, y) => Loopable(x) && Loopable(y)
    case Or(x, y) => Loopable(x) && Loopable(y)
    case Opt(x, _) => Loopable(x)
    case Star(x, _) => Loopable(x) && !MayBeEmpty(x)
    case Plus(x, _) => Loopable(x) && !MayBeEmpty(x)
    case Group(k, x) => 0 < k < MAXSUB && Loopable(x)
    case Look(_, x) => Loopable(x)
    case _ => true
  }

  lemma {:induction false} CopiesLoopable(x: Re, count: nat)
    requires Loopable(x)
    ensures Loopable(Copies(x, count))
    ensures MayBeEmpty(Copies(x, count)) <==> count == 0 || MayBeEmpty(x)
  {
    if count > 0 {
      CopiesLoopable(x, count - 1);
    }
  }

  /** `empty` is exact for the written-out form, and the check in `newrep` is enough to
      make every loop body consume a rune. */
  lemma {:induction false} ExpandLoopable(node: Node)
    requires Accepted(node)
    ensures Loopable(Expand(node))
    ensures MayBeEmpty(Expand(node)) <==> Empty(node)
  {
    match node
    case Cat(x, y) => ExpandLoopable(x); ExpandLoopable(y);
    case Alt(x, y) => ExpandLoopable(x); ExpandLoopable(y);
    case Rep(x, ng, m, n) =>
      ExpandLoopable(x);
      var re := Expand(x);
      CopiesLoopable(re, m);
      CopiesLoopable(Opt(re, ng), n - m);
      if m > 0 { CopiesLoopable(re, m - 1); }
    case Par(k, x) => ExpandLoopable(x);
    case Pla(x) => ExpandLoopable(x);
    case Nla(x) => ExpandLoopable(x);
    case _ =>
  }

  // ----- what a pattern matches -----

  /** Capture bounds; NULL pointers are Unset. */
  datatype Mark = Unset | Set(pos: nat)
  datatype Span = Span(sp: Mark, ep: Mark)
  type Caps = c: seq<Span> | |c| == MAXSUB witness seq(MAXSUB, _ => Span(Unset, Unset))

  const NOSPAN := Span(Unset, Unset)
  const NOCAPS: Caps := [NOSPAN, NOSPAN, NOSPAN, NOSPAN, NOSPAN, NOSPAN, NOSPAN, NOSPAN, NOSPAN, NOSPAN]

  function Open(c: Caps, k: nat, pos: nat): Caps
    requires k < MAXSUB
  {
    c[k := c[k].(sp := Set(pos))]
  }

  function Close(c: Caps, k: nat, pos: nat): Caps
    requires k < MAXSUB
  {
    c[k := c[k].(ep := Set(pos))]
  }

  /** A text with the flags REG_NEWLINE and REG_NOTBOL. */
  datatype Text = Text(s: seq<Rune>, newline: bool, notbol: bool)

  predicate IsNewline(c: Rune) {
    c == 0xA || c == 0xD || c == 0x2028 || c == 0x2029
  }

  /** `isnewline` applied to a byte of the text sees only the one-byte newlines. */
  predicate IsNewlineByte(c: Rune) {
    c == 0xA || c == 0xD
  }

  predicate IsWordChar(c: Rune) {
    c == 95 || 97 <= c <= 122 || 65 <= c <= 90 || 48 <= c <= 57
  }

  predicate InClass(spans: seq<(Rune, Rune)>, c: Rune) {
    exists i | 0 <= i < |spans| :: spans[i].0 <= c <= spans[i].1
  }

  predicate Passes(t: RuneTest, c: Rune) {
    c != 0 &&
    match t
    case AnyNL => true
    case Any => !IsNewline(c)
    case Char(d) => c == d
    case Class(spans) => InClass(spans, c)
    case NotClass(spans) => !InClass(spans, c)
  }

  predicate WordAt(text: Text, pos: int) {
    0 <= pos < |text.s| && IsWordChar(text.s[pos])
  }

  predicate Holds(a: Assertion, text: Text, pos: nat)
    requires pos <= |text.s|
  {
    match a
    case Bol => (pos == 0 && !text.notbol) || (text.newline && pos > 0 && IsNewlineByte(text.s[pos - 1]))
    case Eol => pos == |text.s| || text.s[pos] == 0 || (text.newline && IsNewlineByte(text.s[pos]))
    case Word => WordAt(text, pos - 1) != WordAt(text, pos)
    case NotWord => WordAt(text, pos - 1) == WordAt(text, pos)
  }

  datatype State = State(pos: nat, caps: Caps)

  ghost predicate Within(l: seq<State>, lo: nat, hi: nat) {
    forall i | 0 <= i < |l| :: lo <= l[i].pos <= hi
  }

  /** All ways to match re from st, best first. A node that may not be empty always moves on. */
  ghost function Ways(re: Re, text: Text, st: State): (l: seq<State>)
    requires Loopable(re) && st.pos <= |text.s|
    ensures Within(l, if MayBeEmpty(re) then st.pos else st.pos + 1, |text.s|)
    decreases re, 0, 0, 0, 0
  {
    match re
    case Eps => [st]
    case Then(x, y) => WaysAll(y, text, Ways(x, text, st), if MayBeEmpty(x) then st.pos else st.pos + 1)
    case Or(x, y) => Ways(x, text, st) + Ways(y, text, st)
    case Opt(x, ng) => if ng then [st] + Ways(x, text, st) else Ways(x, text, st) + [st]
    case Star(x, ng) => Loop(x, ng, text, st)
    case Plus(x, ng) => LoopAll(x, ng, text, Ways(x, text, st), st.pos + 1)
    case Test(a) => if Holds(a, text, st.pos) then [st] else []
    case Group(k, x) => CloseAll(k, Ways(x, text, st.(caps := Open(st.caps, k, st.pos))))
    case Look(positive, x) =>
      var l := Ways(x, text, st);
      if positive then (if l == [] then [] else [st.(caps := l[0].caps)])
      else (if l == [] then [st] else [])
    case Rune1(t) =>
      if st.pos < |text.s| && Passes(t, text.s[st.pos]) then [st.(pos := st.pos + 1)] else []
  }

  ghost function WaysAll(re: Re, text: Text, l: seq<State>, lo: nat): (r: seq<State>)
    requires Loopable(re) && Within(l, lo, |text.s|)
    ensures Within(r, if MayBeEmpty(re) then lo else lo + 1, |text.s|)
    decreases re, 0, 0, 1, |l|
  {
    if l == [] then [] else Ways(re, text, l[0]) + WaysAll(re, text, l[1..], lo)
  }

  ghost function Loop(x: Re, ng: bool, text: Text, st: State): (r: seq<State>)
    requires Loopable(x) && !MayBeEmpty(x) && st.pos <= |text.s|
    ensures Within(r, st.pos, |text.s|)
    decreases x, 1, |text.s| + 1 - st.pos, 0, 0
  {
    var more := LoopAll(x, ng, text, Ways(x, text, st), st.pos + 1);
    if ng then [st] + more else more + [st]
  }

  ghost function LoopAll(x: Re, ng: bool, text: Text, l: seq<State>, lo: nat): (r: seq<State>)
    requires Loopable(x) && !MayBeEmpty(x) && lo <= |text.s| + 1 && Within(l, lo, |text.s|)
    ensures Within(r, lo, |text.s|)
    decreases x, 1, |text.s| + 1 - lo, 1, |l|
  {
    if l == [] then [] else Loop(x, ng, text, l[0]) + LoopAll(x, ng, text, l[1..], lo)
  }

  ghost function CloseAll(k: nat, l: seq<State>): (r: seq<State>)
    requires k < MAXSUB
    ensures |r| == |l| && forall i | 0 <= i < |l| :: r[i] == l[i].(caps := Close(l[i].caps, k, l[i].pos))
  {
    if l == [] then [] else [l[0].(caps := Close(l[0].caps, k, l[0].pos))] + CloseAll(k, l[1..])
  }

  /** One unfolding of Ways. */
  lemma {:induction false} WaysDef(re: Re, text: Text, st: State)
    requires Loopable(re) && st.pos <= |text.s|
    ensures var w := Ways(re, text, st);
      match re
      case Eps => w == [st]
      case Then(x, y) => w == WaysAll(y, text, Ways(x, text, st), if MayBeEmpty(x) then st.pos else st.pos + 1)
      case Or(x, y) => w == Ways(x, text, st) + Ways(y, text, st)
      case Opt(x, ng) => w == if ng then [st] + Ways(x, text, st) else Ways(x, text, st) + [st]
      case Star(x, ng) => w == Loop(x, ng, text, st)
      case Plus(x, ng) => w == LoopAll(x, ng, text, Ways(x, text, st), st.pos + 1)
      case Test(a) => w == if Holds(a, text, st.pos) then [st] else []
      case Group(k, x) => w == CloseAll(k, Ways(x, text, st.(caps := Open(st.caps, k, st.pos))))
      case Look(positive, x) =>
        var l := Ways(x, text, st);
        w == if positive then (if l == [] then [] else [st.(caps := l[0].caps)])
             else (if l == [] then [st] else [])
      case Rune1(t) =>
        w == if st.pos < |text.s| && Passes(t, text.s[st.pos]) then [st.(pos := st.pos + 1)] else []
  {
  }
}
