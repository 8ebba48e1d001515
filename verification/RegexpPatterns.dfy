/** Small patterns, searched for: what is reported, said of the runes of the text. */
module RegexpPatterns {
  import opened RegexpTree
  import opened RegexpSearch
  import opened RegexpGrammar
  import opened RegexpParser
  import opened RegexpCount
  import opened RegexpEngine

  /** A text of one rune. */
  function Single(c: Rune, newline: bool, notbol: bool): Text {
    Text([c], newline, notbol)
  }

  /** The search for the parsed pattern reports a match with these captures, or none. */
  ghost predicate Finds(node: Node, text: Text, matched: bool, c: Caps) {
    Accepted(node) && Loopable(Expand(node)) && Reports(Expand(node), text, matched, c)
  }

  /** Where the match is. */
  predicate IsAt(c: Caps, k: nat, sp: nat, ep: nat)
    requires k < MAXSUB
  {
    c[k] == Span(Set(sp), Set(ep))
  }

  // ----- one rune -----

  /** The match that is reported starts at p and is the first way from there. */
  lemma {:induction false} FoundAt(node: Node, re: Re, text: Text, matched: bool, c: Caps) returns (p: nat)
    requires Finds(node, text, matched, c) && Expand(node) == re
    ensures Loopable(re)
    ensures matched ==> Startable(text, p) && forall q: nat | q < p :: WaysFrom(re, text, q) == []
    ensures matched ==> var l := WaysFrom(re, text, p); l != [] && c == Close(l[0].caps, 0, l[0].pos)
    ensures !matched ==> forall q: nat | Startable(text, q) :: WaysFrom(re, text, q) == []
  {
    hide WaysFrom, Expand;
    if matched { p :| LeftmostAt(re, text, p, c); } else { p := 0; }
  }

  /** A single-rune pattern is found at the first rune that passes its test, before the end. */
  lemma {:induction false} OneFound(t: RuneTest, text: Text, matched: bool, c: Caps) returns (p: nat)
    requires Finds(One(t), text, matched, c)
    ensures matched <==> exists q: nat :: Startable(text, q) && q < |text.s| && Passes(t, text.s[q])
    ensures matched ==> IsAt(c, 0, p, p + 1) && p < |text.s| && Passes(t, text.s[p])
    ensures matched ==> forall q: nat | q < p :: !Passes(t, text.s[q])
  {
    hide Passes, Reports;
    p := FoundAt(One(t), Rune1(t), text, matched, c);
    forall q: nat | q <= |text.s|
      ensures WaysFrom(Rune1(t), text, q) == if q < |text.s| && Passes(t, text.s[q])
        then [State(q + 1, Open(NOCAPS, 0, q))] else []
    {
    }
  }

  lemma {:induction false} OneOnOne(t: RuneTest, c: Rune, newline: bool, notbol: bool, matched: bool, caps: Caps)
    requires Finds(One(t), Single(c, newline, notbol), matched, caps)
    ensures matched <==> Passes(t, c)
    ensures matched ==> IsAt(caps, 0, 0, 1)
  {
    hide Passes, Finds;
    var text := Single(c, newline, notbol);
    var p := OneFound(t, text, matched, caps);
    assert Startable(text, 0);
  }

  /** A character matches itself only. */
  lemma {:induction false} CharFound(d: Rune, c: Rune, newline: bool, notbol: bool, matched: bool, caps: Caps)
    requires c != 0 && Finds(One(Char(d)), Single(c, newline, notbol), matched, caps)
    ensures matched <==> c == d
  {
    OneOnOne(Char(d), c, newline, notbol, matched, caps);
  }

  /** A dot matches all but the four newlines. */
  lemma {:induction false} DotFound(c: Rune, newline: bool, notbol: bool, matched: bool, caps: Caps)
    requires c != 0 && Finds(One(Any), Single(c, newline, notbol), matched, caps)
    ensures matched <==> c !in [0x0A, 0x0D, 0x2028, 0x2029]
  {
    OneOnOne(Any, c, newline, notbol, matched, caps);
  }

  lemma {:induction false} ClassFound(spans: seq<(Rune, Rune)>, c: Rune, newline: bool, notbol: bool, matched: bool,
    caps: Caps)
    requires c != 0 && Finds(One(Class(spans)), Single(c, newline, notbol), matched, caps)
    ensures matched <==> exists span :: span in spans && span.0 <= c <= span.1
  {
    OneOnOne(Class(spans), c, newline, notbol, matched, caps);
  }

  /** The negated class matches exactly the other runes. */
  lemma {:induction false} NotClassFound(spans: seq<(Rune, Rune)>, c: Rune, newline: bool, notbol: bool, matched: bool,
    caps: Caps)
    requires c != 0 && Finds(One(NotClass(spans)), Single(c, newline, notbol), matched, caps)
    ensures matched <==> forall span | span in spans :: c < span.0 || span.1 < c
  {
    OneOnOne(NotClass(spans), c, newline, notbol, matched, caps);
  }

  /** Nothing matches the zero at the end of a text. */
  lemma {:induction false} ZeroFound(t: RuneTest, newline: bool, notbol: bool, matched: bool, caps: Caps)
    requires Finds(One(t), Single(0, newline, notbol), matched, caps)
    ensures !matched
  {
    OneOnOne(t, 0, newline, notbol, matched, caps);
  }

  // ----- assertions -----

  /** An assertion is found at the first place where it holds, with nothing in it. */
  lemma {:induction false} AssertFound(a: Assertion, text: Text, matched: bool, c: Caps) returns (p: nat)
    requires Finds(Assert(a), text, matched, c)
    ensures matched <==> exists q: nat :: Startable(text, q) && Holds(a, text, q)
    ensures matched ==> IsAt(c, 0, p, p) && Startable(text, p) && Holds(a, text, p)
    ensures matched ==> forall q: nat | q < p :: !Holds(a, text, q)
  {
    hide Holds, Reports;
    p := FoundAt(Assert(a), Test(a), text, matched, c);
    forall q: nat | q <= |text.s|
      ensures WaysFrom(Test(a), text, q) == if Holds(a, text, q) then [State(q, Open(NOCAPS, 0, q))] else []
    {
    }
  }

  /** A letter, a digit or the underscore. */
  predicate InWord(text: Text, i: int) {
    0 <= i < |text.s| &&
      var c := text.s[i];
      ('a' as int <= c <= 'z' as int) || ('A' as int <= c <= 'Z' as int) || ('0' as int <= c <= '9' as int)
      || c == '_' as int
  }

  /** \b: one neighbour is in a word and the other is not. */
  predicate Boundary(text: Text, p: nat) {
    (InWord(text, p - 1) && !InWord(text, p)) || (!InWord(text, p - 1) && InWord(text, p))
  }

  lemma {:induction false} BoundaryFound(text: Text, matched: bool, c: Caps) returns (p: nat)
    requires Finds(Assert(Word), text, matched, c)
    ensures matched <==> exists q: nat :: Startable(text, q) && Boundary(text, q)
    ensures matched ==> IsAt(c, 0, p, p) && Startable(text, p) && Boundary(text, p)
    ensures matched ==> forall q: nat | q < p :: !Boundary(text, q)
  {
    hide Finds;
    p := AssertFound(Word, text, matched, c);
    assert forall q: nat | q <= |text.s| :: Holds(Word, text, q) <==> Boundary(text, q);
  }

  lemma {:induction false} NoBoundaryFound(text: Text, matched: bool, c: Caps) returns (p: nat)
    requires Finds(Assert(NotWord), text, matched, c)
    ensures matched <==> exists q: nat :: Startable(text, q) && !Boundary(text, q)
    ensures matched ==> IsAt(c, 0, p, p) && Startable(text, p) && !Boundary(text, p)
    ensures matched ==> forall q: nat | q < p :: Boundary(text, q)
  {
    hide Finds;
    p := AssertFound(NotWord, text, matched, c);
    assert forall q: nat | q <= |text.s| :: Holds(NotWord, text, q) <==> !Boundary(text, q);
  }

  /** ^: the start of the text, unless the flag says it is none, and behind a newline if the other
      flag says so. */
  predicate LineStart(text: Text, p: nat) {
    if p == 0 then !text.notbol else text.newline && p <= |text.s| && text.s[p - 1] in [0x0A, 0x0D]
  }

  lemma {:induction false} LineStartFound(text: Text, matched: bool, c: Caps) returns (p: nat)
    requires Finds(Assert(Bol), text, matched, c)
    ensures matched <==> exists q: nat :: Startable(text, q) && LineStart(text, q)
    ensures matched ==> IsAt(c, 0, p, p) && Startable(text, p) && LineStart(text, p)
    ensures matched ==> forall q: nat | q < p :: !LineStart(text, q)
  {
    hide Finds;
    p := AssertFound(Bol, text, matched, c);
    assert forall q: nat | q <= |text.s| :: Holds(Bol, text, q) <==> LineStart(text, q);
  }

  /** $: the end of the text, or in front of a newline. */
  predicate LineEnd(text: Text, p: nat) {
    p >= |text.s| || text.s[p] == 0 || (text.newline && text.s[p] in [0x0A, 0x0D])
  }

  lemma {:induction false} LineEndFound(text: Text, matched: bool, c: Caps) returns (p: nat)
    requires Finds(Assert(Eol), text, matched, c)
    ensures matched
    ensures matched ==> IsAt(c, 0, p, p) && Startable(text, p) && LineEnd(text, p)
    ensures matched ==> forall q: nat | q < p :: !LineEnd(text, q)
  {
    hide Finds;
    p := AssertFound(Eol, text, matched, c);
    assert forall q: nat | q <= |text.s| :: Holds(Eol, text, q) <==> LineEnd(text, q);
    var e := EndOf(text, 0);
    assert LineEnd(text, e) && Startable(text, e);
  }

  /** The first zero, or the end of the text. */
  function EndOf(text: Text, p: nat): (e: nat)
    requires p <= |text.s|
    ensures p <= e <= |text.s| && (e == |text.s| || text.s[e] == 0) && forall q: nat | p <= q < e :: text.s[q] != 0
    decreases |text.s| - p
  {
    if p == |text.s| || text.s[p] == 0 then p else EndOf(text, p + 1)
  }

  // ----- sequences and choices -----

  ghost predicate PassesAt(t: RuneTest, text: Text, p: nat) {
    p < |text.s| && Passes(t, text.s[p])
  }

  /** What a rune test does, at any place and with any captures. */
  lemma {:induction false} OneWays(t: RuneTest, text: Text, st: State)
    requires st.pos <= |text.s|
    ensures Ways(Rune1(t), text, st) == if PassesAt(t, text, st.pos) then [st.(pos := st.pos + 1)] else []
  {
    hide Passes;
  }

  lemma {:induction false} PairWays(t: RuneTest, u: RuneTest, text: Text, st: State)
    requires st.pos <= |text.s|
    ensures Ways(Then(Rune1(t), Rune1(u)), text, st)
      == if PassesAt(t, text, st.pos) && PassesAt(u, text, st.pos + 1) then [st.(pos := st.pos + 2)] else []
  {
    hide Ways, PassesAt;
    WaysDef(Then(Rune1(t), Rune1(u)), text, st);
    OneWays(t, text, st);
    if PassesAt(t, text, st.pos) {
      InText(t, text, st.pos);
      var st1 := st.(pos := st.pos + 1);
      OneWays(u, text, st1);
      assert [st1][1..] == [];
      assert WaysAll(Rune1(u), text, [], st.pos + 1) == [];
    }
  }

  lemma {:induction false} InText(t: RuneTest, text: Text, p: nat)
    requires PassesAt(t, text, p)
    ensures p < |text.s|
  {
  }

  /** The two tests must pass side by side. */
  lemma {:induction false} PairFound(t: RuneTest, u: RuneTest, text: Text, matched: bool, c: Caps) returns (p: nat)
    requires Finds(Cat(One(t), One(u)), text, matched, c)
    ensures matched <==> exists q: nat :: Startable(text, q) && PassesAt(t, text, q) && PassesAt(u, text, q + 1)
    ensures matched ==> IsAt(c, 0, p, p + 2) && PassesAt(t, text, p) && PassesAt(u, text, p + 1)
  {
    hide PassesAt, Ways, Reports;
    CatExpands(t, u);
    p := FoundAt(Cat(One(t), One(u)), Then(Rune1(t), Rune1(u)), text, matched, c);
    forall q: nat | q <= |text.s|
      ensures WaysFrom(Then(Rune1(t), Rune1(u)), text, q)
        == if PassesAt(t, text, q) && PassesAt(u, text, q + 1) then [State(q + 2, Open(NOCAPS, 0, q))] else []
    {
      PairWays(t, u, text, State(q, Open(NOCAPS, 0, q)));
    }
  }

  lemma {:induction false} AltExpands(x: Node, y: Node)
    requires Accepted(Alt(x, y))
    ensures Expand(Alt(x, y)) == Or(Expand(x), Expand(y))
  {
  }

  lemma {:induction false} CatExpands(t: RuneTest, u: RuneTest)
    ensures Accepted(Cat(One(t), One(u))) && Expand(Cat(One(t), One(u))) == Then(Rune1(t), Rune1(u))
    ensures Loopable(Then(Rune1(t), Rune1(u)))
  {
  }

  /** x|xy takes x alone. */
  lemma {:induction false} ShortFirst(t: RuneTest, u: RuneTest, text: Text, matched: bool, c: Caps) returns (p: nat)
    requires Finds(Alt(One(t), Cat(One(t), One(u))), text, matched, c)
    ensures matched <==> exists q: nat :: Startable(text, q) && PassesAt(t, text, q)
    ensures matched ==> IsAt(c, 0, p, p + 1) && PassesAt(t, text, p)
  {
    hide PassesAt, Ways, Reports;
    var re := Or(Rune1(t), Then(Rune1(t), Rune1(u)));
    AltExpands(One(t), Cat(One(t), One(u)));
    CatExpands(t, u);
    p := FoundAt(Alt(One(t), Cat(One(t), One(u))), re, text, matched, c);
    forall q: nat | q <= |text.s|
      ensures var l := WaysFrom(re, text, q);
        if PassesAt(t, text, q) then l != [] && l[0] == State(q + 1, Open(NOCAPS, 0, q)) else l == []
    {
      var st := State(q, Open(NOCAPS, 0, q));
      WaysDef(re, text, st);
      OneWays(t, text, st);
      PairWays(t, u, text, st);
    }
  }

  /** xy|x takes both where it can. */
  lemma {:induction false} LongFirst(t: RuneTest, u: RuneTest, text: Text, matched: bool, c: Caps) returns (p: nat)
    requires Finds(Alt(Cat(One(t), One(u)), One(t)), text, matched, c)
    ensures matched <==> exists q: nat :: Startable(text, q) && PassesAt(t, text, q)
    ensures matched ==> IsAt(c, 0, p, if PassesAt(u, text, p + 1) then p + 2 else p + 1) && PassesAt(t, text, p)
  {
    hide PassesAt, Ways, Reports;
    var re := Or(Then(Rune1(t), Rune1(u)), Rune1(t));
    AltExpands(Cat(One(t), One(u)), One(t));
    CatExpands(t, u);
    p := FoundAt(Alt(Cat(One(t), One(u)), One(t)), re, text, matched, c);
    forall q: nat | q <= |text.s|
      ensures var l := WaysFrom(re, text, q);
        if PassesAt(t, text, q)
          then l != [] && l[0] == State(if PassesAt(u, text, q + 1) then q + 2 else q + 1, Open(NOCAPS, 0, q))
          else l == []
    {
      var st := State(q, Open(NOCAPS, 0, q));
      WaysDef(re, text, st);
      OneWays(t, text, st);
      PairWays(t, u, text, st);
    }
  }

  // ----- repeats -----

  /** How many runes from p on pass. */
  ghost function Run(t: RuneTest, text: Text, p: nat): (n: nat)
    requires p <= |text.s|
    ensures p + n <= |text.s| && forall i: nat | p <= i < p + n :: PassesAt(t, text, i)
    ensures !PassesAt(t, text, p + n)
    decreases |text.s| - p
  {
    if PassesAt(t, text, p) then 1 + Run(t, text, p + 1) else 0
  }

  lemma {:induction false} StarWays(t: RuneTest, ng: bool, text: Text, st: State)
    requires st.pos <= |text.s|
    ensures var l := Loop(Rune1(t), ng, text, st);
      l != [] && l[0] == st.(pos := if ng then st.pos else st.pos + Run(t, text, st.pos))
    decreases |text.s| - st.pos
  {
    hide Ways, PassesAt;
    OneWays(t, text, st);
    if PassesAt(t, text, st.pos) {
      InText(t, text, st.pos);
      var st1 := st.(pos := st.pos + 1);
      StarWays(t, ng, text, st1);
      assert [st1][1..] == [];
    }
  }

  /** A greedy repeat takes all that it can, the other one nothing. */
  lemma {:induction false} StarFound(t: RuneTest, ng: bool, text: Text, matched: bool, c: Caps)
    requires Finds(Rep(One(t), ng, 0, REPINF), text, matched, c)
    ensures matched && IsAt(c, 0, 0, if ng then 0 else Run(t, text, 0))
  {
    hide Ways, Run, Loop, Reports;
    var re := Star(Rune1(t), ng);
    var p := FoundAt(Rep(One(t), ng, 0, REPINF), re, text, matched, c);
    var st := State(0, Open(NOCAPS, 0, 0));
    WaysDef(re, text, st);
    StarWays(t, ng, text, st);
    assert Startable(text, 0) && WaysFrom(re, text, 0) != [];
  }

  /** x+ needs one. */
  lemma {:induction false} PlusFound(t: RuneTest, ng: bool, text: Text, matched: bool, c: Caps) returns (p: nat)
    requires Finds(Rep(One(t), ng, 1, REPINF), text, matched, c)
    ensures matched <==> exists q: nat :: Startable(text, q) && PassesAt(t, text, q)
    ensures matched ==> PassesAt(t, text, p) && p + 1 <= |text.s|
    ensures matched ==> IsAt(c, 0, p, p + 1 + if ng then 0 else Run(t, text, p + 1))
  {
    hide Ways, PassesAt, Run, Loop, Reports;
    var re := Then(Eps, Plus(Rune1(t), ng));
    PlusExpands(t, ng);
    p := FoundAt(Rep(One(t), ng, 1, REPINF), re, text, matched, c);
    forall q: nat | q <= |text.s|
      ensures var l := WaysFrom(re, text, q);
        if !PassesAt(t, text, q) then l == []
        else
          && q < |text.s| && l != []
          && l[0] == State(q + 1 + if ng then 0 else Run(t, text, q + 1), Open(NOCAPS, 0, q))
    {
      PlusWays(t, ng, text, State(q, Open(NOCAPS, 0, q)));
    }
  }

  lemma {:induction false} PlusExpands(t: RuneTest, ng: bool)
    ensures Accepted(Rep(One(t), ng, 1, REPINF)) && Expand(Rep(One(t), ng, 1, REPINF)) == Then(Eps, Plus(Rune1(t), ng))
  {
    assert Copies(Rune1(t), 0) == Eps;
  }

  lemma {:induction false} PlusWays(t: RuneTest, ng: bool, text: Text, st: State)
    requires st.pos <= |text.s| && Loopable(Then(Eps, Plus(Rune1(t), ng)))
    ensures var l := Ways(Then(Eps, Plus(Rune1(t), ng)), text, st);
      if !PassesAt(t, text, st.pos) then l == []
      else st.pos < |text.s| && l != [] && l[0] == st.(pos := st.pos + 1 + if ng then 0 else Run(t, text, st.pos + 1))
  {
    hide Ways, PassesAt, Run, Loop;
    WaysDef(Then(Eps, Plus(Rune1(t), ng)), text, st);
    WaysDef(Eps, text, st);
    WaysDef(Plus(Rune1(t), ng), text, st);
    OneWays(t, text, st);
    assert [st][1..] == [];
    assert WaysAll(Plus(Rune1(t), ng), text, [], st.pos) == [];
    if PassesAt(t, text, st.pos) {
      InText(t, text, st.pos);
      StarWays(t, ng, text, st.(pos := st.pos + 1));
    }
  }

  lemma {:induction false} OptWays(t: RuneTest, ng: bool, text: Text, st: State)
    requires st.pos <= |text.s| && Loopable(Then(Eps, Then(Eps, Opt(Rune1(t), ng))))
    ensures var l := Ways(Then(Eps, Then(Eps, Opt(Rune1(t), ng))), text, st);
      l != [] && l[0] == if !ng && PassesAt(t, text, st.pos) then st.(pos := st.pos + 1) else st
  {
    hide Ways, PassesAt;
    var re := Then(Eps, Opt(Rune1(t), ng));
    WaysDef(Then(Eps, re), text, st);
    WaysDef(re, text, st);
    WaysDef(Eps, text, st);
    WaysDef(Opt(Rune1(t), ng), text, st);
    OneWays(t, text, st);
    assert [st][1..] == [];
    assert WaysAll(Opt(Rune1(t), ng), text, [], st.pos) == [];
    assert WaysAll(re, text, [], st.pos) == [];
  }

  lemma {:induction false} OptExpands(t: RuneTest, ng: bool)
    ensures Accepted(Rep(One(t), ng, 0, 1)) && Expand(Rep(One(t), ng, 0, 1)) == Then(Eps, Then(Eps, Opt(Rune1(t), ng)))
  {
    assert Copies(Opt(Rune1(t), ng), 1) == Then(Copies(Opt(Rune1(t), ng), 0), Opt(Rune1(t), ng));
  }

  /** x? prefers to take one, x?? not to. */
  lemma {:induction false} OptFound(t: RuneTest, ng: bool, text: Text, matched: bool, c: Caps)
    requires Finds(Rep(One(t), ng, 0, 1), text, matched, c)
    ensures matched && IsAt(c, 0, 0, if !ng && PassesAt(t, text, 0) then 1 else 0)
  {
    hide Ways, PassesAt, Reports;
    var re := Then(Eps, Then(Eps, Opt(Rune1(t), ng)));
    OptExpands(t, ng);
    var p := FoundAt(Rep(One(t), ng, 0, 1), re, text, matched, c);
    OptWays(t, ng, text, State(0, Open(NOCAPS, 0, 0)));
    assert Startable(text, 0) && WaysFrom(re, text, 0) != [];
  }

  // ----- captures and lookahead -----

  /** (x) remembers where x was. */
  lemma {:induction false} GroupFound(k: nat, t: RuneTest, text: Text, matched: bool, c: Caps) returns (p: nat)
    requires Finds(Par(k, One(t)), text, matched, c)
    ensures 0 < k < MAXSUB && (matched <==> exists q: nat :: Startable(text, q) && PassesAt(t, text, q))
    ensures matched ==> PassesAt(t, text, p) && IsAt(c, 0, p, p + 1) && IsAt(c, k, p, p + 1)
    ensures matched ==> forall i: nat | i < MAXSUB && i != 0 && i != k :: c[i] == NOSPAN
  {
    hide Ways, PassesAt, Reports;
    var re := Group(k, Rune1(t));
    p := FoundAt(Par(k, One(t)), re, text, matched, c);
    forall q: nat | q <= |text.s|
      ensures WaysFrom(re, text, q)
        == if PassesAt(t, text, q) then [State(q + 1, Close(Open(Open(NOCAPS, 0, q), k, q), k, q + 1))] else []
    {
      var st := State(q, Open(NOCAPS, 0, q));
      WaysDef(re, text, st);
      OneWays(t, text, st.(caps := Open(st.caps, k, q)));
    }
  }

  /** (?=x) is found where x would be, with nothing in it; (?!x) where x would not be. */
  lemma {:induction false} LookFound(positive: bool, t: RuneTest, text: Text, matched: bool, c: Caps) returns (p: nat)
    requires Finds(if positive then Pla(One(t)) else Nla(One(t)), text, matched, c)
    ensures matched <==> exists q: nat :: Startable(text, q) && PassesAt(t, text, q) == positive
    ensures matched ==> PassesAt(t, text, p) == positive && IsAt(c, 0, p, p)
    ensures matched ==> forall q: nat | q < p :: PassesAt(t, text, q) != positive
  {
    hide Ways, PassesAt, Reports;
    var re := Look(positive, Rune1(t));
    p := FoundAt(if positive then Pla(One(t)) else Nla(One(t)), re, text, matched, c);
    forall q: nat | q <= |text.s|
      ensures WaysFrom(re, text, q)
        == if PassesAt(t, text, q) == positive then [State(q, Open(NOCAPS, 0, q))] else []
    {
      var st := State(q, Open(NOCAPS, 0, q));
      WaysDef(re, text, st);
      OneWays(t, text, st);
    }
  }

  // ----- from tokens to the match -----

  datatype Answer = Found(c: Caps) | NotFound | Invalid(error: Error) | TooLarge | Overrun

  /** `regcomp` and `regexec` together, on tokens. */
  method Search(tokens: seq<Token>, text: Text) returns (r: Answer)
    requires Lexed(tokens)
    ensures forall e :: r == Invalid(e) <==> Faulty(tokens, e)
    ensures r.Found? ==> exists node :: Derives(tokens, node) && Finds(node, text, true, r.c)
    ensures r.NotFound? ==> exists node :: Derives(tokens, node) && Finds(node, text, false, NOCAPS)
  {
    hide Derives, Faulty, Reports;
    var p := Parse(tokens);
    if p.Die? { return Invalid(p.error); }
    assert Derives(tokens, p.node);
    var o := Regcompx(p.node);
    match o
    case TooLarge => return Answer.TooLarge;
    case Overrun => return Answer.Overrun;
    case Compiled(prog) =>
      var out := new Resub(NOCAPS);
      var matched := Regexec(prog.start[..prog.end], p.node, text, out);
      if matched {
        assert Finds(p.node, text, true, out.sub);
        r := Found(out.sub);
      } else {
        NotReported(Expand(p.node), text, out.sub);
        assert Finds(p.node, text, false, NOCAPS);
        r := NotFound;
      }
  }

  lemma {:induction false} NotReported(re: Re, text: Text, c: Caps)
    requires Loopable(re) && Reports(re, text, false, c)
    ensures Reports(re, text, false, NOCAPS)
  {
  }
}
