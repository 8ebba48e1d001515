/** What `regexec` reports, and what repeats mean in terms of their bodies. */
module RegexpSearch {
  import opened RegexpTree
  import opened RegexpProgram
  import opened RegexpEngine

  // ----- the reported match is leftmost -----

  /** A match may start at p: it is in the text and no zero rune comes before it. */
  ghost predicate Startable(text: Text, p: nat) {
    p <= |text.s| && forall i | 0 <= i < p :: text.s[i] != 0
  }

  ghost function WaysFrom(re: Re, text: Text, p: nat): seq<State>
    requires Loopable(re) && p <= |text.s|
  {
    Ways(re, text, State(p, Open(NOCAPS, 0, p)))
  }

  /** c is the outcome of the best match at the smallest start that has one. */
  ghost predicate LeftmostAt(re: Re, text: Text, p: nat, c: Caps)
    requires Loopable(re)
  {
    && Startable(text, p)
    && (forall q: nat | q < p :: WaysFrom(re, text, q) == [])
    && WaysFrom(re, text, p) != []
    && c == Close(WaysFrom(re, text, p)[0].caps, 0, WaysFrom(re, text, p)[0].pos)
    && c[0].sp == Set(p)
  }

  ghost predicate NoMatch(re: Re, text: Text)
    requires Loopable(re)
  {
    forall p: nat | Startable(text, p) :: WaysFrom(re, text, p) == []
  }

  /** What a search reports: the leftmost match and its captures, or that there is none. */
  ghost predicate Reports(re: Re, text: Text, matched: bool, c: Caps)
    requires Loopable(re)
  {
    if matched then exists p: nat :: LeftmostAt(re, text, p, c) else NoMatch(re, text)
  }

  ghost predicate ZeroKept(l: seq<State>, zero: Span) {
    forall i | 0 <= i < |l| :: l[i].caps[0] == zero
  }

  /** Groups are numbered from 1, so a pattern never touches capture 0. */
  lemma {:induction false} WaysKeepZero(re: Re, text: Text, st: State)
    requires Loopable(re) && st.pos <= |text.s|
    ensures ZeroKept(Ways(re, text, st), st.caps[0])
    decreases re, 0, 0, 0, 0
  {
    hide Ways, WaysAll, Loop, LoopAll;
    WaysDef(re, text, st);
    match re
    case Then(x, y) =>
      WaysKeepZero(x, text, st);
      AllKeepZero(y, text, Ways(x, text, st), if MayBeEmpty(x) then st.pos else st.pos + 1, st.caps[0]);
    case Or(x, y) => WaysKeepZero(x, text, st); WaysKeepZero(y, text, st);
    case Opt(x, _) => WaysKeepZero(x, text, st);
    case Star(x, ng) => LoopKeepsZero(x, ng, text, st);
    case Plus(x, ng) =>
      WaysKeepZero(x, text, st);
      LoopAllKeepsZero(x, ng, text, Ways(x, text, st), st.pos + 1, st.caps[0]);
    case Group(k, x) => WaysKeepZero(x, text, st.(caps := Open(st.caps, k, st.pos)));
    case Look(_, x) => WaysKeepZero(x, text, st);
    case _ =>
  }

  lemma {:induction false} AllKeepZero(re: Re, text: Text, l: seq<State>, lo: nat, zero: Span)
    requires Loopable(re) && Within(l, lo, |text.s|) && ZeroKept(l, zero)
    ensures ZeroKept(WaysAll(re, text, l, lo), zero)
    decreases re, 0, 0, 1, |l|
  {
    hide Ways;
    if l != [] {
      WaysKeepZero(re, text, l[0]);
      AllKeepZero(re, text, l[1..], lo, zero);
    }
  }

  lemma {:induction false} LoopKeepsZero(x: Re, ng: bool, text: Text, st: State)
    requires Loopable(x) && !MayBeEmpty(x) && st.pos <= |text.s|
    ensures ZeroKept(Loop(x, ng, text, st), st.caps[0])
    decreases x, 1, |text.s| + 1 - st.pos, 0, 0
  {
    hide Ways, LoopAll;
    WaysKeepZero(x, text, st);
    LoopAllKeepsZero(x, ng, text, Ways(x, text, st), st.pos + 1, st.caps[0]);
  }

  lemma {:induction false} LoopAllKeepsZero(x: Re, ng: bool, text: Text, l: seq<State>, lo: nat, zero: Span)
    requires Loopable(x) && !MayBeEmpty(x) && lo <= |text.s| + 1 && Within(l, lo, |text.s|) && ZeroKept(l, zero)
    ensures ZeroKept(LoopAll(x, ng, text, l, lo), zero)
    decreases x, 1, |text.s| + 1 - lo, 1, |l|
  {
    hide Loop;
    if l != [] {
      LoopKeepsZero(x, ng, text, l[0]);
      LoopAllKeepsZero(x, ng, text, l[1..], lo, zero);
    }
  }

  /** One turn of the search loop at the head of the program. */
  lemma {:induction false} SearchTurn(m: Machine, re: Re, p: nat)
    requires m.Valid() && Loopable(re) && Program(re, m.prog) && p <= |m.text.s|
    ensures var l := WaysFrom(re, m.text, p);
      Exec(m, 0, State(p, NOCAPS)) ==
        if l != [] then Some(Close(l[0].caps, 0, l[0].pos))
        else if p < |m.text.s| && m.text.s[p] != 0 then Exec(m, 0, State(p + 1, NOCAPS)) else None
  {
    hide Exec, Resume, Ranked, Ways, Coded, Size;
    var st := State(p, NOCAPS);
    var e := Size(re) + 4;
    var l := WaysFrom(re, m.text, p);
    ExecSplit(m, 0, st, 3, 1);
    ExecNext(m, 3, st);
    CodeCorrect(m, re, 4, State(p, Open(NOCAPS, 0, p)));
    ResumeClose(m, e, l, 0);
    ResumeEnd(m, e + 1, CloseAll(0, l));
    ExecNext(m, 1, st);
    if p < |m.text.s| { ExecNext(m, 2, State(p + 1, NOCAPS)); }
  }

  /** The search reports the leftmost match, and fails only if there is none. */
  lemma {:induction false} SearchCorrect(m: Machine, re: Re, p: nat)
    requires m.Valid() && Loopable(re) && Program(re, m.prog) && Startable(m.text, p)
    requires forall q: nat | q < p :: WaysFrom(re, m.text, q) == []
    ensures var r := Exec(m, 0, State(p, NOCAPS));
      if r.Some? then exists q: nat :: LeftmostAt(re, m.text, q, r.value) else NoMatch(re, m.text)
    decreases |m.text.s| - p
  {
    hide Exec, Ranked, Ways, Program;
    SearchTurn(m, re, p);
    var l := WaysFrom(re, m.text, p);
    if l != [] {
      WaysKeepZero(re, m.text, State(p, Open(NOCAPS, 0, p)));
      assert LeftmostAt(re, m.text, p, Close(l[0].caps, 0, l[0].pos));
    } else if p < |m.text.s| && m.text.s[p] != 0 {
      SearchCorrect(m, re, p + 1);
    } else {
      assert forall q: nat | Startable(m.text, q) :: q <= p;
    }
  }

  /** `regexec`: clear the captures and run the program at the start of the text. */
  method Regexec(prog: Prog, ghost node: Node, text: Text, out: Resub) returns (matched: bool)
    requires Accepted(node) && Program(Expand(node), prog)
    modifies out
    ensures Loopable(Expand(node)) && Reports(Expand(node), text, matched, out.sub)
  {
    ExpandLoopable(node);
    ghost var rank := ProgramRanked(Expand(node), prog);
    out.sub := NOCAPS;
    matched := Match(prog, rank, text, 0, 0, out);
    SearchCorrect(Machine(prog, rank, text), Expand(node), 0);
  }

  // ----- what a repeat matches -----

  /** From st, k matches of x in a row can lead to fin. */
  ghost predicate Chain(x: Re, text: Text, k: nat, st: State, fin: State)
    requires Loopable(x)
  {
    if k == 0 then st == fin
    else exists mid: State :: mid.pos <= |text.s| && Chain(x, text, k - 1, st, mid) && fin in Ways(x, text, mid)
  }

  ghost predicate ChainBetween(x: Re, text: Text, lo: nat, hi: int, st: State, fin: State)
    requires Loopable(x)
  {
    exists k: nat :: lo <= k && (hi < REPINF ==> k <= hi) && Chain(x, text, k, st, fin)
  }

  lemma {:induction false} InWaysAll(re: Re, text: Text, l: seq<State>, lo: nat, fin: State)
    requires Loopable(re) && Within(l, lo, |text.s|)
    ensures fin in WaysAll(re, text, l, lo) <==>
      exists mid :: mid in l && mid.pos <= |text.s| && fin in Ways(re, text, mid)
  {
    hide Ways;
    if l != [] {
      InWaysAll(re, text, l[1..], lo, fin);
      assert l == [l[0]] + l[1..];
    }
  }

  lemma {:induction false} CopiesMeaning(x: Re, text: Text, count: nat, st: State, fin: State)
    requires Loopable(x) && st.pos <= |text.s|
    ensures Loopable(Copies(x, count))
    ensures fin in Ways(Copies(x, count), text, st) <==> Chain(x, text, count, st, fin)
  {
    hide Ways, WaysAll;
    CopiesLoopable(x, count);
    var re := Copies(x, count);
    WaysDef(re, text, st);
    if count > 0 {
      CopiesLoopable(x, count - 1);
      var rest := Copies(x, count - 1);
      var l := Ways(rest, text, st);
      InWaysAll(x, text, l, if MayBeEmpty(rest) then st.pos else st.pos + 1, fin);
      forall mid: State
        ensures mid in l <==> Chain(x, text, count - 1, st, mid)
      {
        CopiesMeaning(x, text, count - 1, st, mid);
      }
    }
  }

  lemma {:induction false} ChainBounded(x: Re, text: Text, k: nat, st: State, fin: State)
    requires Loopable(x) && st.pos <= |text.s| && Chain(x, text, k, st, fin)
    ensures fin.pos <= |text.s|
  {
    hide Ways;
  }

  /** A chain can be extended at the front. */
  lemma {:induction false} ChainFront(x: Re, text: Text, k: nat, st: State, mid: State, fin: State)
    requires Loopable(x) && st.pos <= |text.s| && mid in Ways(x, text, st) && Chain(x, text, k, mid, fin)
    ensures Chain(x, text, k + 1, st, fin)
  {
    hide Ways;
    if k == 0 {
      assert Chain(x, text, 0, st, st);
    } else {
      var m1: State :| m1.pos <= |text.s| && Chain(x, text, k - 1, mid, m1) && fin in Ways(x, text, m1);
      ChainFront(x, text, k - 1, st, mid, m1);
    }
  }

  /** A chain of at least one match starts with one. */
  lemma {:induction false} ChainUnfront(x: Re, text: Text, k: nat, st: State, fin: State) returns (mid: State)
    requires Loopable(x) && st.pos <= |text.s| && k > 0 && Chain(x, text, k, st, fin)
    ensures mid in Ways(x, text, st) && mid.pos <= |text.s| && Chain(x, text, k - 1, mid, fin)
  {
    hide Ways;
    var m1: State :| m1.pos <= |text.s| && Chain(x, text, k - 1, st, m1) && fin in Ways(x, text, m1);
    if k == 1 {
      mid := fin;
    } else {
      mid := ChainUnfront(x, text, k - 1, st, m1);
    }
  }

  /** One step of a chain of optional matches stays or takes one more match. */
  lemma {:induction false} OptStep(x: Re, ng: bool, text: Text, count: nat, st: State, fin: State)
    requires Loopable(x) && st.pos <= |text.s| && count > 0
    ensures Chain(Opt(x, ng), text, count, st, fin) <==>
      exists mid: State :: mid.pos <= |text.s| && Chain(Opt(x, ng), text, count - 1, st, mid)
        && (fin == mid || fin in Ways(x, text, mid))
  {
    hide Ways;
    forall mid: State | mid.pos <= |text.s|
      ensures fin in Ways(Opt(x, ng), text, mid) <==> fin == mid || fin in Ways(x, text, mid)
    {
      WaysDef(Opt(x, ng), text, mid);
    }
  }

  lemma {:induction false} OptChain(x: Re, ng: bool, text: Text, count: nat, st: State, fin: State)
    requires Loopable(x) && st.pos <= |text.s|
    ensures Chain(Opt(x, ng), text, count, st, fin) <==> exists k: nat :: k <= count && Chain(x, text, k, st, fin)
    decreases count, 1
  {
    hide Ways;
    if count == 0 {
      assert Chain(x, text, 0, st, fin) <==> st == fin;
    } else {
      OptStep(x, ng, text, count, st, fin);
      if Chain(Opt(x, ng), text, count, st, fin) { OptChainDown(x, ng, text, count, st, fin); }
      if k: nat :| k <= count && Chain(x, text, k, st, fin) { OptChainUp(x, ng, text, count, k, st, fin); }
    }
  }

  lemma {:induction false} OptChainDown(x: Re, ng: bool, text: Text, count: nat, st: State, fin: State)
    requires Loopable(x) && st.pos <= |text.s| && count > 0 && Chain(Opt(x, ng), text, count, st, fin)
    ensures exists k: nat :: k <= count && Chain(x, text, k, st, fin)
    decreases count, 0
  {
    hide Ways, Chain;
    OptStep(x, ng, text, count, st, fin);
    var mid: State :| mid.pos <= |text.s| && Chain(Opt(x, ng), text, count - 1, st, mid)
      && (fin == mid || fin in Ways(x, text, mid));
    OptChain(x, ng, text, count - 1, st, mid);
    var k: nat :| k <= count - 1 && Chain(x, text, k, st, mid);
    if fin != mid {
      ChainBack(x, text, k, st, mid, fin);
      assert k + 1 <= count && Chain(x, text, k + 1, st, fin);
    }
  }

  lemma {:induction false} OptChainUp(x: Re, ng: bool, text: Text, count: nat, k: nat, st: State, fin: State)
    requires Loopable(x) && st.pos <= |text.s| && count > 0 && k <= count && Chain(x, text, k, st, fin)
    ensures Chain(Opt(x, ng), text, count, st, fin)
    decreases count, 0
  {
    hide Ways, Chain;
    OptStep(x, ng, text, count, st, fin);
    ChainBounded(x, text, k, st, fin);
    if k == count {
      var mid := ChainUnback(x, text, k, st, fin);
      OptChain(x, ng, text, count - 1, st, mid);
    } else {
      OptChain(x, ng, text, count - 1, st, fin);
    }
  }

  lemma {:induction false} ChainBack(x: Re, text: Text, k: nat, st: State, mid: State, fin: State)
    requires Loopable(x) && mid.pos <= |text.s| && Chain(x, text, k, st, mid) && fin in Ways(x, text, mid)
    ensures Chain(x, text, k + 1, st, fin)
  {
    hide Ways;
  }

  lemma {:induction false} ChainUnback(x: Re, text: Text, k: nat, st: State, fin: State) returns (mid: State)
    requires Loopable(x) && k > 0 && Chain(x, text, k, st, fin)
    ensures mid.pos <= |text.s| && Chain(x, text, k - 1, st, mid) && fin in Ways(x, text, mid)
  {
    hide Ways;
    mid :| mid.pos <= |text.s| && Chain(x, text, k - 1, st, mid) && fin in Ways(x, text, mid);
  }

  ghost predicate SomeChain(x: Re, text: Text, st: State, fin: State)
    requires Loopable(x)
  {
    exists k: nat :: Chain(x, text, k, st, fin)
  }

  /** Some state of l starts a chain to fin. */
  ghost predicate ChainFrom(x: Re, text: Text, l: seq<State>, fin: State)
    requires Loopable(x)
  {
    exists i | 0 <= i < |l| :: SomeChain(x, text, l[i], fin)
  }

  /** A chain is empty or goes on from one of the ways to match once. */
  lemma {:induction false} ChainUnfold(x: Re, text: Text, st: State, fin: State)
    requires Loopable(x) && st.pos <= |text.s|
    ensures SomeChain(x, text, st, fin) <==> fin == st || ChainFrom(x, text, Ways(x, text, st), fin)
  {
    assert Chain(x, text, 0, st, fin) <==> fin == st;
    hide Ways, Chain;
    var l := Ways(x, text, st);
    if ChainFrom(x, text, l, fin) {
      var i :| 0 <= i < |l| && SomeChain(x, text, l[i], fin);
      var k: nat :| Chain(x, text, k, l[i], fin);
      ChainFront(x, text, k, st, l[i], fin);
    }
    if k: nat :| Chain(x, text, k, st, fin) {
      if k > 0 { var mid := ChainUnfront(x, text, k, st, fin); }
    }
  }

  lemma {:induction false} LoopMeaning(x: Re, ng: bool, text: Text, st: State, fin: State)
    requires Loopable(x) && !MayBeEmpty(x) && st.pos <= |text.s|
    ensures fin in Loop(x, ng, text, st) <==> SomeChain(x, text, st, fin)
    decreases |text.s| + 1 - st.pos, 0, 0
  {
    hide Ways, LoopAll, Chain, SomeChain, ChainFrom;
    LoopAllMeaning(x, ng, text, Ways(x, text, st), st.pos + 1, fin);
    ChainUnfold(x, text, st, fin);
  }

  lemma {:induction false} LoopAllMeaning(x: Re, ng: bool, text: Text, l: seq<State>, lo: nat, fin: State)
    requires Loopable(x) && !MayBeEmpty(x) && lo <= |text.s| + 1 && Within(l, lo, |text.s|)
    ensures fin in LoopAll(x, ng, text, l, lo) <==> ChainFrom(x, text, l, fin)
    decreases |text.s| + 1 - lo, 1, |l|
  {
    hide Ways, Loop, SomeChain;
    if l != [] {
      LoopMeaning(x, ng, text, l[0], fin);
      LoopAllMeaning(x, ng, text, l[1..], lo, fin);
      assert l == [l[0]] + l[1..];
    }
  }

  /** A repeat x{m,n} can lead from st to fin exactly when some number of matches of x
      between m and n can, whichever order it tries them in. */
  lemma {:induction false} RepeatMeaning(x: Re, ng: bool, text: Text, m: nat, n: nat, st: State, fin: State)
    requires Loopable(x) && m <= n <= REPINF && m < REPINF && (n == REPINF ==> !MayBeEmpty(x)) && st.pos <= |text.s|
    ensures Loopable(Repeat(x, ng, m, n))
    ensures fin in Ways(Repeat(x, ng, m, n), text, st) <==> ChainBetween(x, text, m, n, st, fin)
  {
    hide Ways, WaysAll, Chain, Copies, Loop, LoopAll;
    CopiesMeaning(x, text, m, st, fin);
    var re := Repeat(x, ng, m, n);
    if m == n {
      assert re == Copies(x, m);
    } else if n < REPINF {
      BoundedMeaning(x, ng, text, m, n, st, fin);
    } else if m == 0 {
      WaysDef(re, text, st);
      LoopMeaning(x, ng, text, st, fin);
      if k: nat :| Chain(x, text, k, st, fin) { assert 0 <= k && Chain(x, text, k, st, fin); }
    } else {
      UnboundedMeaning(x, ng, text, m, st, fin);
    }
  }

  /** Matches in a row add up. */
  lemma {:induction false} ChainAdd(x: Re, text: Text, j: nat, k: nat, st: State, mid: State, fin: State)
    requires Loopable(x) && st.pos <= |text.s| && Chain(x, text, j, st, mid) && Chain(x, text, k, mid, fin)
    ensures Chain(x, text, j + k, st, fin)
  {
    hide Ways;
    if k > 0 {
      var m1 := ChainUnback(x, text, k, mid, fin);
      ChainAdd(x, text, j, k - 1, st, mid, m1);
      ChainBack(x, text, j + k - 1, st, m1, fin);
    }
  }

  lemma {:induction false} ChainCut(x: Re, text: Text, j: nat, k: nat, st: State, fin: State) returns (mid: State)
    requires Loopable(x) && st.pos <= |text.s| && Chain(x, text, j + k, st, fin)
    ensures mid.pos <= |text.s| && Chain(x, text, j, st, mid) && Chain(x, text, k, mid, fin)
  {
    hide Ways;
    if k == 0 {
      ChainBounded(x, text, j, st, fin);
      mid := fin;
    } else {
      var m1 := ChainUnback(x, text, j + k, st, fin);
      mid := ChainCut(x, text, j, k - 1, st, m1);
      ChainBack(x, text, k - 1, mid, m1, fin);
    }
  }

  lemma {:induction false} BoundedMeaning(x: Re, ng: bool, text: Text, m: nat, n: nat, st: State, fin: State)
    requires Loopable(x) && m < n < REPINF && st.pos <= |text.s|
    ensures Loopable(Repeat(x, ng, m, n))
    ensures fin in Ways(Repeat(x, ng, m, n), text, st) <==> ChainBetween(x, text, m, n, st, fin)
  {
    hide Ways, WaysAll, Chain, Copies;
    var c, o := Copies(x, m), Copies(Opt(x, ng), n - m);
    CopiesLoopable(x, m);
    CopiesLoopable(Opt(x, ng), n - m);
    WaysDef(Then(c, o), text, st);
    var l := Ways(c, text, st);
    InWaysAll(o, text, l, if MayBeEmpty(c) then st.pos else st.pos + 1, fin);
    if mid :| mid in l && mid.pos <= |text.s| && fin in Ways(o, text, mid) {
      CopiesMeaning(x, text, m, st, mid);
      CopiesMeaning(Opt(x, ng), text, n - m, mid, fin);
      OptChain(x, ng, text, n - m, mid, fin);
      var k: nat :| k <= n - m && Chain(x, text, k, mid, fin);
      ChainAdd(x, text, m, k, st, mid, fin);
    }
    if k: nat :| m <= k <= n && Chain(x, text, k, st, fin) {
      var mid := ChainCut(x, text, m, k - m, st, fin);
      CopiesMeaning(x, text, m, st, mid);
      CopiesMeaning(Opt(x, ng), text, n - m, mid, fin);
      OptChain(x, ng, text, n - m, mid, fin);
    }
  }

  lemma {:induction false} UnboundedMeaning(x: Re, ng: bool, text: Text, m: nat, st: State, fin: State)
    requires Loopable(x) && !MayBeEmpty(x) && 0 < m < REPINF && st.pos <= |text.s|
    ensures Loopable(Repeat(x, ng, m, REPINF))
    ensures fin in Ways(Repeat(x, ng, m, REPINF), text, st) <==> ChainBetween(x, text, m, REPINF, st, fin)
  {
    hide Ways, WaysAll, Chain, Copies, LoopAll;
    var c := Copies(x, m - 1);
    CopiesLoopable(x, m - 1);
    WaysDef(Then(c, Plus(x, ng)), text, st);
    var l := Ways(c, text, st);
    InWaysAll(Plus(x, ng), text, l, if MayBeEmpty(c) then st.pos else st.pos + 1, fin);
    if mid :| mid in l && mid.pos <= |text.s| && fin in Ways(Plus(x, ng), text, mid) {
      CopiesMeaning(x, text, m - 1, st, mid);
      PlusMeaning(x, ng, text, mid, fin);
      var k: nat :| k > 0 && Chain(x, text, k, mid, fin);
      ChainAdd(x, text, m - 1, k, st, mid, fin);
    }
    if k: nat :| m <= k && Chain(x, text, k, st, fin) {
      var mid := ChainCut(x, text, m - 1, k - (m - 1), st, fin);
      CopiesMeaning(x, text, m - 1, st, mid);
      PlusMeaning(x, ng, text, mid, fin);
    }
  }

  lemma {:induction false} PlusMeaning(x: Re, ng: bool, text: Text, st: State, fin: State)
    requires Loopable(x) && !MayBeEmpty(x) && st.pos <= |text.s|
    ensures fin in Ways(Plus(x, ng), text, st) <==> exists k: nat :: k > 0 && Chain(x, text, k, st, fin)
  {
    hide Ways, LoopAll, Chain;
    var l := Ways(x, text, st);
    WaysDef(Plus(x, ng), text, st);
    LoopAllMeaning(x, ng, text, l, st.pos + 1, fin);
    if ChainFrom(x, text, l, fin) {
      var i :| 0 <= i < |l| && SomeChain(x, text, l[i], fin);
      var k: nat :| Chain(x, text, k, l[i], fin);
      ChainFront(x, text, k, st, l[i], fin);
    }
    if k: nat :| k > 0 && Chain(x, text, k, st, fin) {
      var mid := ChainUnfront(x, text, k, st, fin);
    }
  }
}
