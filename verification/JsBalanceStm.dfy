/** Compiled statements are balanced, and the depths of a whole function body. */
module JsBalanceStm {
  import opened JsTree
  import opened JsMachine
  import opened JsMeaning
  import opened JsCode
  import opened JsTargets
  import opened JsExpressions
  import opened JsStatements
  import opened JsControl
  import opened JsDepths
  import opened JsBalance

  /** What a node adds to the depths. */
  function Deeper(kind: Kind, d: Depths): Depths {
    match kind
    case ForInLoop => Up(d, 1)
    case WithNode => d.(scopes := d.scopes + 1)
    case CatchBody => d.(scopes := d.scopes + 1)
    case TryBody => d.(saved := Saved(d.ops, d.scopes, d.saved))
    case _ => d
  }

  /** The depths between the statements inside a node. */
  function LevelOf(p: Path): Depths {
    if p.Function? then ZERO else Deeper(p.kind, LevelOf(p.up))
  }

  lemma {:induction false} LevelInside(kind: Kind, p: Path)
    ensures LevelOf(Inside(kind, p)) == Deeper(kind, LevelOf(p)) && Sound(LevelOf(p)) && Sound(LevelOf(Inside(kind, p)))
  {
    LevelSound(p);
    LevelSound(Inside(kind, p));
  }

  lemma {:induction false} LevelSound(p: Path)
    ensures Sound(LevelOf(p))
  {
    if p.Inside? { LevelSound(p.up); }
  }

  /** A break to a label's own node goes to the start of the function: only if nothing lies on the
      stacks does it find there what it should. */
  predicate Grounded(s: Stm, p: Path)
    decreases s, 2
  {
    GroundedStm(s, p)
  }

  predicate GroundedStm(s: Stm, p: Path)
    decreases s, 1
  {
    match s
    case Block(body) => GroundedList(body, Inside(Plain, p))
    case If(_, a) => Grounded(a, Inside(Plain, p))
    case IfElse(_, a, b) => Grounded(a, Inside(Plain, p)) && Grounded(b, Inside(Plain, p))
    case Do(b, _) => Grounded(b, Inside(Loop, p))
    case While(_, b) => Grounded(b, Inside(Loop, p))
    case For(_, _, _, b) => Grounded(b, Inside(Loop, p))
    case ForIn(_, _, b) => Grounded(b, Inside(ForInLoop, p))
    case Switch(_, cases) => GroundedCases(cases, Inside(SwitchNode, p))
    case Label(x, b) => Grounded(b, Inside(Labelled(x), p))
    case Break(Some(l)) => p.Inside? && p.kind.Labelled? && MatchLabel(p.up, l) ==> LevelOf(p) == ZERO
    case With(_, b) => Grounded(b, Inside(WithNode, p))
    case Try(b, _, h) => Grounded(b, Inside(TryBody, p)) && Grounded(h, Inside(CatchBody, p))
    case _ => true
  }

  predicate GroundedList(ss: Stms, p: Path)
    decreases ss, 0
  {
    ss.Stms? ==> Grounded(ss.head, p) && GroundedList(ss.tail, p)
  }

  predicate GroundedCases(cases: Cases, p: Path)
    decreases cases, 0
  {
    !cases.NoCases? ==> GroundedList(cases.body, p) && GroundedCases(cases.rest, p)
  }

  lemma {:induction false} GroundedDef(s: Stm, p: Path)
    ensures Grounded(s, p) == GroundedStm(s, p)
  {
  }

  // ----- leaving nodes -----

  /** Where jumps out of a statement go, and the depths that are expected there. */
  function Exits(p: Path, d: seq<Dest>): set<Spot>
    requires |d| == Depth(p)
  {
    if p.Function? then {Spot(0, ZERO)}
    else
      var n := |d| - 1;
      Exits(p.up, d[..n])
      + (if p.kind.Labelled? && LevelOf(p) != ZERO then {} else {Spot(d[n].brk, LevelOf(p.up))})
      + (if IsLoop(p.kind) then {Spot(d[n].cont, LevelOf(p))} else {})
  }

  lemma {:induction false} ExitsInside(kind: Kind, p: Path, d: seq<Dest>, dest: Dest, outs: set<Spot>)
    requires |d| == Depth(p) && Exits(p, d) <= outs
    ensures var p1 := Inside(kind, p);
      && |d + [dest]| == Depth(p1)
      && Exits(p1, d + [dest]) <= outs + {Spot(dest.brk, LevelOf(p)), Spot(dest.cont, LevelOf(p1))}
      && (!IsLoop(kind) ==> Exits(p1, d + [dest]) <= outs + {Spot(dest.brk, LevelOf(p))})
      && (kind.Labelled? && dest.brk == 0 ==> Exits(p1, d + [dest]) <= outs)
  {
    assert (d + [dest])[..|d|] == d;
    StartIsExit(p, d);
  }

  lemma {:induction false} StartIsExit(p: Path, d: seq<Dest>)
    requires |d| == Depth(p)
    ensures Spot(0, ZERO) in Exits(p, d)
  {
    if p.Inside? { StartIsExit(p.up, d[..|d| - 1]); }
  }

  /** The depths that `cexit` comes to. */
  function LevelAt(way: Way, p: Path, at: nat): Depths {
    if p.Function? then ZERO
    else if Depth(p) != at then LevelAt(way, p.up, at)
    else if Stays(way, p.kind, true) then LevelOf(p)
    else LevelOf(p.up)
  }

  /** With a return value on top. */
  function Held(way: Way, d: Depths): Depths {
    if way.ByReturn? then Up(d, 1) else d
  }

  lemma {:induction false} LeaveTyped(k: Code, way: Way, kind: Kind, p: Path, target: bool, a: nat, outs: set<Spot>)
    requires CodedLeave(k.f, way, kind, target, a)
    ensures var p1 := Inside(kind, p);
      var z := if Stays(way, kind, target) then LevelOf(p1) else LevelOf(p);
      Typed(k, a, a + SizeLeave(way, kind, target), Held(way, LevelOf(p1)), Held(way, z), outs)
  {
    hide Is, Typed, LevelOf;
    LevelInside(kind, p);
    var y, z := Held(way, LevelOf(Inside(kind, p))), Held(way, LevelOf(p));
    match kind
    case ForInLoop =>
      if way.ByReturn? {
        Single(k, a, Rot2, a + 1, y, y, outs);
        Append(k, a, a + 1, Pop, a + 2, y, y, z, outs);
      } else if Stays(way, kind, target) {
        NoCode(k, a, y, outs);
      } else {
        Single(k, a, Pop, a + 1, y, z, outs);
      }
    case WithNode => Single(k, a, LeaveScope, a + 1, y, z, outs);
    case CatchBody => Single(k, a, LeaveScope, a + 1, y, z, outs);
    case TryBody => Single(k, a, EndTry, a + 1, y, z, outs);
    case _ => NoCode(k, a, y, outs);
  }

  lemma {:induction false} ExitTyped(k: Code, way: Way, p: Path, at: nat, a: nat, outs: set<Spot>)
    requires CodedExit(k.f, way, p, at, a)
    ensures Typed(k, a, a + SizeExit(way, p, at), Held(way, LevelOf(p)), Held(way, LevelAt(way, p, at)), outs)
    decreases p
  {
    hide Typed, CodedLeave, SizeLeave;
    if p.Function? { NoCode(k, a, Held(way, ZERO), outs); } else {
      LeaveTyped(k, way, p.kind, p.up, Depth(p) == at, a, outs);
      if Depth(p) != at {
        var q := a + SizeLeave(way, p.kind, false);
        ExitTyped(k, way, p.up, at, q, outs);
        Seq(k, a, q, q + SizeExit(way, p.up, at), Held(way, LevelOf(p)), Held(way, LevelOf(p.up)),
          Held(way, LevelAt(way, p, at)), outs);
      }
    }
  }

  lemma {:induction false} BreakExits(p: Path, d: seq<Dest>, l: Option<Name>)
    requires |d| == Depth(p) && 0 < BreakTarget(p, l)
    requires l.Some? && p.kind.Labelled? && MatchLabel(p.up, l.value) ==> LevelOf(p) == ZERO
    ensures var t := BreakTarget(p, l); Spot(d[t - 1].brk, LevelAt(ByBreak, p, t)) in Exits(p, d)
  {
    if BreakTarget(p, l) < Depth(p) { BreakExitsUp(p.up, d[..|d| - 1], l); }
  }

  /** Further out only statements that are not labels are found. */
  lemma {:induction false} BreakExitsUp(p: Path, d: seq<Dest>, l: Option<Name>)
    requires |d| == Depth(p) && 0 < BreakTarget(p, l)
    requires l.Some? ==> !MatchLabel(p, l.value)
    ensures var t := BreakTarget(p, l); Spot(d[t - 1].brk, LevelAt(ByBreak, p, t)) in Exits(p, d)
  {
    if BreakTarget(p, l) < Depth(p) { BreakExitsUp(p.up, d[..|d| - 1], l); }
  }

  lemma {:induction false} ContinueExits(p: Path, d: seq<Dest>, l: Option<Name>)
    requires |d| == Depth(p) && 0 < ContinueTarget(p, l)
    ensures var t := ContinueTarget(p, l); Spot(d[t - 1].cont, LevelAt(ByContinue, p, t)) in Exits(p, d)
  {
    if ContinueTarget(p, l) < Depth(p) { ContinueExits(p.up, d[..|d| - 1], l); }
  }

  // ----- statements -----

  ghost predicate StmFits(k: Code, ns: Names, s: Stm, p: Path, d: seq<Dest>, a: nat, outs: set<Spot>) {
    k.slots == FrameSize(ns) && |d| == Depth(p) && Exits(p, d) <= outs && Grounded(s, p) && CodedS(k.f, ns, s, p, d, a)
  }

  /** The code of a statement leaves the stacks as deep as it found them, or jumps to where they
      are expected as it leaves them. */
  lemma {:induction false} StmTyped(k: Code, ns: Names, s: Stm, p: Path, d: seq<Dest>, a: nat, outs: set<Spot>)
    requires StmFits(k, ns, s, p, d, a, outs)
    ensures Typed(k, a, a + SizeS(s, p), LevelOf(p), LevelOf(p), outs)
    decreases s, 9
  {
    hide SizeS, Typed, StmFits;
    match s
    case Block(_) => BlockTyped(k, ns, s, p, d, a, outs);
    case If(_, _) => IfTyped(k, ns, s, p, d, a, outs);
    case IfElse(_, _, _) => IfElseTyped(k, ns, s, p, d, a, outs);
    case Do(_, _) => DoTyped(k, ns, s, p, d, a, outs);
    case While(_, _) => LoopStmTyped(k, ns, s, p, d, a, outs);
    case For(_, _, _, _) => LoopStmTyped(k, ns, s, p, d, a, outs);
    case ForIn(_, _, _) => ForInTyped(k, ns, s, p, d, a, outs);
    case Switch(_, _) => SwitchTyped(k, ns, s, p, d, a, outs);
    case Label(_, _) => LabelTyped(k, ns, s, p, d, a, outs);
    case Break(_) => JumpTyped(k, ns, s, p, d, a, outs);
    case Continue(_) => JumpTyped(k, ns, s, p, d, a, outs);
    case Return(_) => ReturnTyped(k, ns, s, p, d, a, outs);
    case With(_, _) => WithTyped(k, ns, s, p, d, a, outs);
    case Try(_, _, _) => TryTyped(k, ns, s, p, d, a, outs);
    case VarStm(_) => SimpleTyped(k, ns, s, p, d, a, outs);
    case Throw(_) => SimpleTyped(k, ns, s, p, d, a, outs);
    case ExpStm(_) => SimpleTyped(k, ns, s, p, d, a, outs);
    case _ => SimpleTyped(k, ns, s, p, d, a, outs);
  }

  lemma {:induction false} SimpleTyped(k: Code, ns: Names, s: Stm, p: Path, d: seq<Dest>, a: nat, outs: set<Spot>)
    requires StmFits(k, ns, s, p, d, a, outs)
      && (s.FunDec? || s.Empty? || s.VarStm? || s.Throw? || s.Debugger? || s.ExpStm?)
    ensures Typed(k, a, a + SizeS(s, p), LevelOf(p), LevelOf(p), outs)
    decreases s, 1
  {
    hide Is, Coded, SizeE, Typed, CodedS, SizeS, Grounded, Exits, LevelOf, Ordered;
    CodedSDef(k.f, ns, s, p, d, a);
    GroundedDef(s, p);
    LevelSound(p);
    SoundUp(LevelOf(p));
    var y := LevelOf(p);
    match s
    case VarStm(vars) => VarsTyped(k, ns, vars, a, y, outs);
    case Throw(e) =>
      ExpTyped(k, ns, e, a, y, outs);
      Append(k, a, a + SizeE(e), Raise, a + SizeE(e) + 1, y, Up(y, 1), y, outs);
    case Debugger => Single(k, a, Trap, a + 1, y, y, outs);
    case ExpStm(e) =>
      ExpTyped(k, ns, e, a, y, outs);
      Append(k, a, a + SizeE(e), Pop, a + SizeE(e) + 1, y, Up(y, 1), y, outs);
    case _ => NoCode(k, a, y, outs);
  }

  lemma {:induction false} VarsTyped(k: Code, ns: Names, vars: Vars, a: nat, d: Depths, outs: set<Spot>)
    requires Fits1(k, ns, d) && CodedVars(k.f, ns, vars, a)
    ensures Typed(k, a, a + SizeVars(vars), d, d, outs)
    decreases vars
  {
    hide Is, Coded, SizeE, Typed, CodedStore;
    match vars
    case NoVars => NoCode(k, a, d, outs);
    case Var(_, None, rest) => VarsTyped(k, ns, rest, a, d, outs);
    case Var(x, Some(e), rest) =>
      var p := a + SizeE(e);
      ExpTyped(k, ns, e, a, d, outs);
      StoreTyped(k, ns, x, p, d, outs);
      Seq(k, a, p, p + 2, d, Up(d, 1), Up(d, 1), outs);
      Append(k, a, p + 2, Pop, p + 3, d, Up(d, 1), d, outs);
      VarsTyped(k, ns, rest, p + 3, d, outs);
      Seq(k, a, p + 3, p + 3 + SizeVars(rest), d, d, d, outs);
  }

  lemma {:induction false} InitTyped(k: Code, ns: Names, init: Init, a: nat, d: Depths, outs: set<Spot>)
    requires Fits1(k, ns, d) && CodedInit(k.f, ns, init, a)
    ensures Typed(k, a, a + SizeInit(init), d, d, outs)
  {
    hide Is, Coded, SizeE, Typed, CodedVars, SizeVars;
    match init
    case NoInit => NoCode(k, a, d, outs);
    case VarInit(vars) => VarsTyped(k, ns, vars, a, d, outs);
    case ExpInit(e) =>
      ExpTyped(k, ns, e, a, d, outs);
      Append(k, a, a + SizeE(e), Pop, a + SizeE(e) + 1, d, Up(d, 1), d, outs);
  }

  lemma {:induction false} BlockTyped(k: Code, ns: Names, s: Stm, p: Path, d: seq<Dest>, a: nat, outs: set<Spot>)
    requires StmFits(k, ns, s, p, d, a, outs) && s.Block?
    ensures Typed(k, a, a + SizeS(s, p), LevelOf(p), LevelOf(p), outs)
    decreases s, 1
  {
    hide Is, Typed, CodedList, SizeList, CodedS, SizeS, Grounded, Exits, GroundedList, LevelOf, Ordered;
    CodedSDef(k.f, ns, s, p, d, a);
    GroundedDef(s, p);
    LevelInside(Plain, p);
    SoundUp(LevelOf(p));
    var y := LevelOf(p);
    var end := a + SizeS(s, p);
    var away := outs + {Spot(end, y)};
    ExitsInside(Plain, p, d, Dest(end, 0), outs);
    ListTyped(k, ns, s.body, Inside(Plain, p), d + [Dest(end, 0)], a, away);
    Close(k, a, end, y, y, away, outs);
  }

  lemma {:induction false} ListTyped(k: Code, ns: Names, ss: Stms, p: Path, d: seq<Dest>, a: nat, outs: set<Spot>)
    requires k.slots == FrameSize(ns) && |d| == Depth(p) && Exits(p, d) <= outs && GroundedList(ss, p)
      && CodedList(k.f, ns, ss, p, d, a)
    ensures Typed(k, a, a + SizeList(ss, p), LevelOf(p), LevelOf(p), outs)
    decreases ss, 0
  {
    hide CodedS, SizeS, Typed, Grounded, Exits;
    var y := LevelOf(p);
    if ss.NoStms? { NoCode(k, a, y, outs); } else {
      var q := a + SizeS(ss.head, p);
      StmTyped(k, ns, ss.head, p, d, a, outs);
      ListTyped(k, ns, ss.tail, p, d, q, outs);
      Seq(k, a, q, q + SizeList(ss.tail, p), y, y, y, outs);
    }
  }

  lemma {:induction false} IfTyped(k: Code, ns: Names, s: Stm, p: Path, d: seq<Dest>, a: nat, outs: set<Spot>)
    requires StmFits(k, ns, s, p, d, a, outs) && s.If?
    ensures Typed(k, a, a + SizeS(s, p), LevelOf(p), LevelOf(p), outs)
    decreases s, 1
  {
    hide Is, Coded, SizeE, Typed, CodedS, SizeS, Grounded, Exits, LevelOf, Ordered;
    CodedSDef(k.f, ns, s, p, d, a);
    GroundedDef(s, p);
    LevelInside(Plain, p);
    SoundUp(LevelOf(p));
    var y := LevelOf(p);
    var end := a + SizeS(s, p);
    var q := a + SizeE(s.c) + 2;
    var away := outs + {Spot(end, y)};
    ExpTyped(k, ns, s.c, a, y, away);
    Append(k, a, q - 2, JFalse(end), q, y, Up(y, 1), y, away);
    ExitsInside(Plain, p, d, Dest(end, 0), outs);
    StmTyped(k, ns, s.a, Inside(Plain, p), d + [Dest(end, 0)], q, away);
    Seq(k, a, q, end, y, y, y, away);
    Close(k, a, end, y, y, away, outs);
  }

  lemma {:induction false} IfElseTyped(k: Code, ns: Names, s: Stm, p: Path, d: seq<Dest>, a: nat, outs: set<Spot>)
    requires StmFits(k, ns, s, p, d, a, outs) && s.IfElse?
    ensures Typed(k, a, a + SizeS(s, p), LevelOf(p), LevelOf(p), outs)
    decreases s, 1
  {
    hide Is, Coded, SizeE, Typed, CodedS, SizeS, Grounded, Exits, LevelOf, Ordered;
    IfElseCode(k.f, ns, s, p, d, a);
    GroundedDef(s, p);
    LevelInside(Plain, p);
    SoundUp(LevelOf(p));
    var y := LevelOf(p);
    var end := a + SizeS(s, p);
    var p1, d1 := Inside(Plain, p), d + [Dest(end, 0)];
    var q := a + SizeE(s.c) + 2;
    var r := q + SizeS(s.b, p1);
    var away := outs + {Spot(end, y)};
    var all := away + {Spot(r + 2, y)};
    ExpTyped(k, ns, s.c, a, y, all);
    Append(k, a, q - 2, JTrue(r + 2), q, y, Up(y, 1), y, all);
    ExitsInside(Plain, p, d, Dest(end, 0), outs);
    StmTyped(k, ns, s.b, p1, d1, q, all);
    Seq(k, a, q, r, y, y, y, all);
    Append(k, a, r, Jump(end), r + 2, y, y, y, all);
    Close(k, a, r + 2, y, y, all, away);
    StmTyped(k, ns, s.a, p1, d1, r + 2, away);
    Seq(k, a, r + 2, end, y, y, y, away);
    Close(k, a, end, y, y, away, outs);
  }

  lemma {:induction false} DoTyped(k: Code, ns: Names, s: Stm, p: Path, d: seq<Dest>, a: nat, outs: set<Spot>)
    requires StmFits(k, ns, s, p, d, a, outs) && s.Do?
    ensures Typed(k, a, a + SizeS(s, p), LevelOf(p), LevelOf(p), outs)
    decreases s, 1
  {
    hide Is, Coded, SizeE, Typed, CodedS, SizeS, Grounded, Exits, LevelOf, Ordered;
    CodedSDef(k.f, ns, s, p, d, a);
    GroundedDef(s, p);
    LevelInside(Loop, p);
    SoundUp(LevelOf(p));
    var y := LevelOf(p);
    var end := a + SizeS(s, p);
    var q := a + SizeS(s.s, Inside(Loop, p));
    var away := outs + {Spot(end, y)} + {Spot(a, y)};
    var all := away + {Spot(q, y)};
    ExitsInside(Loop, p, d, Dest(end, q), outs);
    StmTyped(k, ns, s.s, Inside(Loop, p), d + [Dest(end, q)], a, all);
    Close(k, a, q, y, y, all, away);
    ExpTyped(k, ns, s.c, q, y, away);
    Seq(k, a, q, q + SizeE(s.c), y, y, Up(y, 1), away);
    Append(k, a, q + SizeE(s.c), JTrue(a), end, y, Up(y, 1), y, away);
    Close(k, a, end, y, y, away, outs);
  }

  lemma {:induction false} LoopStmTyped(k: Code, ns: Names, s: Stm, p: Path, d: seq<Dest>, a: nat, outs: set<Spot>)
    requires StmFits(k, ns, s, p, d, a, outs) && (s.While? || s.For?)
    ensures Typed(k, a, a + SizeS(s, p), LevelOf(p), LevelOf(p), outs)
    decreases s, 2
  {
    hide Is, Coded, SizeE, Typed, CodedS, SizeS, Grounded, Exits, CodedLoop, SizeInit, CodedInit, LevelOf, Ordered;
    CodedSDef(k.f, ns, s, p, d, a);
    GroundedDef(s, p);
    LevelSound(p);
    SoundUp(LevelOf(p));
    var y := LevelOf(p);
    var start := if s.For? then a + SizeInit(s.init) else a;
    LoopTyped(k, ns, s, a, p, d, start, outs);
    if s.For? {
      InitTyped(k, ns, s.init, a, y, outs);
      Seq(k, a, start, a + SizeS(s, p), y, y, y, outs);
    }
  }

  lemma {:induction false} LoopTyped(k: Code, ns: Names, s: Stm, start: nat, p: Path, d: seq<Dest>, a: nat,
    outs: set<Spot>)
    requires k.slots == FrameSize(ns) && |d| == Depth(p) && Exits(p, d) <= outs && (s.While? || s.For?)
    requires Grounded(s, p) && CodedLoop(k.f, ns, s, start, p, d, a) && a == if s.For? then start + SizeInit(s.init)
      else start
    ensures Typed(k, a, start + SizeS(s, p), LevelOf(p), LevelOf(p), outs)
    decreases s, 1
  {
    hide Is, Coded, SizeE, Typed, CodedS, SizeS, Grounded, Exits, SizeInit, LevelOf, Ordered;
    LoopSize(s, p);
    GroundedDef(s, p);
    LevelInside(Loop, p);
    SoundUp(LevelOf(p));
    var y, e, step, end := LevelOf(p), TestOf(s), StepOf(s), start + SizeS(s, p);
    var b := if e.Some? then a + SizeE(e.value) + 2 else a;
    var q := b + SizeS(s.s, Inside(Loop, p));
    var r := q + if step.Some? then SizeE(step.value) + 1 else 0;
    var dest := Dest(end, if s.While? then a else q);
    var away := outs + {Spot(end, y)} + {Spot(a, y)};
    var all := away + {Spot(q, y)};
    TestTyped(k, ns, e, end, a, y, away);
    ExitsInside(Loop, p, d, dest, outs);
    StmTyped(k, ns, s.s, Inside(Loop, p), d + [dest], b, all);
    Close(k, b, q, y, y, all, away);
    Seq(k, a, b, q, y, y, y, away);
    StepTyped(k, ns, step, q, y, away);
    Seq(k, a, q, r, y, y, y, away);
    Append(k, a, r, Jump(a), end, y, y, y, away);
    Close(k, a, end, y, y, away, outs);
  }

  lemma {:induction false} LoopSize(s: Stm, p: Path)
    requires s.While? || s.For?
    ensures SizeS(s, p) == (if s.For? then SizeInit(s.init) else 0)
      + (if TestOf(s).Some? then SizeE(TestOf(s).value) + 2 else 0) + SizeS(s.s, Inside(Loop, p))
      + (if StepOf(s).Some? then SizeE(StepOf(s).value) + 1 else 0) + 2
  {
    hide SizeE, SizeInit;
  }

  lemma {:induction false} TestTyped(k: Code, ns: Names, e: Option<Exp>, end: nat, a: nat, y: Depths, outs: set<Spot>)
    requires Fits1(k, ns, y) && Spot(end, y) in outs
    requires e.Some? ==> var q := a + SizeE(e.value); Coded(k.f, ns, e.value, a) && Is(k.f, q, JFalse(end), q + 2)
    ensures Typed(k, a, if e.Some? then a + SizeE(e.value) + 2 else a, y, y, outs)
  {
    hide Is, Coded, SizeE, Typed;
    SoundUp(y);
    if e.None? { NoCode(k, a, y, outs); } else {
      ExpTyped(k, ns, e.value, a, y, outs);
      Append(k, a, a + SizeE(e.value), JFalse(end), a + SizeE(e.value) + 2, y, Up(y, 1), y, outs);
    }
  }

  lemma {:induction false} StepTyped(k: Code, ns: Names, e: Option<Exp>, a: nat, y: Depths, outs: set<Spot>)
    requires Fits1(k, ns, y)
    requires e.Some? ==> var q := a + SizeE(e.value); Coded(k.f, ns, e.value, a) && Is(k.f, q, Pop, q + 1)
    ensures Typed(k, a, if e.Some? then a + SizeE(e.value) + 1 else a, y, y, outs)
  {
    hide Is, Coded, SizeE, Typed;
    SoundUp(y);
    if e.None? { NoCode(k, a, y, outs); } else {
      ExpTyped(k, ns, e.value, a, y, outs);
      Append(k, a, a + SizeE(e.value), Pop, a + SizeE(e.value) + 1, y, Up(y, 1), y, outs);
    }
  }

  lemma {:induction false} ForInTyped(k: Code, ns: Names, s: Stm, p: Path, d: seq<Dest>, a: nat, outs: set<Spot>)
    requires StmFits(k, ns, s, p, d, a, outs) && s.ForIn?
    ensures Typed(k, a, a + SizeS(s, p), LevelOf(p), LevelOf(p), outs)
    decreases s, 2
  {
    hide Is, Coded, SizeE, Typed, CodedS, SizeS, Grounded, Exits, CodedForAssign, SizeForAssign, LevelOf, Ordered;
    CodedSDef(k.f, ns, s, p, d, a);
    GroundedDef(s, p);
    LevelInside(ForInLoop, p);
    SoundUp(LevelOf(p));
    var y := LevelOf(p);
    var q := a + SizeE(s.e) + 1;
    ExpTyped(k, ns, s.e, a, y, outs);
    Append(k, a, q - 1, Do1(Iterator, 1), q, y, Up(y, 1), Up(y, 1), outs);
    NamesTyped(k, ns, s, p, d, a, outs);
    Seq(k, a, q, a + SizeS(s, p), y, Up(y, 1), y, outs);
  }

  /** The rounds of a for-in loop. Behind the iterator's instruction there are two cases. */
  lemma {:induction false} NamesTyped(k: Code, ns: Names, s: Stm, p: Path, d: seq<Dest>, a: nat, outs: set<Spot>)
    requires StmFits(k, ns, s, p, d, a, outs) && s.ForIn?
    ensures Typed(k, a + SizeE(s.e) + 1, a + SizeS(s, p), Up(LevelOf(p), 1), LevelOf(p), outs)
    decreases s, 1
  {
    hide Is, Coded, SizeE, Typed, CodedS, SizeS, Grounded, Exits, CodedForAssign, SizeForAssign, LevelOf, Ordered;
    CodedSDef(k.f, ns, s, p, d, a);
    GroundedDef(s, p);
    LevelInside(ForInLoop, p);
    var y, q, end := LevelOf(p), a + SizeE(s.e) + 1, a + SizeS(s, p);
    SoundUp(y);
    var x := Up(y, 1);
    var b := q + 3 + SizeForAssign(s.lhs);
    var r := b + SizeS(s.s, Inside(ForInLoop, p));
    var away := outs + {Spot(end, y)} + {Spot(q, x)};
    NameTyped(k, ns, s.lhs, q, end, y, away);
    ExitsInside(ForInLoop, p, d, Dest(end, q), outs);
    StmTyped(k, ns, s.s, Inside(ForInLoop, p), d + [Dest(end, q)], b, away);
    Seq(k, q, b, r, x, x, x, away);
    Append(k, q, r, Jump(q), end, x, x, y, away);
    Close(k, q, end, x, y, away, outs);
  }

  /** The next name and its assignment, or the way out. */
  lemma {:induction false} NameTyped(k: Code, ns: Names, e: Exp, q: nat, end: nat, y: Depths, outs: set<Spot>)
    requires Fits1(k, ns, Up(y, 1)) && Sound(y) && Spot(end, y) in outs && CodedForAssign(k.f, ns, e, q + 3)
    requires Is(k.f, q, Next, q + 1) && Is(k.f, q + 1, JFalse(end), q + 3)
    ensures Typed(k, q, q + 3 + SizeForAssign(e), Up(y, 1), Up(y, 1), outs)
  {
    hide Is, Typed, CodedForAssign, SizeForAssign, Ordered;
    var x := Up(y, 1);
    Single(k, q, Next, q + 1, x, x.(test := true), outs);
    Append(k, q, q + 1, JFalse(end), q + 3, x, x.(test := true), Up(y, 2), outs);
    ForAssignTyped(k, ns, e, q + 3, x, outs);
    Seq(k, q, q + 3, q + 3 + SizeForAssign(e), x, Up(y, 2), x, outs);
  }

  lemma {:induction false} ForAssignTyped(k: Code, ns: Names, e: Exp, a: nat, d: Depths, outs: set<Spot>)
    requires Fits1(k, ns, d) && CodedForAssign(k.f, ns, e, a)
    ensures Typed(k, a, a + SizeForAssign(e), Up(d, 1), d, outs)
  {
    hide Is, Coded, SizeE, Typed, CodedStore;
    SoundUp(d);
    var p, y := a + SizeRef(e), Up(d, 1);
    match e
    case Ident(x) =>
      StoreTyped(k, ns, x, a, d, outs);
      Append(k, a, a + 2, Pop, a + 3, y, y, d, outs);
    case Index(_, _) =>
      RefTyped(k, ns, e, a, y, outs);
      Append(k, a, p, Rot3, p + 1, y, Up(y, 2), Up(y, 2), outs);
      Append(k, a, p + 1, Do1(SetProp, 3), p + 2, y, Up(y, 2), y, outs);
      Append(k, a, p + 2, Pop, p + 3, y, y, d, outs);
    case Member(_, x) =>
      RefTyped(k, ns, e, a, y, outs);
      Append(k, a, p, Rot2, p + 1, y, Up(y, 1), Up(y, 1), outs);
      Append(k, a, p + 1, Do1(SetMember(x), 2), p + 3, y, Up(y, 1), y, outs);
      Append(k, a, p + 3, Pop, p + 4, y, y, d, outs);
  }

  lemma {:induction false} SwitchTyped(k: Code, ns: Names, s: Stm, p: Path, d: seq<Dest>, a: nat, outs: set<Spot>)
    requires StmFits(k, ns, s, p, d, a, outs) && s.Switch?
    ensures Typed(k, a, a + SizeS(s, p), LevelOf(p), LevelOf(p), outs)
    decreases s, 1
  {
    hide Is, Coded, SizeE, Typed, TypedIn, CodedS, SizeS, Grounded, Exits, CodedTests, SizeTests, CodedBodies;
    hide SizeBodies, GroundedCases, Bodies, DefaultAt, LevelOf, Ordered;
    CodedSDef(k.f, ns, s, p, d, a);
    GroundedDef(s, p);
    LevelInside(SwitchNode, p);
    var y := LevelOf(p);
    var end, p1 := a + SizeS(s, p), Inside(SwitchNode, p);
    var q := a + SizeE(s.e);
    var r := q + SizeTests(s.cases);
    var away := outs + {Spot(end, y)};
    var ins := Bodies(s.cases, p1, r + 3, y);
    var all := away + ins;
    SoundUp(y);
    DefaultBody(s.cases, p1, r + 3, y);
    ExpTyped(k, ns, s.e, a, y, all);
    TestsTyped(k, ns, s.cases, p1, q, r + 3, y, all);
    Seq(k, a, q, r, y, Up(y, 1), Up(y, 1), all);
    Append(k, a, r, Pop, r + 1, y, Up(y, 1), y, all);
    Append(k, a, r + 1, Jump(DefaultAt(s.cases, p1, r + 3)), r + 3, y, y, y, all);
    ExitsInside(SwitchNode, p, d, Dest(end, 0), outs);
    BodiesTyped(k, ns, s.cases, p1, d + [Dest(end, 0)], r + 3, away);
    SeqInto(k, a, r + 3, end, y, y, y, all, away, ins);
    Close(k, a, end, y, y, away, outs);
  }

  /** The starts of the bodies, and their end. */
  function Bodies(cases: Cases, p: Path, b: nat, y: Depths): set<Spot> {
    {Spot(b, y)} + if cases.NoCases? then {} else Bodies(cases.rest, p, b + SizeList(cases.body, p), y)
  }

  lemma {:induction false} DefaultBody(cases: Cases, p: Path, b: nat, y: Depths)
    ensures Spot(DefaultAt(cases, p, b), y) in Bodies(cases, p, b, y)
    decreases cases
  {
    hide SizeList;
    if cases.Case? { DefaultBody(cases.rest, p, b + SizeList(cases.body, p), y); }
  }

  lemma {:induction false} TestsTyped(k: Code, ns: Names, cases: Cases, p: Path, a: nat, b: nat, y: Depths,
    outs: set<Spot>)
    requires Fits1(k, ns, y) && CodedTests(k.f, ns, cases, p, a, b) && Bodies(cases, p, b, y) <= outs
    ensures Typed(k, a, a + SizeTests(cases), Up(y, 1), Up(y, 1), outs)
    decreases cases
  {
    hide Is, Coded, SizeE, Typed, SizeList;
    SoundUp(y);
    match cases
    case NoCases => NoCode(k, a, Up(y, 1), outs);
    case Default(body, rest) => TestsTyped(k, ns, rest, p, a, b + SizeList(body, p), y, outs);
    case Case(e, body, rest) =>
      var q := a + SizeE(e);
      ExpTyped(k, ns, e, a, Up(y, 1), outs);
      Append(k, a, q, JCase(b), q + 2, Up(y, 1), Up(y, 2), Up(y, 1), outs);
      TestsTyped(k, ns, rest, p, q + 2, b + SizeList(body, p), y, outs);
      Seq(k, a, q + 2, q + 2 + SizeTests(rest), Up(y, 1), Up(y, 1), Up(y, 1), outs);
  }

  lemma {:induction false} BodiesTyped(k: Code, ns: Names, cases: Cases, p: Path, d: seq<Dest>, a: nat, outs: set<Spot>)
    requires k.slots == FrameSize(ns) && |d| == Depth(p) && Exits(p, d) <= outs
    requires GroundedCases(cases, p) && CodedBodies(k.f, ns, cases, p, d, a)
    ensures TypedIn(k, a, a + SizeBodies(cases, p), LevelOf(p), LevelOf(p), outs, Bodies(cases, p, a, LevelOf(p)))
    decreases cases, 0
  {
    hide CodedList, SizeList, Typed, TypedIn, GroundedList, Exits;
    var y := LevelOf(p);
    if cases.NoCases? {
      NoCodeIn(k, a, y, outs);
      assert Bodies(cases, p, a, y) == {Spot(a, y)};
    } else {
      var q := a + SizeList(cases.body, p);
      ListTyped(k, ns, cases.body, p, d, a, outs);
      BodiesTyped(k, ns, cases.rest, p, d, q, outs);
      SeqIn(k, a, q, q + SizeBodies(cases.rest, p), y, y, y, outs, Bodies(cases.rest, p, q, y));
      assert Bodies(cases, p, a, y) == Bodies(cases.rest, p, q, y) + {Spot(a, y)};
    }
  }

  lemma {:induction false} LabelTyped(k: Code, ns: Names, s: Stm, p: Path, d: seq<Dest>, a: nat, outs: set<Spot>)
    requires StmFits(k, ns, s, p, d, a, outs) && s.Label?
    ensures Typed(k, a, a + SizeS(s, p), LevelOf(p), LevelOf(p), outs)
    decreases s, 1
  {
    hide Is, Coded, SizeE, Typed, CodedS, SizeS, Grounded, Exits, LevelOf, Ordered;
    CodedSDef(k.f, ns, s, p, d, a);
    GroundedDef(s, p);
    LevelInside(Labelled(s.x), p);
    SoundUp(LevelOf(p));
    var y := LevelOf(p);
    ExitsInside(Labelled(s.x), p, d, Dest(0, 0), outs);
    StmTyped(k, ns, s.s, Inside(Labelled(s.x), p), d + [Dest(0, 0)], a, outs);
  }

  lemma {:induction false} JumpTyped(k: Code, ns: Names, s: Stm, p: Path, d: seq<Dest>, a: nat, outs: set<Spot>)
    requires StmFits(k, ns, s, p, d, a, outs) && (s.Break? || s.Continue?)
    ensures Typed(k, a, a + SizeS(s, p), LevelOf(p), LevelOf(p), outs)
    decreases s, 1
  {
    hide Is, Typed, CodedS, SizeS, Grounded, Exits, CodedExit, SizeExit, LevelAt, BreakTarget, ContinueTarget;
    hide LevelOf, Ordered;
    CodedSDef(k.f, ns, s, p, d, a);
    GroundedDef(s, p);
    LevelSound(p);
    SoundUp(LevelOf(p));
    var y := LevelOf(p);
    if s.Break? {
      var t := BreakTarget(p, s.l);
      var q, x := a + SizeExit(ByBreak, p, t), LevelAt(ByBreak, p, t);
      ExitTyped(k, ByBreak, p, t, a, outs);
      BreakExits(p, d, s.l);
      LevelAtSound(ByBreak, p, t);
      Append(k, a, q, Jump(d[t - 1].brk), q + 2, y, x, y, outs);
    } else {
      var t := ContinueTarget(p, s.l);
      var q, x := a + SizeExit(ByContinue, p, t), LevelAt(ByContinue, p, t);
      ExitTyped(k, ByContinue, p, t, a, outs);
      ContinueExits(p, d, s.l);
      LevelAtSound(ByContinue, p, t);
      Append(k, a, q, Jump(d[t - 1].cont), q + 2, y, x, y, outs);
    }
  }

  lemma {:induction false} LevelAtSound(way: Way, p: Path, at: nat)
    ensures Sound(LevelAt(way, p, at))
  {
    LevelSound(p);
    if p.Inside? {
      LevelSound(p.up);
      LevelAtSound(way, p.up, at);
    }
  }

  lemma {:induction false} ReturnLevel(p: Path)
    ensures LevelAt(ByReturn, p, 0) == ZERO
  {
    if p.Inside? { ReturnLevel(p.up); }
  }

  lemma {:induction false} ReturnTyped(k: Code, ns: Names, s: Stm, p: Path, d: seq<Dest>, a: nat, outs: set<Spot>)
    requires StmFits(k, ns, s, p, d, a, outs) && s.Return?
    ensures Typed(k, a, a + SizeS(s, p), LevelOf(p), LevelOf(p), outs)
    decreases s, 1
  {
    hide Is, Coded, SizeE, Typed, CodedS, SizeS, Grounded, Exits, CodedExit, SizeExit, LevelAt, LevelOf, Ordered;
    CodedSDef(k.f, ns, s, p, d, a);
    GroundedDef(s, p);
    LevelSound(p);
    SoundUp(LevelOf(p));
    var y := LevelOf(p);
    var q := a + SizeOpt(s.r, 1);
    var r := q + SizeExit(ByReturn, p, 0);
    if s.r.Some? {
      ExpTyped(k, ns, s.r.value, a, y, outs);
    } else {
      Single(k, a, Push(Undefined), a + 1, y, Up(y, 1), outs);
    }
    ExitTyped(k, ByReturn, p, 0, q, outs);
    ReturnLevel(p);
    ZeroSound();
    SoundUp(ZERO);
    Seq(k, a, q, r, y, Up(y, 1), Up(ZERO, 1), outs);
    Append(k, a, r, Ret, r + 1, y, Up(ZERO, 1), y, outs);
  }

  lemma {:induction false} WithTyped(k: Code, ns: Names, s: Stm, p: Path, d: seq<Dest>, a: nat, outs: set<Spot>)
    requires StmFits(k, ns, s, p, d, a, outs) && s.With?
    ensures Typed(k, a, a + SizeS(s, p), LevelOf(p), LevelOf(p), outs)
    decreases s, 1
  {
    hide Is, Coded, SizeE, Typed, CodedS, SizeS, Grounded, Exits, LevelOf, Ordered;
    WithCode(k.f, ns, s, p, d, a);
    GroundedDef(s, p);
    LevelInside(WithNode, p);
    SoundUp(LevelOf(p));
    var y := LevelOf(p);
    var end, p1 := a + SizeS(s, p), Inside(WithNode, p);
    var q := a + SizeE(s.e) + 1;
    var r := q + SizeS(s.s, p1);
    var away := outs + {Spot(end, y)};
    ExpTyped(k, ns, s.e, a, y, away);
    Append(k, a, q - 1, EnterWith, q, y, Up(y, 1), LevelOf(p1), away);
    ExitsInside(WithNode, p, d, Dest(end, 0), outs);
    StmTyped(k, ns, s.s, p1, d + [Dest(end, 0)], q, away);
    Seq(k, a, q, r, y, LevelOf(p1), LevelOf(p1), away);
    Append(k, a, r, LeaveScope, end, y, LevelOf(p1), y, away);
    Close(k, a, end, y, y, away, outs);
  }

  lemma {:induction false} TryTyped(k: Code, ns: Names, s: Stm, p: Path, d: seq<Dest>, a: nat, outs: set<Spot>)
    requires StmFits(k, ns, s, p, d, a, outs) && s.Try?
    ensures Typed(k, a, a + SizeS(s, p), LevelOf(p), LevelOf(p), outs)
    decreases s, 2
  {
    hide Is, Typed, CodedS, SizeS, Grounded, Exits, LevelOf, Ordered;
    TryCode(k.f, ns, s, p, d, a);
    GroundedDef(s, p);
    LevelInside(TryBody, p);
    var y, z := LevelOf(p), LevelOf(Inside(TryBody, p));
    var end, p2 := a + SizeS(s, p), Inside(TryBody, p);
    var q := a + 7 + SizeS(s.handler, Inside(CatchBody, p));
    var r := q + SizeS(s.s, p2);
    var away := outs + {Spot(end, y)};
    HandlerTyped(k, ns, s, p, d, a, outs, away);
    ExitsInside(TryBody, p, d, Dest(end, 0), outs);
    StmTyped(k, ns, s.s, p2, d + [Dest(end, 0)], q, away);
    Seq(k, a, q, r, y, z, z, away);
    Append(k, a, r, EndTry, end, y, z, y, away);
    Close(k, a, end, y, y, away, outs);
  }

  /** From OP_TRY up to the body. */
  lemma {:induction false} HandlerTyped(k: Code, ns: Names, s: Stm, p: Path, d: seq<Dest>, a: nat, outs: set<Spot>,
    away: set<Spot>)
    requires StmFits(k, ns, s, p, d, a, outs) && s.Try? && away == outs + {Spot(a + SizeS(s, p), LevelOf(p))}
    ensures Typed(k, a, a + 7 + SizeS(s.handler, Inside(CatchBody, p)), LevelOf(p), LevelOf(Inside(TryBody, p)), away)
    decreases s, 1
  {
    hide Is, Typed, CodedS, SizeS, Grounded, Exits, LevelOf, Ordered;
    TryCode(k.f, ns, s, p, d, a);
    GroundedDef(s, p);
    LevelInside(CatchBody, p);
    LevelInside(TryBody, p);
    var p1 := Inside(CatchBody, p);
    var x, y, z := LevelOf(p1), LevelOf(p), LevelOf(Inside(TryBody, p));
    var end, q := a + SizeS(s, p), a + 4 + SizeS(s.handler, p1);
    var all := away + {Spot(q + 3, z)};
    CatchTyped(k, s.x, p, a, q + 3, all);
    ExitsInside(CatchBody, p, d, Dest(end, 0), outs);
    StmTyped(k, ns, s.handler, p1, d + [Dest(end, 0)], a + 4, all);
    Seq(k, a, a + 4, q, y, x, x, all);
    Append(k, a, q, LeaveScope, q + 1, y, x, y, all);
    Append(k, a, q + 1, Jump(end), q + 3, y, y, z, all);
    Close(k, a, q + 3, y, z, all, away);
  }

  lemma {:induction false} CatchTyped(k: Code, x: Name, p: Path, a: nat, body: nat, outs: set<Spot>)
    requires Is(k.f, a, TryTo(body), a + 2) && Is(k.f, a + 2, Catch(x), a + 4)
      && Spot(body, LevelOf(Inside(TryBody, p))) in outs
    ensures Typed(k, a, a + 4, LevelOf(p), LevelOf(Inside(CatchBody, p)), outs)
  {
    hide Is, Typed, LevelOf, Ordered;
    LevelInside(CatchBody, p);
    LevelInside(TryBody, p);
    var y := LevelOf(p);
    SoundUp(y);
    Single(k, a, TryTo(body), a + 2, y, Up(y, 1), outs);
    Append(k, a, a + 2, Catch(x), a + 4, y, Up(y, 1), LevelOf(Inside(CatchBody, p)), outs);
  }

  // ----- whole bodies -----

  /** Every address of an instruction in a compiled body has one depth of operands, scopes and
      handlers, or two right behind OP_NEXTITER, and every jump goes to an instruction. */
  lemma {:induction false} BodyBalanced(k: Code, ns: Names, body: Stms) returns (m: map<nat, Depths>)
    requires k.slots == FrameSize(ns) && CodedBody(k.f, ns, body, 0) && GroundedList(body, Function)
    ensures Balanced(k, m, SizeList(body, Function) + 2)
  {
    hide Is, CodedList, SizeList, GroundedList, Piece;
    var b := SizeList(body, Function);
    var outs := {Spot(0, ZERO)};
    ListTyped(k, ns, body, Function, [], 0, outs);
    var m1 :| Piece(k, m1, 0, b, ZERO, ZERO, outs);
    m := Ended(k, m1, b);
  }

  /** The end of a function: undefined is returned. */
  lemma {:induction false} Ended(k: Code, m1: map<nat, Depths>, b: nat) returns (m: map<nat, Depths>)
    requires Piece(k, m1, 0, b, ZERO, ZERO, {Spot(0, ZERO)})
    requires Is(k.f, b, Push(Undefined), b + 1) && Is(k.f, b + 1, Ret, b + 2)
    ensures Balanced(k, m, b + 2)
  {
    hide Decode, Starts, Hits, Allowed, Succ;
    m := m1[b := ZERO][b + 1 := Up(ZERO, 1)];
    EndStarts(k.f, b);
    HitsThen(k.f, 0, b, b + 2);
    HitsUpwards(k.f, 0, b);
    forall pc | pc in m
      ensures Closed(k, m, pc)
    {
      if pc in m1 { assert Agrees(k, m1, b, ZERO, {Spot(0, ZERO)}, pc); } else { EndCloses(k, m, b, pc); }
    }
  }

  lemma {:induction false} EndStarts(f: Fn, b: nat)
    requires Is(f, b, Push(Undefined), b + 1) && Is(f, b + 1, Ret, b + 2)
    ensures Hits(f, b, b + 2) && Starts(f, b, b + 2) == {b, b + 1}
  {
    hide Decode;
    assert Hits(f, b + 2, b + 2) && Starts(f, b + 2, b + 2) == {};
    assert Hits(f, b + 1, b + 2) && Starts(f, b + 1, b + 2) == {b + 1};
  }

  lemma {:induction false} EndCloses(k: Code, m: map<nat, Depths>, b: nat, pc: nat)
    requires Is(k.f, b, Push(Undefined), b + 1) && Is(k.f, b + 1, Ret, b + 2) && pc in m && (pc == b || pc == b + 1)
    requires b in m && m[b] == ZERO && b + 1 in m && m[b + 1] == Up(ZERO, 1)
    ensures Closed(k, m, pc)
  {
    hide Decode;
  }

  /** Sound bodies are grounded. */
  lemma {:induction false} SaneGrounded(s: Stm, p: Path, d: seq<Dest>, a: nat)
    requires |d| == Depth(p) && Sane(s, p, d, a)
    ensures Grounded(s, p)
    decreases s, 1
  {
    hide Sane, Grounded, SizeS, SizeE, SizeTests, SizeInit, SizeForAssign;
    SaneDef(s, p, d, a);
    GroundedDef(s, p);
    var end := a + SizeS(s, p);
    var behind := d + [Dest(end, 0)];
    match s
    case Block(body) => SaneListGrounded(body, Inside(Plain, p), behind, a);
    case If(e, b) => SaneGrounded(b, Inside(Plain, p), behind, a + SizeE(e) + 2);
    case IfElse(e, b, b2) =>
      var q := a + SizeE(e) + 2;
      SaneGrounded(b2, Inside(Plain, p), behind, q);
      SaneGrounded(b, Inside(Plain, p), behind, q + SizeS(b2, Inside(Plain, p)) + 2);
    case Do(b, _) => SaneGrounded(b, Inside(Loop, p), d + [Dest(end, a + SizeS(b, Inside(Loop, p)))], a);
    case While(_, _) => SaneLoopGrounded(s, a, p, d, a);
    case For(init, _, _, _) => SaneLoopGrounded(s, a, p, d, a + SizeInit(init));
    case ForIn(lhs, e, b) =>
      var q := a + SizeE(e) + 1;
      SaneGrounded(b, Inside(ForInLoop, p), d + [Dest(end, q)], q + 3 + SizeForAssign(lhs));
    case Switch(e, cases) =>
      SaneCasesGrounded(cases, Inside(SwitchNode, p), behind, a + SizeE(e) + SizeTests(cases) + 3);
    case Label(x, b) => SaneGrounded(b, Inside(Labelled(x), p), d + [Dest(0, 0)], a);
    case With(e, b) => SaneGrounded(b, Inside(WithNode, p), behind, a + SizeE(e) + 1);
    case Try(b, _, h) =>
      SaneGrounded(h, Inside(CatchBody, p), behind, a + 4);
      SaneGrounded(b, Inside(TryBody, p), behind, a + 4 + SizeS(h, Inside(CatchBody, p)) + 3);
    case _ =>
  }

  lemma {:induction false} SaneLoopGrounded(s: Stm, start: nat, p: Path, d: seq<Dest>, a: nat)
    requires |d| == Depth(p) && (s.While? || s.For?) && SaneLoop(s, start, p, d, a)
    ensures Grounded(s.s, Inside(Loop, p))
    decreases s, 0
  {
    hide Sane, Grounded, SizeS, SizeE;
    var b := if TestOf(s).Some? then a + SizeE(TestOf(s).value) + 2 else a;
    var q := b + SizeS(s.s, Inside(Loop, p));
    SaneGrounded(s.s, Inside(Loop, p), d + [Dest(start + SizeS(s, p), if s.While? then a else q)], b);
  }

  lemma {:induction false} SaneListGrounded(ss: Stms, p: Path, d: seq<Dest>, a: nat)
    requires |d| == Depth(p) && SaneList(ss, p, d, a)
    ensures GroundedList(ss, p)
    decreases ss, 0
  {
    hide Sane, Grounded;
    if ss.Stms? {
      SaneGrounded(ss.head, p, d, a);
      SaneListGrounded(ss.tail, p, d, a + SizeS(ss.head, p));
    }
  }

  lemma {:induction false} SaneCasesGrounded(cases: Cases, p: Path, d: seq<Dest>, a: nat)
    requires |d| == Depth(p) && SaneCases(cases, p, d, a)
    ensures GroundedCases(cases, p)
    decreases cases, 0
  {
    hide SaneList, GroundedList;
    if !cases.NoCases? {
      SaneListGrounded(cases.body, p, d, a);
      SaneCasesGrounded(cases.rest, p, d, a + SizeList(cases.body, p));
    }
  }

  /** The address that an instruction names, if it names one. */
  function Target(i: Instr): Option<nat> {
    match i
    case Jump(t) => Some(t)
    case JTrue(t) => Some(t)
    case JFalse(t) => Some(t)
    case JCase(t) => Some(t)
    case TryTo(t) => Some(t)
    case _ => None
  }

  /** Every jump goes to where an instruction starts. */
  lemma {:induction false} JumpsHit(k: Code, m: map<nat, Depths>, end: nat, pc: nat)
    requires Balanced(k, m, end) && pc in Starts(k.f, 0, end)
    ensures Decode(k.f, pc).Decoded?
      && (Target(Decode(k.f, pc).i).Some? ==> Target(Decode(k.f, pc).i).value in Starts(k.f, 0, end))
  {
    hide Decode, Starts, Hits;
    ClosedAt(k, m, end, pc);
  }

  /** At every moment of a call the stacks are exactly as deep as the address says, and the
      machine has not gone wrong. */
  lemma {:induction false} CallMeasured(k: Code, m: map<nat, Depths>, end: nat, lib: Lib, t: State, n: nat)
    requires Balanced(k, m, end)
    requires t.Running? && t.pc == 0 && t.ops.Bottom? && t.tries.NoTries? && |t.frame| == k.slots
    ensures Run(k.f, lib, t, n) != Wrong && Measured(k, m, ScopeDepth(t.scope), Run(k.f, lib, t, n))
  {
    hide Run, Starts, Hits, Decode;
    RunMeasured(k, m, end, ScopeDepth(t.scope), lib, t, n);
  }

  // ----- a body that is not grounded -----

  /** with (null) a: b: break a; */
  const SINKING: Stms := Stms(With(NullLit, Label("a", Label("b", Break(Some("a"))))), NoStms)

  lemma {:induction false} SinkingCode(f: Fn, ns: Names)
    requires CodedBody(f, ns, SINKING, 0)
    ensures Is(f, 0, Push(Null), 1) && Is(f, 1, EnterWith, 2) && Is(f, 2, Jump(0), 4)
  {
    hide Is, CodedS, SizeS, Coded, SizeE;
    var s := SINKING.head;
    CodedDef(f, ns, NullLit, 0);
    CodedSDef(f, ns, s, Function, [], 0);
    SinkingInner(f, ns, [] + [Dest(SizeS(s, Function), 0)]);
  }

  lemma {:induction false} SinkingInner(f: Fn, ns: Names, d: seq<Dest>)
    requires |d| == 1 && CodedS(f, ns, SINKING.head.s, Inside(WithNode, Function), d, 2)
    ensures Is(f, 2, Jump(0), 4)
  {
    hide Is, CodedS, SizeS;
    var p1 := Inside(WithNode, Function);
    var p2 := Inside(Labelled("a"), p1);
    var s := SINKING.head.s;
    CodedSDef(f, ns, s, p1, d, 2);
    CodedSDef(f, ns, s.s, p2, d + [Dest(0, 0)], 2);
    CodedSDef(f, ns, s.s.s, Inside(Labelled("b"), p2), d + [Dest(0, 0)] + [Dest(0, 0)], 2);
  }

  lemma {:induction false} SinkingNotGrounded()
    ensures !GroundedList(SINKING, Function)
  {
    hide Grounded;
    var p1 := Inside(WithNode, Function);
    var p2 := Inside(Labelled("a"), p1);
    var s := SINKING.head;
    GroundedDef(s, Function);
    GroundedDef(s.s, p1);
    GroundedDef(s.s.s, p2);
    GroundedDef(s.s.s.s, Inside(Labelled("b"), p2));
  }

  /** Each round goes one scope deeper: the body is not grounded, and no depth is right for the
      start of its code. */
  lemma {:induction false} SinkingUnbalanced(k: Code, ns: Names, m: map<nat, Depths>, end: nat)
    requires CodedBody(k.f, ns, SINKING, 0)
    ensures !GroundedList(SINKING, Function) && !Balanced(k, m, end)
  {
    hide CodedBody, Is, Balanced, GroundedList, SINKING;
    SinkingNotGrounded();
    SinkingCode(k.f, ns);
    if Balanced(k, m, end) { SinkingFurther(k, m, end); }
  }

  lemma {:induction false} SinkingFurther(k: Code, m: map<nat, Depths>, end: nat)
    requires Is(k.f, 0, Push(Null), 1) && Is(k.f, 1, EnterWith, 2) && Is(k.f, 2, Jump(0), 4)
    ensures !Balanced(k, m, end)
  {
    hide Is, Balanced, Has, Ordered;
    if Balanced(k, m, end) {
      BalancedStart(k, m, end);
      assert Has(m, 1, Up(ZERO, 1)) by { LeadsTo(k, m, end, 0, Push(Null), 1, ZERO); }
      assert Has(m, 2, ZERO.(scopes := 1)) by { LeadsTo(k, m, end, 1, EnterWith, 2, Up(ZERO, 1)); }
      assert Has(m, 0, ZERO.(scopes := 1)) by { LeadsTo(k, m, end, 2, Jump(0), 4, ZERO.(scopes := 1)); }
      HasOne(m, 0, ZERO, ZERO.(scopes := 1));
    }
  }

  lemma {:induction false} LeadsTo(k: Code, m: map<nat, Depths>, end: nat, pc: nat, i: Instr, next: nat, d: Depths)
    requires Balanced(k, m, end) && Has(m, pc, d) && Is(k.f, pc, i, next)
    ensures Allowed(k, i, d) && Continues(m, i, next, d)
  {
    hide Decode, Balanced;
    ClosedAt(k, m, end, pc);
  }

  lemma {:induction false} HasOne(m: map<nat, Depths>, pc: nat, d: Depths, e: Depths)
    requires Has(m, pc, d) && Has(m, pc, e)
    ensures d == e
  {
  }
}
