/** Compiled statements, run by the machine: every completion of the statement arrives where it
    should, with the operand stack, the scope chain and the handlers that are expected there,
    and a statement that does not end keeps the machine running. */
module JsStatements {
  import opened JsTree
  import opened JsMachine
  import opened JsMeaning
  import opened JsCode
  import opened JsTargets
  import opened JsExpressions

  function RegsOf(t: State): Regs
    requires t.Running?
  {
    Regs(t.ops, t.scope, t.tries)
  }

  function Land(g: Regs, pc: nat, m: Mem): State {
    Running(pc, m.frame, g.ops, g.scope, g.tries, m.w)
  }

  /** The statement's break or continue has a target; a labelled break may end it itself. */
  predicate Resolved(p: Path, r: Exit) {
    match r
    case Broke(l, _) => (l.Some? && MatchLabel(p, l.value)) || 0 < BreakTarget(p, l)
    case Continued(l, _) => 0 < ContinueTarget(p, l)
    case _ => true
  }

  /** Where the completion r of a statement that started in t and ends at `end` takes the machine. */
  function Arrives(t: State, p: Path, d: seq<Dest>, end: nat, r: Exit): State
    requires t.Running? && |d| == Depth(p) && Fits(p, RegsOf(t)) && !r.Timeout? && Resolved(p, r)
  {
    match r
    case Normal(m) => Land(RegsOf(t), end, m)
    case Broke(l, m) =>
      if l.Some? && MatchLabel(p, l.value) then Land(RegsOf(t), end, m)
      else Land(Unwind(ByBreak, p, BreakTarget(p, l), RegsOf(t)), d[BreakTarget(p, l) - 1].brk, m)
    case Continued(l, m) =>
      Land(Unwind(ByContinue, p, ContinueTarget(p, l), RegsOf(t)), d[ContinueTarget(p, l) - 1].cont, m)
    case Gave(v, m) =>
      var g := Unwind(ByReturn, p, 0, RegsOf(t));
      Returned(v, g.scope, g.tries, m.w)
    case Threw(v, m) => Fails(t, v, m)
  }

  /** n steps from t1 do what r says of the statement that started in t. */
  ghost predicate Gets(f: Fn, c: Ctx, t1: State, n: nat, t: State, p: Path, d: seq<Dest>, end: nat, r: Exit, fuel: nat)
    requires t.Running? && |d| == Depth(p) && Fits(p, RegsOf(t))
  {
    if r.Timeout? then fuel <= n && Run(f, c.lib, t1, n).Running?
    else Resolved(p, r) && Run(f, c.lib, t1, n) == Arrives(t, p, d, end, r) && |r.m.frame| == |t.frame|
  }

  ghost predicate Ending(f: Fn, c: Ctx, t: State, n: nat, p: Path, d: seq<Dest>, end: nat, r: Exit, fuel: nat)
    requires t.Running? && |d| == Depth(p) && Fits(p, RegsOf(t))
  {
    Gets(f, c, t, n, t, p, d, end, r, fuel)
  }

  ghost predicate StmReady(c: Ctx, p: Path, d: seq<Dest>, t: State) {
    Ready(c, t) && |d| == Depth(p) && Fits(p, RegsOf(t))
  }

  ghost predicate StmDone(f: Fn, c: Ctx, s: Stm, p: Path, d: seq<Dest>, t: State, fuel: nat, n: nat)
    requires StmReady(c, p, d, t)
  {
    Ending(f, c, t, n, p, d, t.pc + SizeS(s, p), Exec(c, s, LabelSet(p), t.scope, MemOf(t), fuel), fuel)
  }

  /** A break from p to the node at depth k leaves nothing on the way but other nodes of this kind. */
  predicate Transparent(p: Path, k: nat) {
    p.Inside? && (p.kind.Plain? || p.kind.SwitchNode? || p.kind.Labelled?)
    && if Depth(p) == k then !p.kind.Labelled? else Transparent(p.up, k)
  }

  lemma {:induction false} TransparentLeaves(p: Path, k: nat, g: Regs)
    requires Transparent(p, k) && Fits(p, g)
    ensures Unwind(ByBreak, p, k, g) == g
  {
    if Depth(p) != k { TransparentLeaves(p.up, k, g); }
  }

  /** The break that ends at `end` goes where it should: it is not itself labelled by the name it
      has, or what it jumps behind ends where it does. */
  predicate Straight(p: Path, d: seq<Dest>, l: Option<Name>, end: nat)
    requires |d| == Depth(p)
  {
    l.Some? && MatchLabel(p, l.value) ==>
      var k := BreakTarget(p, l);
      0 < k && Transparent(p, k) && d[k - 1].brk == end
  }

  /** Left out is what jscompile.c compiles to something else: a break that does not go where it
      should, and a for-in loop over an indexed place. The code of s lies at a. */
  predicate Sane(s: Stm, p: Path, d: seq<Dest>, a: nat)
    requires |d| == Depth(p)
    decreases s, 3
  {
    SaneStm(s, p, d, a)
  }

  predicate SaneStm(s: Stm, p: Path, d: seq<Dest>, a: nat)
    requires |d| == Depth(p)
    decreases s, 2
  {
    var end := a + SizeS(s, p);
    var behind := d + [Dest(end, 0)];
    match s
    case Block(body) => SaneList(body, Inside(Plain, p), behind, a)
    case If(e, b) => Sane(b, Inside(Plain, p), behind, a + SizeE(e) + 2)
    case IfElse(e, b, b2) =>
      var q := a + SizeE(e) + 2;
      var r := q + SizeS(b2, Inside(Plain, p)) + 2;
      Sane(b2, Inside(Plain, p), behind, q) && Sane(b, Inside(Plain, p), behind, r)
    case Do(b, _) => Sane(b, Inside(Loop, p), d + [Dest(end, a + SizeS(b, Inside(Loop, p)))], a)
    case While(_, _) => SaneLoop(s, a, p, d, a)
    case For(init, _, _, _) => SaneLoop(s, a, p, d, a + SizeInit(init))
    case ForIn(lhs, e, b) =>
      var q := a + SizeE(e) + 1;
      !lhs.Index? && Sane(b, Inside(ForInLoop, p), d + [Dest(end, q)], q + 3 + SizeForAssign(lhs))
    case Switch(e, cases) => SaneCases(cases, Inside(SwitchNode, p), behind, a + SizeE(e) + SizeTests(cases) + 3)
    case Label(x, b) => Sane(b, Inside(Labelled(x), p), d + [Dest(0, 0)], a)
    case Break(l) => Straight(p, d, l, end)
    case With(e, b) => Sane(b, Inside(WithNode, p), behind, a + SizeE(e) + 1)
    case Try(b, _, h) =>
      var q := a + 4 + SizeS(h, Inside(CatchBody, p)) + 3;
      Sane(h, Inside(CatchBody, p), behind, a + 4) && Sane(b, Inside(TryBody, p), behind, q)
    case _ => true
  }

  /** The body of a `while` or `for` whose test lies at a. */
  predicate SaneLoop(s: Stm, start: nat, p: Path, d: seq<Dest>, a: nat)
    requires |d| == Depth(p) && (s.While? || s.For?)
    decreases s, 1
  {
    var b := if TestOf(s).Some? then a + SizeE(TestOf(s).value) + 2 else a;
    var q := b + SizeS(s.s, Inside(Loop, p));
    Sane(s.s, Inside(Loop, p), d + [Dest(start + SizeS(s, p), if s.While? then a else q)], b)
  }

  predicate SaneList(ss: Stms, p: Path, d: seq<Dest>, a: nat)
    requires |d| == Depth(p)
    decreases ss, 0
  {
    ss.Stms? ==> Sane(ss.head, p, d, a) && SaneList(ss.tail, p, d, a + SizeS(ss.head, p))
  }

  predicate SaneCases(cases: Cases, p: Path, d: seq<Dest>, a: nat)
    requires |d| == Depth(p)
    decreases cases, 0
  {
    !cases.NoCases? ==>
      SaneList(cases.body, p, d, a) && SaneCases(cases.rest, p, d, a + SizeList(cases.body, p))
  }

  lemma {:induction false} SaneDef(s: Stm, p: Path, d: seq<Dest>, a: nat)
    requires |d| == Depth(p)
    ensures Sane(s, p, d, a) == SaneStm(s, p, d, a)
  {
  }

  // ----- completions seen from inside and outside a node -----

  /** What the completion r of a node's body is for the node. */
  function Past(k: Kind, r: Exit): Exit {
    match r
    case Broke(None, m) => if IsLoop(k) || k.SwitchNode? then Normal(m) else r
    case _ => r
  }

  predicate Again(k: Kind, p: Path, r: Exit) {
    r.Continued? && IsLoop(k) && GoesOn(r.l, LabelSet(p))
  }

  predicate Entered(k: Kind, t: State, t1: State) {
    t.Running? && t1.Running? && Inner1(k, RegsOf(t1)) && Outer1(k, RegsOf(t1)) == RegsOf(t)
  }

  /** An abrupt completion of the body in t1 ends where the same completion of the node does. */
  lemma {:induction false} Outward(c: Ctx, k: Kind, p: Path, d: seq<Dest>, dest: Dest, t: State, t1: State, end1: nat,
    r: Exit)
    requires StmReady(c, p, d, t) && Entered(k, t, t1) && !k.Labelled? && |t1.frame| == |t.frame|
    requires Resolved(Inside(k, p), r) && (r.Broke? || r.Continued? || r.Gave? || (r.Threw? && !k.TryBody?))
    ensures Depth(Inside(k, p)) == |d + [dest]| && Fits(Inside(k, p), RegsOf(t1))
    ensures Again(k, p, r) ==> Arrives(t1, Inside(k, p), d + [dest], end1, r) == Land(RegsOf(t1), dest.cont, r.m)
    ensures !Again(k, p, r) ==>
      Resolved(p, Past(k, r))
        && Arrives(t1, Inside(k, p), d + [dest], end1, r) == Arrives(t, p, d, dest.brk, Past(k, r))
  {
    match r
    case Broke(l, m) => OutwardBreak(k, p, d, dest, t, t1, end1, l, m);
    case Continued(l, m) => OutwardContinue(k, p, d, dest, t, t1, end1, l, m);
    case Gave(v, m) =>
    case Threw(v, m) => if k.ForInLoop? { PushedMeans(c, t, t1, On(t1.ops.v, Bottom)); }
  }

  lemma {:induction false} OutwardBreak(k: Kind, p: Path, d: seq<Dest>, dest: Dest, t: State, t1: State, end1: nat,
    l: Option<Name>, m: Mem)
    requires |d| == Depth(p) && Entered(k, t, t1) && Fits(p, RegsOf(t)) && !k.Labelled?
    requires Resolved(Inside(k, p), Broke(l, m))
    ensures Resolved(p, Past(k, Broke(l, m)))
    ensures Arrives(t1, Inside(k, p), d + [dest], end1, Broke(l, m)) == Arrives(t, p, d, dest.brk, Past(k, Broke(l, m)))
  {
  }

  lemma {:induction false} OutwardContinue(k: Kind, p: Path, d: seq<Dest>, dest: Dest, t: State, t1: State, end1: nat,
    l: Option<Name>, m: Mem)
    requires |d| == Depth(p) && Entered(k, t, t1) && Fits(p, RegsOf(t)) && !k.Labelled?
    requires Resolved(Inside(k, p), Continued(l, m))
    ensures Again(k, p, Continued(l, m)) ==>
      Arrives(t1, Inside(k, p), d + [dest], end1, Continued(l, m)) == Land(RegsOf(t1), dest.cont, m)
    ensures !Again(k, p, Continued(l, m)) ==>
      Resolved(p, Continued(l, m))
        && Arrives(t1, Inside(k, p), d + [dest], end1, Continued(l, m)) == Arrives(t, p, d, dest.brk, Continued(l, m))
  {
    if l.Some? { LabelSetMeans(p, l.value); }
  }

  // ----- cexit -----

  /** The state with the stacks g, a return value lying on top of the operands. */
  function Leaving(g: Regs, v: Option<Value>, pc: nat, m: Mem): State {
    Running(pc, m.frame, if v.None? then g.ops else On(v.value, g.ops), g.scope, g.tries, m.w)
  }

  /** What `cexit` emits for one node. */
  lemma {:induction false} LeaveRuns(f: Fn, lib: Lib, way: Way, k: Kind, target: bool, g: Regs, v: Option<Value>,
    pc: nat, m: Mem) returns (n: nat)
    requires Inner1(k, g) && CodedLeave(f, way, k, target, pc) && (v.Some? <==> way.ByReturn?)
    ensures Run(f, lib, Leaving(g, v, pc, m), n)
      == Leaving(if Stays(way, k, target) then g else Outer1(k, g), v, pc + SizeLeave(way, k, target), m)
  {
    hide Is, Decode, Run;
    var t := Leaving(g, v, pc, m);
    n := 1;
    match k
    case ForInLoop =>
      if way.ByReturn? {
        Runs1(f, lib, t, Rot2, pc + 1);
        var t1 := t.(pc := pc + 1, ops := On(g.ops.v, On(v.value, g.ops.under)));
        Runs1(f, lib, t1, Pop, pc + 2);
        RunAdd(f, lib, t, 1, 1);
        n := 2;
      } else if Stays(way, k, target) {
        n := 0;
        Run0(f, lib, t);
      } else {
        Runs1(f, lib, t, Pop, pc + 1);
      }
    case WithNode => Runs1(f, lib, t, LeaveScope, pc + 1);
    case CatchBody => Runs1(f, lib, t, LeaveScope, pc + 1);
    case TryBody => Runs1(f, lib, t, EndTry, pc + 1);
    case _ =>
      n := 0;
      Run0(f, lib, t);
  }

  /** The code of `cexit` leaves the stacks as the node at depth k expects them. */
  lemma {:induction false} ExitRuns(f: Fn, lib: Lib, way: Way, p: Path, k: nat, g: Regs, v: Option<Value>, pc: nat,
    m: Mem) returns (n: nat)
    requires Fits(p, g) && CodedExit(f, way, p, k, pc) && (v.Some? <==> way.ByReturn?)
    ensures Run(f, lib, Leaving(g, v, pc, m), n) == Leaving(Unwind(way, p, k, g), v, pc + SizeExit(way, p, k), m)
    decreases p
  {
    hide Is, Decode, Run, CodedLeave;
    if p.Function? {
      n := 0;
      Run0(f, lib, Leaving(g, v, pc, m));
    } else {
      n := LeaveRuns(f, lib, way, p.kind, Depth(p) == k, g, v, pc, m);
      if Depth(p) != k {
        var j := ExitRuns(f, lib, way, p.up, k, Outer1(p.kind, g), v, pc + SizeLeave(way, p.kind, false), m);
        RunAdd(f, lib, Leaving(g, v, pc, m), n, j);
        n := n + j;
      }
    }
  }

  // ----- sequencing -----

  /** The same stacks, but for the locals: what ends well from t1 ends well from t. */
  lemma {:induction false} Extend(f: Fn, c: Ctx, t: State, n: nat, t1: State, m: nat, p: Path, d: seq<Dest>, end: nat,
    r: Exit, fuel: nat)
    requires StmReady(c, p, d, t) && t1.Running? && RegsOf(t1) == RegsOf(t) && |t1.frame| == |t.frame|
    requires Run(f, c.lib, t, n) == t1 && Ending(f, c, t1, m, p, d, end, r, fuel)
    ensures Ending(f, c, t, n + m, p, d, end, r, fuel)
  {
    hide Run;
    RunAdd(f, c.lib, t, n, m);
  }

  /** One more unit of fuel is paid for by a step. */
  lemma {:induction false} Refuel(f: Fn, c: Ctx, t: State, n: nat, t1: State, m: nat, p: Path, d: seq<Dest>, end: nat,
    r: Exit, fuel: nat)
    requires StmReady(c, p, d, t) && t1.Running? && RegsOf(t1) == RegsOf(t) && |t1.frame| == |t.frame|
    requires 0 < n && Run(f, c.lib, t, n) == t1 && Ending(f, c, t1, m, p, d, end, r, fuel)
    ensures Ending(f, c, t, n + m, p, d, end, r, fuel + 1)
  {
    hide Run;
    RunAdd(f, c.lib, t, n, m);
  }

  /** An abrupt completion of a body, or one that does not end, is the node's. */
  lemma {:induction false} Abrupt(f: Fn, c: Ctx, k: Kind, p: Path, d: seq<Dest>, dest: Dest, t: State, n: nat,
    t1: State, m: nat, end1: nat, r: Exit, fuel: nat)
    requires StmReady(c, p, d, t) && Entered(k, t, t1) && !k.Labelled? && |t1.frame| == |t.frame|
    requires Fits(Inside(k, p), RegsOf(t1)) && Run(f, c.lib, t, n) == t1
    requires |d + [dest]| == Depth(Inside(k, p)) && Ending(f, c, t1, m, Inside(k, p), d + [dest], end1, r, fuel)
    requires !r.Normal? && !Again(k, p, r) && (r.Threw? ==> !k.TryBody?)
    ensures Ending(f, c, t, n + m, p, d, dest.brk, Past(k, r), fuel)
  {
    hide Run, Arrives, Fits;
    RunAdd(f, c.lib, t, n, m);
    if !r.Timeout? { Outward(c, k, p, d, dest, t, t1, end1, r); }
  }

  lemma {:induction false} Inwards(c: Ctx, k: Kind, p: Path, d: seq<Dest>, dest: Dest, t: State, t1: State)
    requires StmReady(c, p, d, t) && Entered(k, t, t1) && Ready(c, t1)
    ensures StmReady(c, Inside(k, p), d + [dest], t1)
    ensures !k.Labelled? ==> LabelSet(Inside(k, p)) == {}
  {
  }

  // ----- simple statements -----

  lemma {:induction false} ExpStmRuns(f: Fn, c: Ctx, e: Exp, t: State) returns (n: nat)
    requires Ready(c, t) && Coded(f, c.names, e, t.pc) && Is(f, t.pc + SizeE(e), Pop, t.pc + SizeE(e) + 1)
    ensures Reaches(f, c, t, n, t.pc + SizeE(e) + 1, Dropped(Eval(c, e, t.scope, MemOf(t))))
  {
    hide Is, Decode, Run, Eval, Coded, SizeE;
    Overs(t.ops);
    n := ExpRuns(f, c, e, t);
    var r := Eval(c, e, t.scope, MemOf(t));
    if r.Val? {
      Runs1(f, c.lib, Pushing(t, t.pc + SizeE(e), On(r.v, Bottom), r.m), Pop, t.pc + SizeE(e) + 1);
      RunAdd(f, c.lib, t, n, 1);
      n := n + 1;
    }
  }

  function Dropped<T>(r: Out<T>): Out<Ops> {
    match r
    case Val(_, m) => Val(Bottom, m)
    case Exc(x, m) => Exc(x, m)
  }

  lemma {:induction false} VarsRun(f: Fn, c: Ctx, vars: Vars, t: State) returns (n: nat)
    requires Ready(c, t) && CodedVars(f, c.names, vars, t.pc)
    ensures Reaches(f, c, t, n, t.pc + SizeVars(vars), Dropped(EvalVars(c, vars, t.scope, MemOf(t))))
    decreases vars
  {
    hide Is, Decode, Run, Eval, Coded, SizeE;
    Overs(t.ops);
    match vars
    case NoVars =>
      n := 0;
      Run0(f, c.lib, t);
    case Var(_, None, rest) => n := VarsRun(f, c, rest, t);
    case Var(x, Some(e), rest) =>
      n := VarRuns(f, c, x, e, t);
      var r := EvalVar(c, x, e, t.scope, MemOf(t));
      if r.Val? {
        var t1 := Pushing(t, t.pc + SizeE(e) + 3, Bottom, r.m);
        PushedMeans(c, t, t1, Bottom);
        var m := VarsRun(f, c, rest, t1);
        RunAdd(f, c.lib, t, n, m);
        n := n + m;
      }
  }

  function EvalVar(c: Ctx, x: Name, e: Exp, scope: Scope, m: Mem): Out<Value> {
    match Eval(c, e, scope, m)
    case Exc(y, m1) => Exc(y, m1)
    case Val(v, m1) => Put(c, VarRef(x), v, scope, m1)
  }

  /** One variable with an initial value. */
  lemma {:induction false} VarRuns(f: Fn, c: Ctx, x: Name, e: Exp, t: State) returns (n: nat)
    requires Ready(c, t) && Coded(f, c.names, e, t.pc)
    requires var p := t.pc + SizeE(e); CodedStore(f, c.names, x, p) && Is(f, p + 2, Pop, p + 3)
    ensures Reaches(f, c, t, n, t.pc + SizeE(e) + 3, Dropped(EvalVar(c, x, e, t.scope, MemOf(t))))
  {
    hide Is, Decode, Run, Eval, Coded, SizeE, CodedStore;
    Overs(t.ops);
    n := ExpRuns(f, c, e, t);
    var r := Eval(c, e, t.scope, MemOf(t));
    if r.Val? {
      var p := t.pc + SizeE(e);
      var t1 := Pushing(t, p, On(r.v, Bottom), r.m);
      PutRuns(f, c, Ident(x), VarRef(x), r.v, t, t1);
      RunAdd(f, c.lib, t, n, 1);
      n := n + 1;
      var r1 := Put(c, VarRef(x), r.v, t.scope, r.m);
      if r1.Val? {
        Runs1(f, c.lib, Pushing(t, p + 2, On(r1.v, Bottom), r1.m), Pop, p + 3);
        RunAdd(f, c.lib, t, n, 1);
        n := n + 1;
      }
    }
  }

  lemma {:induction false} InitRun(f: Fn, c: Ctx, init: Init, t: State) returns (n: nat)
    requires Ready(c, t) && CodedInit(f, c.names, init, t.pc)
    ensures Reaches(f, c, t, n, t.pc + SizeInit(init), Dropped(EvalInit(c, init, t.scope, MemOf(t))))
  {
    hide Is, Decode, Run, Eval, Coded, SizeE, CodedVars, SizeVars, EvalVars;
    match init
    case NoInit =>
      n := 0;
      Overs(t.ops);
      Run0(f, c.lib, t);
    case VarInit(vars) => n := VarsRun(f, c, vars, t);
    case ExpInit(e) => n := ExpStmRuns(f, c, e, t);
  }
}
