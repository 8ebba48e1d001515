/** Compiled control flow, statement by statement, and the theorem on whole function bodies. */
module JsControl {
  import opened JsTree
  import opened JsMachine
  import opened JsMeaning
  import opened JsCode
  import opened JsTargets
  import opened JsExpressions
  import opened JsStatements

  ghost predicate StmOk(f: Fn, c: Ctx, s: Stm, p: Path, d: seq<Dest>, t: State) {
    StmReady(c, p, d, t) && Sane(s, p, d, t.pc) && CodedS(f, c.names, s, p, d, t.pc)
  }

  /** The main theorem on statements. */
  lemma {:induction false} StmRuns(f: Fn, c: Ctx, s: Stm, p: Path, d: seq<Dest>, t: State, fuel: nat) returns (n: nat)
    requires StmOk(f, c, s, p, d, t)
    ensures StmDone(f, c, s, p, d, t, fuel, n)
    decreases fuel, s, 9
  {
    hide Is, Decode, Run, Exec, CodedS, SizeS, Sane, StmDone, StmOk, StmReady;
    match s
    case Block(_) => n := BlockRuns(f, c, s, p, d, t, fuel);
    case If(_, _) => n := IfRuns(f, c, s, p, d, t, fuel);
    case IfElse(_, _, _) => n := IfElseRuns(f, c, s, p, d, t, fuel);
    case Label(_, _) => n := LabelRuns(f, c, s, p, d, t, fuel);
    case With(_, _) => n := WithRuns(f, c, s, p, d, t, fuel);
    case Throw(_) => n := ThrowRuns(f, c, s, p, d, t, fuel);
    case Break(_) => n := BreakRuns(f, c, s, p, d, t, fuel);
    case Continue(_) => n := ContinueRuns(f, c, s, p, d, t, fuel);
    case Return(_) => n := ReturnRuns(f, c, s, p, d, t, fuel);
    case Try(_, _, _) => n := TryRuns(f, c, s, p, d, t, fuel);
    case While(_, _) => n := WhileRuns(f, c, s, p, d, t, fuel);
    case For(_, _, _, _) => n := ForRuns(f, c, s, p, d, t, fuel);
    case Do(_, _) => n := DoRuns(f, c, s, p, d, t, fuel);
    case ForIn(_, _, _) => n := ForInRuns(f, c, s, p, d, t, fuel);
    case Switch(_, _) => n := SwitchRuns(f, c, s, p, d, t, fuel);
    case VarStm(_) => n := VarStmRuns(f, c, s, p, d, t, fuel);
    case ExpStm(_) => n := ExpressionRuns(f, c, s, p, d, t, fuel);
    case _ => n := NothingRuns(f, c, s, p, d, t, fuel);
  }

  /** A statement that is one piece of code without jumps. */
  lemma {:induction false} InOnePiece(f: Fn, c: Ctx, s: Stm, p: Path, d: seq<Dest>, t: State, fuel: nat, n: nat,
    r: Out<Value>)
    requires StmReady(c, p, d, t) && Reaches(f, c, t, n, t.pc + SizeS(s, p), Dropped(r))
    requires Exec(c, s, LabelSet(p), t.scope, MemOf(t), fuel) == Done(r)
    ensures StmDone(f, c, s, p, d, t, fuel, n)
  {
    hide Run, Exec, SizeS, Fits;
    Overs(t.ops);
  }

  lemma {:induction false} VarStmRuns(f: Fn, c: Ctx, s: Stm, p: Path, d: seq<Dest>, t: State, fuel: nat)
    returns (n: nat)
    requires StmOk(f, c, s, p, d, t) && s.VarStm?
    ensures StmDone(f, c, s, p, d, t, fuel, n)
  {
    hide Is, Decode, Run, Exec, CodedS, SizeS, Sane, Fits, EvalVars, CodedVars, SizeVars, StmDone, Reaches;
    CodedSDef(f, c.names, s, p, d, t.pc);
    ExecDef(c, s, LabelSet(p), t.scope, MemOf(t), fuel);
    n := VarsRun(f, c, s.vars, t);
    InOnePiece(f, c, s, p, d, t, fuel, n, EvalVars(c, s.vars, t.scope, MemOf(t)));
  }

  lemma {:induction false} ExpressionRuns(f: Fn, c: Ctx, s: Stm, p: Path, d: seq<Dest>, t: State, fuel: nat)
    returns (n: nat)
    requires StmOk(f, c, s, p, d, t) && s.ExpStm?
    ensures StmDone(f, c, s, p, d, t, fuel, n)
  {
    hide Is, Decode, Run, Exec, CodedS, SizeS, Sane, Fits, Eval, Coded, SizeE, StmDone, Reaches;
    CodedSDef(f, c.names, s, p, d, t.pc);
    ExecDef(c, s, LabelSet(p), t.scope, MemOf(t), fuel);
    n := ExpStmRuns(f, c, s.e, t);
    InOnePiece(f, c, s, p, d, t, fuel, n, Eval(c, s.e, t.scope, MemOf(t)));
  }

  lemma {:induction false} NothingCode(f: Fn, ns: Names, s: Stm, p: Path, d: seq<Dest>, a: nat)
    requires |d| == Depth(p) && CodedS(f, ns, s, p, d, a) && (s.FunDec? || s.Empty? || s.Debugger?)
    ensures SizeS(s, p) == (if s.Debugger? then 1 else 0) && (s.Debugger? ==> Is(f, a, Trap, a + 1))
  {
    hide Is, CodedS, SizeS;
    CodedSDef(f, ns, s, p, d, a);
  }

  lemma {:induction false} NothingRuns(f: Fn, c: Ctx, s: Stm, p: Path, d: seq<Dest>, t: State, fuel: nat)
    returns (n: nat)
    requires StmOk(f, c, s, p, d, t) && (s.FunDec? || s.Empty? || s.Debugger?)
    ensures StmDone(f, c, s, p, d, t, fuel, n)
  {
    hide Is, Decode, Run, Exec, CodedS, SizeS, Sane, Fits, StmDone;
    NothingCode(f, c.names, s, p, d, t.pc);
    ExecDef(c, s, LabelSet(p), t.scope, MemOf(t), fuel);
    Overs(t.ops);
    n := if s.Debugger? then 1 else 0;
    if s.Debugger? { Runs1(f, c.lib, t, Trap, t.pc + 1); } else { Run0(f, c.lib, t); }
    InOnePiece(f, c, s, p, d, t, fuel, n, Val(Undefined, MemOf(t)));
  }

  lemma {:induction false} ArrivesThrew(t: State, p: Path, d: seq<Dest>, end: nat, v: Value, m: Mem)
    requires t.Running? && |d| == Depth(p) && Fits(p, RegsOf(t))
    ensures Arrives(t, p, d, end, Threw(v, m)) == Fails(t, v, m)
  {
  }

  // ----- jumps out -----

  lemma {:induction false} ThrowCode(f: Fn, ns: Names, s: Stm, p: Path, d: seq<Dest>, a: nat)
    requires |d| == Depth(p) && s.Throw? && CodedS(f, ns, s, p, d, a)
    ensures Coded(f, ns, s.e, a) && Is(f, a + SizeE(s.e), Raise, a + SizeE(s.e) + 1)
  {
    hide Is, CodedS, SizeS, Coded, SizeE;
    CodedSDef(f, ns, s, p, d, a);
  }

  lemma {:induction false} ThrowRuns(f: Fn, c: Ctx, s: Stm, p: Path, d: seq<Dest>, t: State, fuel: nat) returns (n: nat)
    requires StmOk(f, c, s, p, d, t) && s.Throw?
    ensures StmDone(f, c, s, p, d, t, fuel, n)
  {
    hide Is, Decode, Run, Exec, CodedS, SizeS, Sane, Fits, Eval, Coded, SizeE, Arrives;
    ThrowCode(f, c.names, s, p, d, t.pc);
    ExecDef(c, s, LabelSet(p), t.scope, MemOf(t), fuel);
    Overs(t.ops);
    n := ExpRuns(f, c, s.e, t);
    var r := Eval(c, s.e, t.scope, MemOf(t));
    ArrivesThrew(t, p, d, t.pc + SizeS(s, p), if r.Val? then r.v else r.exc, r.m);
    if r.Val? {
      var t1 := Pushing(t, t.pc + SizeE(s.e), On(r.v, Bottom), r.m);
      PushedMeans(c, t, t1, On(r.v, Bottom));
      Runs1(f, c.lib, t1, Raise, t1.pc + 1);
      RunAdd(f, c.lib, t, n, 1);
      n := n + 1;
      assert Fails(t1, r.v, r.m) == Throwing(t1, r.v, r.m.w);
    }
  }

  lemma {:induction false} BreakCode(f: Fn, ns: Names, s: Stm, p: Path, d: seq<Dest>, a: nat)
    requires |d| == Depth(p) && s.Break? && CodedS(f, ns, s, p, d, a)
    ensures
      var k := BreakTarget(p, s.l);
      var q := a + SizeExit(ByBreak, p, k);
      && 0 < k && CodedExit(f, ByBreak, p, k, a) && Is(f, q, Jump(d[k - 1].brk), q + 2) && q + 2 == a + SizeS(s, p)
  {
    hide Is, CodedS, SizeS, CodedExit, SizeExit, BreakTarget;
    CodedSDef(f, ns, s, p, d, a);
  }

  lemma {:induction false} BreakRuns(f: Fn, c: Ctx, s: Stm, p: Path, d: seq<Dest>, t: State, fuel: nat) returns (n: nat)
    requires StmOk(f, c, s, p, d, t) && s.Break?
    ensures StmDone(f, c, s, p, d, t, fuel, n)
  {
    hide Is, Decode, Run, Exec, CodedS, SizeS, Sane, Fits, Unwind, CodedExit, SizeExit, BreakTarget, MatchLabel;
    hide Transparent;
    BreakCode(f, c.names, s, p, d, t.pc);
    ExecDef(c, s, LabelSet(p), t.scope, MemOf(t), fuel);
    SaneDef(s, p, d, t.pc);
    var k := BreakTarget(p, s.l);
    n := ExitRuns(f, c.lib, ByBreak, p, k, RegsOf(t), None, t.pc, MemOf(t));
    var q := t.pc + SizeExit(ByBreak, p, k);
    Runs1(f, c.lib, Land(Unwind(ByBreak, p, k, RegsOf(t)), q, MemOf(t)), Jump(d[k - 1].brk), q + 2);
    RunAdd(f, c.lib, t, n, 1);
    n := n + 1;
    if s.l.Some? && MatchLabel(p, s.l.value) { TransparentLeaves(p, k, RegsOf(t)); }
  }

  lemma {:induction false} ContinueCode(f: Fn, ns: Names, s: Stm, p: Path, d: seq<Dest>, a: nat)
    requires |d| == Depth(p) && s.Continue? && CodedS(f, ns, s, p, d, a)
    ensures
      var k := ContinueTarget(p, s.l);
      var q := a + SizeExit(ByContinue, p, k);
      && 0 < k && CodedExit(f, ByContinue, p, k, a) && Is(f, q, Jump(d[k - 1].cont), q + 2) && q + 2 == a + SizeS(s, p)
  {
    hide Is, CodedS, SizeS, CodedExit, SizeExit, ContinueTarget;
    CodedSDef(f, ns, s, p, d, a);
  }

  lemma {:induction false} ContinueRuns(f: Fn, c: Ctx, s: Stm, p: Path, d: seq<Dest>, t: State, fuel: nat)
    returns (n: nat)
    requires StmOk(f, c, s, p, d, t) && s.Continue?
    ensures StmDone(f, c, s, p, d, t, fuel, n)
  {
    hide Is, Decode, Run, Exec, CodedS, SizeS, Sane, Fits, Unwind, CodedExit, SizeExit, ContinueTarget;
    ContinueCode(f, c.names, s, p, d, t.pc);
    ExecDef(c, s, LabelSet(p), t.scope, MemOf(t), fuel);
    var k := ContinueTarget(p, s.l);
    n := ExitRuns(f, c.lib, ByContinue, p, k, RegsOf(t), None, t.pc, MemOf(t));
    var q := t.pc + SizeExit(ByContinue, p, k);
    Runs1(f, c.lib, Land(Unwind(ByContinue, p, k, RegsOf(t)), q, MemOf(t)), Jump(d[k - 1].cont), q + 2);
    RunAdd(f, c.lib, t, n, 1);
    n := n + 1;
  }

  lemma {:induction false} ReturnCode(f: Fn, ns: Names, s: Stm, p: Path, d: seq<Dest>, a: nat)
    requires |d| == Depth(p) && s.Return? && CodedS(f, ns, s, p, d, a)
    ensures
      var q := a + SizeOpt(s.r, 1);
      var r := q + SizeExit(ByReturn, p, 0);
      && (if s.r.Some? then Coded(f, ns, s.r.value, a) else Is(f, a, Push(Undefined), a + 1))
      && r + 1 == a + SizeS(s, p) && CodedExit(f, ByReturn, p, 0, q) && Is(f, r, Ret, r + 1)
  {
    hide Is, CodedS, SizeS, CodedExit, SizeExit, Coded, SizeE;
    CodedSDef(f, ns, s, p, d, a);
  }

  lemma {:induction false} ReturnEnds(f: Fn, c: Ctx, p: Path, d: seq<Dest>, t: State, end: nat, v: Value, q: nat,
    m: Mem)
    returns (n: nat)
    requires StmReady(c, p, d, t) && CodedExit(f, ByReturn, p, 0, q)
    requires var r := q + SizeExit(ByReturn, p, 0); Is(f, r, Ret, r + 1)
    ensures Run(f, c.lib, Pushing(t, q, On(v, Bottom), m), n) == Arrives(t, p, d, end, Gave(v, m))
  {
    hide Is, Decode, Run, Fits, Unwind, CodedExit, SizeExit;
    Overs(t.ops);
    var g := Unwind(ByReturn, p, 0, RegsOf(t));
    n := ExitRuns(f, c.lib, ByReturn, p, 0, RegsOf(t), Some(v), q, m);
    var r := q + SizeExit(ByReturn, p, 0);
    Runs1(f, c.lib, Leaving(g, Some(v), r, m), Ret, r + 1);
    RunAdd(f, c.lib, Pushing(t, q, On(v, Bottom), m), n, 1);
    n := n + 1;
  }

  /** The value of a return lies over what `cexit` takes off. */
  lemma {:induction false} ReturnRuns(f: Fn, c: Ctx, s: Stm, p: Path, d: seq<Dest>, t: State, fuel: nat)
    returns (n: nat)
    requires StmOk(f, c, s, p, d, t) && s.Return?
    ensures StmDone(f, c, s, p, d, t, fuel, n)
  {
    hide Is, Decode, Run, Exec, CodedS, SizeS, Sane, Fits, CodedExit, SizeExit, Eval, Coded, SizeE, Arrives;
    ReturnCode(f, c.names, s, p, d, t.pc);
    ExecDef(c, s, LabelSet(p), t.scope, MemOf(t), fuel);
    Overs(t.ops);
    if s.r.Some? {
      n := ExpRuns(f, c, s.r.value, t);
    } else {
      Runs1(f, c.lib, t, Push(Undefined), t.pc + 1);
      n := 1;
    }
    var r := EvalOpt(c, s.r, Undefined, t.scope, MemOf(t));
    var end := t.pc + SizeS(s, p);
    if r.Val? {
      var m := ReturnEnds(f, c, p, d, t, end, r.v, t.pc + SizeOpt(s.r, 1), r.m);
      RunAdd(f, c.lib, t, n, m);
      n := n + m;
    } else {
      ArrivesThrew(t, p, d, end, r.exc, r.m);
    }
  }

  // ----- bodies -----

  lemma {:induction false} BlockCode(f: Fn, ns: Names, s: Stm, p: Path, d: seq<Dest>, a: nat)
    requires |d| == Depth(p) && s.Block? && CodedS(f, ns, s, p, d, a) && Sane(s, p, d, a)
    ensures
      var p1, d1 := Inside(Plain, p), d + [Dest(a + SizeS(s, p), 0)];
      CodedList(f, ns, s.body, p1, d1, a) && SaneList(s.body, p1, d1, a) && SizeS(s, p) == SizeList(s.body, p1)
  {
    hide Is, CodedS, SizeS, Sane, CodedList, SizeList, SaneList;
    CodedSDef(f, ns, s, p, d, a);
    SaneDef(s, p, d, a);
  }

  lemma {:induction false} BlockRuns(f: Fn, c: Ctx, s: Stm, p: Path, d: seq<Dest>, t: State, fuel: nat) returns (n: nat)
    requires StmOk(f, c, s, p, d, t) && s.Block?
    ensures StmDone(f, c, s, p, d, t, fuel, n)
    decreases fuel, s, 2
  {
    hide Is, Decode, Run, Exec, CodedS, SizeS, Sane, ExecList, Arrives, Fits, CodedList, SizeList, SaneList;
    BlockCode(f, c.names, s, p, d, t.pc);
    ExecDef(c, s, LabelSet(p), t.scope, MemOf(t), fuel);
    var end := t.pc + SizeS(s, p);
    Inwards(c, Plain, p, d, Dest(end, 0), t, t);
    n := ListRuns(f, c, s.body, Inside(Plain, p), d + [Dest(end, 0)], t, fuel);
    var r := ExecList(c, s.body, t.scope, MemOf(t), fuel);
    Closes(f, c, p, d, Dest(end, 0), t, t, n, end, r, fuel);
  }

  /** The end of a body in a plain node is the node's end. */
  lemma {:induction false} Closes(f: Fn, c: Ctx, p: Path, d: seq<Dest>, dest: Dest, t: State, t1: State, n: nat,
    end: nat, r: Exit, fuel: nat)
    requires StmReady(c, p, d, t) && t1.Running? && RegsOf(t1) == RegsOf(t) && |t1.frame| == |t.frame|
      && dest.brk == end
    requires |d + [dest]| == Depth(Inside(Plain, p)) && Fits(Inside(Plain, p), RegsOf(t1))
    requires Ending(f, c, t1, n, Inside(Plain, p), d + [dest], end, r, fuel)
    ensures Ending(f, c, t1, n, p, d, end, r, fuel)
  {
    hide Run;
    if !r.Normal? {
      Run0(f, c.lib, t1);
      Abrupt(f, c, Plain, p, d, dest, t1, 0, t1, n, end, r, fuel);
    }
  }

  /** Statements one after the other, directly inside a node that is not a label. */
  lemma {:induction false} ListRuns(f: Fn, c: Ctx, ss: Stms, p: Path, d: seq<Dest>, t: State, fuel: nat)
    returns (n: nat)
    requires StmReady(c, p, d, t) && SaneList(ss, p, d, t.pc) && CodedList(f, c.names, ss, p, d, t.pc)
      && LabelSet(p) == {}
    ensures Ending(f, c, t, n, p, d, t.pc + SizeList(ss, p), ExecList(c, ss, t.scope, MemOf(t), fuel), fuel)
    decreases fuel, ss, 0
  {
    hide Is, Decode, Run, Exec, CodedS, SizeS, Sane, Fits;
    if ss.NoStms? {
      n := 0;
      Run0(f, c.lib, t);
    } else {
      n := StmRuns(f, c, ss.head, p, d, t, fuel);
      var r := Exec(c, ss.head, {}, t.scope, MemOf(t), fuel);
      if r.Normal? {
        var t1 := Land(RegsOf(t), t.pc + SizeS(ss.head, p), r.m);
        var m := ListRuns(f, c, ss.tail, p, d, t1, fuel);
        Extend(f, c, t, n, t1, m, p, d, t.pc + SizeList(ss, p), ExecList(c, ss.tail, t.scope, r.m, fuel), fuel);
        n := n + m;
      }
    }
  }

  lemma {:induction false} IfRuns(f: Fn, c: Ctx, s: Stm, p: Path, d: seq<Dest>, t: State, fuel: nat) returns (n: nat)
    requires StmOk(f, c, s, p, d, t) && s.If?
    ensures StmDone(f, c, s, p, d, t, fuel, n)
    decreases fuel, s, 2
  {
    hide Is, Decode, Run, Exec, CodedS, SizeS, Sane, Fits, Eval, Coded, SizeE, Arrives;
    CodedSDef(f, c.names, s, p, d, t.pc);
    ExecDef(c, s, LabelSet(p), t.scope, MemOf(t), fuel);
    SaneDef(s, p, d, t.pc);
    var end := t.pc + SizeS(s, p);
    n := ExpRuns(f, c, s.c, t);
    var r := Eval(c, s.c, t.scope, MemOf(t));
    ArrivesThrew(t, p, d, end, if r.Val? then r.v else r.exc, r.m);
    if r.Val? {
      var q := t.pc + SizeE(s.c);
      BranchRuns(f, c, t, n, q, r.v, r.m, JFalse(end), q + 2);
      n := n + 1;
      if !Truth(r.v) {
        ArrivesNormal(t, p, d, end, r.m);
      } else {
        var t1 := Land(RegsOf(t), q + 2, r.m);
        Inwards(c, Plain, p, d, Dest(end, 0), t1, t1);
        var m := StmRuns(f, c, s.a, Inside(Plain, p), d + [Dest(end, 0)], t1, fuel);
        var r1 := Exec(c, s.a, {}, t.scope, r.m, fuel);
        Closes(f, c, p, d, Dest(end, 0), t, t1, m, end, r1, fuel);
        Extend(f, c, t, n, t1, m, p, d, end, r1, fuel);
        n := n + m;
      }
    }
  }

  /** A conditional jump on a value that the code so far has pushed. */
  lemma {:induction false} BranchRuns(f: Fn, c: Ctx, t: State, n: nat, q: nat, v: Value, m: Mem, i: Instr, next: nat)
    requires Ready(c, t) && Run(f, c.lib, t, n) == Pushing(t, q, On(v, Bottom), m)
    requires (i.JTrue? || i.JFalse?) && Is(f, q, i, next)
    ensures Run(f, c.lib, t, n + 1) == Land(RegsOf(t), if Truth(v) == i.JTrue? then i.t else next, m)
  {
    hide Is, Decode, Run;
    Overs(t.ops);
    Runs1(f, c.lib, Pushing(t, q, On(v, Bottom), m), i, next);
    RunAdd(f, c.lib, t, n, 1);
  }

  lemma {:induction false} IfElseCode(f: Fn, ns: Names, s: Stm, p: Path, d: seq<Dest>, a: nat)
    requires |d| == Depth(p) && s.IfElse? && CodedS(f, ns, s, p, d, a)
    ensures
      var p1, d1 := Inside(Plain, p), d + [Dest(a + SizeS(s, p), 0)];
      var q := a + SizeE(s.c);
      var r := q + 2 + SizeS(s.b, p1);
      && r + 2 + SizeS(s.a, p1) == a + SizeS(s, p) && Coded(f, ns, s.c, a) && Is(f, q, JTrue(r + 2), q + 2)
      && CodedS(f, ns, s.b, p1, d1, q + 2) && Is(f, r, Jump(a + SizeS(s, p)), r + 2)
        && CodedS(f, ns, s.a, p1, d1, r + 2)
      && (Sane(s, p, d, a) ==> Sane(s.a, p1, d1, r + 2) && Sane(s.b, p1, d1, q + 2))
  {
    hide Is, CodedS, SizeS, Sane, Coded, SizeE;
    CodedSDef(f, ns, s, p, d, a);
    SaneDef(s, p, d, a);
  }

  lemma {:induction false} IfElseRuns(f: Fn, c: Ctx, s: Stm, p: Path, d: seq<Dest>, t: State, fuel: nat)
    returns (n: nat)
    requires StmOk(f, c, s, p, d, t) && s.IfElse?
    ensures StmDone(f, c, s, p, d, t, fuel, n)
    decreases fuel, s, 2
  {
    hide Is, Decode, Run, Exec, CodedS, SizeS, Sane, Fits, Eval, Coded, SizeE, Arrives;
    IfElseCode(f, c.names, s, p, d, t.pc);
    ExecDef(c, s, LabelSet(p), t.scope, MemOf(t), fuel);
    var end := t.pc + SizeS(s, p);
    n := ExpRuns(f, c, s.c, t);
    var r := Eval(c, s.c, t.scope, MemOf(t));
    if r.Val? {
      var q := t.pc + SizeE(s.c);
      var j := q + 2 + SizeS(s.b, Inside(Plain, p));
      BranchRuns(f, c, t, n, q, r.v, r.m, JTrue(j + 2), q + 2);
      n := n + 1;
      var t1 := Land(RegsOf(t), if Truth(r.v) then j + 2 else q + 2, r.m);
      var m := SideRuns(f, c, s, p, d, t, t1, Truth(r.v), fuel);
      Extend(f, c, t, n, t1, m, p, d, end, Exec(c, if Truth(r.v) then s.a else s.b, {}, t.scope, r.m, fuel), fuel);
      n := n + m;
    } else {
      ArrivesThrew(t, p, d, end, r.exc, r.m);
    }
  }

  /** One of the two statements. The jump is behind the one that is not last. */
  lemma {:induction false} SideRuns(f: Fn, c: Ctx, s: Stm, p: Path, d: seq<Dest>, t: State, t1: State, first: bool,
    fuel: nat) returns (n: nat)
    requires StmOk(f, c, s, p, d, t) && s.IfElse?
    requires t1.Running? && RegsOf(t1) == RegsOf(t) && |t1.frame| == |t.frame|
    requires t1.pc == t.pc + SizeE(s.c) + 2 + if first then SizeS(s.b, Inside(Plain, p)) + 2 else 0
    ensures Ending(f, c, t1, n, p, d, t.pc + SizeS(s, p),
      Exec(c, if first then s.a else s.b, {}, t.scope, MemOf(t1), fuel),
      fuel)
    decreases fuel, s, 1
  {
    hide Is, Decode, Run, Exec, CodedS, SizeS, Sane, Fits, SizeE, Arrives;
    IfElseCode(f, c.names, s, p, d, t.pc);
    var p1, end, b := Inside(Plain, p), t.pc + SizeS(s, p), if first then s.a else s.b;
    Inwards(c, Plain, p, d, Dest(end, 0), t1, t1);
    n := StmRuns(f, c, b, p1, d + [Dest(end, 0)], t1, fuel);
    var r := Exec(c, b, {}, t.scope, MemOf(t1), fuel);
    var j := t1.pc + SizeS(b, p1);
    if !r.Normal? {
      Run0(f, c.lib, t1);
      Abrupt(f, c, Plain, p, d, Dest(end, 0), t1, 0, t1, n, j, r, fuel);
    } else {
      ArrivesNormal(t1, p1, d + [Dest(end, 0)], j, r.m);
      ArrivesNormal(t1, p, d, end, r.m);
      if !first {
        Runs1(f, c.lib, Land(RegsOf(t1), j, r.m), Jump(end), j + 2);
        RunAdd(f, c.lib, t1, n, 1);
        n := n + 1;
      }
    }
  }

  lemma {:induction false} LabelCode(f: Fn, ns: Names, s: Stm, p: Path, d: seq<Dest>, a: nat)
    requires |d| == Depth(p) && s.Label? && CodedS(f, ns, s, p, d, a) && Sane(s, p, d, a)
    ensures
      var p1, d1 := Inside(Labelled(s.x), p), d + [Dest(0, 0)];
      CodedS(f, ns, s.s, p1, d1, a) && Sane(s.s, p1, d1, a) && SizeS(s, p) == SizeS(s.s, p1)
  {
    hide Is, CodedS, SizeS, Sane;
    CodedSDef(f, ns, s, p, d, a);
    SaneDef(s, p, d, a);
  }

  /** A label's own node leaves nothing on the stacks, and breaks to it end its statement. */
  lemma {:induction false} LabelRuns(f: Fn, c: Ctx, s: Stm, p: Path, d: seq<Dest>, t: State, fuel: nat) returns (n: nat)
    requires StmOk(f, c, s, p, d, t) && s.Label?
    ensures StmDone(f, c, s, p, d, t, fuel, n)
    decreases fuel, s, 2
  {
    hide Is, Decode, Run, Exec, CodedS, SizeS, Sane;
    LabelCode(f, c.names, s, p, d, t.pc);
    ExecDef(c, s, LabelSet(p), t.scope, MemOf(t), fuel);
    var p1 := Inside(Labelled(s.x), p);
    Inwards(c, Labelled(s.x), p, d, Dest(0, 0), t, t);
    n := StmRuns(f, c, s.s, p1, d + [Dest(0, 0)], t, fuel);
    assert LabelSet(p1) == LabelSet(p) + {s.x};
  }

  lemma {:induction false} WithCode(f: Fn, ns: Names, s: Stm, p: Path, d: seq<Dest>, a: nat)
    requires |d| == Depth(p) && s.With? && CodedS(f, ns, s, p, d, a)
    ensures
      var p1 := Inside(WithNode, p);
      var q := a + SizeE(s.e);
      var r := q + 1 + SizeS(s.s, p1);
      && r + 1 == a + SizeS(s, p) && Coded(f, ns, s.e, a) && Is(f, q, EnterWith, q + 1)
      && CodedS(f, ns, s.s, p1, d + [Dest(r + 1, 0)], q + 1) && Is(f, r, LeaveScope, r + 1)
      && (Sane(s, p, d, a) ==> Sane(s.s, p1, d + [Dest(r + 1, 0)], q + 1))
  {
    hide Is, CodedS, SizeS, Sane, Coded, SizeE;
    CodedSDef(f, ns, s, p, d, a);
    SaneDef(s, p, d, a);
  }

  lemma {:induction false} WithRuns(f: Fn, c: Ctx, s: Stm, p: Path, d: seq<Dest>, t: State, fuel: nat) returns (n: nat)
    requires StmOk(f, c, s, p, d, t) && s.With?
    ensures StmDone(f, c, s, p, d, t, fuel, n)
    decreases fuel, s, 2
  {
    hide Is, Decode, Run, Exec, CodedS, SizeS, Sane, Fits, Eval, Coded, SizeE, Arrives;
    WithCode(f, c.names, s, p, d, t.pc);
    ExecDef(c, s, LabelSet(p), t.scope, MemOf(t), fuel);
    Overs(t.ops);
    n := ExpRuns(f, c, s.e, t);
    var r := Eval(c, s.e, t.scope, MemOf(t));
    if r.Val? {
      var m := WithEnds(f, c, s, p, d, t, Pushing(t, t.pc + SizeE(s.e), On(r.v, Bottom), r.m), r.v, fuel);
      RunAdd(f, c.lib, t, n, m);
      n := n + m;
    } else {
      ArrivesThrew(t, p, d, t.pc + SizeS(s, p), r.exc, r.m);
    }
  }

  /** What a `with` does with the value v of its expression. */
  function ExecWith(c: Ctx, s: Stm, v: Value, scope: Scope, m: Mem, fuel: nat): Exit
    requires s.With?
  {
    match Apply(c, WithScope, On(v, Bottom), scope, m)
    case Exc(x, m2) => Threw(x, m2)
    case Val(o, m2) => Exec(c, s.s, {}, Inner(o, scope), m2, fuel)
  }

  lemma {:induction false} WithEnds(f: Fn, c: Ctx, s: Stm, p: Path, d: seq<Dest>, t: State, t0: State, v: Value,
    fuel: nat) returns (n: nat)
    requires StmOk(f, c, s, p, d, t) && s.With? && Pushed(t, t0, On(v, Bottom)) && t0.pc == t.pc + SizeE(s.e)
    ensures Gets(f, c, t0, n, t, p, d, t.pc + SizeS(s, p), ExecWith(c, s, v, t.scope, MemOf(t0), fuel), fuel)
    decreases fuel, s, 1
  {
    hide Is, Decode, Run, Exec, CodedS, SizeS, Sane, Fits, SizeE, Arrives;
    WithCode(f, c.names, s, p, d, t.pc);
    Overs(t.ops);
    PushedMeans(c, t, t0, On(v, Bottom));
    var q, end := t0.pc, t.pc + SizeS(s, p);
    Runs1(f, c.lib, t0, EnterWith, q + 1);
    n := 1;
    match Apply(c, WithScope, On(v, Bottom), t.scope, MemOf(t0))
    case Exc(x, m2) =>
      ArrivesThrew(t, p, d, end, x, m2);
      assert Fails(t0, x, m2) == Throwing(t0, x, m2.w);
    case Val(o, m2) =>
      var m := InScopeRuns(f, c, s.s, WithNode, p, d, t, Land(RegsOf(t).(scope := Inner(o, t.scope)), q + 1, m2), end,
        fuel);
      RunAdd(f, c.lib, t0, 1, m);
      n := 1 + m;
  }

  /** The body of a `with` or a catch clause, in a scope of its own, and the end of the scope. */
  lemma {:induction false} InScopeRuns(f: Fn, c: Ctx, s: Stm, k: Kind, p: Path, d: seq<Dest>, t: State, t1: State,
    brk: nat, fuel: nat) returns (n: nat)
    requires StmReady(c, p, d, t) && (k.WithNode? || k.CatchBody?) && Entered(k, t, t1) && |t1.frame| == |t.frame|
    requires Sane(s, Inside(k, p), d + [Dest(brk, 0)], t1.pc)
      && CodedS(f, c.names, s, Inside(k, p), d + [Dest(brk, 0)], t1.pc)
    requires var q := t1.pc + SizeS(s, Inside(k, p)); Is(f, q, LeaveScope, q + 1)
    ensures var r := Exec(c, s, {}, t1.scope, MemOf(t1), fuel);
      Gets(f, c, t1, n, t, p, d, if r.Normal? then t1.pc + SizeS(s, Inside(k, p)) + 1 else brk, r, fuel)
    decreases fuel, s, 10
  {
    hide Is, Decode, Run, Exec, CodedS, SizeS, Sane, Fits, Arrives;
    Inwards(c, k, p, d, Dest(brk, 0), t, t1);
    n := StmRuns(f, c, s, Inside(k, p), d + [Dest(brk, 0)], t1, fuel);
    var r := Exec(c, s, {}, t1.scope, MemOf(t1), fuel);
    if r.Normal? {
      var q := t1.pc + SizeS(s, Inside(k, p));
      ArrivesNormal(t1, Inside(k, p), d + [Dest(brk, 0)], q, r.m);
      ArrivesNormal(t, p, d, q + 1, r.m);
      Runs1(f, c.lib, Land(RegsOf(t1), q, r.m), LeaveScope, q + 1);
      RunAdd(f, c.lib, t1, n, 1);
      n := n + 1;
    } else if !r.Timeout? {
      Outward(c, k, p, d, Dest(brk, 0), t, t1, t1.pc + SizeS(s, Inside(k, p)), r);
    }
  }

  lemma {:induction false} ArrivesNormal(t: State, p: Path, d: seq<Dest>, end: nat, m: Mem)
    requires t.Running? && |d| == Depth(p) && Fits(p, RegsOf(t))
    ensures Arrives(t, p, d, end, Normal(m)) == Land(RegsOf(t), end, m)
  {
  }

  /** The parts of the code of a try statement. */
  lemma {:induction false} TryCode(f: Fn, ns: Names, s: Stm, p: Path, d: seq<Dest>, a: nat)
    requires |d| == Depth(p) && s.Try? && CodedS(f, ns, s, p, d, a)
    ensures
      var p1, p2, d1 := Inside(CatchBody, p), Inside(TryBody, p), d + [Dest(a + SizeS(s, p), 0)];
      var q := a + 4 + SizeS(s.handler, p1);
      var r := q + 3 + SizeS(s.s, p2);
      && r + 1 == a + SizeS(s, p) && Is(f, a, TryTo(q + 3), a + 2) && Is(f, a + 2, Catch(s.x), a + 4)
      && CodedS(f, ns, s.handler, p1, d1, a + 4) && Is(f, q, LeaveScope, q + 1) && Is(f, q + 1, Jump(r + 1), q + 3)
      && CodedS(f, ns, s.s, p2, d1, q + 3) && Is(f, r, EndTry, r + 1)
      && (Sane(s, p, d, a) ==> Sane(s.s, p2, d1, q + 3) && Sane(s.handler, p1, d1, a + 4))
  {
    hide Is, CodedS, SizeS, Sane;
    CodedSDef(f, ns, s, p, d, a);
    SaneDef(s, p, d, a);
  }

  /** The handler takes over with the stacks that the try statement started with. */
  lemma {:induction false} TryRuns(f: Fn, c: Ctx, s: Stm, p: Path, d: seq<Dest>, t: State, fuel: nat) returns (n: nat)
    requires StmOk(f, c, s, p, d, t) && s.Try?
    ensures StmDone(f, c, s, p, d, t, fuel, n)
    decreases fuel, s, 2
  {
    hide Is, Decode, Run, Exec, CodedS, SizeS, Sane, Fits, Arrives;
    TryCode(f, c.names, s, p, d, t.pc);
    ExecDef(c, s, LabelSet(p), t.scope, MemOf(t), fuel);
    var q := t.pc + 4 + SizeS(s.handler, Inside(CatchBody, p));
    Runs1(f, c.lib, t, TryTo(q + 3), t.pc + 2);
    var t1 := t.(pc := q + 3, tries := Tries(Handler(t.scope, Height(t.ops), t.pc + 2), t.tries));
    var m := TryBodyRuns(f, c, s, p, d, t, t1, fuel);
    RunAdd(f, c.lib, t, 1, m);
    n := 1 + m;
    var r := Exec(c, s.s, {}, t.scope, MemOf(t), fuel);
    if r.Threw? {
      Overs(t.ops);
      var j := CatchRuns(f, c, s, p, d, t, t.(pc := t.pc + 2, frame := r.m.frame, ops := On(r.v, t.ops), w := r.m.w),
        r.v, fuel);
      RunAdd(f, c.lib, t, n, j);
      n := n + j;
    }
  }

  /** The body under its handler, which is gone afterwards. */
  lemma {:induction false} TryBodyRuns(f: Fn, c: Ctx, s: Stm, p: Path, d: seq<Dest>, t: State, t1: State, fuel: nat)
    returns (n: nat)
    requires StmOk(f, c, s, p, d, t) && s.Try? && t1.Running?
    requires t1 == t.(pc := t1.pc, tries := Tries(Handler(t.scope, Height(t.ops), t.pc + 2), t.tries))
    requires t1.pc == t.pc + 7 + SizeS(s.handler, Inside(CatchBody, p))
    ensures var r := Exec(c, s.s, {}, t.scope, MemOf(t), fuel);
      if r.Threw? then Run(f, c.lib, t1, n) == t.(pc := t.pc + 2, frame := r.m.frame, ops := On(r.v, t.ops), w := r.m.w)
        && |r.m.frame| == |t.frame|
      else Gets(f, c, t1, n, t, p, d, t.pc + SizeS(s, p), r, fuel)
    decreases fuel, s, 1
  {
    hide Is, Decode, Run, Exec, CodedS, SizeS, Sane, Fits, Arrives;
    TryCode(f, c.names, s, p, d, t.pc);
    CutSelf(t.ops);
    var end := t.pc + SizeS(s, p);
    Inwards(c, TryBody, p, d, Dest(end, 0), t, t1);
    n := StmRuns(f, c, s.s, Inside(TryBody, p), d + [Dest(end, 0)], t1, fuel);
    var r := Exec(c, s.s, {}, t.scope, MemOf(t), fuel);
    var e := t1.pc + SizeS(s.s, Inside(TryBody, p));
    if r.Normal? {
      ArrivesNormal(t1, Inside(TryBody, p), d + [Dest(end, 0)], e, r.m);
      ArrivesNormal(t, p, d, end, r.m);
      Runs1(f, c.lib, Land(RegsOf(t1), e, r.m), EndTry, e + 1);
      RunAdd(f, c.lib, t1, n, 1);
      n := n + 1;
    } else if r.Threw? {
      ArrivesThrew(t1, Inside(TryBody, p), d + [Dest(end, 0)], e, r.v, r.m);
    } else if !r.Timeout? {
      Outward(c, TryBody, p, d, Dest(end, 0), t, t1, e, r);
    }
  }

  lemma {:induction false} CutSelf(s: Ops)
    ensures Cut(s, Height(s)) == s
  {
  }

  function Caught(c: Ctx, s: Stm, v: Value, scope: Scope, m: Mem, fuel: nat): Exit
    requires s.Try?
  {
    match Apply(c, CatchScope(s.x), On(v, Bottom), scope, m)
    case Exc(y, m2) => Threw(y, m2)
    case Val(o, m2) => Exec(c, s.handler, {}, Inner(o, scope), m2, fuel)
  }

  lemma {:induction false} CatchRuns(f: Fn, c: Ctx, s: Stm, p: Path, d: seq<Dest>, t: State, t2: State, v: Value,
    fuel: nat) returns (n: nat)
    requires StmOk(f, c, s, p, d, t) && s.Try? && Pushed(t, t2, On(v, Bottom)) && t2.pc == t.pc + 2
    ensures Gets(f, c, t2, n, t, p, d, t.pc + SizeS(s, p), Caught(c, s, v, t.scope, MemOf(t2), fuel), fuel)
    decreases fuel, s, 1
  {
    hide Is, Decode, Run, Exec, CodedS, SizeS, Sane, Fits, Arrives;
    TryCode(f, c.names, s, p, d, t.pc);
    Overs(t.ops);
    PushedMeans(c, t, t2, On(v, Bottom));
    var end := t.pc + SizeS(s, p);
    var q := t.pc + 4 + SizeS(s.handler, Inside(CatchBody, p));
    Runs1(f, c.lib, t2, Catch(s.x), t.pc + 4);
    n := 1;
    match Apply(c, CatchScope(s.x), On(v, Bottom), t.scope, MemOf(t2))
    case Exc(y, m2) =>
      ArrivesThrew(t, p, d, end, y, m2);
      assert Fails(t2, y, m2) == Throwing(t2, y, m2.w);
    case Val(o, m2) =>
      var t3 := Land(RegsOf(t).(scope := Inner(o, t.scope)), t.pc + 4, m2);
      BelowSame(c, t, t3);
      var m := InScopeRuns(f, c, s.handler, CatchBody, p, d, t, t3, end, fuel);
      RunAdd(f, c.lib, t2, 1, m);
      n := 1 + m;
      var r := Exec(c, s.handler, {}, Inner(o, t.scope), m2, fuel);
      if r.Normal? {
        ArrivesNormal(t, p, d, q + 1, r.m);
        ArrivesNormal(t, p, d, end, r.m);
        Runs1(f, c.lib, Land(RegsOf(t), q + 1, r.m), Jump(end), q + 3);
        RunAdd(f, c.lib, t2, n, 1);
        n := n + 1;
      }
  }

  lemma {:induction false} BelowSame(c: Ctx, t: State, t1: State)
    requires Ready(c, t) && t1.Running? && t1.ops == t.ops && t1.tries == t.tries && |t1.frame| == |t.frame|
    ensures Ready(c, t1)
  {
  }

  // ----- loops -----

  lemma {:induction false} WhileRuns(f: Fn, c: Ctx, s: Stm, p: Path, d: seq<Dest>, t: State, fuel: nat) returns (n: nat)
    requires StmOk(f, c, s, p, d, t) && s.While?
    ensures StmDone(f, c, s, p, d, t, fuel, n)
    decreases fuel, s, 3
  {
    hide Is, Decode, Run, Exec, CodedS, SizeS, Sane, Fits, CodedLoop, ExecLoop;
    CodedSDef(f, c.names, s, p, d, t.pc);
    ExecDef(c, s, LabelSet(p), t.scope, MemOf(t), fuel);
    SaneDef(s, p, d, t.pc);
    n := LoopRuns(f, c, s, t.pc, p, d, t, fuel);
  }

  lemma {:induction false} ForCode(f: Fn, ns: Names, s: Stm, p: Path, d: seq<Dest>, a: nat)
    requires |d| == Depth(p) && s.For? && CodedS(f, ns, s, p, d, a) && Sane(s, p, d, a)
    ensures
      var q := a + SizeInit(s.init);
      CodedInit(f, ns, s.init, a) && CodedLoop(f, ns, s, a, p, d, q) && SaneLoop(s, a, p, d, q)
  {
    hide Is, CodedS, SizeS, Sane, CodedInit, SizeInit, CodedLoop, SaneLoop;
    CodedSDef(f, ns, s, p, d, a);
    SaneDef(s, p, d, a);
  }

  lemma {:induction false} ForRuns(f: Fn, c: Ctx, s: Stm, p: Path, d: seq<Dest>, t: State, fuel: nat) returns (n: nat)
    requires StmOk(f, c, s, p, d, t) && s.For?
    ensures StmDone(f, c, s, p, d, t, fuel, n)
    decreases fuel, s, 3
  {
    hide Is, Decode, Run, Exec, CodedS, SizeS, Sane, Fits, CodedLoop, SaneLoop, ExecLoop, EvalInit, CodedInit;
    hide SizeInit, Arrives;
    ForCode(f, c.names, s, p, d, t.pc);
    ExecDef(c, s, LabelSet(p), t.scope, MemOf(t), fuel);
    Overs(t.ops);
    n := InitRun(f, c, s.init, t);
    var r := EvalInit(c, s.init, t.scope, MemOf(t));
    ArrivesThrew(t, p, d, t.pc + SizeS(s, p), if r.Val? then Undefined else r.exc, r.m);
    if r.Val? {
      var t1 := Land(RegsOf(t), t.pc + SizeInit(s.init), r.m);
      var m := LoopRuns(f, c, s, t.pc, p, d, t1, fuel);
      var r1 := ExecLoop(c, s.cond, s.step, s.s, LabelSet(p), t.scope, r.m, fuel);
      Extend(f, c, t, n, t1, m, p, d, t.pc + SizeS(s, p), r1, fuel);
      n := n + m;
    }
  }

  /** The test of a loop. */
  lemma {:induction false} TestRuns(f: Fn, c: Ctx, e: Option<Exp>, t: State, end: nat) returns (n: nat)
    requires Ready(c, t)
      && (e.Some? ==>
      Coded(f, c.names, e.value, t.pc) && Is(f, t.pc + SizeE(e.value), JFalse(end), t.pc + SizeE(e.value) + 2))
    ensures var r := EvalOpt(c, e, Boolean(true), t.scope, MemOf(t));
      |r.m.frame| == |t.frame| && (e.None? ==> n == 0 && r.Val? && Truth(r.v)) && (e.Some? && r.Val? ==> 0 < n) &&
      Run(f, c.lib, t, n) == if r.Val? then Land(RegsOf(t), if Truth(r.v) then t.pc + SizeTest(e) else end, r.m)
        else Fails(t, r.exc, r.m)
  {
    hide Is, Decode, Run, Eval, Coded, SizeE;
    if e.None? {
      n := 0;
      Run0(f, c.lib, t);
    } else {
      n := ExpRuns(f, c, e.value, t);
      var r := Eval(c, e.value, t.scope, MemOf(t));
      if r.Val? {
        var q := t.pc + SizeE(e.value);
        Overs(t.ops);
        BranchRuns(f, c, t, n, q, r.v, r.m, JFalse(end), q + 2);
        n := n + 1;
      }
    }
  }

  function SizeTest(e: Option<Exp>): nat {
    if e.Some? then SizeE(e.value) + 2 else 0
  }

  /** A loop from its test on; `start` is where the whole statement's code starts. */
  lemma {:induction false} LoopRuns(f: Fn, c: Ctx, s: Stm, start: nat, p: Path, d: seq<Dest>, t: State, fuel: nat)
    returns (n: nat)
    requires StmReady(c, p, d, t) && (s.While? || s.For?) && SaneLoop(s, start, p, d, t.pc)
      && CodedLoop(f, c.names, s, start, p, d, t.pc)
    requires s.While? ==> t.pc == start
    ensures Ending(f, c, t, n, p, d, start + SizeS(s, p),
      ExecLoop(c, TestOf(s), StepOf(s), s.s, LabelSet(p), t.scope, MemOf(t), fuel), fuel)
    decreases fuel, s, 2
  {
    hide Is, Decode, Run, Exec, CodedS, SizeS, Sane, Fits, Eval, Coded, SizeE;
    var end := start + SizeS(s, p);
    n := TestRuns(f, c, TestOf(s), t, end);
    var r := EvalOpt(c, TestOf(s), Boolean(true), t.scope, MemOf(t));
    if r.Val? && Truth(r.v) {
      var b := t.pc + SizeTest(TestOf(s));
      var t1 := Land(RegsOf(t), b, r.m);
      var m := RoundRuns(f, c, s, start, p, d, t.pc, t1, n == 0, fuel);
      RunAdd(f, c.lib, t, n, m);
      n := n + m;
    }
  }

  /** From the body to the end, given that the test held. */
  function ExecBody(c: Ctx, s: Stm, p: Path, scope: Scope, m: Mem, fuel: nat): Exit
    requires s.While? || s.For?
  {
    match Exec(c, s.s, {}, scope, m, fuel)
    case Normal(m2) => ExecStep(c, TestOf(s), StepOf(s), s.s, LabelSet(p), scope, m2, fuel)
    case Continued(l, m2) =>
      if GoesOn(l, LabelSet(p)) then ExecStep(c, TestOf(s), StepOf(s), s.s, LabelSet(p), scope, m2, fuel)
      else Continued(l, m2)
    case Broke(l, m2) => if Leaves(l) then Normal(m2) else Broke(l, m2)
    case r => r
  }

  /** A body that is done, or goes on to the next round, comes to one of two places. */
  lemma {:induction false} Lands(f: Fn, c: Ctx, k: Kind, p: Path, d: seq<Dest>, dest: Dest, t: State, t1: State,
    n: nat, end: nat, r: Exit, fuel: nat)
    requires StmReady(c, p, d, t) && Entered(k, t, t1) && IsLoop(k) && |t1.frame| == |t.frame|
    requires |d + [dest]| == Depth(Inside(k, p)) && Fits(Inside(k, p), RegsOf(t1))
    requires Ending(f, c, t1, n, Inside(k, p), d + [dest], end, r, fuel) && (r.Normal? || Again(k, p, r))
    ensures Run(f, c.lib, t1, n) == Land(RegsOf(t1), if r.Normal? then end else dest.cont, r.m)
    ensures |r.m.frame| == |t.frame|
  {
    hide Run, Fits;
    if r.Continued? { Outward(c, k, p, d, dest, t, t1, end, r); }
  }

  lemma {:induction false} LoopCode(f: Fn, ns: Names, s: Stm, start: nat, p: Path, d: seq<Dest>, a: nat)
    requires |d| == Depth(p) && (s.While? || s.For?)
    requires CodedLoop(f, ns, s, start, p, d, a) && SaneLoop(s, start, p, d, a)
    ensures
      var b := a + SizeTest(TestOf(s));
      var q := b + SizeS(s.s, Inside(Loop, p));
      var d1 := d + [Dest(start + SizeS(s, p), if s.While? then a else q)];
      CodedS(f, ns, s.s, Inside(Loop, p), d1, b) && Sane(s.s, Inside(Loop, p), d1, b)
  {
    hide Is, CodedS, SizeS, Sane, Coded, SizeE;
  }

  /** The body, and the rest of the rounds. A `while` that continues needs no step of its own:
      `first` says that the test has not taken one either, and then it is not a `while`. */
  lemma {:induction false} RoundRuns(f: Fn, c: Ctx, s: Stm, start: nat, p: Path, d: seq<Dest>, a: nat, t: State,
    first: bool, fuel: nat) returns (n: nat)
    requires StmReady(c, p, d, t) && (s.While? || s.For?) && SaneLoop(s, start, p, d, a)
      && CodedLoop(f, c.names, s, start, p, d, a)
    requires t.pc == a + SizeTest(TestOf(s)) && (s.While? ==> a == start && !first)
    ensures var r := ExecBody(c, s, p, t.scope, MemOf(t), fuel);
      Ending(f, c, t, n, p, d, start + SizeS(s, p), r, if first || fuel == 0 then fuel else fuel - 1)
    decreases fuel, s, 1
  {
    hide Is, Decode, Run, Exec, CodedS, SizeS, Sane, Fits, Eval, Coded, SizeE, CodedLoop, SaneLoop;
    hide ExecStep, SizeTest, Arrives;
    LoopCode(f, c.names, s, start, p, d, a);
    var end := start + SizeS(s, p);
    var q := t.pc + SizeS(s.s, Inside(Loop, p));
    var dest := Dest(end, if s.While? then a else q);
    Inwards(c, Loop, p, d, dest, t, t);
    n := StmRuns(f, c, s.s, Inside(Loop, p), d + [dest], t, fuel);
    var r := Exec(c, s.s, {}, t.scope, MemOf(t), fuel);
    if r.Normal? || Again(Loop, p, r) {
      Lands(f, c, Loop, p, d, dest, t, t, n, q, r, fuel);
      var t1 := Land(RegsOf(t), if r.Normal? then q else dest.cont, r.m);
      var m := StepRuns(f, c, s, start, p, d, a, t1, q, fuel);
      var r1 := ExecStep(c, TestOf(s), StepOf(s), s.s, LabelSet(p), t.scope, r.m, fuel);
      Extend(f, c, t, n, t1, m, p, d, end, r1, if t1.pc == q || fuel == 0 then fuel else fuel - 1);
      n := n + m;
    } else {
      Run0(f, c.lib, t);
      Abrupt(f, c, Loop, p, d, dest, t, 0, t, n, q, r, fuel);
    }
  }

  /** The step and the jump back. */
  lemma {:induction false} StepRuns(f: Fn, c: Ctx, s: Stm, start: nat, p: Path, d: seq<Dest>, a: nat, t: State, q: nat,
    fuel: nat) returns (n: nat)
    requires StmReady(c, p, d, t) && (s.While? || s.For?) && SaneLoop(s, start, p, d, a)
      && CodedLoop(f, c.names, s, start, p, d, a)
    requires q == a + SizeTest(TestOf(s)) + SizeS(s.s, Inside(Loop, p)) && (t.pc == q || (s.While? && t.pc == a))
      && (s.While? ==> a == start)
    ensures var r := ExecStep(c, TestOf(s), StepOf(s), s.s, LabelSet(p), t.scope, MemOf(t), fuel);
      Ending(f, c, t, n, p, d, start + SizeS(s, p), r, if t.pc == q || fuel == 0 then fuel else fuel - 1)
    decreases fuel, s, 0
  {
    hide Is, Decode, Run, Exec, CodedS, SizeS, Sane, Fits, Eval, Coded, SizeE;
    var end := start + SizeS(s, p);
    n := 0;
    Run0(f, c.lib, t);
    var r := EvalOpt(c, StepOf(s), Undefined, t.scope, MemOf(t));
    var t1 := t;
    if t.pc == q {
      if StepOf(s).Some? {
        n := ExpStmRuns(f, c, StepOf(s).value, t);
      }
      if r.Val? {
        Overs(t.ops);
        var q1 := q + if StepOf(s).Some? then SizeE(StepOf(s).value) + 1 else 0;
        Runs1(f, c.lib, Land(RegsOf(t), q1, r.m), Jump(a), q1 + 2);
        RunAdd(f, c.lib, t, n, 1);
        n := n + 1;
        t1 := Land(RegsOf(t), a, r.m);
      }
    }
    if r.Val? && fuel > 0 {
      var m := LoopRuns(f, c, s, start, p, d, t1, fuel - 1);
      var r1 := ExecLoop(c, TestOf(s), StepOf(s), s.s, LabelSet(p), t.scope, r.m, fuel - 1);
      if t.pc == q {
        Refuel(f, c, t, n, t1, m, p, d, end, r1, fuel - 1);
      } else {
        Extend(f, c, t, n, t1, m, p, d, end, r1, fuel - 1);
      }
      n := n + m;
    }
  }

  lemma {:induction false} DoRuns(f: Fn, c: Ctx, s: Stm, p: Path, d: seq<Dest>, t: State, fuel: nat) returns (n: nat)
    requires StmOk(f, c, s, p, d, t) && s.Do?
    ensures StmDone(f, c, s, p, d, t, fuel, n)
    decreases fuel, s, 3
  {
    hide Is, Decode, Run, Exec, CodedS, SizeS, Sane, Fits, ExecDo;
    ExecDef(c, s, LabelSet(p), t.scope, MemOf(t), fuel);
    n := DoBodyRuns(f, c, s, p, d, t, fuel);
  }

  lemma {:induction false} DoBodyRuns(f: Fn, c: Ctx, s: Stm, p: Path, d: seq<Dest>, t: State, fuel: nat)
    returns (n: nat)
    requires StmOk(f, c, s, p, d, t) && s.Do?
    ensures Ending(f, c, t, n, p, d, t.pc + SizeS(s, p), ExecDo(c, s, LabelSet(p), t.scope, MemOf(t), fuel), fuel)
    decreases fuel, s, 2
  {
    hide Is, Decode, Run, Exec, CodedS, SizeS, Sane, Fits, Eval, Coded, SizeE;
    CodedSDef(f, c.names, s, p, d, t.pc);
    SaneDef(s, p, d, t.pc);
    var end := t.pc + SizeS(s, p);
    var q := t.pc + SizeS(s.s, Inside(Loop, p));
    var dest := Dest(end, q);
    Inwards(c, Loop, p, d, dest, t, t);
    n := StmRuns(f, c, s.s, Inside(Loop, p), d + [dest], t, fuel);
    var r := Exec(c, s.s, {}, t.scope, MemOf(t), fuel);
    if r.Normal? || Again(Loop, p, r) {
      Lands(f, c, Loop, p, d, dest, t, t, n, q, r, fuel);
      var t1 := Land(RegsOf(t), q, r.m);
      var m := DoTestRuns(f, c, s, p, d, t.pc, t1, fuel);
      Extend(f, c, t, n, t1, m, p, d, end, ExecDoTest(c, s, LabelSet(p), t.scope, r.m, fuel), fuel);
      n := n + m;
    } else {
      Run0(f, c.lib, t);
      Abrupt(f, c, Loop, p, d, dest, t, 0, t, n, q, r, fuel);
    }
  }

  lemma {:induction false} DoTestRuns(f: Fn, c: Ctx, s: Stm, p: Path, d: seq<Dest>, a: nat, t: State, fuel: nat)
    returns (n: nat)
    requires StmReady(c, p, d, t) && s.Do? && Sane(s, p, d, a) && CodedS(f, c.names, s, p, d, a)
      && t.pc == a + SizeS(s.s, Inside(Loop, p))
    ensures Ending(f, c, t, n, p, d, a + SizeS(s, p), ExecDoTest(c, s, LabelSet(p), t.scope, MemOf(t), fuel), fuel)
    decreases fuel, s, 1
  {
    hide Is, Decode, Run, Exec, CodedS, SizeS, Sane, Fits, Eval, Coded, SizeE, ExecDo;
    CodedSDef(f, c.names, s, p, d, a);
    var end := a + SizeS(s, p);
    Overs(t.ops);
    n := ExpRuns(f, c, s.c, t);
    var r := Eval(c, s.c, t.scope, MemOf(t));
    if r.Val? {
      BranchRuns(f, c, t, n, t.pc + SizeE(s.c), r.v, r.m, JTrue(a), end);
      n := n + 1;
      if Truth(r.v) && fuel > 0 {
        var t1 := Land(RegsOf(t), a, r.m);
        var m := DoBodyRuns(f, c, s, p, d, t1, fuel - 1);
        Refuel(f, c, t, n, t1, m, p, d, end, ExecDo(c, s, LabelSet(p), t.scope, r.m, fuel - 1), fuel - 1);
        n := n + m;
      }
    }
  }

  lemma {:induction false} ForInRuns(f: Fn, c: Ctx, s: Stm, p: Path, d: seq<Dest>, t: State, fuel: nat) returns (n: nat)
    requires StmOk(f, c, s, p, d, t) && s.ForIn?
    ensures StmDone(f, c, s, p, d, t, fuel, n)
    decreases fuel, s, 3
  {
    hide Is, Decode, Run, Exec, CodedS, SizeS, Sane, Fits, Eval, Coded, SizeE, ExecForIn, CodedForAssign;
    CodedSDef(f, c.names, s, p, d, t.pc);
    ExecDef(c, s, LabelSet(p), t.scope, MemOf(t), fuel);
    SaneDef(s, p, d, t.pc);
    var end := t.pc + SizeS(s, p);
    var q := t.pc + SizeE(s.e) + 1;
    Overs(t.ops);
    n := ApplyRuns(f, c, s.e, Iterator, t, q);
    var r := Operated(c, Eval(c, s.e, t.scope, MemOf(t)), Iterator, t.scope);
    if r.Val? {
      var t1 := Land(RegsOf(t), q, r.m);
      var m := NamesRun(f, c, s, p, d, t.pc, t1, r.v, fuel);
      var r1 := ExecForIn(c, s, r.v, LabelSet(p), t.scope, r.m, fuel);
      RunAdd(f, c.lib, t, n, m);
      n := n + m;
      assert Pushing(t, q, On(r.v, Bottom), r.m) == t1.(ops := On(r.v, t.ops));
    }
  }

  /** The rounds of a for-in loop: t is the state without the iterator `it`, which lies on top. */
  lemma {:induction false} NamesRun(f: Fn, c: Ctx, s: Stm, p: Path, d: seq<Dest>, a: nat, t: State, it: Value,
    fuel: nat) returns (n: nat)
    requires StmReady(c, p, d, t) && s.ForIn? && Sane(s, p, d, a) && CodedForIn(f, c.names, s, p, d, a)
      && t.pc == a + SizeE(s.e) + 1
    ensures Gets(f, c, t.(ops := On(it, t.ops)), n, t, p, d, a + SizeS(s, p),
      ExecForIn(c, s, it, LabelSet(p), t.scope, MemOf(t), fuel), fuel)
    decreases fuel, s, 2
  {
    hide Is, Decode, Run, Exec, CodedS, SizeS, Sane, Fits, SizeE, Coded, CodedForAssign, SizeForAssign, EvalRef, Put;
    var end := a + SizeS(s, p);
    var t1 := t.(ops := On(it, t.ops));
    var q := t.pc;
    n := NextRuns(f, c, t, it, end);
    match c.lib.next(it, t.w)
    case Err(_, _) =>
    case Ok(None, w) =>
    case Ok(Some(x), w) =>
      var m1 := Mem(t.frame, w);
      var t2 := Running(q + 3, t.frame, On(Str(x), On(it, t.ops)), t.scope, t.tries, w);
      ReadyIn(c, t, t1, it);
      Overs(t1.ops);
      SaneDef(s, p, d, a);
      var k := ForAssignRuns(f, c, s.lhs, t1, t2, x);
      RunAdd(f, c.lib, t1, n, k);
      n := n + k;
      var r := PutName(c, s.lhs, x, t.scope, m1);
      if r.Val? {
        var t3 := t1.(pc := q + 3 + SizeForAssign(s.lhs), frame := r.m.frame, w := r.m.w);
        var k2 := NameBodyRuns(f, c, s, p, d, a, t, t3, it, fuel);
        RunAdd(f, c.lib, t1, n, k2);
        n := n + k2;
      } else {
        PushedMeans(c, t, t1, On(it, Bottom));
      }
  }

  lemma {:induction false} ReadyIn(c: Ctx, t: State, t1: State, it: Value)
    requires Ready(c, t) && t1.Running? && t1.ops == On(it, t.ops) && t1.scope == t.scope && t1.tries == t.tries
      && |t1.frame| == |t.frame|
    ensures Ready(c, t1) && Pushed(t, t1, On(it, Bottom))
  {
    Overs(t.ops);
    PushedMeans(c, t, t1, On(it, Bottom));
  }

  /** The next name on top of the iterator, or the way out with the iterator gone. */
  lemma {:induction false} NextRuns(f: Fn, c: Ctx, t: State, it: Value, end: nat) returns (n: nat)
    requires Ready(c, t) && Is(f, t.pc, Next, t.pc + 1) && Is(f, t.pc + 1, JFalse(end), t.pc + 3)
    ensures 0 < n && Run(f, c.lib, t.(ops := On(it, t.ops)), n) ==
      match c.lib.next(it, t.w)
      case Err(x, w) => Fails(t, x, Mem(t.frame, w))
      case Ok(None, w) => Land(RegsOf(t), end, Mem(t.frame, w))
      case Ok(Some(x), w) => Running(t.pc + 3, t.frame, On(Str(x), On(it, t.ops)), t.scope, t.tries, w)
  {
    hide Is, Decode, Run;
    var t1 := t.(ops := On(it, t.ops));
    ReadyIn(c, t, t1, it);
    PushedMeans(c, t, t1, On(it, Bottom));
    Runs1(f, c.lib, t1, Next, t.pc + 1);
    n := 1;
    match c.lib.next(it, t.w)
    case Err(x, w) => assert Fails(t1, x, Mem(t.frame, w)) == Throwing(t1, x, w);
    case Ok(None, w) =>
      Runs1(f, c.lib, t.(pc := t.pc + 1, ops := On(Boolean(false), t.ops), w := w), JFalse(end), t.pc + 3);
      RunAdd(f, c.lib, t1, 1, 1);
      n := 2;
    case Ok(Some(x), w) =>
      Runs1(f, c.lib, t.(pc := t.pc + 1, ops := On(Boolean(true), On(Str(x), On(it, t.ops))), w := w), JFalse(end),
        t.pc + 3);
      RunAdd(f, c.lib, t1, 1, 1);
      n := 2;
  }

  /** The assignment of a name to the loop's variable. */
  function PutName(c: Ctx, e: Exp, x: Name, scope: Scope, m: Mem): Out<Value> {
    match EvalRef(c, e, scope, m)
    case Exc(y, m1) => Exc(y, m1)
    case Val(r, m1) => Put(c, r, Str(x), scope, m1)
  }

  /** `cassignforin`, but for an indexed place: the name is on top, and is taken off. */
  lemma {:induction false} ForAssignRuns(f: Fn, c: Ctx, e: Exp, t: State, t1: State, x: Name) returns (n: nat)
    requires Ready(c, t) && !e.Index? && Pushed(t, t1, On(Str(x), Bottom)) && CodedForAssign(f, c.names, e, t1.pc)
    ensures var r := PutName(c, e, x, t.scope, MemOf(t1));
      Run(f, c.lib, t1, n) == Ends(t, t1.pc + SizeForAssign(e), Dropped(r)) && |r.m.frame| == |t.frame|
  {
    hide Is, Decode, Run, Eval, Coded, SizeE, Put, CodedStore;
    Overs(t.ops);
    var name := On(Str(x), Bottom);
    PushedMeans(c, t, t1, name);
    var r := EvalRef(c, e, t.scope, MemOf(t1));
    var t2, q := t1, t1.pc + SizeRef(e);
    n := 0;
    Run0(f, c.lib, t1);
    if e.Member? {
      n := ExpRuns(f, c, e.a, t1);
      if r.Val? {
        Overs(t1.ops);
        Runs1(f, c.lib, Pushing(t1, q, On(r.v.o, Bottom), r.m), Rot2, q + 1);
        RunAdd(f, c.lib, t1, n, 1);
        n := n + 1;
        t2 := Pushing(t, q + 1, On(Str(x), On(r.v.o, Bottom)), r.m);
      }
    }
    if r.Val? {
      PutRuns(f, c, e, r.v, Str(x), t, t2);
      RunAdd(f, c.lib, t1, n, 1);
      n := n + 1;
      var r1 := Put(c, r.v, Str(x), t.scope, r.m);
      if r1.Val? {
        Runs1(f, c.lib, Pushing(t, t2.pc + 2, On(r1.v, Bottom), r1.m), Pop, t2.pc + 3);
        RunAdd(f, c.lib, t1, n, 1);
        n := n + 1;
      }
    }
  }

  /** The body for one name, and the rounds after it. */
  function ExecName(c: Ctx, s: Stm, it: Value, p: Path, scope: Scope, m: Mem, fuel: nat): Exit
    requires s.ForIn?
  {
    match Exec(c, s.s, {}, scope, m, fuel)
    case Normal(m3) => if fuel == 0 then Timeout else ExecForIn(c, s, it, LabelSet(p), scope, m3, fuel - 1)
    case Continued(l, m3) =>
      if !GoesOn(l, LabelSet(p)) then Continued(l, m3)
      else if fuel == 0 then Timeout else ExecForIn(c, s, it, LabelSet(p), scope, m3, fuel - 1)
    case Broke(l, m3) => if Leaves(l) then Normal(m3) else Broke(l, m3)
    case r => r
  }

  lemma {:induction false} ForInCode(f: Fn, ns: Names, s: Stm, p: Path, d: seq<Dest>, a: nat)
    requires |d| == Depth(p) && s.ForIn? && Sane(s, p, d, a) && CodedForIn(f, ns, s, p, d, a)
    ensures
      var end, q := a + SizeS(s, p), a + SizeE(s.e) + 1;
      var b := q + 3 + SizeForAssign(s.lhs);
      var r := b + SizeS(s.s, Inside(ForInLoop, p));
      var d1 := d + [Dest(end, q)];
      && CodedS(f, ns, s.s, Inside(ForInLoop, p), d1, b) && Sane(s.s, Inside(ForInLoop, p), d1, b)
      && Is(f, r, Jump(q), r + 2)
  {
    hide Is, CodedS, SizeS, Sane, Coded, SizeE, CodedForAssign, SizeForAssign;
    SaneDef(s, p, d, a);
  }

  lemma {:induction false} NameBodyRuns(f: Fn, c: Ctx, s: Stm, p: Path, d: seq<Dest>, a: nat, t: State, t1: State,
    it: Value, fuel: nat) returns (n: nat)
    requires StmReady(c, p, d, t) && s.ForIn? && Sane(s, p, d, a) && CodedForIn(f, c.names, s, p, d, a)
      && t.pc == a + SizeE(s.e) + 1
    requires Entered(ForInLoop, t, t1) && t1.ops == On(it, t.ops) && |t1.frame| == |t.frame|
      && t1.pc == t.pc + 3 + SizeForAssign(s.lhs)
    ensures Gets(f, c, t1, n, t, p, d, a + SizeS(s, p), ExecName(c, s, it, p, t.scope, MemOf(t1), fuel), if fuel == 0
      then 0 else fuel - 1)
    decreases fuel, s, 1
  {
    hide Is, Decode, Run, Exec, CodedS, SizeS, Sane, Fits, SizeE, Coded, CodedForIn, SizeForAssign, ExecForIn, Arrives;
    ForInCode(f, c.names, s, p, d, a);
    ReadyIn(c, t, t1, it);
    var end, q := a + SizeS(s, p), t.pc;
    var dest := Dest(end, q);
    Inwards(c, ForInLoop, p, d, dest, t, t1);
    n := StmRuns(f, c, s.s, Inside(ForInLoop, p), d + [dest], t1, fuel);
    var r := Exec(c, s.s, {}, t.scope, MemOf(t1), fuel);
    var e := t1.pc + SizeS(s.s, Inside(ForInLoop, p));
    if r.Normal? || Again(ForInLoop, p, r) {
      Lands(f, c, ForInLoop, p, d, dest, t, t1, n, e, r, fuel);
      if r.Normal? {
        Runs1(f, c.lib, Land(RegsOf(t1), e, r.m), Jump(q), e + 2);
        RunAdd(f, c.lib, t1, n, 1);
        n := n + 1;
      }
      if fuel > 0 {
        var t2 := Land(RegsOf(t), q, r.m);
        var m := NamesRun(f, c, s, p, d, a, t2, it, fuel - 1);
        GetsFrom(f, c, t, t2, t2.(ops := On(it, t.ops)), m, p, d, end,
          ExecForIn(c, s, it, LabelSet(p), t.scope, r.m, fuel - 1), fuel - 1);
        RunAdd(f, c.lib, t1, n, m);
        n := n + m;
      }
    } else if !r.Timeout? {
      Outward(c, ForInLoop, p, d, dest, t, t1, e, r);
    }
  }

  /** What counts of the state that a completion is measured by is its stacks. */
  lemma {:induction false} GetsFrom(f: Fn, c: Ctx, t: State, t2: State, t1: State, n: nat, p: Path, d: seq<Dest>,
    end: nat, r: Exit, fuel: nat)
    requires StmReady(c, p, d, t) && t2.Running? && RegsOf(t2) == RegsOf(t) && |t2.frame| == |t.frame|
    requires Gets(f, c, t1, n, t2, p, d, end, r, fuel)
    ensures Gets(f, c, t1, n, t, p, d, end, r, fuel)
  {
    hide Run;
  }

  // ----- switch -----

  lemma {:induction false} SwitchCode(f: Fn, ns: Names, s: Stm, p: Path, d: seq<Dest>, a: nat)
    requires |d| == Depth(p) && s.Switch? && CodedS(f, ns, s, p, d, a) && Sane(s, p, d, a)
    ensures
      var p1, d1 := Inside(SwitchNode, p), d + [Dest(a + SizeS(s, p), 0)];
      var q := a + SizeE(s.e);
      var r := q + SizeTests(s.cases);
      && Coded(f, ns, s.e, a) && CodedTests(f, ns, s.cases, p1, q, r + 3)
      && Is(f, r, Pop, r + 1) && Is(f, r + 1, Jump(DefaultAt(s.cases, p1, r + 3)), r + 3)
      && CodedBodies(f, ns, s.cases, p1, d1, r + 3) && SaneCases(s.cases, p1, d1, r + 3)
      && r + 3 + SizeBodies(s.cases, p1) == a + SizeS(s, p)
  {
    hide Is, CodedS, SizeS, Sane, Coded, SizeE, CodedTests, SizeTests, CodedBodies, SizeBodies, SaneCases;
    hide DefaultAt, Defaults;
    CodedSDef(f, ns, s, p, d, a);
    SaneDef(s, p, d, a);
  }

  lemma {:induction false} SwitchRuns(f: Fn, c: Ctx, s: Stm, p: Path, d: seq<Dest>, t: State, fuel: nat)
    returns (n: nat)
    requires StmOk(f, c, s, p, d, t) && s.Switch?
    ensures StmDone(f, c, s, p, d, t, fuel, n)
    decreases fuel, s, 3
  {
    hide Is, Decode, Run, Exec, CodedS, SizeS, Sane, Fits, Eval, Coded, SizeE, Select, ExecCases, CodedTests, Arrives;
    hide CodedBodies, SizeBodies, SizeTests, DefaultAt, DefaultOf;
    SwitchCode(f, c.names, s, p, d, t.pc);
    ExecDef(c, s, LabelSet(p), t.scope, MemOf(t), fuel);
    var q := t.pc + SizeE(s.e);
    n := ExpRuns(f, c, s.e, t);
    var r := Eval(c, s.e, t.scope, MemOf(t));
    ArrivesThrew(t, p, d, t.pc + SizeS(s, p), if r.Val? then r.v else r.exc, r.m);
    if r.Val? {
      var t1 := Pushing(t, q, On(r.v, Bottom), r.m);
      var k, b, at := SelectRuns(f, c, s, p, d, t, t1, r.v);
      RunAdd(f, c.lib, t, n, k);
      n := n + k;
      var r1 := Select(c, s.cases, r.v, t.scope, r.m);
      ArrivesThrew(t, p, d, t.pc + SizeS(s, p), if r1.Val? then r.v else r1.exc, r1.m);
      if r1.Val? {
        var t2 := Land(RegsOf(t), b, r1.m);
        var m := SwitchBodyRuns(f, c, s, at, p, d, t, t2, t.pc + SizeS(s, p), fuel);
        RunAdd(f, c.lib, t, n, m);
        n := n + m;
      }
    }
  }

  /** The tests, up to the body b of the clause `at` where the switch starts. */
  lemma {:induction false} SelectRuns(f: Fn, c: Ctx, s: Stm, p: Path, d: seq<Dest>, t: State, t1: State, v: Value)
    returns (n: nat, b: nat, at: Cases)
    requires StmOk(f, c, s, p, d, t) && s.Switch? && Pushed(t, t1, On(v, Bottom)) && t1.pc == t.pc + SizeE(s.e)
    ensures var r := Select(c, s.cases, v, t.scope, MemOf(t1));
      var p1 := Inside(SwitchNode, p);
      && Run(f, c.lib, t1, n) == Ends(t, b, Dropped(r)) && |r.m.frame| == |t.frame|
      && (r.Val? ==>
        && at == (if r.v.NoCases? then DefaultOf(s.cases) else r.v) && (at == s.cases || at < s.cases)
          && SaneCases(at, p1, d + [Dest(t.pc + SizeS(s, p), 0)], b)
        && CodedBodies(f, c.names, at, p1, d + [Dest(t.pc + SizeS(s, p), 0)], b)
          && b + SizeBodies(at, p1) == t.pc + SizeS(s, p))
  {
    hide Is, Decode, Run, Exec, CodedS, SizeS, Sane, Fits, Eval, Coded, SizeE, SaneCases, CodedBodies;
    hide SizeBodies, Select, CodedTests, SizeTests, DefaultAt, DefaultOf;
    SwitchCode(f, c.names, s, p, d, t.pc);
    Overs(t.ops);
    var p1, d1 := Inside(SwitchNode, p), d + [Dest(t.pc + SizeS(s, p), 0)];
    var e := t1.pc + SizeTests(s.cases);
    n, b := TestsRun(f, c, s.cases, p1, d1, t, t1, v, e + 3);
    var r := Select(c, s.cases, v, t.scope, MemOf(t1));
    at := NoCases;
    if r.Val? {
      at := r.v;
      if r.v.NoCases? {
        at := DefaultOf(s.cases);
        b := DefaultAt(s.cases, p1, e + 3);
        DefaultMeans(f, c, s.cases, p1, d1, e + 3);
        Runs1(f, c.lib, Pushing(t, e, On(v, Bottom), r.m), Pop, e + 1);
        RunAdd(f, c.lib, t1, n, 1);
        Runs1(f, c.lib, Land(RegsOf(t), e + 1, r.m), Jump(b), e + 3);
        RunAdd(f, c.lib, t1, n + 1, 1);
        n := n + 2;
      }
    }
  }

  lemma {:induction false} DefaultMeans(f: Fn, c: Ctx, cases: Cases, p: Path, d: seq<Dest>, b: nat)
    requires |d| == Depth(p) && CodedBodies(f, c.names, cases, p, d, b) && SaneCases(cases, p, d, b)
    ensures var at, a := DefaultOf(cases), DefaultAt(cases, p, b);
      SaneCases(at, p, d, a) && CodedBodies(f, c.names, at, p, d, a)
        && a + SizeBodies(at, p) == b + SizeBodies(cases, p)
    decreases cases
  {
    hide CodedList, SizeList, SaneList;
    if cases.Case? { DefaultMeans(f, c, cases.rest, p, d, b + SizeList(cases.body, p)); }
  }

  /** The chain of tests leaves the value on the stack until one succeeds. */
  lemma {:induction false} TestsRun(f: Fn, c: Ctx, cases: Cases, p: Path, d: seq<Dest>, t: State, t1: State, v: Value,
    b: nat) returns (n: nat, b1: nat)
    requires Ready(c, t) && Pushed(t, t1, On(v, Bottom)) && |d| == Depth(p)
    requires CodedTests(f, c.names, cases, p, t1.pc, b) && CodedBodies(f, c.names, cases, p, d, b)
      && SaneCases(cases, p, d, b)
    ensures var r := Select(c, cases, v, t.scope, MemOf(t1));
      && |r.m.frame| == |t.frame|
      && Run(f, c.lib, t1, n) == (if r.Exc? then Fails(t, r.exc, r.m)
           else if r.v.NoCases? then Pushing(t, t1.pc + SizeTests(cases), On(v, Bottom), r.m)
             else Land(RegsOf(t), b1, r.m))
      && (r.Val? && !r.v.NoCases? ==>
        && (r.v == cases || r.v < cases) && SaneCases(r.v, p, d, b1)
        && CodedBodies(f, c.names, r.v, p, d, b1) && b1 + SizeBodies(r.v, p) == b + SizeBodies(cases, p))
    decreases cases
  {
    hide Is, Decode, Run, Eval, Coded, SizeE, SizeList, CodedList, SaneList;
    b1 := b;
    n := 0;
    if cases.NoCases? {
      Run0(f, c.lib, t1);
    } else if cases.Default? {
      n, b1 := TestsRun(f, c, cases.rest, p, d, t, t1, v, b + SizeList(cases.body, p));
    } else {
      n := CaseRuns(f, c, cases.e, t, t1, v, b);
      var r := Eval(c, cases.e, t.scope, MemOf(t1));
      if r.Val? && !StrictEq(v, r.v) {
        var t2 := Pushing(t, t1.pc + SizeE(cases.e) + 2, On(v, Bottom), r.m);
        var m;
        m, b1 := TestsRun(f, c, cases.rest, p, d, t, t2, v, b + SizeList(cases.body, p));
        RunAdd(f, c.lib, t1, n, m);
        n := n + m;
      }
    }
  }

  /** One test. */
  lemma {:induction false} CaseRuns(f: Fn, c: Ctx, e: Exp, t: State, t1: State, v: Value, b: nat) returns (n: nat)
    requires Ready(c, t) && Pushed(t, t1, On(v, Bottom)) && Coded(f, c.names, e, t1.pc)
    requires var q := t1.pc + SizeE(e); Is(f, q, JCase(b), q + 2)
    ensures var r := Eval(c, e, t.scope, MemOf(t1));
      && |r.m.frame| == |t.frame|
      && Run(f, c.lib, t1, n) == (if r.Exc? then Fails(t, r.exc, r.m)
           else if StrictEq(v, r.v) then Land(RegsOf(t), b, r.m)
             else Pushing(t, t1.pc + SizeE(e) + 2, On(v, Bottom), r.m))
  {
    hide Is, Decode, Run, Eval, Coded, SizeE;
    Overs(t.ops);
    PushedMeans(c, t, t1, On(v, Bottom));
    Overs(t1.ops);
    n := ExpRuns(f, c, e, t1);
    var r := Eval(c, e, t.scope, MemOf(t1));
    if r.Val? {
      var q := t1.pc + SizeE(e);
      Runs1(f, c.lib, Pushing(t1, q, On(r.v, Bottom), r.m), JCase(b), q + 2);
      RunAdd(f, c.lib, t1, n, 1);
      n := n + 1;
    }
  }

  lemma {:induction false} CasesRun(f: Fn, c: Ctx, cases: Cases, p: Path, d: seq<Dest>, t: State, fuel: nat)
    returns (n: nat)
    requires StmReady(c, p, d, t) && SaneCases(cases, p, d, t.pc) && CodedBodies(f, c.names, cases, p, d, t.pc)
      && LabelSet(p) == {}
    ensures Ending(f, c, t, n, p, d, t.pc + SizeBodies(cases, p), ExecCases(c, cases, t.scope, MemOf(t), fuel), fuel)
    decreases fuel, cases, 9
  {
    hide Is, Decode, Run, ExecList, CodedList, SizeList, SaneList, Fits;
    if cases.NoCases? {
      n := 0;
      Run0(f, c.lib, t);
    } else {
      n := ListRuns(f, c, cases.body, p, d, t, fuel);
      var r := ExecList(c, cases.body, t.scope, MemOf(t), fuel);
      if r.Normal? {
        var t1 := Land(RegsOf(t), t.pc + SizeList(cases.body, p), r.m);
        var m := CasesRun(f, c, cases.rest, p, d, t1, fuel);
        Extend(f, c, t, n, t1, m, p, d, t.pc + SizeBodies(cases, p), ExecCases(c, cases.rest, t.scope, r.m, fuel),
          fuel);
        n := n + m;
      }
    }
  }

  /** The bodies from the selected clause on; a break without a label ends them. */
  lemma {:induction false} SwitchBodyRuns(f: Fn, c: Ctx, s: Stm, at: Cases, p: Path, d: seq<Dest>, t: State, t1: State,
    end: nat, fuel: nat) returns (n: nat)
    requires StmReady(c, p, d, t) && s.Switch? && (at == s.cases || at < s.cases)
    requires t1.Running? && RegsOf(t1) == RegsOf(t) && |t1.frame| == |t.frame|
      && end == t1.pc + SizeBodies(at, Inside(SwitchNode, p))
    requires CodedBodies(f, c.names, at, Inside(SwitchNode, p), d + [Dest(end, 0)], t1.pc)
      && SaneCases(at, Inside(SwitchNode, p), d + [Dest(end, 0)], t1.pc)
    ensures var r := ExecCases(c, at, t.scope, MemOf(t1), fuel);
      Gets(f, c, t1, n, t, p, d, end, Past(SwitchNode, r), fuel)
    decreases fuel, s, 2
  {
    hide Run, ExecCases, CodedBodies, SizeBodies, SaneCases, Fits;
    var p1, d1 := Inside(SwitchNode, p), d + [Dest(end, 0)];
    Inwards(c, SwitchNode, p, d, Dest(end, 0), t, t1);
    n := CasesRun(f, c, at, p1, d1, t1, fuel);
    var r := ExecCases(c, at, t.scope, MemOf(t1), fuel);
    if !r.Normal? && !r.Timeout? { Outward(c, SwitchNode, p, d, Dest(end, 0), t, t1, end, r); }
  }

  // ----- function bodies -----

  /** The end of `cfunbody`: after the statements, return undefined. */
  predicate CodedBody(f: Fn, ns: Names, body: Stms, a: nat) {
    var e := a + SizeList(body, Function);
    CodedList(f, ns, body, Function, [], a) && Is(f, e, Push(Undefined), e + 1) && Is(f, e + 1, Ret, e + 2)
  }

  /** What a call makes of its body's completion. */
  function Outcome(t: State, r: Exit): State
    requires t.Running?
  {
    match r
    case Normal(m) => Returned(Undefined, t.scope, t.tries, m.w)
    case Gave(v, m) => Returned(v, t.scope, t.tries, m.w)
    case Threw(v, m) => Fails(t, v, m)
    case _ => Wrong
  }

  /** A compiled function body returns the value, or throws the exception, that evaluation gives,
      with the scope chain and the handlers of its start; while evaluation goes on, it runs. */
  lemma {:induction false} BodyRuns(f: Fn, c: Ctx, body: Stms, t: State, fuel: nat) returns (n: nat)
    requires Ready(c, t) && SaneList(body, Function, [], t.pc) && CodedBody(f, c.names, body, t.pc)
    ensures var r := ExecList(c, body, t.scope, MemOf(t), fuel);
      !r.Broke? && !r.Continued? &&
      if r.Timeout? then fuel <= n && Run(f, c.lib, t, n).Running? else Run(f, c.lib, t, n) == Outcome(t, r)
  {
    hide Is, Decode, Run, SaneList, CodedList, SizeList, ExecList;
    n := ListRuns(f, c, body, Function, [], t, fuel);
    var r := ExecList(c, body, t.scope, MemOf(t), fuel);
    if r.Normal? {
      var e := t.pc + SizeList(body, Function);
      Runs1(f, c.lib, Land(RegsOf(t), e, r.m), Push(Undefined), e + 1);
      Runs1(f, c.lib, Land(RegsOf(t).(ops := On(Undefined, t.ops)), e + 1, r.m), Ret, e + 2);
      RunAdd(f, c.lib, t, n, 1);
      RunAdd(f, c.lib, t, n + 1, 1);
      n := n + 2;
    }
  }

  /** A call without handlers of its own: it stops within n steps only if evaluation ends with
      that much fuel, and then with the outcome of evaluation. */
  lemma {:induction false} BodyEnds(f: Fn, c: Ctx, body: Stms, t: State, n: nat)
    requires Ready(c, t) && SaneList(body, Function, [], t.pc) && CodedBody(f, c.names, body, t.pc) && t.tries.NoTries?
    ensures var r := ExecList(c, body, t.scope, MemOf(t), n + 1);
      !Run(f, c.lib, t, n).Running? ==> !r.Timeout? && Run(f, c.lib, t, n) == Outcome(t, r)
  {
    hide Is, Decode, Run, SaneList, CodedBody, ExecList;
    if !Run(f, c.lib, t, n).Running? {
      var m := BodyRuns(f, c, body, t, n + 1);
      Stopped(f, c.lib, t, n, if n < m then m else n);
      var r := ExecList(c, body, t.scope, MemOf(t), n + 1);
      if !r.Timeout? && m < n { Stopped(f, c.lib, t, m, n); }
    }
  }
}
