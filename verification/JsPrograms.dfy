/** Small bodies, compiled and called: what they return, said of the values in their variables. */
module JsPrograms {
  import opened JsTree
  import opened JsMachine
  import opened JsMeaning
  import opened JsCode
  import opened JsTargets
  import opened JsExpressions
  import opened JsStatements
  import opened JsControl
  import opened JsFunction

  /** A function's variables, in a frame behind `this`. */
  const LOCALS := Names(["x", "y", "z"], true)

  /** The same of a function that keeps its variables in an object. */
  const OUTSIDE := Names(["x", "y", "z"], false)

  const X := Ident("x")
  const Y := Ident("y")
  const Z := Ident("z")

  const ONE := Num(Finite(false, 1.0))
  const TWO := Num(Finite(false, 2.0))

  /** A call of the code f, with the values of its variables and the world it starts in. */
  datatype Call = Call(f: Fn, lib: Lib, names: Names, frame: seq<Value>, scope: Scope, w: World) {
    function C(): Ctx {
      Ctx(lib, names)
    }

    function M(): Mem {
      Mem(frame, w)
    }

    function Value(i: nat): Value {
      if i < |frame| then frame[i] else Undefined
    }

    /** f is the code of the body, whose variables are in slots. */
    ghost predicate Calls(body: Stms) {
      Negates(lib) && CodedBody(f, names, body, 0) && names == LOCALS && |frame| == 4
    }

    /** Its variables are not in slots. */
    ghost predicate CallsOutside(body: Stms) {
      Negates(lib) && CodedBody(f, names, body, 0) && names == OUTSIDE && |frame| == 1
    }

    /** The call ends with the value v in the world w1. */
    ghost predicate Returns(v: Value, w1: World) {
      exists n :: Run(f, lib, Started(frame, scope, w), n) == Returned(v, scope, NoTries, w1)
    }

    /** What the library makes of an operation. */
    predicate Makes(p: Prim, args: Ops, e: Scope, w1: World, v: Value, w2: World) {
      lib.prim(p, args, e, w1) == Ok(v, w2)
    }
  }

  lemma {:induction false} ReturnsOnce(k: Call, v: Value, w: World, v1: Value, w1: World)
    requires k.Returns(v, w) && k.Returns(v1, w1)
    ensures v == v1 && w == w1
  {
    hide Run;
    var t := Started(k.frame, k.scope, k.w);
    var n :| Run(k.f, k.lib, t, n) == Returned(v, k.scope, NoTries, w);
    var m :| Run(k.f, k.lib, t, m) == Returned(v1, k.scope, NoTries, w1);
    if n <= m { Stopped(k.f, k.lib, t, n, m); } else { Stopped(k.f, k.lib, t, m, n); }
  }

  lemma {:induction false} Evaluated(k: Call, body: Stms, v: Value, m: Mem, fuel: nat)
    requires Negates(k.lib) && CodedBody(k.f, k.names, body, 0) && |k.frame| == FrameSize(k.names)
    requires TameList(body) && ExecList(k.C(), body, k.scope, k.M(), fuel) == Gave(v, m)
    ensures k.Returns(v, m.w)
  {
    hide Run, CodedBody, SaneList, ExecList, TameList;
    TameListSane(body, Function, [], 0);
    var t := Started(k.frame, k.scope, k.w);
    var n := BodyRuns(k.f, k.C(), body, t, fuel);
    assert Run(k.f, k.lib, t, n) == Returned(v, k.scope, NoTries, m.w);
  }

  // ----- what is always sound -----

  /** No break is itself labelled by the name it has, ls being the labels of s, and no for-in loop is
      over an indexed place. */
  predicate Tame(s: Stm, ls: set<Name>) {
    match s
    case Block(body) => TameList(body)
    case If(_, a) => Tame(a, {})
    case IfElse(_, a, b) => Tame(a, {}) && Tame(b, {})
    case Do(b, _) => Tame(b, {})
    case While(_, b) => Tame(b, {})
    case For(_, _, _, b) => Tame(b, {})
    case ForIn(lhs, _, b) => !lhs.Index? && Tame(b, {})
    case Switch(_, cases) => TameCases(cases)
    case Label(x, b) => Tame(b, ls + {x})
    case Break(l) => l.None? || l.value !in ls
    case With(_, b) => Tame(b, {})
    case Try(b, _, h) => Tame(b, {}) && Tame(h, {})
    case _ => true
  }

  predicate TameList(ss: Stms) {
    ss.Stms? ==> Tame(ss.head, {}) && TameList(ss.tail)
  }

  predicate TameCases(cases: Cases) {
    !cases.NoCases? ==> TameList(cases.body) && TameCases(cases.rest)
  }

  /** Only such breaks and loops can be unsound. */
  lemma {:induction false} TameSane(s: Stm, p: Path, d: seq<Dest>, a: nat)
    requires |d| == Depth(p) && Tame(s, LabelSet(p))
    ensures Sane(s, p, d, a)
    decreases s, 1
  {
    hide Sane, SizeS, SizeE, SizeTests, SizeInit, SizeForAssign, SaneList, SaneCases;
    hide SaneLoop, TameList, TameCases, MatchLabel, BreakTarget, Transparent;
    SaneDef(s, p, d, a);
    var end := a + SizeS(s, p);
    var behind := d + [Dest(end, 0)];
    match s
    case Block(body) => TameListSane(body, Inside(Plain, p), behind, a);
    case If(e, b) => TameSane(b, Inside(Plain, p), behind, a + SizeE(e) + 2);
    case IfElse(e, b, b2) =>
      var q := a + SizeE(e) + 2;
      TameSane(b2, Inside(Plain, p), behind, q);
      TameSane(b, Inside(Plain, p), behind, q + SizeS(b2, Inside(Plain, p)) + 2);
    case Do(b, _) => TameSane(b, Inside(Loop, p), d + [Dest(end, a + SizeS(b, Inside(Loop, p)))], a);
    case While(_, _) => TameLoopSane(s, a, p, d, a);
    case For(init, _, _, _) => TameLoopSane(s, a, p, d, a + SizeInit(init));
    case ForIn(lhs, e, b) =>
      var q := a + SizeE(e) + 1;
      TameSane(b, Inside(ForInLoop, p), d + [Dest(end, q)], q + 3 + SizeForAssign(lhs));
    case Switch(e, cases) =>
      TameCasesSane(cases, Inside(SwitchNode, p), behind, a + SizeE(e) + SizeTests(cases) + 3);
    case Label(x, b) =>
      assert LabelSet(Inside(Labelled(x), p)) == LabelSet(p) + {x};
      TameSane(b, Inside(Labelled(x), p), d + [Dest(0, 0)], a);
    case Break(l) => if l.Some? { LabelSetMeans(p, l.value); }
    case With(e, b) => TameSane(b, Inside(WithNode, p), behind, a + SizeE(e) + 1);
    case Try(b, _, h) =>
      TameSane(h, Inside(CatchBody, p), behind, a + 4);
      TameSane(b, Inside(TryBody, p), behind, a + 4 + SizeS(h, Inside(CatchBody, p)) + 3);
    case _ =>
  }

  lemma {:induction false} TameLoopSane(s: Stm, start: nat, p: Path, d: seq<Dest>, a: nat)
    requires |d| == Depth(p) && (s.While? || s.For?) && Tame(s.s, {})
    ensures SaneLoop(s, start, p, d, a)
    decreases s, 0
  {
    hide Sane, Tame, SizeS, SizeE;
    var b := if TestOf(s).Some? then a + SizeE(TestOf(s).value) + 2 else a;
    var q := b + SizeS(s.s, Inside(Loop, p));
    TameSane(s.s, Inside(Loop, p), d + [Dest(start + SizeS(s, p), if s.While? then a else q)], b);
  }

  lemma {:induction false} TameListSane(ss: Stms, p: Path, d: seq<Dest>, a: nat)
    requires |d| == Depth(p) && TameList(ss) && LabelSet(p) == {}
    ensures SaneList(ss, p, d, a)
    decreases ss, 0
  {
    hide Sane, Tame, SizeS;
    if ss.Stms? {
      TameSane(ss.head, p, d, a);
      TameListSane(ss.tail, p, d, a + SizeS(ss.head, p));
    }
  }

  lemma {:induction false} TameCasesSane(cases: Cases, p: Path, d: seq<Dest>, a: nat)
    requires |d| == Depth(p) && TameCases(cases) && LabelSet(p) == {}
    ensures SaneCases(cases, p, d, a)
    decreases cases, 0
  {
    hide SaneList, TameList, SizeList;
    if !cases.NoCases? {
      TameListSane(cases.body, p, d, a);
      TameCasesSane(cases.rest, p, d, a + SizeList(cases.body, p));
    }
  }

  // ----- evaluating them -----

  lemma {:induction false} Slots()
    ensures Slot(LOCALS, "x") == Some(1) && Slot(LOCALS, "y") == Some(2) && Slot(LOCALS, "z") == Some(3)
  {
    assert ["x", "y", "z"][..2] == ["x", "y"] && ["x", "y"][..1] == ["x"];
    assert FindLocal(["x"], "x") == Some(1) && FindLocal(["x", "y"], "x") == Some(1);
  }

  lemma {:induction false} Locals(c: Ctx, scope: Scope, m: Mem)
    requires c.names == LOCALS && |m.frame| == 4
    ensures Eval(c, X, scope, m) == Val(m.frame[1], m)
    ensures Eval(c, Y, scope, m) == Val(m.frame[2], m)
    ensures Eval(c, Z, scope, m) == Val(m.frame[3], m)
  {
    hide Eval, Slot;
    Slots();
    EvalDef(c, X, scope, m);
    EvalDef(c, Y, scope, m);
    EvalDef(c, Z, scope, m);
  }

  /** The first statement of a list, and the rest if that ends normally. */
  lemma {:induction false} ListMeans(c: Ctx, ss: Stms, scope: Scope, m: Mem, fuel: nat)
    requires ss.Stms?
    ensures var r := Exec(c, ss.head, {}, scope, m, fuel);
      && (ss.tail.NoStms? || !r.Normal? ==> ExecList(c, ss, scope, m, fuel) == r)
      && (r.Normal? ==> ExecList(c, ss, scope, m, fuel) == ExecList(c, ss.tail, scope, r.m, fuel))
  {
    hide Exec;
  }

  lemma {:induction false} NoneMeans(c: Ctx, scope: Scope, m: Mem, fuel: nat)
    ensures ExecList(c, NoStms, scope, m, fuel) == Normal(m)
  {
  }

  lemma {:induction false} JumpMeans(c: Ctx, l: Option<Name>, scope: Scope, m: Mem, fuel: nat)
    ensures Exec(c, Break(l), {}, scope, m, fuel) == Broke(l, m)
    ensures Exec(c, Continue(l), {}, scope, m, fuel) == Continued(l, m)
  {
    hide Exec;
    ExecDef(c, Break(l), {}, scope, m, fuel);
    ExecDef(c, Continue(l), {}, scope, m, fuel);
  }

  lemma {:induction false} ThrowMeans(c: Ctx, e: Exp, scope: Scope, m: Mem, fuel: nat)
    requires Eval(c, e, scope, m).Val?
    ensures var r := Eval(c, e, scope, m); Exec(c, Throw(e), {}, scope, m, fuel) == Threw(r.v, r.m)
  {
    hide Exec, Eval;
    ExecDef(c, Throw(e), {}, scope, m, fuel);
  }

  lemma {:induction false} ExpMeans(c: Ctx, e: Exp, scope: Scope, m: Mem, fuel: nat)
    requires Eval(c, e, scope, m).Val?
    ensures Exec(c, ExpStm(e), {}, scope, m, fuel) == Normal(Eval(c, e, scope, m).m)
  {
    hide Exec, Eval;
    ExecDef(c, ExpStm(e), {}, scope, m, fuel);
  }

  /** A variable that is not in a slot. */
  lemma {:induction false} Outside(c: Ctx, x: Name, scope: Scope, m: Mem)
    requires c.names == OUTSIDE
    ensures Eval(c, Ident(x), scope, m) == Apply(c, GetVar(x), Bottom, scope, m)
  {
    hide Eval;
    EvalDef(c, Ident(x), scope, m);
  }

  /** A test, and the statement behind it. */
  lemma {:induction false} IfMeans(c: Ctx, e: Exp, s: Stm, scope: Scope, m: Mem, fuel: nat)
    requires Eval(c, e, scope, m).Val?
    ensures var r := Eval(c, e, scope, m);
      Exec(c, If(e, s), {}, scope, m, fuel) ==
        if IsFalse(r.v) then Normal(r.m) else Exec(c, s, {}, scope, r.m, fuel)
  {
    hide Eval, Exec;
    ExecDef(c, If(e, s), {}, scope, m, fuel);
  }

  lemma {:induction false} BlockMeans(c: Ctx, ss: Stms, scope: Scope, m: Mem, fuel: nat)
    requires ss.Stms?
    ensures Exec(c, Block(ss), {}, scope, m, fuel) == ExecList(c, ss, scope, m, fuel)
    ensures var r := Exec(c, ss.head, {}, scope, m, fuel);
      && (ss.tail.NoStms? || !r.Normal? ==> ExecList(c, ss, scope, m, fuel) == r)
      && (r.Normal? ==> ExecList(c, ss, scope, m, fuel) == ExecList(c, ss.tail, scope, r.m, fuel))
  {
    hide Exec;
    ListMeans(c, ss, scope, m, fuel);
    ExecDef(c, Block(ss), {}, scope, m, fuel);
  }

  lemma {:induction false} ReturnMeans(c: Ctx, e: Exp, scope: Scope, m: Mem, fuel: nat)
    requires Eval(c, e, scope, m).Val?
    ensures var r := Eval(c, e, scope, m); Exec(c, Return(Some(e)), {}, scope, m, fuel) == Gave(r.v, r.m)
  {
    hide Eval, Exec;
    ExecDef(c, Return(Some(e)), {}, scope, m, fuel);
  }

  lemma {:induction false} Literal(c: Ctx, n: Number, scope: Scope, m: Mem, fuel: nat)
    ensures Eval(c, NumLit(n), scope, m) == Val(Num(n), m)
    ensures Exec(c, Return(Some(NumLit(n))), {}, scope, m, fuel) == Gave(Num(n), m)
  {
    hide Eval, Exec;
    EvalDef(c, NumLit(n), scope, m);
    ReturnMeans(c, NumLit(n), scope, m, fuel);
  }

  /** What a body of one `return` gives. */
  lemma {:induction false} ReturnGives(k: Call, e: Exp)
    requires Negates(k.lib) && CodedBody(k.f, k.names, Gives(e), 0) && |k.frame| == FrameSize(k.names)
    requires Eval(k.C(), e, k.scope, k.M()).Val?
    ensures var r := Eval(k.C(), e, k.scope, k.M()); k.Returns(r.v, r.m.w)
  {
    hide Eval, Exec, CodedBody;
    ReturnMeans(k.C(), e, k.scope, k.M(), 0);
    var r := Eval(k.C(), e, k.scope, k.M());
    Evaluated(k, Gives(e), r.v, r.m, 0);
  }

  /** return e; */
  function Gives(e: Exp): Stms {
    Stms(Return(Some(e)), NoStms)
  }

  // ----- variables -----

  /** return x; where x is the name of the i-th variable, and of no later one. */
  lemma {:induction false} VarReturns(k: Call, x: Name, i: nat)
    requires Negates(k.lib) && CodedBody(k.f, k.names, Gives(Ident(x)), 0) && k.names.lightweight
    requires i < |k.names.vartab| && k.names.vartab[i] == x
      && forall j | i < j < |k.names.vartab| :: k.names.vartab[j] != x
    requires |k.frame| == |k.names.vartab| + 1
    ensures k.Returns(k.frame[i + 1], k.w)
  {
    hide Call.Returns, CodedBody, Eval, FindLocal;
    LastFound(k.names.vartab, x, i);
    EvalDef(k.C(), Ident(x), k.scope, k.M());
    ReturnGives(k, Ident(x));
  }

  lemma {:induction false} LastFound(vars: seq<Name>, x: Name, i: nat)
    requires i < |vars| && vars[i] == x && forall j | i < j < |vars| :: vars[j] != x
    ensures FindLocal(vars, x) == Some(i + 1)
  {
    if i < |vars| - 1 { LastFound(vars[..|vars| - 1], x, i); }
  }

  /** return x; where x is not a variable of the function, or where its variables are in an object. */
  lemma {:induction false} GlobalReturns(k: Call, x: Name, v: Value, w1: World)
    requires Negates(k.lib) && CodedBody(k.f, k.names, Gives(Ident(x)), 0) && |k.frame| == FrameSize(k.names)
    requires (k.names.lightweight ==> x !in k.names.vartab) && k.Makes(GetVar(x), Bottom, k.scope, k.w, v, w1)
    ensures k.Returns(v, w1)
  {
    hide Call.Returns, CodedBody, Eval, FindLocal;
    FindLocalRange(k.names.vartab, x);
    EvalDef(k.C(), Ident(x), k.scope, k.M());
    ReturnGives(k, Ident(x));
  }

  // ----- tests -----

  /** The values that fail a test. */
  predicate IsFalse(v: Value) {
    || v == Undefined || v == Null || v == Boolean(false) || v == Str("")
    || v == Num(NaN) || v == Num(Finite(false, 0.0)) || v == Num(Finite(true, 0.0))
  }

  /** if (x) return 1; return 2; */
  const IF_BODY := Stms(If(X, Return(Some(NumLit(ONE.n)))), Gives(NumLit(TWO.n)))

  lemma {:induction false} IfReturns(k: Call)
    requires k.Calls(IF_BODY)
    ensures k.Returns(TWO, k.w) <==>
      var x := k.Value(1);
      || x == Undefined || x == Null || x == Boolean(false) || x == Str("")
      || x == Num(NaN) || x == Num(Finite(false, 0.0)) || x == Num(Finite(true, 0.0))
    ensures k.Returns(TWO, k.w) || k.Returns(ONE, k.w)
  {
    hide Call.Returns, CodedBody, Exec, Eval, ExecList;
    var c, m := k.C(), k.M();
    Locals(c, k.scope, m);
    Literal(c, ONE.n, k.scope, m, 0);
    Literal(c, TWO.n, k.scope, m, 0);
    IfMeans(c, X, IF_BODY.head.a, k.scope, m, 0);
    ListMeans(c, IF_BODY, k.scope, m, 0);
    ListMeans(c, IF_BODY.tail, k.scope, m, 0);
    var v := if IsFalse(k.Value(1)) then TWO else ONE;
    Evaluated(k, IF_BODY, v, m, 0);
    if k.Returns(TWO, k.w) { ReturnsOnce(k, v, k.w, TWO, k.w); }
  }

  /** return x ? y : z; */
  lemma {:induction false} CondReturns(k: Call)
    requires k.Calls(Gives(Cond(X, Y, Z)))
    ensures k.Returns(if IsFalse(k.Value(1)) then k.Value(3) else k.Value(2), k.w)
  {
    hide Call.Returns, CodedBody, Eval;
    Locals(k.C(), k.scope, k.M());
    EvalDef(k.C(), Cond(X, Y, Z), k.scope, k.M());
    ReturnGives(k, Cond(X, Y, Z));
  }

  /** return x || y; */
  lemma {:induction false} OrReturns(k: Call)
    requires k.Calls(Gives(LogOr(X, Y)))
    ensures k.Returns(if IsFalse(k.Value(1)) then k.Value(2) else k.Value(1), k.w)
  {
    hide Call.Returns, CodedBody, Eval;
    Locals(k.C(), k.scope, k.M());
    EvalDef(k.C(), LogOr(X, Y), k.scope, k.M());
    ReturnGives(k, LogOr(X, Y));
  }

  /** return x && y; */
  lemma {:induction false} AndReturns(k: Call)
    requires k.Calls(Gives(LogAnd(X, Y)))
    ensures k.Returns(if IsFalse(k.Value(1)) then k.Value(1) else k.Value(2), k.w)
  {
    hide Call.Returns, CodedBody, Eval;
    Locals(k.C(), k.scope, k.M());
    EvalDef(k.C(), LogAnd(X, Y), k.scope, k.M());
    ReturnGives(k, LogAnd(X, Y));
  }

  // ----- switch -----

  /** switch (x) { case y: return 1; } return 2; */
  const CASE_BODY := Stms(Switch(X, Case(Y, Gives(NumLit(ONE.n)), NoCases)), Gives(NumLit(TWO.n)))

  /** A clause is chosen for the same value, NaN excepted, and for zeros of either sign. */
  lemma {:induction false} CaseReturns(k: Call)
    requires k.Calls(CASE_BODY)
    ensures k.Returns(ONE, k.w) <==>
      var x, y, zero, minus := k.Value(1), k.Value(2), Num(Finite(false, 0.0)), Num(Finite(true, 0.0));
      (x == y && x != Num(NaN)) || (x == zero && y == minus) || (x == minus && y == zero)
    ensures k.Returns(ONE, k.w) || k.Returns(TWO, k.w)
  {
    hide Call.Returns, CodedBody, Exec, Eval, ExecList;
    var c, m := k.C(), k.M();
    var v := if StrictEq(k.Value(1), k.Value(2)) then ONE else TWO;
    Literal(c, TWO.n, k.scope, m, 0);
    CaseMeans(c, m, k.scope);
    ListMeans(c, CASE_BODY, k.scope, m, 0);
    ListMeans(c, CASE_BODY.tail, k.scope, m, 0);
    Evaluated(k, CASE_BODY, v, m, 0);
    if k.Returns(ONE, k.w) { ReturnsOnce(k, v, k.w, ONE, k.w); }
  }

  lemma {:induction false} CaseMeans(c: Ctx, m: Mem, scope: Scope)
    requires c.names == LOCALS && |m.frame| == 4
    ensures Exec(c, CASE_BODY.head, {}, scope, m, 0)
      == if StrictEq(m.frame[1], m.frame[2]) then Gave(ONE, m) else Normal(m)
  {
    hide Exec, Eval, ExecList, StrictEq;
    var s := CASE_BODY.head;
    Locals(c, scope, m);
    Literal(c, ONE.n, scope, m, 0);
    ListMeans(c, s.cases.body, scope, m, 0);
    ExecDef(c, s, {}, scope, m, 0);
  }


  /** switch (x) { default: y = 1; case z: return y; } */
  const FALL_BODY := Stms(Switch(X, Default(Set(Y, NumLit(ONE.n)), Case(Z, Gives(Y), NoCases))), NoStms)

  function Set(x: Exp, e: Exp): Stms {
    Stms(ExpStm(Assign(x, e)), NoStms)
  }

  /** The default clause is taken only if no other is, wherever it stands, and goes on to the next. */
  lemma {:induction false} FallReturns(k: Call)
    requires k.Calls(FALL_BODY) && k.Value(1).Str? && k.Value(3).Str?
    ensures k.Returns(if k.Value(1) == k.Value(3) then k.Value(2) else ONE, k.w)
  {
    hide Call.Returns, CodedBody, Exec, ExecList;
    var c, m := k.C(), k.M();
    var m1 := if k.Value(1) == k.Value(3) then m else m.(frame := m.frame[2 := ONE]);
    FallMeans(c, m, k.scope, m1);
    ListMeans(c, FALL_BODY, k.scope, m, 0);
    Evaluated(k, FALL_BODY, m1.frame[2], m1, 0);
  }

  lemma {:induction false} FallMeans(c: Ctx, m: Mem, scope: Scope, m1: Mem)
    requires c.names == LOCALS && |m.frame| == 4 && m.frame[1].Str? && m.frame[3].Str?
    requires m1 == if m.frame[1] == m.frame[3] then m else m.(frame := m.frame[2 := ONE])
    ensures Exec(c, FALL_BODY.head, {}, scope, m, 0) == Gave(m1.frame[2], m1)
  {
    hide Exec, Eval, ExecList;
    var s := FALL_BODY.head;
    Locals(c, scope, m);
    Locals(c, scope, m1);
    Literal(c, ONE.n, scope, m, 0);
    SetMeans(c, Y, 2, NumLit(ONE.n), scope, m, 0);
    ReturnMeans(c, Y, scope, m1, 0);
    ListMeans(c, s.cases.body, scope, m, 0);
    NoneMeans(c, scope, m1, 0);
    ListMeans(c, s.cases.rest.body, scope, m1, 0);
    ExecDef(c, s, {}, scope, m, 0);
  }


  /** An assignment to a variable in a slot. */
  lemma {:induction false} SetMeans(c: Ctx, x: Exp, i: nat, e: Exp, scope: Scope, m: Mem, fuel: nat)
    requires c.names == LOCALS && |m.frame| == 4 && Eval(c, e, scope, m).Val? && |Eval(c, e, scope, m).m.frame| == 4
    requires (x == X && i == 1) || (x == Y && i == 2) || (x == Z && i == 3)
    ensures var r := Eval(c, e, scope, m);
      Exec(c, ExpStm(Assign(x, e)), {}, scope, m, fuel) == Normal(r.m.(frame := r.m.frame[i := r.v]))
  {
    hide Eval, Exec, FindLocal;
    Slots();
    ExecDef(c, ExpStm(Assign(x, e)), {}, scope, m, fuel);
    EvalDef(c, Assign(x, e), scope, m);
  }

  // ----- loops -----

  /** while (x) { if (y) break; return 1; } return 2; */
  const WHILE_BODY := Stms(While(X, Block(Stms(If(Y, Break(None)), Gives(NumLit(ONE.n))))), Gives(NumLit(TWO.n)))

  lemma {:induction false} WhileReturns(k: Call)
    requires k.Calls(WHILE_BODY)
    ensures k.Returns(if IsFalse(k.Value(1)) || !IsFalse(k.Value(2)) then TWO else ONE, k.w)
  {
    hide Call.Returns, CodedBody, Exec, Eval, ExecList, IsFalse;
    var c, m := k.C(), k.M();
    Literal(c, TWO.n, k.scope, m, 0);
    WhileMeans(c, m, k.scope);
    ListMeans(c, WHILE_BODY, k.scope, m, 0);
    ListMeans(c, WHILE_BODY.tail, k.scope, m, 0);
    var v := if IsFalse(k.Value(1)) || !IsFalse(k.Value(2)) then TWO else ONE;
    Evaluated(k, WHILE_BODY, v, m, 0);
  }

  lemma {:induction false} WhileMeans(c: Ctx, m: Mem, scope: Scope)
    requires c.names == LOCALS && |m.frame| == 4
    ensures Exec(c, WHILE_BODY.head, {}, scope, m, 0)
      == if IsFalse(m.frame[1]) || !IsFalse(m.frame[2]) then Normal(m) else Gave(ONE, m)
  {
    hide Exec, Eval, ExecList;
    var s := WHILE_BODY.head;
    Locals(c, scope, m);
    Literal(c, ONE.n, scope, m, 0);
    JumpMeans(c, None, scope, m, 0);
    IfMeans(c, Y, Break(None), scope, m, 0);
    BlockMeans(c, s.s.body, scope, m, 0);
    ListMeans(c, s.s.body.tail, scope, m, 0);
    ExecDef(c, s, {}, scope, m, 0);
  }


  /** do { if (y) return 1; y = true; } while (x); return 2; */
  const DO_BODY := Stms(Do(Block(Stms(If(Y, Return(Some(NumLit(ONE.n)))), Set(Y, TrueLit))), X), Gives(NumLit(TWO.n)))

  /** The body is run before the test. */
  lemma {:induction false} DoReturns(k: Call)
    requires k.Calls(DO_BODY)
    ensures k.Returns(if IsFalse(k.Value(1)) && IsFalse(k.Value(2)) then TWO else ONE,
      k.w)
  {
    hide Call.Returns, CodedBody, Exec, Eval, ExecDo, ExecList;
    var c, m, s := k.C(), k.M(), DO_BODY.head;
    var m1 := m.(frame := m.frame[2 := Boolean(true)]);
    DoMeans(c, m, k.scope, 1);
    DoMeans(c, m1, k.scope, 0);
    Literal(c, TWO.n, k.scope, m1, 1);
    ExecDef(c, s, {}, k.scope, m, 1);
    ListMeans(c, DO_BODY, k.scope, m, 1);
    ListMeans(c, DO_BODY.tail, k.scope, m1, 1);
    var last := IsFalse(k.Value(1)) && IsFalse(k.Value(2));
    Evaluated(k, DO_BODY, if last then TWO else ONE, if IsFalse(k.Value(2)) then m1 else m, 1);
  }

  /** One round. */
  lemma {:induction false} DoMeans(c: Ctx, m: Mem, scope: Scope, fuel: nat)
    requires c.names == LOCALS && |m.frame| == 4
    ensures var s, m1 := DO_BODY.head, m.(frame := m.frame[2 := Boolean(true)]);
      ExecDo(c, s, {}, scope, m, fuel) ==
        if !IsFalse(m.frame[2]) then Gave(ONE, m)
        else if IsFalse(m.frame[1]) then Normal(m1)
        else if fuel == 0 then Timeout else ExecDo(c, s, {}, scope, m1, fuel - 1)
  {
    hide Exec, Eval, ExecList;
    var s, m1 := DO_BODY.head, m.(frame := m.frame[2 := Boolean(true)]);
    Locals(c, scope, m);
    Locals(c, scope, m1);
    Literal(c, ONE.n, scope, m, fuel);
    EvalDef(c, TrueLit, scope, m);
    SetMeans(c, Y, 2, TrueLit, scope, m, fuel);
    IfMeans(c, Y, s.s.body.head.a, scope, m, fuel);
    BlockMeans(c, s.s.body, scope, m, fuel);
    ListMeans(c, s.s.body.tail, scope, m, fuel);
  }

  /** for (z = 1; x; x = y) { y = false; if (z) continue; return 2; } return z; */
  const FOR_BODY := Stms(
    For(ExpInit(Assign(Z, NumLit(ONE.n))), Some(X), Some(Assign(X, Y)),
      Block(Stms(ExpStm(Assign(Y, FalseLit)), Stms(If(Z, Continue(None)), Gives(NumLit(TWO.n)))))),
    Gives(Z))

  /** A continue goes on with the step, and the step with the test. */
  lemma {:induction false} ForReturns(k: Call)
    requires k.Calls(FOR_BODY)
    ensures k.Returns(ONE, k.w)
  {
    hide Call.Returns, CodedBody, Exec, Eval, ExecList;
    var c, m, s := k.C(), k.M(), FOR_BODY.head;
    var m1 := ForEnds(c, m, k.scope);
    Locals(c, k.scope, m1);
    ReturnMeans(c, Z, k.scope, m1, 1);
    ListMeans(c, FOR_BODY, k.scope, m, 1);
    ListMeans(c, FOR_BODY.tail, k.scope, m1, 1);
    Evaluated(k, FOR_BODY, ONE, m1, 1);
  }

  lemma {:induction false} ForEnds(c: Ctx, m: Mem, scope: Scope) returns (m1: Mem)
    requires c.names == LOCALS && |m.frame| == 4
    ensures Exec(c, FOR_BODY.head, {}, scope, m, 1) == Normal(m1)
    ensures |m1.frame| == 4 && m1.frame[3] == ONE && m1.w == m.w
  {
    hide Exec, Eval, ExecLoop, FindLocal;
    var s, m2 := FOR_BODY.head, m.(frame := m.frame[3 := ONE]);
    Literal(c, ONE.n, scope, m, 1);
    Slots();
    EvalDef(c, s.init.e, scope, m);
    ForMeans(c, m2, scope);
    ExecDef(c, s, {}, scope, m, 1);
    m1 := ExecLoop(c, s.cond, s.step, s.s, {}, scope, m2, 1).m;
  }


  lemma {:induction false} ForMeans(c: Ctx, m: Mem, scope: Scope)
    requires c.names == LOCALS && |m.frame| == 4 && m.frame[3] == ONE
    ensures var s := FOR_BODY.head;
      var m1 := m.(frame := m.frame[2 := Boolean(false)]);
      var m2 := m1.(frame := m1.frame[1 := Boolean(false)]);
      ExecLoop(c, s.cond, s.step, s.s, {}, scope, m, 1) == Normal(if IsFalse(m.frame[1]) then m else m2)
  {
    hide Exec, Eval, FindLocal, ExecList;
    var s := FOR_BODY.head;
    var m1 := m.(frame := m.frame[2 := Boolean(false)]);
    var m2 := m1.(frame := m1.frame[1 := Boolean(false)]);
    Locals(c, scope, m);
    Locals(c, scope, m2);
    ForRound(c, m, scope);
    Locals(c, scope, m1);
    Slots();
    EvalDef(c, s.step.value, scope, m1);
    assert ExecLoop(c, s.cond, s.step, s.s, {}, scope, m2, 0) == Normal(m2);
  }

  lemma {:induction false} ForRound(c: Ctx, m: Mem, scope: Scope)
    requires c.names == LOCALS && |m.frame| == 4 && m.frame[3] == ONE
    ensures Exec(c, FOR_BODY.head.s, {}, scope, m, 1)
      == Continued(None, m.(frame := m.frame[2 := Boolean(false)]))
  {
    hide Exec, Eval, ExecList;
    var s, m1 := FOR_BODY.head, m.(frame := m.frame[2 := Boolean(false)]);
    EvalDef(c, FalseLit, scope, m);
    SetMeans(c, Y, 2, FalseLit, scope, m, 1);
    Locals(c, scope, m1);
    JumpMeans(c, None, scope, m1, 1);
    IfMeans(c, Z, Continue(None), scope, m1, 1);
    BlockMeans(c, s.s.body, scope, m, 1);
    ListMeans(c, s.s.body.tail, scope, m1, 1);
  }

  /** for (z in x) return z; return y; */
  const IN_BODY := Stms(ForIn(Z, X, Return(Some(Z))), Gives(Y))

  lemma {:induction false} InReturns(k: Call, it: Value, w1: World, r: Option<Name>, w2: World)
    requires k.Calls(IN_BODY) && k.Makes(Iterator, On(k.Value(1), Bottom), k.scope, k.w, it, w1)
    requires k.lib.next(it, w1) == Ok(r, w2)
    ensures k.Returns(if r.Some? then Str(r.value) else k.Value(2), w2)
  {
    hide Call.Returns, CodedBody, Exec, Eval, FindLocal, ExecList;
    var c, m, s := k.C(), k.M(), IN_BODY.head;
    var m2 := m.(w := w2);
    var m3 := if r.Some? then m2.(frame := m2.frame[3 := Str(r.value)]) else m2;
    Slots();
    Locals(c, k.scope, m);
    Locals(c, k.scope, m3);
    ReturnMeans(c, Z, k.scope, m3, 0);
    ReturnMeans(c, Y, k.scope, m3, 0);
    ExecDef(c, s, {}, k.scope, m, 0);
    ListMeans(c, IN_BODY, k.scope, m, 0);
    ListMeans(c, IN_BODY.tail, k.scope, m3, 0);
    Evaluated(k, IN_BODY, if r.Some? then Str(r.value) else k.Value(2), m3, 0);
  }

  // ----- labels -----

  /** a: while (x) while (true) { if (y) break a; x = false; continue a; } return x; */
  const LABEL_BODY := Stms(
    Label("a", While(X, While(TrueLit,
      Block(Stms(If(Y, Break(Some("a"))), Stms(ExpStm(Assign(X, FalseLit)), Stms(Continue(Some("a")), NoStms))))))),
    Gives(X))

  /** A labelled break ends the outer loop; a labelled continue goes on with its test. */
  lemma {:induction false} LabelReturns(k: Call)
    requires k.Calls(LABEL_BODY)
    ensures k.Returns(if IsFalse(k.Value(1)) || !IsFalse(k.Value(2)) then k.Value(1) else Boolean(false), k.w)
  {
    hide Call.Returns, CodedBody, Exec, Eval, ExecLoop, ExecList;
    var c, m, s := k.C(), k.M(), LABEL_BODY.head;
    var m1 := m.(frame := m.frame[1 := Boolean(false)]);
    var m2 := if IsFalse(k.Value(1)) || !IsFalse(k.Value(2)) then m else m1;
    LabelMeans(c, m, k.scope);
    Locals(c, k.scope, m2);
    ReturnMeans(c, X, k.scope, m2, 1);
    ListMeans(c, LABEL_BODY, k.scope, m, 1);
    ListMeans(c, LABEL_BODY.tail, k.scope, m2, 1);
    Evaluated(k, LABEL_BODY, m2.frame[1], m2, 1);
  }

  lemma {:induction false} LabelMeans(c: Ctx, m: Mem, scope: Scope)
    requires c.names == LOCALS && |m.frame| == 4
    ensures var m1 := m.(frame := m.frame[1 := Boolean(false)]);
      Exec(c, LABEL_BODY.head, {}, scope, m, 1) == Normal(if IsFalse(m.frame[1]) || !IsFalse(m.frame[2]) then m else m1)
  {
    hide Exec, ExecLoop;
    var s := LABEL_BODY.head;
    var none: set<Name> := {};
    ExecDef(c, s, none, scope, m, 1);
    assert none + {"a"} == {"a"};
    ExecDef(c, s.s, {"a"}, scope, m, 1);
    OuterMeans(c, m, scope, 1);
    OuterMeans(c, m.(frame := m.frame[1 := Boolean(false)]), scope, 0);
  }

  lemma {:induction false} OuterMeans(c: Ctx, m: Mem, scope: Scope, fuel: nat)
    requires c.names == LOCALS && |m.frame| == 4
    ensures var s, m1 := LABEL_BODY.head.s, m.(frame := m.frame[1 := Boolean(false)]);
      ExecLoop(c, Some(X), None, s.s, {"a"}, scope, m, fuel) ==
        if IsFalse(m.frame[1]) then Normal(m)
        else if !IsFalse(m.frame[2]) then Broke(Some("a"), m)
        else if fuel == 0 then Timeout else ExecLoop(c, Some(X), None, s.s, {"a"}, scope, m1, fuel - 1)
  {
    hide Exec, Eval;
    var s := LABEL_BODY.head.s;
    Locals(c, scope, m);
    ExecDef(c, s.s, {}, scope, m, fuel);
    InnerMeans(c, m, scope, fuel);
  }

  lemma {:induction false} InnerMeans(c: Ctx, m: Mem, scope: Scope, fuel: nat)
    requires c.names == LOCALS && |m.frame| == 4
    ensures var s := LABEL_BODY.head.s.s;
      Exec(c, s, {}, scope, m, fuel) ==
        if !IsFalse(m.frame[2]) then Broke(Some("a"), m)
        else Continued(Some("a"), m.(frame := m.frame[1 := Boolean(false)]))
  {
    hide Exec, Eval;
    EvalDef(c, TrueLit, scope, m);
    InnerBody(c, m, scope, fuel);
    ExecDef(c, LABEL_BODY.head.s.s, {}, scope, m, fuel);
  }

  lemma {:induction false} InnerBody(c: Ctx, m: Mem, scope: Scope, fuel: nat)
    requires c.names == LOCALS && |m.frame| == 4
    ensures var s := LABEL_BODY.head.s.s.s;
      Exec(c, s, {}, scope, m, fuel) ==
        if !IsFalse(m.frame[2]) then Broke(Some("a"), m)
        else Continued(Some("a"), m.(frame := m.frame[1 := Boolean(false)]))
  {
    hide Exec, Eval, ExecList, IsFalse;
    var b, m1 := LABEL_BODY.head.s.s.s.body, m.(frame := m.frame[1 := Boolean(false)]);
    Locals(c, scope, m);
    JumpMeans(c, Some("a"), scope, m, fuel);
    IfMeans(c, Y, Break(Some("a")), scope, m, fuel);
    EvalDef(c, FalseLit, scope, m);
    SetMeans(c, X, 1, FalseLit, scope, m, fuel);
    JumpMeans(c, Some("a"), scope, m1, fuel);
    BlockMeans(c, b, scope, m, fuel);
    ListMeans(c, b.tail, scope, m, fuel);
    ListMeans(c, b.tail.tail, scope, m1, fuel);
  }


  // ----- exceptions and scopes -----

  /** try { throw x; } catch (e) { return e; } return 1; */
  const TRY_BODY := Stms(Try(Throw(X), "e", Return(Some(Ident("e")))), Gives(NumLit(ONE.n)))

  /** The handler has the exception in a scope of its own, and the call ends in its own scope. */
  lemma {:induction false} TryReturns(k: Call, x: Value, w1: World, o: Value, w2: World, e: Value, w3: World)
    requires k.CallsOutside(TRY_BODY) && k.Makes(GetVar("x"), Bottom, k.scope, k.w, x, w1)
    requires k.Makes(CatchScope("e"), On(x, Bottom), k.scope, w1, o, w2)
    requires k.Makes(GetVar("e"), Bottom, Inner(o, k.scope), w2, e, w3)
    ensures k.Returns(e, w3)
  {
    hide Call.Returns, CodedBody, Exec, Eval, ExecList;
    var c, m, s := k.C(), k.M(), TRY_BODY.head;
    Outside(c, "x", k.scope, m);
    ThrowMeans(c, X, k.scope, m, 0);
    Outside(c, "e", Inner(o, k.scope), m.(w := w2));
    ReturnMeans(c, Ident("e"), Inner(o, k.scope), m.(w := w2), 0);
    ExecDef(c, s, {}, k.scope, m, 0);
    ListMeans(c, TRY_BODY, k.scope, m, 0);
    Evaluated(k, TRY_BODY, e, m.(w := w3), 0);
  }

  /** with (x) y; return z; */
  const WITH_BODY := Stms(With(X, ExpStm(Y)), Gives(Z))

  /** The object's scope is there for the statement, and not for the next. */
  lemma {:induction false} WithReturns(k: Call, x: Value, w1: World, o: Value, w2: World, y: Value, w3: World,
    z: Value, w4: World)
    requires k.CallsOutside(WITH_BODY) && k.Makes(GetVar("x"), Bottom, k.scope, k.w, x, w1)
    requires k.Makes(WithScope, On(x, Bottom), k.scope, w1, o, w2)
    requires k.Makes(GetVar("y"), Bottom, Inner(o, k.scope), w2, y, w3)
    requires k.Makes(GetVar("z"), Bottom, k.scope, w3, z, w4)
    ensures k.Returns(z, w4)
  {
    hide Call.Returns, CodedBody, Exec, Eval, ExecList;
    var c, m, s := k.C(), k.M(), WITH_BODY.head;
    Outside(c, "x", k.scope, m);
    Outside(c, "y", Inner(o, k.scope), m.(w := w2));
    ExpMeans(c, Y, Inner(o, k.scope), m.(w := w2), 0);
    ExecDef(c, s, {}, k.scope, m, 0);
    Outside(c, "z", k.scope, m.(w := w3));
    ReturnMeans(c, Z, k.scope, m.(w := w3), 0);
    ListMeans(c, WITH_BODY, k.scope, m, 0);
    ListMeans(c, WITH_BODY.tail, k.scope, m.(w := w3), 0);
    Evaluated(k, WITH_BODY, z, m.(w := w4), 0);
  }

  // ----- expressions -----

  /** return x++; and return ++x; the value before as a number, or the one after. */
  lemma {:induction false} CrementReturns(k: Call, inc: bool, n: Number, w1: World)
    requires k.lib.number(k.Value(1), k.w) == Ok(n, w1)
    ensures k.Calls(Gives(Crement(inc, true, X))) ==> k.Returns(Num(n), w1)
    ensures k.Calls(Gives(Crement(inc, false, X))) ==> k.Returns(Num(k.lib.bump(inc, n)), w1)
  {
    hide Call.Returns, CodedBody, Eval, FindLocal;
    if k.names == LOCALS && |k.frame| == 4 {
      Slots();
      EvalDef(k.C(), Crement(inc, true, X), k.scope, k.M());
      EvalDef(k.C(), Crement(inc, false, X), k.scope, k.M());
      if k.Calls(Gives(Crement(inc, true, X))) { ReturnGives(k, Crement(inc, true, X)); }
      if k.Calls(Gives(Crement(inc, false, X))) { ReturnGives(k, Crement(inc, false, X)); }
    }
  }

  /** x++; return x; */
  lemma {:induction false} BumpReturns(k: Call, inc: bool, post: bool, n: Number, w1: World)
    requires k.Calls(Stms(ExpStm(Crement(inc, post, X)), Gives(X))) && k.lib.number(k.Value(1), k.w) == Ok(n, w1)
    ensures k.Returns(Num(k.lib.bump(inc, n)), w1)
  {
    hide Call.Returns, CodedBody, Exec, Eval, FindLocal, ExecList;
    var c, m, e := k.C(), k.M(), Crement(inc, post, X);
    var m1 := Mem(m.frame[1 := Num(k.lib.bump(inc, n))], w1);
    Slots();
    EvalDef(c, e, k.scope, m);
    ExpMeans(c, e, k.scope, m, 0);
    Locals(c, k.scope, m1);
    ReturnMeans(c, X, k.scope, m1, 0);
    ListMeans(c, Stms(ExpStm(e), Gives(X)), k.scope, m, 0);
    ListMeans(c, Gives(X), k.scope, m1, 0);
    Evaluated(k, Stms(ExpStm(e), Gives(X)), m1.frame[1], m1, 0);
  }

  /** x op= y; return x; */
  lemma {:induction false} AssignOpReturns(k: Call, op: BinOp, v: Value, w1: World)
    requires k.Calls(Stms(ExpStm(AssignOp(op, X, Y)), Gives(X)))
    requires k.Makes(Binop(op), On(k.Value(2), On(k.Value(1), Bottom)), k.scope, k.w, v, w1)
    ensures k.Returns(v, w1)
  {
    hide Call.Returns, CodedBody, Exec, Eval, FindLocal, ExecList;
    var c, m, e := k.C(), k.M(), AssignOp(op, X, Y);
    var m1 := Mem(m.frame[1 := v], w1);
    Slots();
    Locals(c, k.scope, m);
    EvalDef(c, e, k.scope, m);
    ExpMeans(c, e, k.scope, m, 0);
    Locals(c, k.scope, m1);
    ReturnMeans(c, X, k.scope, m1, 0);
    ListMeans(c, Stms(ExpStm(e), Gives(X)), k.scope, m, 0);
    ListMeans(c, Gives(X), k.scope, m1, 0);
    Evaluated(k, Stms(ExpStm(e), Gives(X)), v, m1, 0);
  }

  /** return x op y; for every operator: the left operand is the deeper one. */
  lemma {:induction false} BinaryReturns(k: Call, op: BinOp, v: Value, w1: World)
    requires k.Calls(Gives(Binary(op, X, Y)))
    requires k.Makes(Binop(op), On(k.Value(2), On(k.Value(1), Bottom)), k.scope, k.w, v, w1)
    ensures k.Returns(v, w1)
  {
    hide Call.Returns, CodedBody, Eval;
    Locals(k.C(), k.scope, k.M());
    EvalDef(k.C(), Binary(op, X, Y), k.scope, k.M());
    ReturnGives(k, Binary(op, X, Y));
  }

  /** The same of variables that are not in slots: the left operand is evaluated first. */
  lemma {:induction false} BinaryOrder(k: Call, op: BinOp, x: Value, w1: World, y: Value, w2: World, v: Value,
    w3: World)
    requires k.CallsOutside(Gives(Binary(op, X, Y)))
    requires k.Makes(GetVar("x"), Bottom, k.scope, k.w, x, w1) && k.Makes(GetVar("y"), Bottom, k.scope, w1, y, w2)
    requires k.Makes(Binop(op), On(y, On(x, Bottom)), k.scope, w2, v, w3)
    ensures k.Returns(v, w3)
  {
    hide Call.Returns, CodedBody, Eval;
    Outside(k.C(), "x", k.scope, k.M());
    Outside(k.C(), "y", k.scope, k.M().(w := w1));
    EvalDef(k.C(), Binary(op, X, Y), k.scope, k.M());
    ReturnGives(k, Binary(op, X, Y));
  }

  lemma {:induction false} UnaryReturns(k: Call, u: UnOp, v: Value, w1: World)
    requires k.Calls(Gives(Unary(u, X))) && k.Makes(Unop(u), On(k.Value(1), Bottom), k.scope, k.w, v, w1)
    ensures k.Returns(v, w1)
  {
    hide Call.Returns, CodedBody, Eval;
    Locals(k.C(), k.scope, k.M());
    EvalDef(k.C(), Unary(u, X), k.scope, k.M());
    ReturnGives(k, Unary(u, X));
  }

  /** return (x, y); */
  lemma {:induction false} CommaReturns(k: Call)
    requires k.Calls(Gives(Comma(X, Y)))
    ensures k.Returns(k.Value(2), k.w)
  {
    hide Call.Returns, CodedBody, Eval;
    Locals(k.C(), k.scope, k.M());
    EvalDef(k.C(), Comma(X, Y), k.scope, k.M());
    ReturnGives(k, Comma(X, Y));
  }

  // ----- calls and objects -----

  const TWO_ARGS := Exps(Y, Exps(Z, NoExps))

  /** return x(y, z); */
  lemma {:induction false} CallReturns(k: Call, v: Value, w1: World)
    requires k.Calls(Gives(Exp.Call(X, TWO_ARGS)))
    requires k.Makes(Invoke, On(k.Value(3), On(k.Value(2), On(Undefined, On(k.Value(1), Bottom)))), k.scope, k.w, v, w1)
    ensures k.Returns(v, w1)
  {
    hide Call.Returns, CodedBody, Eval;
    Locals(k.C(), k.scope, k.M());
    EvalDef(k.C(), Exp.Call(X, TWO_ARGS), k.scope, k.M());
    TwoArgs(k.C(), On(Undefined, On(k.Value(1), Bottom)), k.scope, k.M());
    ReturnGives(k, Exp.Call(X, TWO_ARGS));
  }

  /** return new x(y, z); */
  lemma {:induction false} NewReturns(k: Call, v: Value, w1: World)
    requires k.Calls(Gives(New(X, TWO_ARGS)))
    requires k.Makes(Construct, On(k.Value(3), On(k.Value(2), On(k.Value(1), Bottom))), k.scope, k.w, v, w1)
    ensures k.Returns(v, w1)
  {
    hide Call.Returns, CodedBody, Eval;
    Locals(k.C(), k.scope, k.M());
    EvalDef(k.C(), New(X, TWO_ARGS), k.scope, k.M());
    TwoArgs(k.C(), On(k.Value(1), Bottom), k.scope, k.M());
    ReturnGives(k, New(X, TWO_ARGS));
  }

  lemma {:induction false} TwoArgs(c: Ctx, vs: Ops, scope: Scope, m: Mem)
    requires c.names == LOCALS && |m.frame| == 4
    ensures EvalArgs(c, TWO_ARGS, vs, scope, m) == Val(On(m.frame[3], On(m.frame[2], vs)), m)
  {
    hide Eval;
    Locals(c, scope, m);
    assert EvalArgs(c, NoExps, On(m.frame[3], On(m.frame[2], vs)), scope, m)
      == Val(On(m.frame[3], On(m.frame[2], vs)), m);
  }

  /** return x.m(y, z); the object is what `this` is. */
  lemma {:induction false} MethodReturns(k: Call, name: Name, g: Value, w1: World, v: Value, w2: World)
    requires k.Calls(Gives(Exp.Call(Member(X, name), TWO_ARGS)))
    requires k.Makes(GetMember(name), On(k.Value(1), Bottom), k.scope, k.w, g, w1)
    requires k.Makes(Invoke, On(k.Value(3), On(k.Value(2), On(k.Value(1), On(g, Bottom)))), k.scope, w1, v, w2)
    ensures k.Returns(v, w2)
  {
    hide Call.Returns, CodedBody, Eval, EvalArgs;
    var m1 := k.M().(w := w1);
    Locals(k.C(), k.scope, k.M());
    EvalDef(k.C(), Exp.Call(Member(X, name), TWO_ARGS), k.scope, k.M());
    TwoArgs(k.C(), On(k.Value(1), On(g, Bottom)), k.scope, m1);
    assert EvalRef(k.C(), Member(X, name), k.scope, k.M()) == Val(MemberRef(k.Value(1), name), k.M());
    assert EvalCallee(k.C(), Member(X, name), k.scope, k.M()) == Val(On(k.Value(1), On(g, Bottom)), m1);
    ReturnGives(k, Exp.Call(Member(X, name), TWO_ARGS));
  }

  /** return x[y] = z; */
  lemma {:induction false} StoreReturns(k: Call, v: Value, w1: World)
    requires k.Calls(Gives(Assign(Index(X, Y), Z)))
    requires k.Makes(SetProp, On(k.Value(3), On(k.Value(2), On(k.Value(1), Bottom))), k.scope, k.w, v, w1)
    ensures k.Returns(v, w1)
  {
    hide Call.Returns, CodedBody, Eval;
    Locals(k.C(), k.scope, k.M());
    EvalDef(k.C(), Assign(Index(X, Y), Z), k.scope, k.M());
    ReturnGives(k, Assign(Index(X, Y), Z));
  }

  /** The same of variables that are not in slots: object, name and value are evaluated in this order. */
  lemma {:induction false} StoreOrder(k: Call, x: Value, w1: World, y: Value, w2: World, z: Value, w3: World,
    v: Value, w4: World)
    requires k.CallsOutside(Gives(Assign(Index(X, Y), Z)))
    requires k.Makes(GetVar("x"), Bottom, k.scope, k.w, x, w1) && k.Makes(GetVar("y"), Bottom, k.scope, w1, y, w2)
    requires k.Makes(GetVar("z"), Bottom, k.scope, w2, z, w3)
    requires k.Makes(SetProp, On(z, On(y, On(x, Bottom))), k.scope, w3, v, w4)
    ensures k.Returns(v, w4)
  {
    hide Call.Returns, CodedBody, Eval;
    Outside(k.C(), "x", k.scope, k.M());
    Outside(k.C(), "y", k.scope, k.M().(w := w1));
    Outside(k.C(), "z", k.scope, k.M().(w := w2));
    EvalDef(k.C(), Assign(Index(X, Y), Z), k.scope, k.M());
    ReturnGives(k, Assign(Index(X, Y), Z));
  }

  /** return {a: x}; return {get a() {...}}; return {set a(v) {...}}; where function i is made. */
  lemma {:induction false} ObjectReturns(k: Call, key: string, kind: PropKind, o: Value, w1: World, g: Value, w2: World,
    u: Value, w3: World)
    requires kind.PropVal? ==> kind.e == X
    requires k.Calls(Gives(ObjLit(Prop(StrLit(key), kind, NoProps))))
    requires k.Makes(NewObject, Bottom, k.scope, k.w, o, w1)
    requires match kind
      case PropVal(_) =>
        g == k.Value(1) && w2 == w1 && k.Makes(InitVal, On(g, On(Str(key), On(o, Bottom))), k.scope, w2, u, w3)
      case PropGet(i) =>
        k.Makes(Closure(i), Bottom, k.scope, w1, g, w2)
        && k.Makes(InitGetter, On(g, On(Str(key), On(o, Bottom))), k.scope, w2, u, w3)
      case PropSet(i) =>
        k.Makes(Closure(i), Bottom, k.scope, w1, g, w2)
        && k.Makes(InitSetter, On(g, On(Str(key), On(o, Bottom))), k.scope, w2, u, w3)
    ensures k.Returns(o, w3)
  {
    hide Call.Returns, CodedBody, Eval;
    var e, props := ObjLit(Prop(StrLit(key), kind, NoProps)), Prop(StrLit(key), kind, NoProps);
    Locals(k.C(), k.scope, k.M().(w := w1));
    EvalDef(k.C(), e, k.scope, k.M());
    assert EvalProps(k.C(), NoProps, o, k.scope, k.M().(w := w3)) == Val(o, k.M().(w := w3));
    assert EvalProps(k.C(), props, o, k.scope, k.M().(w := w1)) == Val(o, k.M().(w := w3));
    ReturnGives(k, e);
  }

  /** return [x, , y]; the hole counts. */
  lemma {:induction false} ArrayReturns(k: Call, o: Value, w1: World, u: Value, w2: World, v: Value, w3: World)
    requires k.Calls(Gives(ArrLit(Item(X, Hole(Item(Y, NoItems))))))
    requires k.Makes(NewArray, Bottom, k.scope, k.w, o, w1)
    requires k.Makes(InitVal, On(k.Value(1), On(Num(Finite(false, 0.0)), On(o, Bottom))), k.scope, w1, u, w2)
    requires k.Makes(InitVal, On(k.Value(2), On(TWO, On(o, Bottom))), k.scope, w2, v, w3)
    ensures k.Returns(o, w3)
  {
    hide Call.Returns, CodedBody, Eval;
    var c, m := k.C(), k.M();
    var rest := Item(Y, NoItems);
    Locals(c, k.scope, m.(w := w1));
    Locals(c, k.scope, m.(w := w2));
    EvalDef(c, ArrLit(Item(X, Hole(rest))), k.scope, m);
    assert EvalItems(c, NoItems, 3, o, k.scope, m.(w := w3)) == Val(o, m.(w := w3));
    assert EvalItems(c, rest, 2, o, k.scope, m.(w := w2)) == Val(o, m.(w := w3));
    assert EvalItems(c, Hole(rest), 1, o, k.scope, m.(w := w2)) == Val(o, m.(w := w3));
    ReturnGives(k, ArrLit(Item(X, Hole(rest))));
  }
}
