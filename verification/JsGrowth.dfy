/** Code that has been emitted stays: what follows it, and new constants, change nothing. */
module JsGrowth {
  import opened JsTree
  import opened JsMachine
  import opened JsMeaning
  import opened JsCode
  import opened JsTargets

  ghost predicate Extends(f: Fn, g: Fn) {
    f.code <= g.code && f.numtab <= g.numtab && f.strtab <= g.strtab && f.funtab <= g.funtab
  }

  ghost predicate Grows(f: Fn, g: Fn) {
    forall a: nat, i: Instr, b: nat {:trigger Is(g, a, i, b)} {:trigger Is(f, a, i, b)} :: Is(f, a, i, b) ==>
      Is(g, a, i, b)
  }

  lemma {:induction false} ExtendsGrows(f: Fn, g: Fn)
    requires Extends(f, g)
    ensures Grows(f, g)
  {
    forall a: nat, i: Instr, b: nat | Is(f, a, i, b)
      ensures Is(g, a, i, b)
    {
      assert f.code[a] == g.code[a];
    }
  }

  // ----- expressions -----

  lemma {:induction false} CodedUp(f: Fn, g: Fn, ns: Names, e: Exp, a: nat)
    requires Grows(f, g) && Coded(f, ns, e, a)
    ensures Coded(g, ns, e, a)
    decreases e, 3
  {
    hide Is, Coded, SizeE, CodedNode;
    CodedDef(f, ns, e, a);
    CodedDef(g, ns, e, a);
    match e
    case ObjLit(_) | ArrLit(_) | Index(_, _) | Member(_, _) | Call(_, _) => PartsUp(f, g, ns, e, a);
    case Delete(_) | Typeof(_) | Void(_) | Unary(_, _) | Crement(_, _, _) => OperandUp(f, g, ns, e, a);
    case New(_, _) | Binary(_, _, _) | Assign(_, _) | AssignOp(_, _, _) => PairUp(f, g, ns, e, a);
    case Comma(_, _) | LogOr(_, _) | LogAnd(_, _) | Cond(_, _, _) => BranchUp(f, g, ns, e, a);
    case _ => LeafUp(f, g, ns, e, a);
  }

  lemma {:induction false} LeafUp(f: Fn, g: Fn, ns: Names, e: Exp, a: nat)
    requires Grows(f, g) && CodedNode(f, ns, e, a)
      && (e.StrLit? || e.NumLit? || e.UndefLit? || e.NullLit? || e.TrueLit? || e.FalseLit?
      || e.This? || e.RegexpLit? || e.FunLit? || e.Ident?)
    ensures CodedNode(g, ns, e, a)
    decreases e, 2
  {
    hide Is, Coded, SizeE;
  }

  lemma {:induction false} PartsUp(f: Fn, g: Fn, ns: Names, e: Exp, a: nat)
    requires Grows(f, g) && CodedNode(f, ns, e, a) && (e.ObjLit? || e.ArrLit? || e.Index? || e.Member? || e.Call?)
    ensures CodedNode(g, ns, e, a)
    decreases e, 2
  {
    hide Is, Coded, SizeE, CodedProps, CodedItems, CodedCall, CodedRef, SizeRef;
    match e
    case ObjLit(props) => PropsUp(f, g, ns, props, a + 1);
    case ArrLit(items) => ItemsUp(f, g, ns, items, 0, a + 1);
    case Call(_, _) => CallUp(f, g, ns, e, a);
    case Index(_, _) | Member(_, _) => RefUp(f, g, ns, e, a);
  }

  lemma {:induction false} OperandUp(f: Fn, g: Fn, ns: Names, e: Exp, a: nat)
    requires Grows(f, g) && CodedNode(f, ns, e, a) && (e.Delete? || e.Typeof? || e.Void? || e.Unary? || e.Crement?)
    ensures CodedNode(g, ns, e, a)
    decreases e, 2
  {
    hide Is, Coded, SizeE, CodedRef, SizeRef, CodedOld, SizeOld;
    match e
    case Delete(b) => RefUp(f, g, ns, b, a);
    case Typeof(b) => if !b.Ident? { CodedUp(f, g, ns, b, a); }
    case Crement(_, _, b) => OldUp(f, g, ns, b, a);
    case Void(_) | Unary(_, _) => CodedUp(f, g, ns, e.a, a);
  }

  lemma {:induction false} PairUp(f: Fn, g: Fn, ns: Names, e: Exp, a: nat)
    requires Grows(f, g) && CodedNode(f, ns, e, a) && (e.New? || e.Binary? || e.Assign? || e.AssignOp?)
    ensures CodedNode(g, ns, e, a)
    decreases e, 2
  {
    hide Is, Coded, SizeE, CodedRef, SizeRef, CodedOld, SizeOld, CodedArgs, SizeArgs;
    match e
    case New(b, args) =>
      CodedUp(f, g, ns, b, a);
      ArgsUp(f, g, ns, args, a + SizeE(b));
    case Binary(_, b, d) =>
      CodedUp(f, g, ns, b, a);
      CodedUp(f, g, ns, d, a + SizeE(b));
    case Assign(b, d) =>
      RefUp(f, g, ns, b, a);
      CodedUp(f, g, ns, d, a + SizeRef(b));
    case AssignOp(_, b, d) =>
      OldUp(f, g, ns, b, a);
      CodedUp(f, g, ns, d, a + SizeOld(b));
  }

  lemma {:induction false} BranchUp(f: Fn, g: Fn, ns: Names, e: Exp, a: nat)
    requires Grows(f, g) && CodedNode(f, ns, e, a) && (e.Comma? || e.LogOr? || e.LogAnd? || e.Cond?)
    ensures CodedNode(g, ns, e, a)
    decreases e, 2
  {
    hide Is, Coded, SizeE;
    CodedUp(f, g, ns, e.a, a);
    var p := a + SizeE(e.a);
    if e.Comma? {
      CodedUp(f, g, ns, e.b, p + 1);
    } else if e.Cond? {
      CodedUp(f, g, ns, e.c, p + 2);
      CodedUp(f, g, ns, e.b, p + 2 + SizeE(e.c) + 2);
    } else {
      CodedUp(f, g, ns, e.b, p + 4);
    }
  }

  lemma {:induction false} RefUp(f: Fn, g: Fn, ns: Names, e: Exp, a: nat)
    requires Grows(f, g) && CodedRef(f, ns, e, a)
    ensures CodedRef(g, ns, e, a)
    decreases e, 0
  {
    hide Is, Coded, SizeE;
    match e
    case Ident(_) =>
    case Index(b, d) =>
      CodedUp(f, g, ns, b, a);
      CodedUp(f, g, ns, d, a + SizeE(b));
    case Member(b, _) => CodedUp(f, g, ns, b, a);
  }

  lemma {:induction false} OldUp(f: Fn, g: Fn, ns: Names, e: Exp, a: nat)
    requires Grows(f, g) && CodedOld(f, ns, e, a)
    ensures CodedOld(g, ns, e, a)
    decreases e, 1
  {
    hide Is, Coded, SizeE;
    if !e.Ident? { RefUp(f, g, ns, e, a); }
  }

  lemma {:induction false} CallUp(f: Fn, g: Fn, ns: Names, e: Exp, a: nat)
    requires Grows(f, g) && e.Call? && CodedCall(f, ns, e, a)
    ensures CodedCall(g, ns, e, a)
    decreases e, 1
  {
    hide Is, Coded, SizeE, CodedArgs, SizeArgs;
    if e.f == Ident("eval") {
      ArgsUp(f, g, ns, e.args, a);
      if e.args.Exps? { PopsUp(f, g, a + SizeArgs(e.args), Length(e.args) - 1); }
    } else {
      CalleeUp(f, g, ns, e.f, a);
      ArgsUp(f, g, ns, e.args, a + SizeCallee(e.f));
    }
  }

  lemma {:induction false} PopsUp(f: Fn, g: Fn, a: nat, n: nat)
    requires Grows(f, g) && Pops(f, a, n)
    ensures Pops(g, a, n)
    decreases n
  {
    hide Is;
    if n > 0 { PopsUp(f, g, a + 1, n - 1); }
  }

  lemma {:induction false} CalleeUp(f: Fn, g: Fn, ns: Names, e: Exp, a: nat)
    requires Grows(f, g) && CodedCallee(f, ns, e, a)
    ensures CodedCallee(g, ns, e, a)
    decreases e, 4
  {
    hide Is, Coded, SizeE;
    if e.Index? {
      CodedUp(f, g, ns, e.a, a);
      CodedUp(f, g, ns, e.b, a + SizeE(e.a) + 1);
    } else if e.Member? {
      CodedUp(f, g, ns, e.a, a);
    } else {
      CodedUp(f, g, ns, e, a);
    }
  }

  lemma {:induction false} ArgsUp(f: Fn, g: Fn, ns: Names, args: Exps, a: nat)
    requires Grows(f, g) && CodedArgs(f, ns, args, a)
    ensures CodedArgs(g, ns, args, a)
    decreases args
  {
    hide Is, Coded, SizeE;
    if args.Exps? {
      CodedUp(f, g, ns, args.head, a);
      ArgsUp(f, g, ns, args.tail, a + SizeE(args.head));
    }
  }

  lemma {:induction false} ItemsUp(f: Fn, g: Fn, ns: Names, items: Items, k: nat, a: nat)
    requires Grows(f, g) && CodedItems(f, ns, items, k, a)
    ensures CodedItems(g, ns, items, k, a)
    decreases items
  {
    hide Is, Coded, SizeE;
    match items
    case NoItems =>
    case Hole(rest) => ItemsUp(f, g, ns, rest, k + 1, a);
    case Item(e, rest) =>
      CodedUp(f, g, ns, e, a + SizeNum(Whole(k)));
      ItemsUp(f, g, ns, rest, k + 1, a + SizeNum(Whole(k)) + SizeE(e) + 1);
  }

  lemma {:induction false} KindUp(f: Fn, g: Fn, ns: Names, kind: PropKind, a: nat)
    requires Grows(f, g) && CodedKind(f, ns, kind, a)
    ensures CodedKind(g, ns, kind, a)
    decreases kind
  {
    hide Is, Coded;
    if kind.PropVal? { CodedUp(f, g, ns, kind.e, a); }
  }

  lemma {:induction false} PropsUp(f: Fn, g: Fn, ns: Names, props: Props, a: nat)
    requires Grows(f, g) && CodedProps(f, ns, props, a)
    ensures CodedProps(g, ns, props, a)
    decreases props
  {
    hide Is, Coded, SizeE, CodedKind;
    if props.Prop? {
      var p := a + SizeE(props.key);
      CodedUp(f, g, ns, props.key, a);
      KindUp(f, g, ns, props.kind, p);
      PropsUp(f, g, ns, props.rest, p + SizeKind(props.kind) + 1);
    }
  }

  // ----- statements -----

  lemma {:induction false} OptUp(f: Fn, g: Fn, ns: Names, e: Option<Exp>, a: nat)
    requires Grows(f, g) && (e.Some? ==> Coded(f, ns, e.value, a))
    ensures e.Some? ==> Coded(g, ns, e.value, a)
  {
    if e.Some? { CodedUp(f, g, ns, e.value, a); }
  }

  lemma {:induction false} VarsUp(f: Fn, g: Fn, ns: Names, vars: Vars, a: nat)
    requires Grows(f, g) && CodedVars(f, ns, vars, a)
    ensures CodedVars(g, ns, vars, a)
    decreases vars
  {
    hide Is, Coded, SizeE;
    match vars
    case NoVars =>
    case Var(_, None, rest) => VarsUp(f, g, ns, rest, a);
    case Var(_, Some(e), rest) =>
      CodedUp(f, g, ns, e, a);
      VarsUp(f, g, ns, rest, a + SizeE(e) + 3);
  }

  lemma {:induction false} InitUp(f: Fn, g: Fn, ns: Names, init: Init, a: nat)
    requires Grows(f, g) && CodedInit(f, ns, init, a)
    ensures CodedInit(g, ns, init, a)
  {
    hide Is, Coded, SizeE, CodedVars;
    match init
    case NoInit =>
    case VarInit(vars) => VarsUp(f, g, ns, vars, a);
    case ExpInit(e) => CodedUp(f, g, ns, e, a);
  }

  lemma {:induction false} ForAssignUp(f: Fn, g: Fn, ns: Names, e: Exp, a: nat)
    requires Grows(f, g) && CodedForAssign(f, ns, e, a)
    ensures CodedForAssign(g, ns, e, a)
  {
    hide Is, Coded, SizeE, CodedRef, SizeRef;
    if e.Index? || e.Member? { RefUp(f, g, ns, e, a); }
  }

  lemma {:induction false} ExitUp(f: Fn, g: Fn, way: Way, p: Path, k: nat, a: nat)
    requires Grows(f, g) && CodedExit(f, way, p, k, a)
    ensures CodedExit(g, way, p, k, a)
    decreases p
  {
    hide Is;
    if p.Inside? && Depth(p) != k { ExitUp(f, g, way, p.up, k, a + SizeLeave(way, p.kind, false)); }
  }

  lemma {:induction false} StmUp(f: Fn, g: Fn, ns: Names, s: Stm, p: Path, d: seq<Dest>, a: nat)
    requires Grows(f, g) && |d| == Depth(p) && CodedS(f, ns, s, p, d, a)
    ensures CodedS(g, ns, s, p, d, a)
    decreases s, 3
  {
    hide Is, CodedS, SizeS, CodedStm;
    CodedSDef(f, ns, s, p, d, a);
    CodedSDef(g, ns, s, p, d, a);
    match s
    case Block(_) | Label(_, _) => BodyUp(f, g, ns, s, p, d, a);
    case If(_, _) | IfElse(_, _, _) => IfUp(f, g, ns, s, p, d, a);
    case Do(_, _) | While(_, _) | For(_, _, _, _) | ForIn(_, _, _) => RoundsUp(f, g, ns, s, p, d, a);
    case Switch(_, _) => SwitchUp(f, g, ns, s, p, d, a);
    case Break(_) | Continue(_) | Return(_) => JumpUp(f, g, ns, s, p, d, a);
    case With(_, _) | Try(_, _, _) => GuardUp(f, g, ns, s, p, d, a);
    case _ => SimpleUp(f, g, ns, s, p, d, a);
  }

  lemma {:induction false} SimpleUp(f: Fn, g: Fn, ns: Names, s: Stm, p: Path, d: seq<Dest>, a: nat)
    requires Grows(f, g) && |d| == Depth(p) && CodedStm(f, ns, s, p, d, a)
      && (s.FunDec? || s.Empty? || s.VarStm? || s.Throw? || s.Debugger?
      || s.ExpStm?)
    ensures CodedStm(g, ns, s, p, d, a)
    decreases s, 2
  {
    hide Is, Coded, SizeE, SizeS, CodedVars;
    match s
    case VarStm(vars) => VarsUp(f, g, ns, vars, a);
    case Throw(e) => CodedUp(f, g, ns, e, a);
    case ExpStm(e) => CodedUp(f, g, ns, e, a);
    case _ =>
  }

  lemma {:induction false} BodyUp(f: Fn, g: Fn, ns: Names, s: Stm, p: Path, d: seq<Dest>, a: nat)
    requires Grows(f, g) && |d| == Depth(p) && CodedStm(f, ns, s, p, d, a) && (s.Block? || s.Label?)
    ensures CodedStm(g, ns, s, p, d, a)
    decreases s, 2
  {
    hide Is, CodedS, SizeS, CodedList;
    match s
    case Block(body) => ListUp(f, g, ns, body, Inside(Plain, p), d + [Dest(a + SizeS(s, p), 0)], a);
    case Label(x, b) => StmUp(f, g, ns, b, Inside(Labelled(x), p), d + [Dest(0, 0)], a);
  }

  lemma {:induction false} IfUp(f: Fn, g: Fn, ns: Names, s: Stm, p: Path, d: seq<Dest>, a: nat)
    requires Grows(f, g) && |d| == Depth(p) && CodedStm(f, ns, s, p, d, a) && (s.If? || s.IfElse?)
    ensures CodedStm(g, ns, s, p, d, a)
    decreases s, 2
  {
    hide Is, Coded, SizeE, CodedS, SizeS;
    var p1, d1, q := Inside(Plain, p), d + [Dest(a + SizeS(s, p), 0)], a + SizeE(s.c) + 2;
    CodedUp(f, g, ns, s.c, a);
    if s.If? {
      StmUp(f, g, ns, s.a, p1, d1, q);
    } else {
      StmUp(f, g, ns, s.b, p1, d1, q);
      StmUp(f, g, ns, s.a, p1, d1, q + SizeS(s.b, p1) + 2);
    }
  }

  lemma {:induction false} RoundsUp(f: Fn, g: Fn, ns: Names, s: Stm, p: Path, d: seq<Dest>, a: nat)
    requires Grows(f, g) && |d| == Depth(p) && CodedStm(f, ns, s, p, d, a) && (s.Do? || s.While? || s.For? || s.ForIn?)
    ensures CodedStm(g, ns, s, p, d, a)
    decreases s, 2
  {
    hide Is, Coded, SizeE, CodedS, SizeS, CodedInit, SizeInit, CodedLoop, CodedForIn;
    match s
    case Do(b, e) =>
      var q := a + SizeS(b, Inside(Loop, p));
      StmUp(f, g, ns, b, Inside(Loop, p), d + [Dest(a + SizeS(s, p), q)], a);
      CodedUp(f, g, ns, e, q);
    case While(_, _) => LoopUp(f, g, ns, s, a, p, d, a);
    case For(init, _, _, _) =>
      InitUp(f, g, ns, init, a);
      LoopUp(f, g, ns, s, a, p, d, a + SizeInit(init));
    case ForIn(_, _, _) => ForInUp(f, g, ns, s, p, d, a);
  }

  lemma {:induction false} SwitchUp(f: Fn, g: Fn, ns: Names, s: Stm, p: Path, d: seq<Dest>, a: nat)
    requires Grows(f, g) && |d| == Depth(p) && CodedStm(f, ns, s, p, d, a) && s.Switch?
    ensures CodedStm(g, ns, s, p, d, a)
    decreases s, 2
  {
    hide Is, Coded, SizeE, CodedS, SizeS, CodedTests, SizeTests, CodedBodies, SizeBodies;
    var q, p1 := a + SizeE(s.e), Inside(SwitchNode, p);
    var r := q + SizeTests(s.cases) + 3;
    CodedUp(f, g, ns, s.e, a);
    TestsUp(f, g, ns, s.cases, p1, q, r);
    BodiesUp(f, g, ns, s.cases, p1, d + [Dest(a + SizeS(s, p), 0)], r);
  }

  lemma {:induction false} JumpUp(f: Fn, g: Fn, ns: Names, s: Stm, p: Path, d: seq<Dest>, a: nat)
    requires Grows(f, g) && |d| == Depth(p) && CodedStm(f, ns, s, p, d, a) && (s.Break? || s.Continue? || s.Return?)
    ensures CodedStm(g, ns, s, p, d, a)
    decreases s, 2
  {
    hide Is, Coded, SizeE, CodedExit, SizeExit;
    match s
    case Break(l) => ExitUp(f, g, ByBreak, p, BreakTarget(p, l), a);
    case Continue(l) => ExitUp(f, g, ByContinue, p, ContinueTarget(p, l), a);
    case Return(e) =>
      OptUp(f, g, ns, e, a);
      ExitUp(f, g, ByReturn, p, 0, a + SizeOpt(e, 1));
  }

  lemma {:induction false} GuardUp(f: Fn, g: Fn, ns: Names, s: Stm, p: Path, d: seq<Dest>, a: nat)
    requires Grows(f, g) && |d| == Depth(p) && CodedStm(f, ns, s, p, d, a) && (s.With? || s.Try?)
    ensures CodedStm(g, ns, s, p, d, a)
    decreases s, 2
  {
    hide Is, Coded, SizeE, CodedS, SizeS;
    var d1 := d + [Dest(a + SizeS(s, p), 0)];
    if s.With? {
      CodedUp(f, g, ns, s.e, a);
      StmUp(f, g, ns, s.s, Inside(WithNode, p), d1, a + SizeE(s.e) + 1);
    } else {
      StmUp(f, g, ns, s.handler, Inside(CatchBody, p), d1, a + 4);
      StmUp(f, g, ns, s.s, Inside(TryBody, p), d1, a + 7 + SizeS(s.handler, Inside(CatchBody, p)));
    }
  }

  lemma {:induction false} ListUp(f: Fn, g: Fn, ns: Names, ss: Stms, p: Path, d: seq<Dest>, a: nat)
    requires Grows(f, g) && |d| == Depth(p) && CodedList(f, ns, ss, p, d, a)
    ensures CodedList(g, ns, ss, p, d, a)
    decreases ss, 0
  {
    hide Is, CodedS, SizeS;
    if ss.Stms? {
      StmUp(f, g, ns, ss.head, p, d, a);
      ListUp(f, g, ns, ss.tail, p, d, a + SizeS(ss.head, p));
    }
  }

  lemma {:induction false} LoopUp(f: Fn, g: Fn, ns: Names, s: Stm, start: nat, p: Path, d: seq<Dest>, a: nat)
    requires Grows(f, g) && |d| == Depth(p) && (s.While? || s.For?) && CodedLoop(f, ns, s, start, p, d, a)
    ensures CodedLoop(g, ns, s, start, p, d, a)
    decreases s, 1
  {
    hide Is, Coded, SizeE, CodedS, SizeS;
    var e, step, end := TestOf(s), StepOf(s), start + SizeS(s, p);
    var b := if e.Some? then a + SizeE(e.value) + 2 else a;
    var q := b + SizeS(s.s, Inside(Loop, p));
    OptUp(f, g, ns, e, a);
    OptUp(f, g, ns, step, q);
    StmUp(f, g, ns, s.s, Inside(Loop, p), d + [Dest(end, if s.While? then a else q)], b);
  }

  lemma {:induction false} ForInUp(f: Fn, g: Fn, ns: Names, s: Stm, p: Path, d: seq<Dest>, a: nat)
    requires Grows(f, g) && |d| == Depth(p) && s.ForIn? && CodedForIn(f, ns, s, p, d, a)
    ensures CodedForIn(g, ns, s, p, d, a)
    decreases s, 1
  {
    hide Is, Coded, SizeE, CodedS, SizeS, CodedForAssign;
    var q := a + SizeE(s.e) + 1;
    CodedUp(f, g, ns, s.e, a);
    ForAssignUp(f, g, ns, s.lhs, q + 3);
    StmUp(f, g, ns, s.s, Inside(ForInLoop, p), d + [Dest(a + SizeS(s, p), q)], q + 3 + SizeForAssign(s.lhs));
  }

  lemma {:induction false} TestsUp(f: Fn, g: Fn, ns: Names, cases: Cases, p: Path, a: nat, b: nat)
    requires Grows(f, g) && CodedTests(f, ns, cases, p, a, b)
    ensures CodedTests(g, ns, cases, p, a, b)
    decreases cases
  {
    hide Is, Coded, SizeE, SizeList;
    match cases
    case NoCases =>
    case Default(body, rest) => TestsUp(f, g, ns, rest, p, a, b + SizeList(body, p));
    case Case(e, body, rest) =>
      CodedUp(f, g, ns, e, a);
      TestsUp(f, g, ns, rest, p, a + SizeE(e) + 2, b + SizeList(body, p));
  }

  lemma {:induction false} BodiesUp(f: Fn, g: Fn, ns: Names, cases: Cases, p: Path, d: seq<Dest>, a: nat)
    requires Grows(f, g) && |d| == Depth(p) && CodedBodies(f, ns, cases, p, d, a)
    ensures CodedBodies(g, ns, cases, p, d, a)
    decreases cases, 0
  {
    hide Is, CodedList, SizeList;
    if !cases.NoCases? {
      ListUp(f, g, ns, cases.body, p, d, a);
      BodiesUp(f, g, ns, cases.rest, p, d, a + SizeList(cases.body, p));
    }
  }
}
