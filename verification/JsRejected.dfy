/** What the compiler reports an error for (jscompile.c): only accepted trees have code, and a tree is
    accepted if nothing in it is one of a few things. */
module JsRejected {
  import opened JsTree
  import opened JsMachine
  import opened JsMeaning
  import opened JsCode
  import opened JsTargets
  import opened JsAccepted

  // ----- only accepted trees have code -----

  lemma {:induction false} CodedAccepted(f: Fn, ns: Names, e: Exp, a: nat)
    requires Coded(f, ns, e, a)
    ensures Accepted(e)
    decreases e, 5
  {
    hide Coded, Accepted;
    match e
    case ObjLit(_) | ArrLit(_) | New(_, _) | Call(_, _) => ListAccepted(f, ns, e, a);
    case Index(_, _) | Member(_, _) | Delete(_) | Crement(_, _, _) | Assign(_, _) | AssignOp(_, _, _) =>
      PlaceAccepted(f, ns, e, a);
    case Typeof(_) | Void(_) | Unary(_, _) | Binary(_, _, _) | Comma(_, _) | LogOr(_, _) | LogAnd(_, _)
      | Cond(_, _, _) => OperandsAccepted(f, ns, e, a);
    case StrLit(_) | NumLit(_) | UndefLit | NullLit | TrueLit | FalseLit | This | RegexpLit(_, _) | FunLit(_)
      | Ident(_) => AcceptedDef(e);
  }

  lemma {:induction false} OperandsAccepted(f: Fn, ns: Names, e: Exp, a: nat)
    requires e.Typeof? || e.Void? || e.Unary? || e.Binary? || e.Comma? || e.LogOr? || e.LogAnd? || e.Cond?
    requires Coded(f, ns, e, a)
    ensures Accepted(e)
    decreases e, 4
  {
    hide Coded, Accepted, SizeE, Is, CodedLoad;
    CodedDef(f, ns, e, a);
    AcceptedDef(e);
    if e.Typeof? && e.a.Ident? {
      AcceptedDef(e.a);
    } else {
      CodedAccepted(f, ns, e.a, a);
    }
    var p := a + SizeE(e.a);
    match e
    case Binary(_, _, d) => CodedAccepted(f, ns, d, p);
    case Comma(_, d) => CodedAccepted(f, ns, d, p + 1);
    case LogOr(_, d) => CodedAccepted(f, ns, d, p + 4);
    case LogAnd(_, d) => CodedAccepted(f, ns, d, p + 4);
    case Cond(_, d, g) =>
      CodedAccepted(f, ns, g, p + 2);
      CodedAccepted(f, ns, d, p + 2 + SizeE(g) + 2);
    case _ =>
  }

  lemma {:induction false} RefAccepted(f: Fn, ns: Names, e: Exp, a: nat)
    requires CodedRef(f, ns, e, a)
    ensures AcceptedRef(e)
    decreases e, 0
  {
    hide Coded, Accepted, SizeE;
    match e
    case Index(b, d) =>
      CodedAccepted(f, ns, b, a);
      CodedAccepted(f, ns, d, a + SizeE(b));
    case Member(b, _) => CodedAccepted(f, ns, b, a);
    case _ =>
  }

  lemma {:induction false} OldAccepted(f: Fn, ns: Names, e: Exp, a: nat)
    requires CodedOld(f, ns, e, a)
    ensures AcceptedRef(e)
    decreases e, 1
  {
    hide CodedRef, Coded, Accepted, SizeRef, Is, CodedLoad;
    if !e.Ident? { RefAccepted(f, ns, e, a); }
  }

  lemma {:induction false} PlaceAccepted(f: Fn, ns: Names, e: Exp, a: nat)
    requires e.Index? || e.Member? || e.Delete? || e.Crement? || e.Assign? || e.AssignOp?
    requires Coded(f, ns, e, a)
    ensures Accepted(e)
    decreases e, 4
  {
    hide Coded, Accepted, SizeE, Is, CodedRef, CodedOld, AcceptedRef, CodedPut, CodedDel, SizeRef, SizeOld, SizePut;
    CodedDef(f, ns, e, a);
    AcceptedDef(e);
    match e
    case Index(_, _) => RefAccepted(f, ns, e, a); OwnRef(e);
    case Member(_, _) => RefAccepted(f, ns, e, a); OwnRef(e);
    case Delete(b) => RefAccepted(f, ns, b, a);
    case Crement(_, _, b) => OldAccepted(f, ns, b, a);
    case Assign(b, d) =>
      RefAccepted(f, ns, b, a);
      CodedAccepted(f, ns, d, a + SizeRef(b));
    case AssignOp(_, b, d) =>
      OldAccepted(f, ns, b, a);
      CodedAccepted(f, ns, d, a + SizeOld(b));
  }

  lemma {:induction false} OwnRef(e: Exp)
    requires (e.Index? || e.Member?) && AcceptedRef(e)
    ensures AcceptedNode(e)
  {
    hide Accepted;
  }

  lemma {:induction false} ListAccepted(f: Fn, ns: Names, e: Exp, a: nat)
    requires e.ObjLit? || e.ArrLit? || e.New? || e.Call?
    requires Coded(f, ns, e, a)
    ensures Accepted(e)
    decreases e, 4
  {
    hide Coded, Accepted, SizeE, Is, CodedArgs, CodedItems, CodedProps, AcceptedArgs, AcceptedItems, AcceptedProps;
    hide CodedCall;
    CodedDef(f, ns, e, a);
    AcceptedDef(e);
    match e
    case ObjLit(props) => PropsAccepted(f, ns, props, a + 1);
    case ArrLit(items) => ItemsAccepted(f, ns, items, 0, a + 1);
    case New(g, args) =>
      CodedAccepted(f, ns, g, a);
      ArgsAccepted(f, ns, args, a + SizeE(g));
    case Call(_, _) => CallAccepted(f, ns, e, a);
  }

  lemma {:induction false} CallAccepted(f: Fn, ns: Names, e: Exp, a: nat)
    requires e.Call? && CodedCall(f, ns, e, a)
    ensures Accepted(e.f) && AcceptedArgs(e.args)
    decreases e, 3
  {
    hide Coded, Accepted, SizeE, Is, CodedArgs, AcceptedArgs, CodedCallee, Pops, SizeArgs, SizeCallee;
    if e.f == Ident("eval") {
      AcceptedDef(e.f);
      ArgsAccepted(f, ns, e.args, a);
    } else {
      CalleeAccepted(f, ns, e.f, a);
      ArgsAccepted(f, ns, e.args, a + SizeCallee(e.f));
    }
  }

  lemma {:induction false} CalleeAccepted(f: Fn, ns: Names, e: Exp, a: nat)
    requires CodedCallee(f, ns, e, a)
    ensures Accepted(e)
    decreases e, 6
  {
    hide Coded, Accepted, SizeE, Is;
    AcceptedDef(e);
    match e
    case Index(b, d) =>
      CodedAccepted(f, ns, b, a);
      CodedAccepted(f, ns, d, a + SizeE(b) + 1);
    case Member(b, _) => CodedAccepted(f, ns, b, a);
    case _ => CodedAccepted(f, ns, e, a);
  }

  lemma {:induction false} ArgsAccepted(f: Fn, ns: Names, args: Exps, a: nat)
    requires CodedArgs(f, ns, args, a)
    ensures AcceptedArgs(args)
    decreases args
  {
    hide Coded, Accepted, SizeE;
    if args.Exps? {
      CodedAccepted(f, ns, args.head, a);
      ArgsAccepted(f, ns, args.tail, a + SizeE(args.head));
    }
  }

  lemma {:induction false} ItemsAccepted(f: Fn, ns: Names, items: Items, k: nat, a: nat)
    requires CodedItems(f, ns, items, k, a)
    ensures AcceptedItems(items)
    decreases items
  {
    hide Coded, Accepted, SizeE, Is, CodedNum;
    match items
    case NoItems =>
    case Hole(rest) => ItemsAccepted(f, ns, rest, k + 1, a);
    case Item(e, rest) =>
      var p := a + SizeNum(Whole(k));
      CodedAccepted(f, ns, e, p);
      ItemsAccepted(f, ns, rest, k + 1, p + SizeE(e) + 1);
  }

  lemma {:induction false} PropsAccepted(f: Fn, ns: Names, props: Props, a: nat)
    requires CodedProps(f, ns, props, a)
    ensures AcceptedProps(props)
    decreases props
  {
    hide Coded, Accepted, SizeE, Is;
    match props
    case NoProps =>
    case Prop(key, kind, rest) =>
      var p := a + SizeE(key);
      if kind.PropVal? { CodedAccepted(f, ns, kind.e, p); }
      PropsAccepted(f, ns, rest, p + SizeKind(kind) + 1);
  }

  lemma {:induction false} OptAccepted(f: Fn, ns: Names, e: Option<Exp>, a: nat)
    requires e.Some? ==> Coded(f, ns, e.value, a)
    ensures AcceptedOpt(e)
  {
    hide Coded, Accepted;
    if e.Some? { CodedAccepted(f, ns, e.value, a); }
  }

  lemma {:induction false} VarsAccepted(f: Fn, ns: Names, vars: Vars, a: nat)
    requires CodedVars(f, ns, vars, a)
    ensures AcceptedVars(vars)
    decreases vars
  {
    hide Coded, Accepted, SizeE, Is, CodedStore;
    match vars
    case NoVars =>
    case Var(_, None, rest) => VarsAccepted(f, ns, rest, a);
    case Var(_, Some(e), rest) =>
      CodedAccepted(f, ns, e, a);
      VarsAccepted(f, ns, rest, a + SizeE(e) + 3);
  }

  lemma {:induction false} InitAccepted(f: Fn, ns: Names, init: Init, a: nat)
    requires CodedInit(f, ns, init, a)
    ensures AcceptedInit(init)
  {
    hide Coded, Accepted, SizeE, Is, CodedVars, AcceptedVars;
    match init
    case NoInit =>
    case VarInit(vars) => VarsAccepted(f, ns, vars, a);
    case ExpInit(e) => CodedAccepted(f, ns, e, a);
  }

  // ----- statements -----

  lemma {:induction false} StmAccepted(f: Fn, ns: Names, s: Stm, p: Path, d: seq<Dest>, a: nat)
    requires |d| == Depth(p) && CodedS(f, ns, s, p, d, a)
    ensures AcceptedS(s, p)
    decreases s, 5
  {
    hide CodedS, AcceptedS;
    match s
    case Block(_) | Switch(_, _) | Label(_, _) => NodeAccepted(f, ns, s, p, d, a);
    case If(_, _) | IfElse(_, _, _) | With(_, _) | Try(_, _, _) => BranchAccepted(f, ns, s, p, d, a);
    case Do(_, _) | While(_, _) | For(_, _, _, _) | ForIn(_, _, _) => LoopAccepted(f, ns, s, p, d, a);
    case FunDec | Empty | VarStm(_) | Break(_) | Continue(_) | Return(_) | Throw(_) | Debugger | ExpStm(_) =>
      SimpleAccepted(f, ns, s, p, d, a);
  }

  lemma {:induction false} SimpleAccepted(f: Fn, ns: Names, s: Stm, p: Path, d: seq<Dest>, a: nat)
    requires |d| == Depth(p) && CodedS(f, ns, s, p, d, a)
    requires s.FunDec? || s.Empty? || s.VarStm? || s.Break? || s.Continue? || s.Return? || s.Throw? || s.Debugger?
      || s.ExpStm?
    ensures AcceptedS(s, p)
  {
    hide CodedS, AcceptedS, Coded, Accepted, SizeE, SizeS, Is, CodedVars, AcceptedVars, CodedExit, SizeExit;
    CodedSDef(f, ns, s, p, d, a);
    AcceptedSDef(s, p);
    match s
    case VarStm(vars) => VarsAccepted(f, ns, vars, a);
    case Return(e) => OptAccepted(f, ns, e, a);
    case Throw(e) => CodedAccepted(f, ns, e, a);
    case ExpStm(e) => CodedAccepted(f, ns, e, a);
    case _ =>
  }

  lemma {:induction false} NodeAccepted(f: Fn, ns: Names, s: Stm, p: Path, d: seq<Dest>, a: nat)
    requires |d| == Depth(p) && CodedS(f, ns, s, p, d, a) && (s.Block? || s.Switch? || s.Label?)
    ensures AcceptedS(s, p)
    decreases s, 4
  {
    hide CodedS, AcceptedS, Coded, Accepted, SizeE, SizeS, Is, CodedList, AcceptedList, CodedBodies, CodedTests;
    hide AcceptedCases, Defaults;
    CodedSDef(f, ns, s, p, d, a);
    AcceptedSDef(s, p);
    var behind := d + [Dest(a + SizeS(s, p), 0)];
    match s
    case Block(body) => ListOfAccepted(f, ns, body, Inside(Plain, p), behind, a);
    case Switch(e, cases) =>
      var q := a + SizeE(e);
      CodedAccepted(f, ns, e, a);
      CasesAccepted(f, ns, cases, Inside(SwitchNode, p), behind, q, q + SizeTests(cases) + 3,
        q + SizeTests(cases) + 3);
    case Label(x, b) => StmAccepted(f, ns, b, Inside(Labelled(x), p), d + [Dest(0, 0)], a);
  }

  lemma {:induction false} BranchAccepted(f: Fn, ns: Names, s: Stm, p: Path, d: seq<Dest>, a: nat)
    requires |d| == Depth(p) && CodedS(f, ns, s, p, d, a) && (s.If? || s.IfElse? || s.With? || s.Try?)
    ensures AcceptedS(s, p)
    decreases s, 4
  {
    hide CodedS, AcceptedS, Coded, Accepted, SizeE, SizeS, Is;
    CodedSDef(f, ns, s, p, d, a);
    AcceptedSDef(s, p);
    var behind := d + [Dest(a + SizeS(s, p), 0)];
    match s
    case If(e, b) =>
      CodedAccepted(f, ns, e, a);
      StmAccepted(f, ns, b, Inside(Plain, p), behind, a + SizeE(e) + 2);
    case IfElse(e, b, b2) =>
      var q := a + SizeE(e) + 2;
      CodedAccepted(f, ns, e, a);
      StmAccepted(f, ns, b2, Inside(Plain, p), behind, q);
      StmAccepted(f, ns, b, Inside(Plain, p), behind, q + SizeS(b2, Inside(Plain, p)) + 2);
    case With(e, b) =>
      CodedAccepted(f, ns, e, a);
      StmAccepted(f, ns, b, Inside(WithNode, p), behind, a + SizeE(e) + 1);
    case Try(b, _, h) =>
      StmAccepted(f, ns, h, Inside(CatchBody, p), behind, a + 4);
      StmAccepted(f, ns, b, Inside(TryBody, p), behind, a + 4 + SizeS(h, Inside(CatchBody, p)) + 3);
  }

  lemma {:induction false} LoopAccepted(f: Fn, ns: Names, s: Stm, p: Path, d: seq<Dest>, a: nat)
    requires |d| == Depth(p) && CodedS(f, ns, s, p, d, a) && (s.Do? || s.While? || s.For? || s.ForIn?)
    ensures AcceptedS(s, p)
    decreases s, 4
  {
    hide CodedS, AcceptedS, Coded, Accepted, SizeE, SizeS, Is, CodedLoop, CodedForIn, CodedInit, AcceptedInit;
    hide AcceptedOpt, AcceptedRef;
    CodedSDef(f, ns, s, p, d, a);
    AcceptedSDef(s, p);
    match s
    case Do(b, e) =>
      var q := a + SizeS(b, Inside(Loop, p));
      StmAccepted(f, ns, b, Inside(Loop, p), d + [Dest(a + SizeS(s, p), q)], a);
      CodedAccepted(f, ns, e, q);
    case While(_, _) => RoundAccepted(f, ns, s, a, p, d, a); OneAccepted(s.c);
    case For(init, _, _, _) =>
      InitAccepted(f, ns, init, a);
      RoundAccepted(f, ns, s, a, p, d, a + SizeInit(init));
    case ForIn(_, _, _) => ForInAccepted(f, ns, s, p, d, a);
  }

  lemma {:induction false} OneAccepted(e: Exp)
    ensures AcceptedOpt(Some(e)) == Accepted(e)
  {
    hide Accepted;
  }

  lemma {:induction false} RoundAccepted(f: Fn, ns: Names, s: Stm, start: nat, p: Path, d: seq<Dest>, a: nat)
    requires |d| == Depth(p) && (s.While? || s.For?) && CodedLoop(f, ns, s, start, p, d, a)
    ensures AcceptedOpt(TestOf(s)) && AcceptedOpt(StepOf(s)) && AcceptedS(s.s, Inside(Loop, p))
    decreases s, 3
  {
    hide CodedS, AcceptedS, Coded, Accepted, SizeE, SizeS, Is, AcceptedOpt;
    var b := if TestOf(s).Some? then a + SizeE(TestOf(s).value) + 2 else a;
    var q := b + SizeS(s.s, Inside(Loop, p));
    OptAccepted(f, ns, TestOf(s), a);
    OptAccepted(f, ns, StepOf(s), q);
    StmAccepted(f, ns, s.s, Inside(Loop, p), d + [Dest(start + SizeS(s, p), if s.While? then a else q)], b);
  }

  lemma {:induction false} ForInAccepted(f: Fn, ns: Names, s: Stm, p: Path, d: seq<Dest>, a: nat)
    requires |d| == Depth(p) && s.ForIn? && CodedForIn(f, ns, s, p, d, a)
    ensures AcceptedRef(s.lhs) && Accepted(s.e) && AcceptedS(s.s, Inside(ForInLoop, p))
    decreases s, 3
  {
    hide CodedS, AcceptedS, Coded, Accepted, SizeE, SizeS, Is, AcceptedRef, CodedForAssign, SizeForAssign;
    var q := a + SizeE(s.e) + 1;
    CodedAccepted(f, ns, s.e, a);
    ForPlaceAccepted(f, ns, s.lhs, q + 3);
    StmAccepted(f, ns, s.s, Inside(ForInLoop, p), d + [Dest(a + SizeS(s, p), q)], q + 3 + SizeForAssign(s.lhs));
  }

  lemma {:induction false} ForPlaceAccepted(f: Fn, ns: Names, e: Exp, a: nat)
    requires CodedForAssign(f, ns, e, a)
    ensures AcceptedRef(e)
  {
    hide Is, CodedRef, SizeRef, CodedStore, Accepted;
    if !e.Ident? { RefAccepted(f, ns, e, a); }
  }

  lemma {:induction false} ListOfAccepted(f: Fn, ns: Names, ss: Stms, p: Path, d: seq<Dest>, a: nat)
    requires |d| == Depth(p) && CodedList(f, ns, ss, p, d, a)
    ensures AcceptedList(ss, p)
    decreases ss, 0
  {
    hide CodedS, AcceptedS, SizeS;
    if ss.Stms? {
      StmAccepted(f, ns, ss.head, p, d, a);
      ListOfAccepted(f, ns, ss.tail, p, d, a + SizeS(ss.head, p));
    }
  }

  lemma {:induction false} CasesAccepted(f: Fn, ns: Names, cases: Cases, p: Path, d: seq<Dest>, a: nat, b: nat, t: nat)
    requires |d| == Depth(p) && CodedBodies(f, ns, cases, p, d, b) && CodedTests(f, ns, cases, p, a, t)
    ensures AcceptedCases(cases, p)
    decreases cases, 0
  {
    hide CodedList, AcceptedList, SizeList, Coded, Accepted, SizeE, Is;
    match cases
    case NoCases =>
    case Default(body, rest) =>
      ListOfAccepted(f, ns, body, p, d, b);
      CasesAccepted(f, ns, rest, p, d, a, b + SizeList(body, p), t + SizeList(body, p));
    case Case(e, body, rest) =>
      CodedAccepted(f, ns, e, a);
      ListOfAccepted(f, ns, body, p, d, b);
      CasesAccepted(f, ns, rest, p, d, a + SizeE(e) + 2, b + SizeList(body, p), t + SizeList(body, p));
  }

  // ----- expressions -----

  /** The expression and all expressions in it. */
  function Subs(e: Exp): set<Exp> {
    {e} +
    match e
    case ObjLit(props) => PropSubs(props)
    case ArrLit(items) => ItemSubs(items)
    case Index(a, b) => Subs(a) + Subs(b)
    case Member(a, _) => Subs(a)
    case Call(f, args) => Subs(f) + ArgSubs(args)
    case New(f, args) => Subs(f) + ArgSubs(args)
    case Delete(a) => Subs(a)
    case Typeof(a) => Subs(a)
    case Void(a) => Subs(a)
    case Crement(_, _, a) => Subs(a)
    case Unary(_, a) => Subs(a)
    case Binary(_, a, b) => Subs(a) + Subs(b)
    case Assign(a, b) => Subs(a) + Subs(b)
    case AssignOp(_, a, b) => Subs(a) + Subs(b)
    case Comma(a, b) => Subs(a) + Subs(b)
    case LogOr(a, b) => Subs(a) + Subs(b)
    case LogAnd(a, b) => Subs(a) + Subs(b)
    case Cond(a, b, d) => Subs(a) + Subs(b) + Subs(d)
    case _ => {}
  }

  function ArgSubs(args: Exps): set<Exp> {
    if args.NoExps? then {} else Subs(args.head) + ArgSubs(args.tail)
  }

  function ItemSubs(items: Items): set<Exp> {
    match items
    case NoItems => {}
    case Hole(rest) => ItemSubs(rest)
    case Item(e, rest) => Subs(e) + ItemSubs(rest)
  }

  function PropSubs(props: Props): set<Exp> {
    if props.NoProps? then {} else (if props.kind.PropVal? then Subs(props.kind.e) else {}) + PropSubs(props.rest)
  }

  predicate LiteralKeys(props: Props) {
    props.Prop? ==> (props.key.StrLit? || props.key.NumLit?) && LiteralKeys(props.rest)
  }

  /** What is stored to, counted up or down, or deleted is a place, and the names in an object literal
      are literals. */
  predicate Proper(e: Exp) {
    match e
    case Delete(a) => IsRef(a)
    case Crement(_, _, a) => IsRef(a)
    case Assign(a, _) => IsRef(a)
    case AssignOp(_, a, _) => IsRef(a)
    case ObjLit(props) => LiteralKeys(props)
    case _ => true
  }

  predicate AllProper(es: set<Exp>) {
    forall e | e in es :: Proper(e)
  }

  lemma {:induction false} ProperUnion(a: set<Exp>, b: set<Exp>)
    ensures AllProper(a + b) <==> AllProper(a) && AllProper(b)
  {
    hide Proper;
  }

  lemma {:induction false} ProperOne(e: Exp)
    ensures AllProper({e}) <==> Proper(e)
    ensures AllProper({})
  {
    hide Proper;
  }

  /** An expression is accepted if and only if that is so of every expression in it. */
  lemma {:induction false} AcceptedMeans(e: Exp)
    ensures Accepted(e) <==> AllProper(Subs(e))
    decreases e, 2
  {
    hide Accepted, AllProper, Subs, Proper;
    match e
    case ObjLit(_) | ArrLit(_) | New(_, _) | Call(_, _) => ListMeans(e);
    case Delete(_) | Crement(_, _, _) | Assign(_, _) | AssignOp(_, _, _) => StoreMeans(e);
    case Index(_, _) | Member(_, _) | Typeof(_) | Void(_) | Unary(_, _) | Binary(_, _, _) | Comma(_, _)
      | LogOr(_, _) | LogAnd(_, _) | Cond(_, _, _) => OperandsMean(e);
    case StrLit(_) | NumLit(_) | UndefLit | NullLit | TrueLit | FalseLit | This | RegexpLit(_, _) | FunLit(_)
      | Ident(_) => LeafMeans(e);
  }

  lemma {:induction false} LeafMeans(e: Exp)
    requires e.StrLit? || e.NumLit? || e.UndefLit? || e.NullLit? || e.TrueLit? || e.FalseLit? || e.This?
      || e.RegexpLit? || e.FunLit? || e.Ident?
    ensures Accepted(e) && AllProper(Subs(e))
  {
    hide Accepted, AllProper;
    AcceptedDef(e);
    ProperOne(e);
    assert Subs(e) == {e};
  }

  lemma {:induction false} OperandsMean(e: Exp)
    requires e.Index? || e.Member? || e.Typeof? || e.Void? || e.Unary? || e.Binary? || e.Comma? || e.LogOr?
      || e.LogAnd? || e.Cond?
    ensures Accepted(e) <==> AllProper(Subs(e))
    decreases e, 1
  {
    hide Accepted, AllProper, Subs;
    AcceptedDef(e);
    ProperOne(e);
    AcceptedMeans(e.a);
    ProperUnion({e}, Subs(e.a));
    if e.Index? || e.Binary? || e.Comma? || e.LogOr? || e.LogAnd? || e.Cond? {
      AcceptedMeans(e.b);
      ProperUnion(Subs(e.a), Subs(e.b));
      ProperUnion({e}, Subs(e.a) + Subs(e.b));
      if e.Cond? {
        AcceptedMeans(e.c);
        ProperUnion(Subs(e.a) + Subs(e.b), Subs(e.c));
        ProperUnion({e}, Subs(e.a) + Subs(e.b) + Subs(e.c));
      }
    }
    SubsDef(e);
  }

  lemma {:induction false} SubsDef(e: Exp)
    ensures e.Index? || e.Binary? || e.Comma? || e.LogOr? || e.LogAnd? || e.Assign? || e.AssignOp? ==>
      Subs(e) == {e} + (Subs(e.a) + Subs(e.b))
    ensures e.Cond? ==> Subs(e) == {e} + (Subs(e.a) + Subs(e.b) + Subs(e.c))
    ensures e.Member? || e.Typeof? || e.Void? || e.Unary? || e.Delete? || e.Crement? ==> Subs(e) == {e} + Subs(e.a)
    ensures e.ObjLit? ==> Subs(e) == {e} + PropSubs(e.props)
    ensures e.ArrLit? ==> Subs(e) == {e} + ItemSubs(e.items)
    ensures e.Call? || e.New? ==> Subs(e) == {e} + (Subs(e.f) + ArgSubs(e.args))
  {
    hide PropSubs, ItemSubs, ArgSubs;
  }

  lemma {:induction false} RefMeans(e: Exp)
    ensures AcceptedRef(e) <==> IsRef(e) && Accepted(e)
  {
    hide Accepted;
    AcceptedDef(e);
  }

  lemma {:induction false} StoreMeans(e: Exp)
    requires e.Delete? || e.Crement? || e.Assign? || e.AssignOp?
    ensures Accepted(e) <==> AllProper(Subs(e))
    decreases e, 1
  {
    hide Accepted, AllProper, Subs, AcceptedRef;
    AcceptedDef(e);
    ProperOne(e);
    RefMeans(e.a);
    AcceptedMeans(e.a);
    ProperUnion({e}, Subs(e.a));
    if e.Assign? || e.AssignOp? {
      AcceptedMeans(e.b);
      ProperUnion(Subs(e.a), Subs(e.b));
      ProperUnion({e}, Subs(e.a) + Subs(e.b));
    }
    SubsDef(e);
  }

  lemma {:induction false} ListMeans(e: Exp)
    requires e.ObjLit? || e.ArrLit? || e.New? || e.Call?
    ensures Accepted(e) <==> AllProper(Subs(e))
    decreases e, 1
  {
    hide Accepted, AllProper, Subs, PropSubs, ItemSubs, ArgSubs, AcceptedProps, AcceptedItems, AcceptedArgs;
    hide LiteralKeys;
    AcceptedDef(e);
    ProperOne(e);
    SubsDef(e);
    match e
    case ObjLit(props) =>
      PropsMean(props);
      ProperUnion({e}, PropSubs(props));
    case ArrLit(items) =>
      ItemsMean(items);
      ProperUnion({e}, ItemSubs(items));
    case Call(_, _) | New(_, _) =>
      AcceptedMeans(e.f);
      ArgsMean(e.args);
      ProperUnion(Subs(e.f), ArgSubs(e.args));
      ProperUnion({e}, Subs(e.f) + ArgSubs(e.args));
  }

  lemma {:induction false} ArgsMean(args: Exps)
    ensures AcceptedArgs(args) <==> AllProper(ArgSubs(args))
    decreases args
  {
    hide Accepted, AllProper, Subs;
    if args.NoExps? { ProperOne(This); } else {
      AcceptedMeans(args.head);
      ArgsMean(args.tail);
      ProperUnion(Subs(args.head), ArgSubs(args.tail));
    }
  }

  lemma {:induction false} ItemsMean(items: Items)
    ensures AcceptedItems(items) <==> AllProper(ItemSubs(items))
    decreases items
  {
    hide Accepted, AllProper, Subs;
    match items
    case NoItems => ProperOne(This);
    case Hole(rest) => ItemsMean(rest);
    case Item(e, rest) =>
      AcceptedMeans(e);
      ItemsMean(rest);
      ProperUnion(Subs(e), ItemSubs(rest));
  }

  lemma {:induction false} PropsMean(props: Props)
    ensures AcceptedProps(props) <==> LiteralKeys(props) && AllProper(PropSubs(props))
    decreases props
  {
    hide Accepted, AllProper, Subs;
    ProperOne(This);
    if props.Prop? {
      if props.kind.PropVal? { AcceptedMeans(props.kind.e); }
      PropsMean(props.rest);
      ProperUnion(if props.kind.PropVal? then Subs(props.kind.e) else {}, PropSubs(props.rest));
    }
  }

  // ----- breaks and continues -----

  /** The nodes around a statement, the innermost first. */
  function Around(p: Path): seq<Kind> {
    if p.Function? then [] else [p.kind] + Around(p.up)
  }

  /** One of the labels from node i on, before any other node. */
  predicate LabelFrom(ks: seq<Kind>, i: nat, l: Name) {
    exists j | i <= j < |ks| :: ks[j] == Labelled(l) && forall k | i <= k < j :: ks[k].Labelled?
  }

  lemma {:induction false} LabelShift(x: Kind, ks: seq<Kind>, i: nat, l: Name)
    ensures LabelFrom([x] + ks, i + 1, l) <==> LabelFrom(ks, i, l)
  {
    var xs := [x] + ks;
    assert forall k | 0 <= k < |ks| :: xs[k + 1] == ks[k];
    if LabelFrom(xs, i + 1, l) { LabelDown(xs, ks, i, l); }
    if LabelFrom(ks, i, l) { LabelUp(xs, ks, i, l); }
  }

  lemma {:induction false} LabelDown(xs: seq<Kind>, ks: seq<Kind>, i: nat, l: Name)
    requires |xs| == |ks| + 1 && (forall k | 0 <= k < |ks| :: xs[k + 1] == ks[k]) && LabelFrom(xs, i + 1, l)
    ensures LabelFrom(ks, i, l)
  {
    var j :| i + 1 <= j < |xs| && xs[j] == Labelled(l) && forall k | i + 1 <= k < j :: xs[k].Labelled?;
    assert ks[j - 1] == Labelled(l);
    forall k | i <= k < j - 1
      ensures ks[k].Labelled?
    {
      assert xs[k + 1].Labelled?;
    }
  }

  lemma {:induction false} LabelUp(xs: seq<Kind>, ks: seq<Kind>, i: nat, l: Name)
    requires |xs| == |ks| + 1 && (forall k | 0 <= k < |ks| :: xs[k + 1] == ks[k]) && LabelFrom(ks, i, l)
    ensures LabelFrom(xs, i + 1, l)
  {
    var j :| i <= j < |ks| && ks[j] == Labelled(l) && forall k | i <= k < j :: ks[k].Labelled?;
    assert xs[j + 1] == Labelled(l);
    forall k | i + 1 <= k < j + 1
      ensures xs[k].Labelled?
    {
      assert ks[k - 1].Labelled? && xs[k - 1 + 1] == ks[k - 1];
    }
  }

  lemma {:induction false} LabelFirst(x: Kind, ks: seq<Kind>, l: Name)
    ensures LabelFrom([x] + ks, 0, l) <==> x == Labelled(l) || (x.Labelled? && LabelFrom(ks, 0, l))
  {
    var xs := [x] + ks;
    LabelShift(x, ks, 0, l);
    if LabelFrom(xs, 0, l) {
      var j :| 0 <= j < |xs| && xs[j] == Labelled(l) && forall k | 0 <= k < j :: xs[k].Labelled?;
      if j > 0 { assert xs[0].Labelled?; }
    }
    if x == Labelled(l) { assert xs[0] == Labelled(l); }
    if x.Labelled? && LabelFrom(xs, 1, l) {
      var j :| 1 <= j < |xs| && xs[j] == Labelled(l) && forall k | 1 <= k < j :: xs[k].Labelled?;
      assert forall k | 0 <= k < j :: xs[k].Labelled?;
    }
  }

  lemma {:induction false} MatchMeans(p: Path, l: Name)
    ensures MatchLabel(p, l) <==> LabelFrom(Around(p), 0, l)
  {
    if p.Inside? {
      MatchMeans(p.up, l);
      LabelFirst(p.kind, Around(p.up), l);
    }
  }

  /** A break without a label needs a loop or a switch around it; one with a label needs a statement
      with that label around it, not counting a label right in front of the break. */
  lemma {:induction false} BreakAllowed(p: Path, l: Option<Name>)
    ensures 0 < BreakTarget(p, l) <==> exists i | 0 <= i < |Around(p)| :: Leaves(Around(p), i, l)
  {
    if p.Inside? {
      var xs, ks := Around(p), Around(p.up);
      BreakAllowed(p.up, l);
      if l.Some? { MatchMeans(p.up, l.value); }
      forall i | 0 <= i < |ks| && Leaves(ks, i, l)
        ensures Leaves(xs, i + 1, l)
      {
      }
      if 0 < BreakTarget(p, l) && !(exists i | 0 <= i < |ks| :: Leaves(ks, i, l)) {
        if l.None? { assert Leaves(xs, 0, l); } else {
          assert LabelFrom(ks, 0, l.value);
          var j :| 0 <= j < |ks| && ks[j] == Labelled(l.value);
          assert Leaves(xs, j + 1, l);
        }
      }
      forall i | 0 <= i < |xs| && Leaves(xs, i, l)
        ensures 0 < BreakTarget(p, l)
      {
        if i > 0 { assert xs[i] == ks[i - 1]; }
        if i > 1 || (i == 1 && l.None?) { assert Leaves(ks, i - 1, l); }
        if i == 1 && l.Some? { assert LabelFrom(ks, 0, l.value); }
      }
    }
  }

  /** A break inside the nodes can leave node i. */
  predicate Leaves(ks: seq<Kind>, i: nat, l: Option<Name>)
    requires i < |ks|
  {
    if l.None? then ks[i] in {Loop, ForInLoop, SwitchNode} else 0 < i && ks[i] == Labelled(l.value)
  }

  /** A continue without a label needs a loop around it; one with a label needs a loop that has that
      label among those in front of it. */
  lemma {:induction false} ContinueAllowed(p: Path, l: Option<Name>)
    ensures 0 < ContinueTarget(p, l) <==> exists i | 0 <= i < |Around(p)| :: Repeats(Around(p), i, l)
  {
    if p.Inside? {
      var xs, ks := Around(p), Around(p.up);
      ContinueAllowed(p.up, l);
      if l.Some? {
        MatchMeans(p.up, l.value);
        LabelShift(p.kind, ks, 0, l.value);
      }
      forall i | 0 <= i < |ks|
        ensures Repeats(xs, i + 1, l) <==> Repeats(ks, i, l)
      {
        if l.Some? { LabelShift(p.kind, ks, i + 1, l.value); }
      }
      assert Repeats(xs, 0, l) <==> IsLoop(p.kind) && (l.None? || MatchLabel(p.up, l.value));
      if 0 < ContinueTarget(p, l) && !Repeats(xs, 0, l) {
        var i :| 0 <= i < |ks| && Repeats(ks, i, l);
        assert Repeats(xs, i + 1, l);
      }
      forall i | 0 <= i < |xs| && Repeats(xs, i, l)
        ensures 0 < ContinueTarget(p, l)
      {
        if i > 0 { assert Repeats(xs, i - 1 + 1, l) && Repeats(ks, i - 1, l); }
      }
    }
  }

  /** A continue inside the nodes can go on with node i. */
  predicate Repeats(ks: seq<Kind>, i: nat, l: Option<Name>)
    requires i < |ks|
  {
    ks[i] in {Loop, ForInLoop} && (l.None? || LabelFrom(ks, i + 1, l.value))
  }
}
