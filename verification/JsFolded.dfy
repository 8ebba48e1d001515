/** Folding and compiling together: a folded body is accepted when the original is, and a call of
    its code does what evaluation of the original says. */
module JsFolded {
  import opened JsTree
  import opened JsMachine
  import opened JsMeaning
  import opened JsCode
  import opened JsTargets
  import opened JsExpressions
  import opened JsStatements
  import opened JsControl
  import opened JsAccepted
  import opened JsFunction
  import opened JsFold

  // ----- what the compiler accepts -----

  /** The compiler accepts a folded expression exactly if it accepts the original. */
  lemma {:induction false} FoldAccepted(ar: Arith, e: Exp)
    ensures Accepted(Fold(ar, e)) == Accepted(e) && AcceptedRef(Fold(ar, e)) == AcceptedRef(e)
    decreases e, 2
  {
    hide Accepted, Fold, AcceptedNode, FoldNode, AcceptedRef;
    AcceptedDef(e);
    AcceptedDef(Fold(ar, e));
    FoldDef(ar, e);
    FoldAcceptedNode(ar, e);
    FoldAcceptedRef(ar, e);
  }

  lemma {:induction false} FoldAcceptedRef(ar: Arith, e: Exp)
    ensures AcceptedRef(Fold(ar, e)) == AcceptedRef(e)
    decreases e, 1
  {
    hide Accepted, Fold;
    FoldDef(ar, e);
    FoldIdent(ar, e);
    if e.Index? || e.Member? { FoldAccepted(ar, e.a); }
    if e.Index? { FoldAccepted(ar, e.b); }
  }

  lemma {:induction false} FoldAcceptedNode(ar: Arith, e: Exp)
    ensures AcceptedNode(FoldNode(ar, e)) == AcceptedNode(e)
    decreases e, 1
  {
    hide AcceptedNode, FoldNode;
    match e
    case ObjLit(_) | ArrLit(_) | Call(_, _) | New(_, _) => FoldAcceptedParts(ar, e);
    case Member(_, _) | Delete(_) | Typeof(_) | Void(_) | Crement(_, _, _) | Unary(_, _) => FoldAccepted1(ar, e);
    case Binary(_, _, _) => FoldAcceptedBinary(ar, e);
    case Index(_, _) | Assign(_, _) | AssignOp(_, _, _) | Comma(_, _) | LogOr(_, _) | LogAnd(_, _) | Cond(_, _, _) =>
      FoldAcceptedPair(ar, e);
    case _ => FoldSame(ar, e);
  }

  lemma {:induction false} FoldAcceptedParts(ar: Arith, e: Exp)
    requires e.ObjLit? || e.ArrLit? || e.Call? || e.New?
    ensures AcceptedNode(FoldNode(ar, e)) == AcceptedNode(e)
    decreases e, 0
  {
    hide Accepted, Fold, AcceptedArgs, AcceptedItems, AcceptedProps, FoldArgs, FoldItems, FoldProps;
    match e
    case ObjLit(props) => FoldAcceptedProps(ar, props);
    case ArrLit(items) => FoldAcceptedItems(ar, items);
    case Call(f, args) =>
      FoldAccepted(ar, f);
      FoldAcceptedArgs(ar, args);
    case New(f, args) =>
      FoldAccepted(ar, f);
      FoldAcceptedArgs(ar, args);
  }

  lemma {:induction false} FoldAccepted1(ar: Arith, e: Exp)
    requires e.Member? || e.Delete? || e.Typeof? || e.Void? || e.Crement? || e.Unary?
    ensures AcceptedNode(FoldNode(ar, e)) == AcceptedNode(e)
    decreases e, 0
  {
    hide Accepted, Fold, FoldUnary;
    FoldAccepted(ar, e.a);
    if e.Unary? { AcceptedDef(Fold(ar, e.a)); }
  }

  lemma {:induction false} FoldAcceptedPair(ar: Arith, e: Exp)
    requires e.Index? || e.Assign? || e.AssignOp? || e.Comma? || e.LogOr? || e.LogAnd? || e.Cond?
    ensures AcceptedNode(FoldNode(ar, e)) == AcceptedNode(e)
    decreases e, 0
  {
    hide Accepted, Fold, AcceptedRef;
    FoldAccepted(ar, e.a);
    FoldAccepted(ar, e.b);
    if e.Cond? { FoldAccepted(ar, e.c); }
  }

  lemma {:induction false} FoldAcceptedBinary(ar: Arith, e: Exp)
    requires e.Binary?
    ensures AcceptedNode(FoldNode(ar, e)) == AcceptedNode(e)
    decreases e, 0
  {
    hide Accepted, Fold, FoldBinary, AcceptedRef;
    FoldAccepted(ar, e.a);
    FoldAccepted(ar, e.b);
    AcceptedDef(Fold(ar, e.a));
    AcceptedDef(Fold(ar, e.b));
  }

  lemma {:induction false} FoldAcceptedArgs(ar: Arith, args: Exps)
    ensures AcceptedArgs(FoldArgs(ar, args)) == AcceptedArgs(args)
    decreases args
  {
    hide Accepted, Fold;
    if args.Exps? {
      FoldAccepted(ar, args.head);
      FoldAcceptedArgs(ar, args.tail);
    }
  }

  lemma {:induction false} FoldAcceptedItems(ar: Arith, items: Items)
    ensures AcceptedItems(FoldItems(ar, items)) == AcceptedItems(items)
    decreases items
  {
    hide Accepted, Fold;
    match items
    case NoItems =>
    case Hole(rest) => FoldAcceptedItems(ar, rest);
    case Item(e, rest) =>
      FoldAccepted(ar, e);
      FoldAcceptedItems(ar, rest);
  }

  lemma {:induction false} FoldAcceptedProps(ar: Arith, props: Props)
    ensures AcceptedProps(FoldProps(ar, props)) == AcceptedProps(props)
    decreases props
  {
    hide Accepted, Fold;
    if props.Prop? {
      if props.kind.PropVal? { FoldAccepted(ar, props.kind.e); }
      FoldAcceptedProps(ar, props.rest);
    }
  }

  lemma {:induction false} FoldAcceptedOpt(ar: Arith, e: Option<Exp>)
    ensures AcceptedOpt(FoldOpt(ar, e)) == AcceptedOpt(e)
  {
    hide Accepted, Fold;
    if e.Some? { FoldAccepted(ar, e.value); }
  }

  lemma {:induction false} FoldAcceptedVars(ar: Arith, vars: Vars)
    ensures AcceptedVars(FoldVars(ar, vars)) == AcceptedVars(vars)
    decreases vars
  {
    hide AcceptedOpt, FoldOpt;
    if vars.Var? {
      FoldAcceptedOpt(ar, vars.init);
      FoldAcceptedVars(ar, vars.rest);
    }
  }

  lemma {:induction false} FoldAcceptedInit(ar: Arith, init: Init)
    ensures AcceptedInit(FoldInit(ar, init)) == AcceptedInit(init)
  {
    hide Accepted, Fold, AcceptedVars, FoldVars;
    match init
    case NoInit =>
    case VarInit(vars) => FoldAcceptedVars(ar, vars);
    case ExpInit(e) => FoldAccepted(ar, e);
  }

  /** The same of statements. */
  lemma {:induction false} FoldSKept(ar: Arith, s: Stm, p: Path)
    ensures AcceptedS(FoldS(ar, s), p) == AcceptedS(s, p)
    decreases s, 1
  {
    hide AcceptedS, FoldS, Accepted, Fold, AcceptedList, FoldList, AcceptedCases;
    hide FoldCases, AcceptedInit, FoldInit, AcceptedOpt, FoldOpt, AcceptedVars, FoldVars, AcceptedRef;
    hide Defaults;
    var g := FoldS(ar, s);
    AcceptedSDef(s, p);
    AcceptedSDef(g, p);
    FoldSDef(ar, s);
    match s
    case Block(body) => FoldListKept(ar, body, Inside(Plain, p));
    case VarStm(vars) => FoldAcceptedVars(ar, vars);
    case If(e, a) =>
      FoldAccepted(ar, e);
      FoldSKept(ar, a, Inside(Plain, p));
    case IfElse(e, a, b) =>
      FoldAccepted(ar, e);
      FoldSKept(ar, a, Inside(Plain, p));
      FoldSKept(ar, b, Inside(Plain, p));
    case Do(b, e) =>
      FoldAccepted(ar, e);
      FoldSKept(ar, b, Inside(Loop, p));
    case While(e, b) =>
      FoldAccepted(ar, e);
      FoldSKept(ar, b, Inside(Loop, p));
    case For(init, e, step, b) =>
      FoldAcceptedInit(ar, init);
      FoldAcceptedOpt(ar, e);
      FoldAcceptedOpt(ar, step);
      FoldSKept(ar, b, Inside(Loop, p));
    case ForIn(lhs, e, b) =>
      FoldAccepted(ar, lhs);
      FoldIdent(ar, lhs);
      FoldAccepted(ar, e);
      FoldSKept(ar, b, Inside(ForInLoop, p));
    case Switch(e, cases) =>
      FoldAccepted(ar, e);
      FoldCasesKept(ar, cases, Inside(SwitchNode, p));
    case Label(x, b) => FoldSKept(ar, b, Inside(Labelled(x), p));
    case Return(e) => FoldAcceptedOpt(ar, e);
    case Throw(e) => FoldAccepted(ar, e);
    case With(e, b) =>
      FoldAccepted(ar, e);
      FoldSKept(ar, b, Inside(WithNode, p));
    case Try(b, _, h) =>
      FoldSKept(ar, b, Inside(TryBody, p));
      FoldSKept(ar, h, Inside(CatchBody, p));
    case ExpStm(e) => FoldAccepted(ar, e);
    case _ =>
  }

  lemma {:induction false} FoldListKept(ar: Arith, ss: Stms, p: Path)
    ensures AcceptedList(FoldList(ar, ss), p) == AcceptedList(ss, p)
    decreases ss, 0
  {
    hide AcceptedS, FoldS;
    if ss.Stms? {
      FoldSKept(ar, ss.head, p);
      FoldListKept(ar, ss.tail, p);
    }
  }

  lemma {:induction false} FoldCasesKept(ar: Arith, cases: Cases, p: Path)
    ensures AcceptedCases(FoldCases(ar, cases), p) == AcceptedCases(cases, p)
    ensures Defaults(FoldCases(ar, cases)) == Defaults(cases)
    decreases cases, 0
  {
    hide AcceptedList, FoldList, Accepted, Fold;
    match cases
    case NoCases =>
    case Default(body, rest) =>
      FoldListKept(ar, body, p);
      FoldCasesKept(ar, rest, p);
    case Case(e, body, rest) =>
      FoldAccepted(ar, e);
      FoldListKept(ar, body, p);
      FoldCasesKept(ar, rest, p);
  }

  // ----- what is sound -----

  /** A node behind which x goes before folding and y after: the code so far ends there in both
      cases or in none. Jumps to a label's own node go to the start in both. */
  predicate AlignedAt(x: Dest, end: nat, y: Dest, end1: nat) {
    (x.brk == 0 && y.brk == 0) || (end <= x.brk && end1 <= y.brk && (end == x.brk <==> end1 == y.brk))
  }

  predicate Aligned(d: seq<Dest>, end: nat, d1: seq<Dest>, end1: nat) {
    |d| == |d1| && forall i | 0 <= i < |d| :: AlignedAt(d[i], end, d1[i], end1)
  }

  lemma {:induction false} AlignedIn(d: seq<Dest>, end: nat, d1: seq<Dest>, end1: nat, x: Dest, e: nat, y: Dest,
    e1: nat)
    requires Aligned(d, end, d1, end1) && e <= end && e1 <= end1 && (e == end <==> e1 == end1)
    requires AlignedAt(x, e, y, e1)
    ensures Aligned(d + [x], e, d1 + [y], e1)
  {
  }

  lemma {:induction false} AlignedEarlier(d: seq<Dest>, end: nat, d1: seq<Dest>, end1: nat, e: nat, e1: nat)
    requires Aligned(d, end, d1, end1) && e <= end && e1 <= end1 && (e == end <==> e1 == end1)
    ensures Aligned(d, e, d1, e1)
  {
  }

  /** Folding leaves no code where there was some. */
  lemma {:induction false} FoldEmpty(ar: Arith, s: Stm, p: Path)
    ensures SizeS(FoldS(ar, s), p) == 0 <==> SizeS(s, p) == 0
    decreases s, 1
  {
    hide SizeS, FoldS, SizeE, Fold, SizeList, FoldList, SizeVars, FoldVars, SizeBodies, FoldCases;
    hide SizeTests, SizeInit, FoldInit, SizeExit, SizeForAssign;
    FoldSDef(ar, s);
    SizeDef(s, p);
    SizeDef(FoldS(ar, s), p);
    match s
    case Block(body) => FoldListEmpty(ar, body, Inside(Plain, p));
    case VarStm(vars) => FoldVarsEmpty(ar, vars);
    case Label(x, b) => FoldEmpty(ar, b, Inside(Labelled(x), p));
    case _ =>
  }

  lemma {:induction false} SizeDef(s: Stm, p: Path)
    ensures SizeS(s, p) == SizeStm(s, p)
  {
  }

  lemma {:induction false} FoldListEmpty(ar: Arith, ss: Stms, p: Path)
    ensures SizeList(FoldList(ar, ss), p) == 0 <==> SizeList(ss, p) == 0
    decreases ss, 0
  {
    hide SizeS, FoldS;
    if ss.Stms? {
      FoldEmpty(ar, ss.head, p);
      FoldListEmpty(ar, ss.tail, p);
    }
  }

  lemma {:induction false} FoldCasesEmpty(ar: Arith, cases: Cases, p: Path)
    ensures SizeBodies(FoldCases(ar, cases), p) == 0 <==> SizeBodies(cases, p) == 0
    decreases cases, 0
  {
    hide SizeList, FoldList, Fold;
    if !cases.NoCases? {
      FoldListEmpty(ar, cases.body, p);
      FoldCasesEmpty(ar, cases.rest, p);
    }
  }

  lemma {:induction false} FoldVarsEmpty(ar: Arith, vars: Vars)
    ensures SizeVars(FoldVars(ar, vars)) == 0 <==> SizeVars(vars) == 0
    decreases vars
  {
    hide SizeE, Fold;
    if vars.Var? { FoldVarsEmpty(ar, vars.rest); }
  }

  /** Folding keeps statements sound, wherever their code lies. */
  lemma {:induction false} FoldSane(ar: Arith, s: Stm, p: Path, d: seq<Dest>, a: nat, d1: seq<Dest>, a1: nat)
    requires |d| == |d1| == Depth(p) && Aligned(d, a + SizeS(s, p), d1, a1 + SizeS(FoldS(ar, s), p))
    ensures Sane(FoldS(ar, s), p, d1, a1) == Sane(s, p, d, a)
    decreases s, 3
  {
    hide Sane, FoldS, Fold, FoldOpt, FoldInit, FoldVars, FoldList, FoldCases, SizeS, Aligned, SaneList, SaneCases;
    hide SaneLoop, Straight, SizeE, SizeInit, SizeTests, SizeForAssign;
    FoldSDef(ar, s);
    SaneDef(s, p, d, a);
    SaneDef(FoldS(ar, s), p, d1, a1);
    match s
    case Block(_) => FoldBlockSane(ar, s, p, d, a, d1, a1);
    case If(_, _) => FoldIfSane(ar, s, p, d, a, d1, a1);
    case IfElse(_, _, _) => FoldIfElseSane(ar, s, p, d, a, d1, a1);
    case Do(_, _) => FoldDoSane(ar, s, p, d, a, d1, a1);
    case While(_, _) => FoldLoopSane(ar, s, p, d, a, d1, a1);
    case For(_, _, _, _) => FoldLoopSane(ar, s, p, d, a, d1, a1);
    case ForIn(_, _, _) => FoldForInSane(ar, s, p, d, a, d1, a1);
    case Switch(_, _) => FoldSwitchSane(ar, s, p, d, a, d1, a1);
    case Label(_, _) => FoldLabelSane(ar, s, p, d, a, d1, a1);
    case With(_, _) => FoldWithSane(ar, s, p, d, a, d1, a1);
    case Try(_, _, _) => FoldTrySane(ar, s, p, d, a, d1, a1);
    case Break(_) => FoldBreakSane(s, p, d, a, d1, a1);
    case _ =>
  }

  lemma {:induction false} FoldBreakSane(s: Stm, p: Path, d: seq<Dest>, a: nat, d1: seq<Dest>, a1: nat)
    requires |d| == |d1| == Depth(p) && Aligned(d, a + SizeS(s, p), d1, a1 + SizeS(s, p)) && s.Break?
    ensures Straight(p, d1, s.l, a1 + SizeS(s, p)) == Straight(p, d, s.l, a + SizeS(s, p))
  {
    hide BreakTarget, MatchLabel, Transparent, SizeExit;
    var k := BreakTarget(p, s.l);
    if 0 < k { assert AlignedAt(d[k - 1], a + SizeS(s, p), d1[k - 1], a1 + SizeS(s, p)); }
  }

  /** A statement b inside a node that goes on to `end`. */
  lemma {:induction false} FoldInside(ar: Arith, b: Stm, p: Path, d: seq<Dest>, end: nat, d1: seq<Dest>, end1: nat,
    x: Dest, q: nat, y: Dest, q1: nat)
    requires p.Inside? && |d| == |d1| == Depth(p.up) && Aligned(d, end, d1, end1)
    requires var e, e1 := q + SizeS(b, p), q1 + SizeS(FoldS(ar, b), p);
      e <= end && e1 <= end1 && (e == end <==> e1 == end1) && AlignedAt(x, e, y, e1)
    ensures Sane(FoldS(ar, b), p, d1 + [y], q1) == Sane(b, p, d + [x], q)
    decreases b, 4
  {
    hide Sane, FoldS, SizeS, Aligned;
    AlignedIn(d, end, d1, end1, x, q + SizeS(b, p), y, q1 + SizeS(FoldS(ar, b), p));
    FoldSane(ar, b, p, d + [x], q, d1 + [y], q1);
  }

  lemma {:induction false} FoldBlockSane(ar: Arith, s: Stm, p: Path, d: seq<Dest>, a: nat, d1: seq<Dest>, a1: nat)
    requires |d| == |d1| == Depth(p) && Aligned(d, a + SizeS(s, p), d1, a1 + SizeS(FoldS(ar, s), p)) && s.Block?
    ensures SaneStm(FoldS(ar, s), p, d1, a1) == SaneStm(s, p, d, a)
    decreases s, 2
  {
    hide Sane, FoldS, Fold, SizeS, Aligned, SizeE, FoldList, SizeList, SaneList;
    FoldSDef(ar, s);
    SizeDef(s, p);
    SizeDef(FoldS(ar, s), p);
    var end, end1 := a + SizeS(s, p), a1 + SizeS(FoldS(ar, s), p);
    AlignedIn(d, end, d1, end1, Dest(end, 0), end, Dest(end1, 0), end1);
    FoldListSane(ar, s.body, Inside(Plain, p), d + [Dest(end, 0)], a, d1 + [Dest(end1, 0)], a1);
  }

  lemma {:induction false} FoldIfSane(ar: Arith, s: Stm, p: Path, d: seq<Dest>, a: nat, d1: seq<Dest>, a1: nat)
    requires |d| == |d1| == Depth(p) && Aligned(d, a + SizeS(s, p), d1, a1 + SizeS(FoldS(ar, s), p)) && s.If?
    ensures SaneStm(FoldS(ar, s), p, d1, a1) == SaneStm(s, p, d, a)
    decreases s, 2
  {
    hide Sane, FoldS, Fold, SizeS, Aligned, SizeE;
    FoldSDef(ar, s);
    SizeDef(s, p);
    SizeDef(FoldS(ar, s), p);
    var end, end1 := a + SizeS(s, p), a1 + SizeS(FoldS(ar, s), p);
    FoldInside(ar, s.a, Inside(Plain, p), d, end, d1, end1, Dest(end, 0), a + SizeE(s.c) + 2, Dest(end1, 0),
      a1 + SizeE(Fold(ar, s.c)) + 2);
  }

  lemma {:induction false} FoldIfElseSane(ar: Arith, s: Stm, p: Path, d: seq<Dest>, a: nat, d1: seq<Dest>, a1: nat)
    requires |d| == |d1| == Depth(p) && Aligned(d, a + SizeS(s, p), d1, a1 + SizeS(FoldS(ar, s), p)) && s.IfElse?
    ensures SaneStm(FoldS(ar, s), p, d1, a1) == SaneStm(s, p, d, a)
    decreases s, 2
  {
    hide Sane, FoldS, Fold, SizeS, Aligned, SizeE;
    FoldSDef(ar, s);
    SizeDef(s, p);
    SizeDef(FoldS(ar, s), p);
    var end, end1 := a + SizeS(s, p), a1 + SizeS(FoldS(ar, s), p);
    var p1, x, y := Inside(Plain, p), Dest(end, 0), Dest(end1, 0);
    var q, q1 := a + SizeE(s.c) + 2, a1 + SizeE(Fold(ar, s.c)) + 2;
    FoldInside(ar, s.b, p1, d, end, d1, end1, x, q, y, q1);
    FoldInside(ar, s.a, p1, d, end, d1, end1, x, q + SizeS(s.b, p1) + 2, y, q1 + SizeS(FoldS(ar, s.b), p1) + 2);
  }

  lemma {:induction false} FoldDoSane(ar: Arith, s: Stm, p: Path, d: seq<Dest>, a: nat, d1: seq<Dest>, a1: nat)
    requires |d| == |d1| == Depth(p) && Aligned(d, a + SizeS(s, p), d1, a1 + SizeS(FoldS(ar, s), p)) && s.Do?
    ensures SaneStm(FoldS(ar, s), p, d1, a1) == SaneStm(s, p, d, a)
    decreases s, 2
  {
    hide Sane, FoldS, Fold, SizeS, Aligned, SizeE;
    FoldSDef(ar, s);
    SizeDef(s, p);
    SizeDef(FoldS(ar, s), p);
    var end, end1 := a + SizeS(s, p), a1 + SizeS(FoldS(ar, s), p);
    var p1 := Inside(Loop, p);
    FoldInside(ar, s.s, p1, d, end, d1, end1, Dest(end, a + SizeS(s.s, p1)), a,
      Dest(end1, a1 + SizeS(FoldS(ar, s.s), p1)), a1);
  }

  lemma {:induction false} FoldLoopSane(ar: Arith, s: Stm, p: Path, d: seq<Dest>, a: nat, d1: seq<Dest>, a1: nat)
    requires |d| == |d1| == Depth(p) && Aligned(d, a + SizeS(s, p), d1, a1 + SizeS(FoldS(ar, s), p))
      && (s.While? || s.For?)
    ensures SaneStm(FoldS(ar, s), p, d1, a1) == SaneStm(s, p, d, a)
    decreases s, 2
  {
    hide Sane, FoldS, Fold, SizeS, Aligned, SizeE, FoldInit, SizeInit;
    FoldSDef(ar, s);
    SizeDef(s, p);
    SizeDef(FoldS(ar, s), p);
    var end, end1 := a + SizeS(s, p), a1 + SizeS(FoldS(ar, s), p);
    var g, p1 := FoldS(ar, s), Inside(Loop, p);
    var h, h1 := if s.While? then a else a + SizeInit(s.init), if s.While? then a1 else a1 + SizeInit(g.init);
    var b := if TestOf(s).Some? then h + SizeE(TestOf(s).value) + 2 else h;
    var b1 := if TestOf(g).Some? then h1 + SizeE(TestOf(g).value) + 2 else h1;
    FoldInside(ar, s.s, p1, d, end, d1, end1, Dest(end, if s.While? then h else b + SizeS(s.s, p1)), b,
      Dest(end1, if s.While? then h1 else b1 + SizeS(g.s, p1)), b1);
  }

  lemma {:induction false} FoldForInSane(ar: Arith, s: Stm, p: Path, d: seq<Dest>, a: nat, d1: seq<Dest>, a1: nat)
    requires |d| == |d1| == Depth(p) && Aligned(d, a + SizeS(s, p), d1, a1 + SizeS(FoldS(ar, s), p)) && s.ForIn?
    ensures SaneStm(FoldS(ar, s), p, d1, a1) == SaneStm(s, p, d, a)
    decreases s, 2
  {
    hide Sane, FoldS, Fold, SizeS, Aligned, SizeE, SizeForAssign;
    FoldSDef(ar, s);
    SizeDef(s, p);
    SizeDef(FoldS(ar, s), p);
    var end, end1 := a + SizeS(s, p), a1 + SizeS(FoldS(ar, s), p);
    FoldIdent(ar, s.lhs);
    var g := FoldS(ar, s);
    var q, q1 := a + SizeE(s.e) + 1, a1 + SizeE(g.e) + 1;
    FoldInside(ar, s.s, Inside(ForInLoop, p), d, end, d1, end1, Dest(end, q), q + 3 + SizeForAssign(s.lhs),
      Dest(end1, q1), q1 + 3 + SizeForAssign(g.lhs));
  }

  lemma {:induction false} FoldSwitchSane(ar: Arith, s: Stm, p: Path, d: seq<Dest>, a: nat, d1: seq<Dest>, a1: nat)
    requires |d| == |d1| == Depth(p) && Aligned(d, a + SizeS(s, p), d1, a1 + SizeS(FoldS(ar, s), p)) && s.Switch?
    ensures SaneStm(FoldS(ar, s), p, d1, a1) == SaneStm(s, p, d, a)
    decreases s, 2
  {
    hide Sane, FoldS, Fold, SizeS, Aligned, SizeE, FoldCases, SizeTests, SizeBodies, SaneCases;
    FoldSDef(ar, s);
    SizeDef(s, p);
    SizeDef(FoldS(ar, s), p);
    var end, end1 := a + SizeS(s, p), a1 + SizeS(FoldS(ar, s), p);
    AlignedIn(d, end, d1, end1, Dest(end, 0), end, Dest(end1, 0), end1);
    var g := FoldS(ar, s);
    FoldCasesSane(ar, s.cases, Inside(SwitchNode, p), d + [Dest(end, 0)], a + SizeE(s.e) + SizeTests(s.cases) + 3,
      d1 + [Dest(end1, 0)], a1 + SizeE(g.e) + SizeTests(g.cases) + 3);
  }

  lemma {:induction false} FoldLabelSane(ar: Arith, s: Stm, p: Path, d: seq<Dest>, a: nat, d1: seq<Dest>, a1: nat)
    requires |d| == |d1| == Depth(p) && Aligned(d, a + SizeS(s, p), d1, a1 + SizeS(FoldS(ar, s), p)) && s.Label?
    ensures SaneStm(FoldS(ar, s), p, d1, a1) == SaneStm(s, p, d, a)
    decreases s, 2
  {
    hide Sane, FoldS, Fold, SizeS, Aligned, SizeE;
    FoldSDef(ar, s);
    SizeDef(s, p);
    SizeDef(FoldS(ar, s), p);
    var end, end1 := a + SizeS(s, p), a1 + SizeS(FoldS(ar, s), p);
    FoldInside(ar, s.s, Inside(Labelled(s.x), p), d, end, d1, end1, Dest(0, 0), a, Dest(0, 0), a1);
  }

  lemma {:induction false} FoldWithSane(ar: Arith, s: Stm, p: Path, d: seq<Dest>, a: nat, d1: seq<Dest>, a1: nat)
    requires |d| == |d1| == Depth(p) && Aligned(d, a + SizeS(s, p), d1, a1 + SizeS(FoldS(ar, s), p)) && s.With?
    ensures SaneStm(FoldS(ar, s), p, d1, a1) == SaneStm(s, p, d, a)
    decreases s, 2
  {
    hide Sane, FoldS, Fold, SizeS, Aligned, SizeE;
    FoldSDef(ar, s);
    SizeDef(s, p);
    SizeDef(FoldS(ar, s), p);
    var end, end1 := a + SizeS(s, p), a1 + SizeS(FoldS(ar, s), p);
    FoldInside(ar, s.s, Inside(WithNode, p), d, end, d1, end1, Dest(end, 0), a + SizeE(s.e) + 1, Dest(end1, 0),
      a1 + SizeE(Fold(ar, s.e)) + 1);
  }

  lemma {:induction false} FoldTrySane(ar: Arith, s: Stm, p: Path, d: seq<Dest>, a: nat, d1: seq<Dest>, a1: nat)
    requires |d| == |d1| == Depth(p) && Aligned(d, a + SizeS(s, p), d1, a1 + SizeS(FoldS(ar, s), p)) && s.Try?
    ensures SaneStm(FoldS(ar, s), p, d1, a1) == SaneStm(s, p, d, a)
    decreases s, 2
  {
    hide Sane, FoldS, Fold, SizeS, Aligned, SizeE;
    FoldSDef(ar, s);
    SizeDef(s, p);
    SizeDef(FoldS(ar, s), p);
    var end, end1 := a + SizeS(s, p), a1 + SizeS(FoldS(ar, s), p);
    var h, x, y := s.handler, Dest(end, 0), Dest(end1, 0);
    var q := a + 4 + SizeS(h, Inside(CatchBody, p)) + 3;
    var q1 := a1 + 4 + SizeS(FoldS(ar, h), Inside(CatchBody, p)) + 3;
    FoldInside(ar, h, Inside(CatchBody, p), d, end, d1, end1, x, a + 4, y, a1 + 4);
    FoldInside(ar, s.s, Inside(TryBody, p), d, end, d1, end1, x, q, y, q1);
  }

  lemma {:induction false} FoldListSane(ar: Arith, ss: Stms, p: Path, d: seq<Dest>, a: nat, d1: seq<Dest>, a1: nat)
    requires |d| == |d1| == Depth(p) && Aligned(d, a + SizeList(ss, p), d1, a1 + SizeList(FoldList(ar, ss), p))
    ensures SaneList(FoldList(ar, ss), p, d1, a1) == SaneList(ss, p, d, a)
    decreases ss, 1
  {
    hide Sane, FoldS, SizeS, Aligned;
    if ss.Stms? {
      var q, q1 := a + SizeS(ss.head, p), a1 + SizeS(FoldS(ar, ss.head), p);
      FoldListEmpty(ar, ss.tail, p);
      AlignedEarlier(d, a + SizeList(ss, p), d1, a1 + SizeList(FoldList(ar, ss), p), q, q1);
      FoldSane(ar, ss.head, p, d, a, d1, a1);
      FoldListSane(ar, ss.tail, p, d, q, d1, q1);
    }
  }

  lemma {:induction false} FoldCasesSane(ar: Arith, cases: Cases, p: Path, d: seq<Dest>, a: nat, d1: seq<Dest>,
    a1: nat)
    requires |d| == |d1| == Depth(p)
      && Aligned(d, a + SizeBodies(cases, p), d1, a1 + SizeBodies(FoldCases(ar, cases), p))
    ensures SaneCases(FoldCases(ar, cases), p, d1, a1) == SaneCases(cases, p, d, a)
    decreases cases, 1
  {
    hide SaneList, FoldList, SizeList, Aligned, Fold;
    if !cases.NoCases? {
      var q, q1 := a + SizeList(cases.body, p), a1 + SizeList(FoldList(ar, cases.body), p);
      FoldCasesEmpty(ar, cases.rest, p);
      AlignedEarlier(d, a + SizeBodies(cases, p), d1, a1 + SizeBodies(FoldCases(ar, cases), p), q, q1);
      FoldListSane(ar, cases.body, p, d, a, d1, a1);
      FoldCasesSane(ar, cases.rest, p, d, q, d1, q1);
    }
  }

  // ----- from the parsed tree to the end of a call -----

  /** `jsP_foldconst` and `cfunbody` */
  method CompileFolded(ar: Arith, names: Names, body: Stms) returns (r: Result)
    ensures r.Compiled? ==> CodedBody(r.f, names, FoldList(ar, body), 0) && !TooWide(r.f)
    ensures r.SyntaxError? <==> !AcceptedList(body, Function)
  {
    r := CompileBody(names, FoldList(ar, body));
    FoldListKept(ar, body, Function);
  }

  /** A call of the folded body's code stops exactly if evaluation of the body as it was written
      ends, with the same value or exception in the same world. */
  lemma {:induction false} FoldedCallMeans(ar: Arith, f: Fn, c: Ctx, body: Stms, frame: seq<Value>, scope: Scope,
    w: World, fuel: nat)
    requires Operates(ar, c.lib) && |frame| == FrameSize(c.names)
    requires SaneList(body, Function, [], 0) && CodedBody(f, c.names, FoldList(ar, body), 0)
    ensures var t := Started(frame, scope, w);
      var r := ExecList(c, body, scope, Mem(frame, w), fuel);
      && (r.Timeout? ==> Run(f, c.lib, t, fuel).Running?)
      && (!r.Timeout? ==> exists n :: Run(f, c.lib, t, n) == Outcome(t, r))
      && (!Run(f, c.lib, t, fuel).Running? ==>
            var q := ExecList(c, body, scope, Mem(frame, w), fuel + 1);
            !q.Timeout? && Run(f, c.lib, t, fuel) == Outcome(t, q))
  {
    hide Run, SaneList, CodedBody, ExecList, FoldList, Operates, Agrees;
    OperatesAgrees(ar, c.lib);
    OperatesNegates(ar, c.lib);
    FoldListSane(ar, body, Function, [], 0, [], 0);
    ListKeeps(ar, c, body, scope, Mem(frame, w), fuel);
    ListKeeps(ar, c, body, scope, Mem(frame, w), fuel + 1);
    CallMeans(f, c, FoldList(ar, body), frame, scope, w, fuel);
  }

  lemma {:induction false} OperatesNegates(ar: Arith, lib: Lib)
    requires Operates(ar, lib)
    ensures Negates(lib)
  {
  }
}
