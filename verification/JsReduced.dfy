/** Folding leaves nothing to fold: what operators on literals are replaced by, and that none is
    left (the end of jsparse.c). */
module JsReduced {
  import opened JsTree
  import opened JsFold

  // ----- the operators -----

  /** The operators that are folded. */
  const NUMERIC1: set<UnOp> := {Neg, Pos, BitNot}
  const NUMERIC2: set<BinOp> := {Mul, Div, Mod, Add, Sub, Shl, Shr, Ushr, BitAnd, BitXor, BitOr}

  /** Of two literals they are one literal. Arithmetic is the machine's, in the order of the operands;
      minus changes the sign, that of zero and of infinity too. */
  lemma {:induction false} LiteralsFold(ar: Arith, u: UnOp, op: BinOp, x: Number, y: Number)
    ensures u in NUMERIC1 <==> Fold(ar, Unary(u, NumLit(x))).NumLit?
    ensures op in NUMERIC2 <==> Fold(ar, Binary(op, NumLit(x), NumLit(y))).NumLit?
    ensures op in {Mul, Div, Mod, Add, Sub} ==>
      Fold(ar, Binary(op, NumLit(x), NumLit(y))) == NumLit(ar.double2(op, x, y))
    ensures Fold(ar, Unary(Pos, NumLit(x))) == NumLit(x)
    ensures x.Finite? ==> Fold(ar, Unary(Neg, NumLit(x))) == NumLit(Finite(!x.neg, x.mag))
    ensures x.Infinity? ==> Fold(ar, Unary(Neg, NumLit(x))) == NumLit(Infinity(!x.neg))
    ensures x.NaN? ==> Fold(ar, Unary(Neg, NumLit(x))) == NumLit(NaN)
  {
    hide Fold, OfInt, ToInt32, ToUint32, Int2, Bits2, Not;
    LiteralUnary(ar, u, x);
    LiteralUnary(ar, Pos, x);
    LiteralUnary(ar, Neg, x);
    LiteralBinary(ar, op, x, y);
  }

  lemma {:induction false} LiteralUnary(ar: Arith, u: UnOp, x: Number)
    ensures Fold(ar, Unary(u, NumLit(x))) == UnaryOf(ar, u, NumLit(x))
  {
    hide Fold, UnaryOf;
    FoldDef(ar, NumLit(x));
    FoldDef(ar, Unary(u, NumLit(x)));
  }

  lemma {:induction false} LiteralBinary(ar: Arith, op: BinOp, x: Number, y: Number)
    ensures Fold(ar, Binary(op, NumLit(x), NumLit(y))) == BinaryOf(ar, op, NumLit(x), NumLit(y))
  {
    hide Fold, BinaryOf;
    FoldDef(ar, NumLit(x));
    FoldDef(ar, NumLit(y));
    FoldDef(ar, Binary(op, NumLit(x), NumLit(y)));
  }

  // ----- trees -----

  /** No such operator has literals as its operands, anywhere in the tree. */
  predicate Reduced(e: Exp) {
    match e
    case ObjLit(props) => ReducedProps(props)
    case ArrLit(items) => ReducedItems(items)
    case Index(a, b) => Reduced(a) && Reduced(b)
    case Member(a, _) => Reduced(a)
    case Call(f, args) => Reduced(f) && ReducedArgs(args)
    case New(f, args) => Reduced(f) && ReducedArgs(args)
    case Delete(a) => Reduced(a)
    case Typeof(a) => Reduced(a)
    case Void(a) => Reduced(a)
    case Crement(_, _, a) => Reduced(a)
    case Unary(u, a) => Reduced(a) && !(u in NUMERIC1 && a.NumLit?)
    case Binary(op, a, b) => Reduced(a) && Reduced(b) && !(op in NUMERIC2 && a.NumLit? && b.NumLit?)
    case Assign(a, b) => Reduced(a) && Reduced(b)
    case AssignOp(_, a, b) => Reduced(a) && Reduced(b)
    case Comma(a, b) => Reduced(a) && Reduced(b)
    case LogOr(a, b) => Reduced(a) && Reduced(b)
    case LogAnd(a, b) => Reduced(a) && Reduced(b)
    case Cond(a, b, d) => Reduced(a) && Reduced(b) && Reduced(d)
    case _ => true
  }

  predicate ReducedArgs(args: Exps) {
    args.Exps? ==> Reduced(args.head) && ReducedArgs(args.tail)
  }

  predicate ReducedItems(items: Items) {
    match items
    case NoItems => true
    case Hole(rest) => ReducedItems(rest)
    case Item(e, rest) => Reduced(e) && ReducedItems(rest)
  }

  predicate ReducedProps(props: Props) {
    props.Prop? ==> (props.kind.PropVal? ==> Reduced(props.kind.e)) && ReducedProps(props.rest)
  }

  /** No folded expression has anything left to fold. */
  lemma {:induction false} FoldReduces(ar: Arith, e: Exp)
    ensures Reduced(Fold(ar, e))
    decreases e, 1
  {
    hide Fold, Reduced;
    match e
    case Unary(_, _) | Binary(_, _, _) => OperatorReduces(ar, e);
    case ObjLit(_) | ArrLit(_) | Call(_, _) | New(_, _) => ListsReduce(ar, e);
    case Index(_, _) | Member(_, _) | Delete(_) | Typeof(_) | Void(_) | Crement(_, _, _) => PartReduces(ar, e);
    case Assign(_, _) | AssignOp(_, _, _) | Comma(_, _) | LogOr(_, _) | LogAnd(_, _) | Cond(_, _, _) =>
      PartsReduce(ar, e);
    case StrLit(_) | NumLit(_) | UndefLit | NullLit | TrueLit | FalseLit | This | RegexpLit(_, _) | FunLit(_)
      | Ident(_) => LeafReduces(ar, e);
  }

  lemma {:induction false} LeafReduces(ar: Arith, e: Exp)
    requires e.StrLit? || e.NumLit? || e.UndefLit? || e.NullLit? || e.TrueLit? || e.FalseLit? || e.This?
      || e.RegexpLit? || e.FunLit? || e.Ident?
    ensures Reduced(Fold(ar, e))
  {
    hide Fold;
    FoldDef(ar, e);
  }

  lemma {:induction false} OperatorReduces(ar: Arith, e: Exp)
    requires e.Unary? || e.Binary?
    ensures Reduced(Fold(ar, e))
    decreases e, 0
  {
    hide Fold, OfInt, ToInt32, ToUint32, Int2, Bits2, Minus;
    FoldDef(ar, e);
    FoldReduces(ar, e.a);
    if e.Binary? { FoldReduces(ar, e.b); }
  }

  lemma {:induction false} PartReduces(ar: Arith, e: Exp)
    requires e.Index? || e.Member? || e.Delete? || e.Typeof? || e.Void? || e.Crement?
    ensures Reduced(Fold(ar, e))
    decreases e, 0
  {
    hide Fold;
    FoldDef(ar, e);
    FoldReduces(ar, e.a);
    if e.Index? { FoldReduces(ar, e.b); }
  }

  lemma {:induction false} PartsReduce(ar: Arith, e: Exp)
    requires e.Assign? || e.AssignOp? || e.Comma? || e.LogOr? || e.LogAnd? || e.Cond?
    ensures Reduced(Fold(ar, e))
    decreases e, 0
  {
    hide Fold;
    FoldDef(ar, e);
    FoldReduces(ar, e.a);
    FoldReduces(ar, e.b);
    if e.Cond? { FoldReduces(ar, e.c); }
  }

  lemma {:induction false} ListsReduce(ar: Arith, e: Exp)
    requires e.ObjLit? || e.ArrLit? || e.Call? || e.New?
    ensures Reduced(Fold(ar, e))
    decreases e, 0
  {
    hide Fold, FoldProps, FoldItems, FoldArgs, ReducedProps, ReducedItems, ReducedArgs;
    FoldDef(ar, e);
    match e
    case ObjLit(props) => PropsReduce(ar, props);
    case ArrLit(items) => ItemsReduce(ar, items);
    case Call(f, args) => FoldReduces(ar, f); ArgsReduce(ar, args);
    case New(f, args) => FoldReduces(ar, f); ArgsReduce(ar, args);
  }

  lemma {:induction false} ArgsReduce(ar: Arith, args: Exps)
    ensures ReducedArgs(FoldArgs(ar, args))
    decreases args
  {
    hide Fold, Reduced;
    if args.Exps? {
      FoldReduces(ar, args.head);
      ArgsReduce(ar, args.tail);
    }
  }

  lemma {:induction false} ItemsReduce(ar: Arith, items: Items)
    ensures ReducedItems(FoldItems(ar, items))
    decreases items
  {
    hide Fold, Reduced;
    match items
    case NoItems =>
    case Hole(rest) => ItemsReduce(ar, rest);
    case Item(e, rest) =>
      FoldReduces(ar, e);
      ItemsReduce(ar, rest);
  }

  lemma {:induction false} PropsReduce(ar: Arith, props: Props)
    ensures ReducedProps(FoldProps(ar, props))
    decreases props
  {
    hide Fold, Reduced;
    if props.Prop? {
      if props.kind.PropVal? { FoldReduces(ar, props.kind.e); }
      PropsReduce(ar, props.rest);
    }
  }

  // ----- statements -----

  predicate ReducedOpt(e: Option<Exp>) {
    e.Some? ==> Reduced(e.value)
  }

  predicate ReducedVars(vars: Vars) {
    vars.Var? ==> ReducedOpt(vars.init) && ReducedVars(vars.rest)
  }

  predicate ReducedInit(init: Init) {
    match init
    case NoInit => true
    case VarInit(vars) => ReducedVars(vars)
    case ExpInit(e) => Reduced(e)
  }

  /** The same of every expression in a statement. */
  predicate ReducedS(s: Stm) {
    match s
    case Block(body) => ReducedList(body)
    case VarStm(vars) => ReducedVars(vars)
    case If(e, a) => Reduced(e) && ReducedS(a)
    case IfElse(e, a, b) => Reduced(e) && ReducedS(a) && ReducedS(b)
    case Do(b, e) => ReducedS(b) && Reduced(e)
    case While(e, b) => Reduced(e) && ReducedS(b)
    case For(init, e, step, b) => ReducedInit(init) && ReducedOpt(e) && ReducedOpt(step) && ReducedS(b)
    case ForIn(lhs, e, b) => Reduced(lhs) && Reduced(e) && ReducedS(b)
    case Switch(e, cases) => Reduced(e) && ReducedCases(cases)
    case Label(_, b) => ReducedS(b)
    case Return(e) => ReducedOpt(e)
    case Throw(e) => Reduced(e)
    case With(e, b) => Reduced(e) && ReducedS(b)
    case Try(b, _, h) => ReducedS(b) && ReducedS(h)
    case ExpStm(e) => Reduced(e)
    case _ => true
  }

  predicate ReducedList(ss: Stms) {
    ss.Stms? ==> ReducedS(ss.head) && ReducedList(ss.tail)
  }

  predicate ReducedCases(cases: Cases) {
    match cases
    case NoCases => true
    case Default(body, rest) => ReducedList(body) && ReducedCases(rest)
    case Case(e, body, rest) => Reduced(e) && ReducedList(body) && ReducedCases(rest)
  }

  lemma {:induction false} OptReduces(ar: Arith, e: Option<Exp>)
    ensures ReducedOpt(FoldOpt(ar, e))
  {
    hide Fold, Reduced;
    if e.Some? { FoldReduces(ar, e.value); }
  }

  lemma {:induction false} VarsReduce(ar: Arith, vars: Vars)
    ensures ReducedVars(FoldVars(ar, vars))
  {
    hide FoldOpt, ReducedOpt;
    if vars.Var? {
      OptReduces(ar, vars.init);
      VarsReduce(ar, vars.rest);
    }
  }

  lemma {:induction false} InitReduces(ar: Arith, init: Init)
    ensures ReducedInit(FoldInit(ar, init))
  {
    hide Fold, Reduced, FoldVars, ReducedVars;
    match init
    case NoInit =>
    case VarInit(vars) => VarsReduce(ar, vars);
    case ExpInit(e) => FoldReduces(ar, e);
  }

  /** No folded statement has anything left to fold. */
  lemma {:induction false} FoldSReduces(ar: Arith, s: Stm)
    ensures ReducedS(FoldS(ar, s))
    decreases s, 1
  {
    hide Fold, FoldS, FoldOpt, FoldVars, FoldInit, Reduced, ReducedOpt, ReducedVars, ReducedInit, FoldList, FoldCases;
    hide ReducedList, ReducedCases;
    FoldSDef(ar, s);
    match s
    case Block(body) => ListReduces(ar, body);
    case VarStm(vars) => VarsReduce(ar, vars);
    case If(e, a) => FoldReduces(ar, e); FoldSReduces(ar, a);
    case IfElse(e, a, b) => FoldReduces(ar, e); FoldSReduces(ar, a); FoldSReduces(ar, b);
    case Do(b, e) => FoldSReduces(ar, b); FoldReduces(ar, e);
    case While(e, b) => FoldReduces(ar, e); FoldSReduces(ar, b);
    case For(init, e, step, b) =>
      InitReduces(ar, init);
      OptReduces(ar, e);
      OptReduces(ar, step);
      FoldSReduces(ar, b);
    case ForIn(lhs, e, b) => FoldReduces(ar, lhs); FoldReduces(ar, e); FoldSReduces(ar, b);
    case Switch(e, cases) => FoldReduces(ar, e); CasesReduce(ar, cases);
    case Label(_, b) => FoldSReduces(ar, b);
    case Return(e) => OptReduces(ar, e);
    case Throw(e) => FoldReduces(ar, e);
    case With(e, b) => FoldReduces(ar, e); FoldSReduces(ar, b);
    case Try(b, _, h) => FoldSReduces(ar, b); FoldSReduces(ar, h);
    case ExpStm(e) => FoldReduces(ar, e);
    case _ =>
  }

  lemma {:induction false} ListReduces(ar: Arith, ss: Stms)
    ensures ReducedList(FoldList(ar, ss))
    decreases ss, 0
  {
    hide FoldS, ReducedS;
    if ss.Stms? {
      FoldSReduces(ar, ss.head);
      ListReduces(ar, ss.tail);
    }
  }

  lemma {:induction false} CasesReduce(ar: Arith, cases: Cases)
    ensures ReducedCases(FoldCases(ar, cases))
    decreases cases, 0
  {
    hide Fold, Reduced, FoldList, ReducedList;
    match cases
    case NoCases =>
    case Default(body, rest) =>
      ListReduces(ar, body);
      CasesReduce(ar, rest);
    case Case(e, body, rest) =>
      FoldReduces(ar, e);
      ListReduces(ar, body);
      CasesReduce(ar, rest);
  }
}
