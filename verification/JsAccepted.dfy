/** The trees that jscompile.c compiles without reporting an error, outside strict mode. */
module JsAccepted {
  import opened JsTree
  import opened JsTargets

  predicate Accepted(e: Exp)
    decreases e, 2
  {
    AcceptedNode(e)
  }

  lemma {:induction false} AcceptedDef(e: Exp)
    ensures Accepted(e) == AcceptedNode(e)
  {
  }

  predicate AcceptedNode(e: Exp)
    decreases e, 1
  {
    match e
    case ObjLit(props) => AcceptedProps(props)
    case ArrLit(items) => AcceptedItems(items)
    case Index(a, b) => Accepted(a) && Accepted(b)
    case Member(a, _) => Accepted(a)
    case Call(f, args) => Accepted(f) && AcceptedArgs(args)
    case New(f, args) => Accepted(f) && AcceptedArgs(args)
    case Delete(a) => AcceptedRef(a)
    case Typeof(a) => Accepted(a)
    case Void(a) => Accepted(a)
    case Crement(_, _, a) => AcceptedRef(a)
    case Unary(_, a) => Accepted(a)
    case Binary(_, a, b) => Accepted(a) && Accepted(b)
    case Assign(a, b) => AcceptedRef(a) && Accepted(b)
    case AssignOp(_, a, b) => AcceptedRef(a) && Accepted(b)
    case Comma(a, b) => Accepted(a) && Accepted(b)
    case LogOr(a, b) => Accepted(a) && Accepted(b)
    case LogAnd(a, b) => Accepted(a) && Accepted(b)
    case Cond(a, b, d) => Accepted(a) && Accepted(b) && Accepted(d)
    case _ => true
  }

  /** What may be assigned to. */
  predicate AcceptedRef(e: Exp)
    decreases e, 0
  {
    match e
    case Ident(_) => true
    case Index(a, b) => Accepted(a) && Accepted(b)
    case Member(a, _) => Accepted(a)
    case _ => false
  }

  predicate AcceptedArgs(args: Exps) {
    args.Exps? ==> Accepted(args.head) && AcceptedArgs(args.tail)
  }

  predicate AcceptedItems(items: Items) {
    match items
    case NoItems => true
    case Hole(rest) => AcceptedItems(rest)
    case Item(e, rest) => Accepted(e) && AcceptedItems(rest)
  }

  predicate AcceptedProps(props: Props) {
    match props
    case NoProps => true
    case Prop(key, kind, rest) =>
      (key.StrLit? || key.NumLit?) && (kind.PropVal? ==> Accepted(kind.e)) && AcceptedProps(rest)
  }

  predicate AcceptedOpt(e: Option<Exp>) {
    e.Some? ==> Accepted(e.value)
  }

  predicate AcceptedVars(vars: Vars) {
    vars.Var? ==> AcceptedOpt(vars.init) && AcceptedVars(vars.rest)
  }

  predicate AcceptedInit(init: Init) {
    match init
    case NoInit => true
    case VarInit(vars) => AcceptedVars(vars)
    case ExpInit(e) => Accepted(e)
  }

  /** Every break and continue must find its target. */
  predicate AcceptedS(s: Stm, p: Path)
    decreases s, 2
  {
    AcceptedStm(s, p)
  }

  lemma {:induction false} AcceptedSDef(s: Stm, p: Path)
    ensures AcceptedS(s, p) == AcceptedStm(s, p)
  {
  }

  predicate AcceptedStm(s: Stm, p: Path)
    decreases s, 1
  {
    match s
    case FunDec => true
    case Block(body) => AcceptedList(body, Inside(Plain, p))
    case Empty => true
    case VarStm(vars) => AcceptedVars(vars)
    case If(e, b) => Accepted(e) && AcceptedS(b, Inside(Plain, p))
    case IfElse(e, b, b2) => Accepted(e) && AcceptedS(b, Inside(Plain, p)) && AcceptedS(b2, Inside(Plain, p))
    case Do(b, e) => AcceptedS(b, Inside(Loop, p)) && Accepted(e)
    case While(e, b) => Accepted(e) && AcceptedS(b, Inside(Loop, p))
    case For(init, e, step, b) =>
      AcceptedInit(init) && AcceptedOpt(e) && AcceptedOpt(step) && AcceptedS(b, Inside(Loop, p))
    case ForIn(lhs, e, b) => AcceptedRef(lhs) && Accepted(e) && AcceptedS(b, Inside(ForInLoop, p))
    case Switch(e, cases) => Accepted(e) && Defaults(cases) <= 1 && AcceptedCases(cases, Inside(SwitchNode, p))
    case Label(x, b) => AcceptedS(b, Inside(Labelled(x), p))
    case Break(l) => 0 < BreakTarget(p, l)
    case Continue(l) => 0 < ContinueTarget(p, l)
    case Return(e) => AcceptedOpt(e)
    case Throw(e) => Accepted(e)
    case With(e, b) => Accepted(e) && AcceptedS(b, Inside(WithNode, p))
    case Try(b, _, h) => AcceptedS(b, Inside(TryBody, p)) && AcceptedS(h, Inside(CatchBody, p))
    case Debugger => true
    case ExpStm(e) => Accepted(e)
  }

  predicate AcceptedList(ss: Stms, p: Path)
    decreases ss, 0
  {
    ss.Stms? ==> AcceptedS(ss.head, p) && AcceptedList(ss.tail, p)
  }

  predicate AcceptedCases(cases: Cases, p: Path)
    decreases cases, 0
  {
    match cases
    case NoCases => true
    case Default(body, rest) => AcceptedList(body, p) && AcceptedCases(rest, p)
    case Case(e, body, rest) => Accepted(e) && AcceptedList(body, p) && AcceptedCases(rest, p)
  }
}
