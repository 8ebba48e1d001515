/** What expressions and statements mean, by direct evaluation of the tree (sections 11 and 12
    of ECMA-262 5.1, with the run-time library's operations as they are). */
module JsMeaning {
  import opened JsTree
  import opened JsMachine

  /** The frame of local variables and the rest of the world. */
  datatype Mem = Mem(frame: seq<Value>, w: World)

  datatype Out<T> = Val(v: T, m: Mem) | Exc(exc: Value, m: Mem)

  datatype Ctx = Ctx(lib: Lib, names: Names)

  /** `findlocal`: the last variable of that name; slot 0 of a frame is `this`. */
  function FindLocal(vars: seq<Name>, x: Name): Option<nat> {
    if vars == [] then None
    else if vars[|vars| - 1] == x then Some(|vars|)
    else FindLocal(vars[..|vars| - 1], x)
  }

  function Slot(names: Names, x: Name): Option<nat> {
    if names.lightweight then FindLocal(names.vartab, x) else None
  }

  /** `this` and the locals; the variables of other functions are properties in their scope. */
  function FrameSize(names: Names): nat {
    if names.lightweight then |names.vartab| + 1 else 1
  }

  function Apply(c: Ctx, p: Prim, args: Ops, scope: Scope, m: Mem): Out<Value> {
    match c.lib.prim(p, args, scope, m.w)
    case Ok(v, w) => Val(v, m.(w := w))
    case Err(v, w) => Exc(v, m.(w := w))
  }

  // ----- references -----

  /** The left operand of an assignment, once its own operands have been evaluated. */
  datatype Ref = VarRef(x: Name) | PropRef(o: Value, k: Value) | MemberRef(o: Value, x: Name)

  /** The value of a variable. `absent` is GetVar, or HasVar under typeof. */
  function Load(c: Ctx, x: Name, absent: Prim, scope: Scope, m: Mem): Out<Value> {
    match Slot(c.names, x)
    case Some(k) => Val(if k < |m.frame| then m.frame[k] else Undefined, m)
    case None => Apply(c, absent, Bottom, scope, m)
  }

  function Get(c: Ctx, r: Ref, scope: Scope, m: Mem): Out<Value> {
    match r
    case VarRef(x) => Load(c, x, GetVar(x), scope, m)
    case PropRef(o, k) => Apply(c, GetProp, On(k, On(o, Bottom)), scope, m)
    case MemberRef(o, x) => Apply(c, GetMember(x), On(o, Bottom), scope, m)
  }

  /** The value of an assignment is what the store leaves in the place of the value assigned. */
  function Put(c: Ctx, r: Ref, v: Value, scope: Scope, m: Mem): Out<Value> {
    match r
    case VarRef(x) =>
      (match Slot(c.names, x)
       case Some(k) => Val(v, if k < |m.frame| then m.(frame := m.frame[k := v]) else m)
       case None => Apply(c, SetVar(x), On(v, Bottom), scope, m))
    case PropRef(o, k) => Apply(c, SetProp, On(v, On(k, On(o, Bottom))), scope, m)
    case MemberRef(o, x) => Apply(c, SetMember(x), On(v, On(o, Bottom)), scope, m)
  }

  /** A local variable is never deleted. */
  function Del(c: Ctx, r: Ref, scope: Scope, m: Mem): Out<Value> {
    match r
    case VarRef(x) => if Slot(c.names, x).Some? then Val(Boolean(false), m) else Apply(c, DelVar(x), Bottom, scope, m)
    case PropRef(o, k) => Apply(c, DelProp, On(k, On(o, Bottom)), scope, m)
    case MemberRef(o, x) => Apply(c, DelMember(x), On(o, Bottom), scope, m)
  }

  // ----- expressions -----

  function Eval(c: Ctx, e: Exp, scope: Scope, m: Mem): Out<Value>
    decreases e, 4
  {
    EvalNode(c, e, scope, m)
  }

  lemma {:induction false} EvalDef(c: Ctx, e: Exp, scope: Scope, m: Mem)
    ensures Eval(c, e, scope, m) == EvalNode(c, e, scope, m)
  {
  }

  function EvalNode(c: Ctx, e: Exp, scope: Scope, m: Mem): Out<Value>
    decreases e, 3
  {
    match e
    case StrLit(s) => Val(Str(s), m)
    case NumLit(n) => Val(Num(n), m)
    case UndefLit => Val(Undefined, m)
    case NullLit => Val(Null, m)
    case TrueLit => Val(Boolean(true), m)
    case FalseLit => Val(Boolean(false), m)
    case This => Val(if m.frame != [] then c.lib.self(m.frame[0]) else Undefined, m)
    case RegexpLit(s, flags) => Apply(c, NewRegexp(s, flags), Bottom, scope, m)
    case FunLit(fun) => Apply(c, Closure(fun), Bottom, scope, m)
    case ObjLit(props) =>
      (match Apply(c, NewObject, Bottom, scope, m)
       case Exc(x, m1) => Exc(x, m1)
       case Val(o, m1) => EvalProps(c, props, o, scope, m1))
    case ArrLit(items) =>
      (match Apply(c, NewArray, Bottom, scope, m)
       case Exc(x, m1) => Exc(x, m1)
       case Val(o, m1) => EvalItems(c, items, 0, o, scope, m1))
    case Ident(x) => Load(c, x, GetVar(x), scope, m)
    case Index(a, b) => EvalGet(c, e, scope, m)
    case Member(a, x) => EvalGet(c, e, scope, m)
    case Call(f, args) => if f == Ident("eval") then EvalEval(c, args, scope, m) else EvalCall(c, e, scope, m)
    case New(f, args) =>
      (match Eval(c, f, scope, m)
       case Exc(x, m1) => Exc(x, m1)
       case Val(v, m1) =>
         match EvalArgs(c, args, On(v, Bottom), scope, m1)
         case Exc(x, m2) => Exc(x, m2)
         case Val(vs, m2) => Apply(c, Construct, vs, scope, m2))
    case Delete(a) => EvalDelete(c, a, scope, m)
    case Typeof(a) =>
      (match if a.Ident? then Load(c, a.x, HasVar(a.x), scope, m) else Eval(c, a, scope, m)
       case Exc(x, m1) => Exc(x, m1)
       case Val(v, m1) => Apply(c, TypeName, On(v, Bottom), scope, m1))
    case Void(a) =>
      (match Eval(c, a, scope, m)
       case Exc(x, m1) => Exc(x, m1)
       case Val(_, m1) => Val(Undefined, m1))
    case Crement(inc, post, a) => EvalCrement(c, inc, post, a, scope, m)
    case Unary(u, a) =>
      (match Eval(c, a, scope, m)
       case Exc(x, m1) => Exc(x, m1)
       case Val(v, m1) => Apply(c, Unop(u), On(v, Bottom), scope, m1))
    case Binary(op, a, b) =>
      (match EvalPair(c, e, scope, m)
       case Exc(x, m1) => Exc(x, m1)
       case Val(vs, m1) => Apply(c, Binop(op), On(vs.1, On(vs.0, Bottom)), scope, m1))
    case Assign(a, b) =>
      (match EvalRef(c, a, scope, m)
       case Exc(x, m1) => Exc(x, m1)
       case Val(r, m1) =>
         match Eval(c, b, scope, m1)
         case Exc(x, m2) => Exc(x, m2)
         case Val(v, m2) => Put(c, r, v, scope, m2))
    case AssignOp(_, _, _) => EvalAssignOp(c, e, scope, m)
    case Comma(a, b) =>
      (match Eval(c, a, scope, m)
       case Exc(x, m1) => Exc(x, m1)
       case Val(_, m1) => Eval(c, b, scope, m1))
    case LogOr(a, b) =>
      (match Eval(c, a, scope, m)
       case Exc(x, m1) => Exc(x, m1)
       case Val(v, m1) => if Truth(v) then Val(v, m1) else Eval(c, b, scope, m1))
    case LogAnd(a, b) =>
      (match Eval(c, a, scope, m)
       case Exc(x, m1) => Exc(x, m1)
       case Val(v, m1) => if Truth(v) then Eval(c, b, scope, m1) else Val(v, m1))
    case Cond(a, b, d) =>
      (match Eval(c, a, scope, m)
       case Exc(x, m1) => Exc(x, m1)
       case Val(v, m1) => if Truth(v) then Eval(c, b, scope, m1) else Eval(c, d, scope, m1))
  }

  /** Both operands, left before right. */
  function EvalPair(c: Ctx, e: Exp, scope: Scope, m: Mem): Out<(Value, Value)>
    requires e.Index? || e.Binary?
    decreases e, 0
  {
    match Eval(c, e.a, scope, m)
    case Exc(x, m1) => Exc(x, m1)
    case Val(v, m1) =>
      match Eval(c, e.b, scope, m1)
      case Exc(x, m2) => Exc(x, m2)
      case Val(u, m2) => Val((v, u), m2)
  }

  /** Arguments in order, each put on top of what is there. */
  function EvalArgs(c: Ctx, args: Exps, vs: Ops, scope: Scope, m: Mem): Out<Ops>
    decreases args, 0
  {
    if args.NoExps? then Val(vs, m)
    else
      match Eval(c, args.head, scope, m)
      case Exc(x, m1) => Exc(x, m1)
      case Val(v, m1) => EvalArgs(c, args.tail, On(v, vs), scope, m1)
  }

  function EvalRef(c: Ctx, e: Exp, scope: Scope, m: Mem): Out<Ref>
    decreases e, 1
  {
    match e
    case Ident(x) => Val(VarRef(x), m)
    case Index(_, _) =>
      (match EvalPair(c, e, scope, m)
       case Exc(x, m1) => Exc(x, m1)
       case Val(vs, m1) => Val(PropRef(vs.0, vs.1), m1))
    case Member(a, x) =>
      (match Eval(c, a, scope, m)
       case Exc(y, m1) => Exc(y, m1)
       case Val(o, m1) => Val(MemberRef(o, x), m1))
    case _ => Exc(Undefined, m)
  }

  function EvalGet(c: Ctx, e: Exp, scope: Scope, m: Mem): Out<Value>
    decreases e, 2
  {
    match EvalRef(c, e, scope, m)
    case Exc(x, m1) => Exc(x, m1)
    case Val(r, m1) => Get(c, r, scope, m1)
  }

  /** ++ and --: the reference is evaluated once, and a postfix one has the old value, as a number. */
  function EvalCrement(c: Ctx, inc: bool, post: bool, e: Exp, scope: Scope, m: Mem): Out<Value>
    decreases e, 2
  {
    match EvalRef(c, e, scope, m)
    case Exc(x, m1) => Exc(x, m1)
    case Val(r, m1) =>
      match Get(c, r, scope, m1)
      case Exc(x, m2) => Exc(x, m2)
      case Val(v, m2) => Bumped(c, inc, post, v, r, scope, m2)
  }

  /** The old value v as a number, the new number stored in r, and the value of the expression. */
  function Bumped(c: Ctx, inc: bool, post: bool, v: Value, r: Ref, scope: Scope, m: Mem): Out<Value> {
    match c.lib.number(v, m.w)
    case Err(x, w) => Exc(x, m.(w := w))
    case Ok(n, w) =>
      match Put(c, r, Num(c.lib.bump(inc, n)), scope, m.(w := w))
      case Exc(x, m1) => Exc(x, m1)
      case Val(u, m1) => Val(if post then Num(n) else u, m1)
  }

  /** The old value is read before the right operand is evaluated. */
  function EvalAssignOp(c: Ctx, e: Exp, scope: Scope, m: Mem): Out<Value>
    requires e.AssignOp?
    decreases e, 2
  {
    match EvalRef(c, e.a, scope, m)
    case Exc(x, m1) => Exc(x, m1)
    case Val(r, m1) =>
      match Get(c, r, scope, m1)
      case Exc(x, m2) => Exc(x, m2)
      case Val(v, m2) =>
        match Eval(c, e.b, scope, m2)
        case Exc(x, m3) => Exc(x, m3)
        case Val(u, m3) =>
          match Apply(c, Binop(e.op), On(u, On(v, Bottom)), scope, m3)
          case Exc(x, m4) => Exc(x, m4)
          case Val(t, m4) => Put(c, r, t, scope, m4)
  }

  function EvalDelete(c: Ctx, e: Exp, scope: Scope, m: Mem): Out<Value>
    decreases e, 2
  {
    match EvalRef(c, e, scope, m)
    case Exc(x, m1) => Exc(x, m1)
    case Val(r, m1) => Del(c, r, scope, m1)
  }

  /** A property's function is called with its object as `this`, any other with undefined. */
  function EvalCall(c: Ctx, e: Exp, scope: Scope, m: Mem): Out<Value>
    requires e.Call?
    decreases e, 2
  {
    match EvalCallee(c, e.f, scope, m)
    case Exc(x, m1) => Exc(x, m1)
    case Val(vs, m1) =>
      match EvalArgs(c, e.args, vs, scope, m1)
      case Exc(x, m2) => Exc(x, m2)
      case Val(us, m2) => Apply(c, Invoke, us, scope, m2)
  }

  /** The function, and `this` on top of it. */
  function EvalCallee(c: Ctx, e: Exp, scope: Scope, m: Mem): Out<Ops>
    decreases e, 5
  {
    if e.Index? || e.Member? then
      match EvalRef(c, e, scope, m)
      case Exc(x, m1) => Exc(x, m1)
      case Val(r, m1) =>
        match Get(c, r, scope, m1)
        case Exc(x, m2) => Exc(x, m2)
        case Val(f, m2) => Val(On(if r.VarRef? then Undefined else r.o, On(f, Bottom)), m2)
    else
      match Eval(c, e, scope, m)
      case Exc(x, m1) => Exc(x, m1)
      case Val(f, m1) => Val(On(Undefined, On(f, Bottom)), m1)
  }

  /** The first argument, which lies deepest. */
  function First(vs: Ops): Value {
    if vs.Bottom? then Undefined else if vs.under.Bottom? then vs.v else First(vs.under)
  }

  /** A direct call of `eval`: every argument is evaluated, the first one is used. */
  function EvalEval(c: Ctx, args: Exps, scope: Scope, m: Mem): Out<Value>
    decreases args, 1
  {
    match EvalArgs(c, args, Bottom, scope, m)
    case Exc(x, m1) => Exc(x, m1)
    case Val(vs, m1) => Apply(c, EvalString, On(First(vs), Bottom), scope, m1)
  }

  /** Array elements; a hole only counts. */
  function EvalItems(c: Ctx, items: Items, k: nat, o: Value, scope: Scope, m: Mem): Out<Value>
    decreases items
  {
    match items
    case NoItems => Val(o, m)
    case Hole(rest) => EvalItems(c, rest, k + 1, o, scope, m)
    case Item(e, rest) =>
      match Eval(c, e, scope, m)
      case Exc(x, m1) => Exc(x, m1)
      case Val(v, m1) =>
        match Apply(c, InitVal, On(v, On(Num(Whole(k)), On(o, Bottom))), scope, m1)
        case Exc(x, m2) => Exc(x, m2)
        case Val(_, m2) => EvalItems(c, rest, k + 1, o, scope, m2)
  }

  function InitPrim(kind: PropKind): Prim {
    match kind
    case PropVal(_) => InitVal
    case PropGet(_) => InitGetter
    case PropSet(_) => InitSetter
  }

  function EvalKind(c: Ctx, kind: PropKind, scope: Scope, m: Mem): Out<Value>
    decreases kind
  {
    match kind
    case PropVal(e) => Eval(c, e, scope, m)
    case PropGet(fun) => Apply(c, Closure(fun), Bottom, scope, m)
    case PropSet(fun) => Apply(c, Closure(fun), Bottom, scope, m)
  }

  function EvalProps(c: Ctx, props: Props, o: Value, scope: Scope, m: Mem): Out<Value>
    decreases props
  {
    match props
    case NoProps => Val(o, m)
    case Prop(key, kind, rest) =>
      match EvalKind(c, kind, scope, m)
      case Exc(x, m1) => Exc(x, m1)
      case Val(v, m1) =>
        match Apply(c, InitPrim(kind), On(v, On(KeyValue(key), On(o, Bottom))), scope, m1)
        case Exc(x, m2) => Exc(x, m2)
        case Val(_, m2) => EvalProps(c, rest, o, scope, m2)
  }

  /** Keys are names, strings and numbers. */
  function KeyValue(key: Exp): Value {
    match key
    case StrLit(s) => Str(s)
    case NumLit(n) => Num(n)
    case _ => Undefined
  }

  // ----- statements -----

  /** Completions (section 8.9 of ECMA-262 5.1). Timeout: some loop went around fuel times. */
  datatype Exit =
    | Normal(m: Mem)
    | Broke(l: Option<Name>, m: Mem)
    | Continued(l: Option<Name>, m: Mem)
    | Gave(v: Value, m: Mem)
    | Threw(v: Value, m: Mem)
    | Timeout

  function Done<T>(r: Out<T>): Exit {
    match r
    case Val(_, m) => Normal(m)
    case Exc(x, m) => Threw(x, m)
  }

  function EvalOpt(c: Ctx, e: Option<Exp>, absent: Value, scope: Scope, m: Mem): Out<Value> {
    match e
    case None => Val(absent, m)
    case Some(e) => Eval(c, e, scope, m)
  }

  function EvalVars(c: Ctx, vars: Vars, scope: Scope, m: Mem): Out<Value>
    decreases vars
  {
    match vars
    case NoVars => Val(Undefined, m)
    case Var(_, None, rest) => EvalVars(c, rest, scope, m)
    case Var(x, Some(e), rest) =>
      match Eval(c, e, scope, m)
      case Exc(y, m1) => Exc(y, m1)
      case Val(v, m1) =>
        match Put(c, VarRef(x), v, scope, m1)
        case Exc(y, m2) => Exc(y, m2)
        case Val(_, m2) => EvalVars(c, rest, scope, m2)
  }

  function EvalInit(c: Ctx, init: Init, scope: Scope, m: Mem): Out<Value> {
    match init
    case NoInit => Val(Undefined, m)
    case VarInit(vars) => EvalVars(c, vars, scope, m)
    case ExpInit(e) => Eval(c, e, scope, m)
  }

  /** Does a loop with these labels end at this break, or go on at this continue? */
  predicate Leaves(l: Option<Name>) {
    l.None?
  }

  predicate GoesOn(l: Option<Name>, labels: set<Name>) {
    l.None? || l.value in labels
  }

  /** The clause at which a switch starts: the first one that matches, or the default one. */
  function Select(c: Ctx, cases: Cases, v: Value, scope: Scope, m: Mem): Out<Cases>
    decreases cases
  {
    match cases
    case NoCases => Val(NoCases, m)
    case Default(_, rest) => Select(c, rest, v, scope, m)
    case Case(e, _, rest) =>
      match Eval(c, e, scope, m)
      case Exc(x, m1) => Exc(x, m1)
      case Val(u, m1) => if StrictEq(v, u) then Val(cases, m1) else Select(c, rest, v, scope, m1)
  }

  function DefaultOf(cases: Cases): (r: Cases)
    ensures r == cases || r < cases
  {
    match cases
    case NoCases => NoCases
    case Default(_, _) => cases
    case Case(_, _, rest) => DefaultOf(rest)
  }

  lemma {:induction false} Selected(c: Ctx, cases: Cases, v: Value, scope: Scope, m: Mem)
    ensures var r := Select(c, cases, v, scope, m); r.Val? ==> r.v.NoCases? || r.v == cases || r.v < cases
    decreases cases
  {
    match cases
    case NoCases =>
    case Default(_, rest) => Selected(c, rest, v, scope, m);
    case Case(e, _, rest) =>
      var r := Eval(c, e, scope, m);
      if r.Val? { Selected(c, rest, v, scope, r.m); }
  }

  function Exec(c: Ctx, s: Stm, labels: set<Name>, scope: Scope, m: Mem, fuel: nat): Exit
    decreases fuel, s, 3
  {
    ExecNode(c, s, labels, scope, m, fuel)
  }

  lemma {:induction false} ExecDef(c: Ctx, s: Stm, labels: set<Name>, scope: Scope, m: Mem, fuel: nat)
    ensures Exec(c, s, labels, scope, m, fuel) == ExecNode(c, s, labels, scope, m, fuel)
  {
  }

  function ExecNode(c: Ctx, s: Stm, labels: set<Name>, scope: Scope, m: Mem, fuel: nat): Exit
    decreases fuel, s, 2
  {
    match s
    case FunDec => Normal(m)
    case Block(body) => ExecList(c, body, scope, m, fuel)
    case Empty => Normal(m)
    case VarStm(vars) => Done(EvalVars(c, vars, scope, m))
    case If(e, a) =>
      (match Eval(c, e, scope, m)
       case Exc(x, m1) => Threw(x, m1)
       case Val(v, m1) => if Truth(v) then Exec(c, a, {}, scope, m1, fuel) else Normal(m1))
    case IfElse(e, a, b) =>
      (match Eval(c, e, scope, m)
       case Exc(x, m1) => Threw(x, m1)
       case Val(v, m1) => Exec(c, if Truth(v) then a else b, {}, scope, m1, fuel))
    case Do(b, e) => ExecDo(c, s, labels, scope, m, fuel)
    case While(e, b) => ExecLoop(c, Some(e), None, b, labels, scope, m, fuel)
    case For(init, e, step, b) =>
      (match EvalInit(c, init, scope, m)
       case Exc(x, m1) => Threw(x, m1)
       case Val(_, m1) => ExecLoop(c, e, step, b, labels, scope, m1, fuel))
    case ForIn(lhs, e, b) =>
      (match Eval(c, e, scope, m)
       case Exc(x, m1) => Threw(x, m1)
       case Val(v, m1) =>
         match Apply(c, Iterator, On(v, Bottom), scope, m1)
         case Exc(x, m2) => Threw(x, m2)
         case Val(it, m2) => ExecForIn(c, s, it, labels, scope, m2, fuel))
    case Switch(e, cases) =>
      (match Eval(c, e, scope, m)
       case Exc(x, m1) => Threw(x, m1)
       case Val(v, m1) =>
         match Select(c, cases, v, scope, m1)
         case Exc(x, m2) => Threw(x, m2)
         case Val(at, m2) =>
           Selected(c, cases, v, scope, m1);
           match ExecCases(c, if at.NoCases? then DefaultOf(cases) else at, scope, m2, fuel)
           case Broke(l, m3) => if Leaves(l) then Normal(m3) else Broke(l, m3)
           case r => r)
    case Label(x, b) =>
      (match Exec(c, b, labels + {x}, scope, m, fuel)
       case Broke(l, m1) => if l == Some(x) then Normal(m1) else Broke(l, m1)
       case r => r)
    case Break(l) => Broke(l, m)
    case Continue(l) => Continued(l, m)
    case Return(e) =>
      (match EvalOpt(c, e, Undefined, scope, m)
       case Exc(x, m1) => Threw(x, m1)
       case Val(v, m1) => Gave(v, m1))
    case Throw(e) =>
      (match Eval(c, e, scope, m)
       case Exc(x, m1) => Threw(x, m1)
       case Val(v, m1) => Threw(v, m1))
    case With(e, b) =>
      (match Eval(c, e, scope, m)
       case Exc(x, m1) => Threw(x, m1)
       case Val(v, m1) =>
         match Apply(c, WithScope, On(v, Bottom), scope, m1)
         case Exc(x, m2) => Threw(x, m2)
         case Val(o, m2) => Exec(c, b, {}, Inner(o, scope), m2, fuel))
    case Try(b, x, handler) =>
      (match Exec(c, b, {}, scope, m, fuel)
       case Threw(v, m1) =>
         (match Apply(c, CatchScope(x), On(v, Bottom), scope, m1)
          case Exc(y, m2) => Threw(y, m2)
          case Val(o, m2) => Exec(c, handler, {}, Inner(o, scope), m2, fuel))
       case r => r)
    case Debugger => Normal(m)
    case ExpStm(e) => Done(Eval(c, e, scope, m))
  }

  function ExecList(c: Ctx, ss: Stms, scope: Scope, m: Mem, fuel: nat): Exit
    decreases fuel, ss, 1
  {
    match ss
    case NoStms => Normal(m)
    case Stms(s, rest) =>
      match Exec(c, s, {}, scope, m, fuel)
      case Normal(m1) => ExecList(c, rest, scope, m1, fuel)
      case r => r
  }

  /** From one clause on, each body falls through to the next. */
  function ExecCases(c: Ctx, cases: Cases, scope: Scope, m: Mem, fuel: nat): Exit
    decreases fuel, cases, 1
  {
    if cases.NoCases? then Normal(m)
    else
      match ExecList(c, cases.body, scope, m, fuel)
      case Normal(m1) => ExecCases(c, cases.rest, scope, m1, fuel)
      case r => r
  }

  /** `while` and `for`, from the test on. */
  function ExecLoop(c: Ctx, e: Option<Exp>, step: Option<Exp>, b: Stm, labels: set<Name>, scope: Scope, m: Mem,
    fuel: nat): Exit
    decreases fuel, b, 4
  {
    match EvalOpt(c, e, Boolean(true), scope, m)
    case Exc(x, m1) => Threw(x, m1)
    case Val(v, m1) =>
      if !Truth(v) then Normal(m1)
      else
        match Exec(c, b, {}, scope, m1, fuel)
        case Normal(m2) => ExecStep(c, e, step, b, labels, scope, m2, fuel)
        case Continued(l, m2) =>
          if GoesOn(l, labels) then ExecStep(c, e, step, b, labels, scope, m2, fuel) else Continued(l, m2)
        case Broke(l, m2) => if Leaves(l) then Normal(m2) else Broke(l, m2)
        case r => r
  }

  function ExecStep(c: Ctx, e: Option<Exp>, step: Option<Exp>, b: Stm, labels: set<Name>, scope: Scope, m: Mem,
    fuel: nat): Exit
    decreases fuel, b, 3
  {
    match EvalOpt(c, step, Undefined, scope, m)
    case Exc(x, m1) => Threw(x, m1)
    case Val(_, m1) => if fuel == 0 then Timeout else ExecLoop(c, e, step, b, labels, scope, m1, fuel - 1)
  }

  function ExecDo(c: Ctx, s: Stm, labels: set<Name>, scope: Scope, m: Mem, fuel: nat): Exit
    requires s.Do?
    decreases fuel, s, 1
  {
    match Exec(c, s.s, {}, scope, m, fuel)
    case Normal(m1) => ExecDoTest(c, s, labels, scope, m1, fuel)
    case Continued(l, m1) => if GoesOn(l, labels) then ExecDoTest(c, s, labels, scope, m1, fuel) else Continued(l, m1)
    case Broke(l, m1) => if Leaves(l) then Normal(m1) else Broke(l, m1)
    case r => r
  }

  function ExecDoTest(c: Ctx, s: Stm, labels: set<Name>, scope: Scope, m: Mem, fuel: nat): Exit
    requires s.Do?
    decreases fuel, s, 0
  {
    match Eval(c, s.c, scope, m)
    case Exc(x, m1) => Threw(x, m1)
    case Val(v, m1) =>
      if !Truth(v) then Normal(m1) else if fuel == 0 then Timeout else ExecDo(c, s, labels, scope, m1, fuel - 1)
  }

  /** The names still to come are in the iterator. */
  function ExecForIn(c: Ctx, s: Stm, it: Value, labels: set<Name>, scope: Scope, m: Mem, fuel: nat): Exit
    requires s.ForIn?
    decreases fuel, s, 0
  {
    match c.lib.next(it, m.w)
    case Err(x, w) => Threw(x, m.(w := w))
    case Ok(None, w) => Normal(m.(w := w))
    case Ok(Some(name), w) =>
      match EvalRef(c, s.lhs, scope, m.(w := w))
      case Exc(x, m1) => Threw(x, m1)
      case Val(r, m1) =>
        match Put(c, r, Str(name), scope, m1)
        case Exc(x, m2) => Threw(x, m2)
        case Val(_, m2) =>
          match Exec(c, s.s, {}, scope, m2, fuel)
          case Normal(m3) => if fuel == 0 then Timeout else ExecForIn(c, s, it, labels, scope, m3, fuel - 1)
          case Continued(l, m3) =>
            if !GoesOn(l, labels) then Continued(l, m3)
            else if fuel == 0 then Timeout else ExecForIn(c, s, it, labels, scope, m3, fuel - 1)
          case Broke(l, m3) => if Leaves(l) then Normal(m3) else Broke(l, m3)
          case r => r
  }
}
