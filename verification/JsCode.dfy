/** Where the code of each part of a tree lies (jscompile.c): the number of words, and which
    instructions stand where, the targets of jumps included. */
module JsCode {
  import opened JsTree
  import opened JsMachine
  import opened JsMeaning

  /** The instruction at pc is i, and b is the address after it. */
  predicate Is(f: Fn, pc: nat, i: Instr, b: nat) {
    Decode(f, pc) == Decoded(i, b)
  }

  // ----- numbers and variables -----

  /** num == (js_Instruction)num */
  predicate IsShort(n: Number) {
    n.Finite? && !n.neg && 0.0 <= n.mag < 65536.0 && n.mag == n.mag.Floor as real
  }

  function SizeNum(n: Number): nat {
    if IsZero(n) then if n.neg then 2 else 1 else if n == Whole(1) then 1 else 2
  }

  predicate CodedNum(f: Fn, n: Number, a: nat) {
    if IsZero(n) then Is(f, a, Push(Num(Whole(0))), a + 1) && (n.neg ==> Is(f, a + 1, Do1(Unop(Neg), 1), a + 2))
    else Is(f, a, Push(Num(n)), a + SizeNum(n))
  }

  predicate CodedLoad(f: Fn, ns: Names, x: Name, absent: Prim, a: nat) {
    match Slot(ns, x)
    case Some(k) => Is(f, a, GetLocal(k), a + 2)
    case None => Is(f, a, Do1(absent, 0), a + 2)
  }

  predicate CodedStore(f: Fn, ns: Names, x: Name, a: nat) {
    match Slot(ns, x)
    case Some(k) => Is(f, a, SetLocal(k), a + 2)
    case None => Is(f, a, Do1(SetVar(x), 1), a + 2)
  }

  // ----- sizes of expressions -----

  function SizeE(e: Exp): nat
    decreases e, 2
  {
    SizeNode(e)
  }

  function SizeNode(e: Exp): nat
    decreases e, 1
  {
    match e
    case StrLit(_) => 2
    case NumLit(n) => SizeNum(n)
    case RegexpLit(_, _) => 3
    case FunLit(_) => 2
    case ObjLit(props) => 1 + SizeProps(props)
    case ArrLit(items) => 1 + SizeItems(items, 0)
    case Ident(_) => 2
    case Index(a, b) => SizeE(a) + SizeE(b) + 1
    case Member(a, _) => SizeE(a) + 2
    case Call(g, args) =>
      if g == Ident("eval") then SizeArgs(args) + (if args.NoExps? then 1 else Length(args) - 1) + 1
      else SizeCallee(g) + SizeArgs(args) + 2
    case New(g, args) => SizeE(g) + SizeArgs(args) + 2
    case Delete(a) => SizeRef(a) + (if a.Index? then 1 else 2)
    case Typeof(a) => SizeE(a) + 1
    case Void(a) => SizeE(a) + 2
    case Crement(_, post, a) => SizeOld(a) + 1 + SizePut(a, post) + (if post then 1 else 0)
    case Unary(_, a) => SizeE(a) + 1
    case Binary(_, a, b) => SizeE(a) + SizeE(b) + 1
    case Assign(a, b) => SizeRef(a) + SizeE(b) + SizePut(a, false)
    case AssignOp(_, a, b) => SizeOld(a) + SizeE(b) + 1 + SizePut(a, false)
    case Comma(a, b) => SizeE(a) + 1 + SizeE(b)
    case LogOr(a, b) => SizeE(a) + 4 + SizeE(b)
    case LogAnd(a, b) => SizeE(a) + 4 + SizeE(b)
    case Cond(a, b, d) => SizeE(a) + 2 + SizeE(d) + 2 + SizeE(b)
    case _ => 1
  }

  /** The operands of a reference. */
  function SizeRef(e: Exp): nat
    decreases e, 0
  {
    match e
    case Index(a, b) => SizeE(a) + SizeE(b)
    case Member(a, _) => SizeE(a)
    case _ => 0
  }

  /** The operands of a reference, and its old value. */
  function SizeOld(e: Exp): nat
    decreases e, 0
  {
    match e
    case Index(a, b) => SizeE(a) + SizeE(b) + 2
    case Member(a, _) => SizeE(a) + 3
    case _ => 2
  }

  function SizePut(e: Exp, post: bool): nat {
    (if post then 1 else 0) + if e.Index? then 1 else 2
  }

  function SizeCallee(e: Exp): nat
    decreases e, 3
  {
    match e
    case Index(a, b) => SizeE(a) + SizeE(b) + 3
    case Member(a, _) => SizeE(a) + 4
    case _ => SizeE(e) + 1
  }

  function Length(args: Exps): nat {
    if args.NoExps? then 0 else 1 + Length(args.tail)
  }

  function SizeArgs(args: Exps): nat {
    if args.NoExps? then 0 else SizeE(args.head) + SizeArgs(args.tail)
  }

  function SizeItems(items: Items, k: nat): nat
    decreases items
  {
    match items
    case NoItems => 0
    case Hole(rest) => SizeItems(rest, k + 1)
    case Item(e, rest) => SizeNum(Whole(k)) + SizeE(e) + 1 + SizeItems(rest, k + 1)
  }

  function SizeKind(kind: PropKind): nat {
    if kind.PropVal? then SizeE(kind.e) else 2
  }

  function SizeProps(props: Props): nat {
    match props
    case NoProps => 0
    case Prop(key, kind, rest) => SizeE(key) + SizeKind(kind) + 1 + SizeProps(rest)
  }

  // ----- code of expressions -----

  predicate Coded(f: Fn, ns: Names, e: Exp, a: nat)
    decreases e, 3
  {
    CodedNode(f, ns, e, a)
  }

  lemma {:induction false} CodedDef(f: Fn, ns: Names, e: Exp, a: nat)
    ensures Coded(f, ns, e, a) == CodedNode(f, ns, e, a)
    ensures SizeE(e) == SizeNode(e)
  {
  }

  predicate CodedNode(f: Fn, ns: Names, e: Exp, a: nat)
    decreases e, 2
  {
    match e
    case StrLit(s) => Is(f, a, Push(Str(s)), a + 2)
    case NumLit(n) => CodedNum(f, n, a)
    case UndefLit => Is(f, a, Push(Undefined), a + 1)
    case NullLit => Is(f, a, Push(Null), a + 1)
    case TrueLit => Is(f, a, Push(Boolean(true)), a + 1)
    case FalseLit => Is(f, a, Push(Boolean(false)), a + 1)
    case This => Is(f, a, LoadThis, a + 1)
    case RegexpLit(s, flags) => Is(f, a, Do1(NewRegexp(s, flags), 0), a + 3)
    case FunLit(fun) => Is(f, a, Do1(Closure(fun), 0), a + 2)
    case ObjLit(props) => Is(f, a, Do1(NewObject, 0), a + 1) && CodedProps(f, ns, props, a + 1)
    case ArrLit(items) => Is(f, a, Do1(NewArray, 0), a + 1) && CodedItems(f, ns, items, 0, a + 1)
    case Ident(x) => CodedLoad(f, ns, x, GetVar(x), a)
    case Index(b, d) =>
      var p := a + SizeE(b) + SizeE(d);
      CodedRef(f, ns, e, a) && Is(f, p, Do1(GetProp, 2), p + 1)
    case Member(b, x) => CodedRef(f, ns, e, a) && Is(f, a + SizeE(b), Do1(GetMember(x), 1), a + SizeE(b) + 2)
    case Call(_, _) => CodedCall(f, ns, e, a)
    case New(g, args) =>
      var p := a + SizeE(g);
      var q := p + SizeArgs(args);
      Coded(f, ns, g, a) && CodedArgs(f, ns, args, p) && Is(f, q, Do1(Construct, Length(args) + 1), q + 2)
    case Delete(b) => CodedRef(f, ns, b, a) && CodedDel(f, ns, b, a + SizeRef(b))
    case Typeof(b) =>
      && (if b.Ident? then CodedLoad(f, ns, b.x, HasVar(b.x), a) else Coded(f, ns, b, a))
      && Is(f, a + SizeE(b), Do1(TypeName, 1), a + SizeE(b) + 1)
    case Void(b) =>
      var p := a + SizeE(b);
      Coded(f, ns, b, a) && Is(f, p, Pop, p + 1) && Is(f, p + 1, Push(Undefined), p + 2)
    case Crement(inc, post, b) =>
      var p := a + SizeOld(b);
      var q := p + 1 + SizePut(b, post);
      CodedOld(f, ns, b, a) && Is(f, p, Bump(inc, post), p + 1) && CodedPut(f, ns, b, post, p + 1)
        && (post ==> Is(f, q, Pop, q + 1))
    case Unary(u, b) => Coded(f, ns, b, a) && Is(f, a + SizeE(b), Do1(Unop(u), 1), a + SizeE(b) + 1)
    case Binary(op, b, d) =>
      var p := a + SizeE(b);
      var q := p + SizeE(d);
      Coded(f, ns, b, a) && Coded(f, ns, d, p) && Is(f, q, Do1(Binop(op), 2), q + 1)
    case Assign(b, d) =>
      var p := a + SizeRef(b);
      CodedRef(f, ns, b, a) && Coded(f, ns, d, p) && CodedPut(f, ns, b, false, p + SizeE(d))
    case AssignOp(op, b, d) =>
      var p := a + SizeOld(b);
      var q := p + SizeE(d);
      CodedOld(f, ns, b, a) && Coded(f, ns, d, p) && Is(f, q, Do1(Binop(op), 2), q + 1)
        && CodedPut(f, ns, b, false, q + 1)
    case Comma(b, d) =>
      var p := a + SizeE(b);
      Coded(f, ns, b, a) && Is(f, p, Pop, p + 1) && Coded(f, ns, d, p + 1)
    case LogOr(b, d) =>
      var p := a + SizeE(b);
      CodedElse(f, ns, e, JTrue(p + 4 + SizeE(d)), a)
    case LogAnd(b, d) =>
      var p := a + SizeE(b);
      CodedElse(f, ns, e, JFalse(p + 4 + SizeE(d)), a)
    case Cond(b, d, g) =>
      var p := a + SizeE(b);
      var q := p + 2 + SizeE(g);
      && Coded(f, ns, b, a) && Is(f, p, JTrue(q + 2), p + 2)
      && Coded(f, ns, g, p + 2) && Is(f, q, Jump(q + 2 + SizeE(d)), q + 2)
      && Coded(f, ns, d, q + 2)
  }

  /** || and &&: the second operand is skipped if the jump is taken. */
  predicate CodedElse(f: Fn, ns: Names, e: Exp, jump: Instr, a: nat)
    requires e.LogOr? || e.LogAnd?
    decreases e, 1
  {
    var p := a + SizeE(e.a);
    && Coded(f, ns, e.a, a) && Is(f, p, Dup, p + 1) && Is(f, p + 1, jump, p + 3)
    && Is(f, p + 3, Pop, p + 4) && Coded(f, ns, e.b, p + 4)
  }

  /** `ccall`, and `ceval` for a direct call of eval */
  predicate CodedCall(f: Fn, ns: Names, e: Exp, a: nat)
    requires e.Call?
    decreases e, 1
  {
    if e.f == Ident("eval") then
      var p, n := a + SizeArgs(e.args), Length(e.args);
      && CodedArgs(f, ns, e.args, a)
      && (if n == 0 then Is(f, p, Push(Undefined), p + 1) && Is(f, p + 1, Do1(EvalString, 1), p + 2)
          else Pops(f, p, n - 1) && Is(f, p + n - 1, Do1(EvalString, 1), p + n))
    else
      var p := a + SizeCallee(e.f);
      var q := p + SizeArgs(e.args);
      CodedCallee(f, ns, e.f, a) && CodedArgs(f, ns, e.args, p) && Is(f, q, Do1(Invoke, Length(e.args) + 2), q + 2)
  }

  predicate Pops(f: Fn, a: nat, n: nat)
    decreases n
  {
    n > 0 ==> Is(f, a, Pop, a + 1) && Pops(f, a + 1, n - 1)
  }

  predicate CodedRef(f: Fn, ns: Names, e: Exp, a: nat)
    decreases e, 0
  {
    match e
    case Ident(_) => true
    case Index(b, d) => Coded(f, ns, b, a) && Coded(f, ns, d, a + SizeE(b))
    case Member(b, _) => Coded(f, ns, b, a)
    case _ => false
  }

  /** `cassignop1` */
  predicate CodedOld(f: Fn, ns: Names, e: Exp, a: nat)
    decreases e, 1
  {
    match e
    case Ident(x) => CodedLoad(f, ns, x, GetVar(x), a)
    case Index(b, d) =>
      var p := a + SizeRef(e);
      CodedRef(f, ns, e, a) && Is(f, p, Dup2, p + 1) && Is(f, p + 1, Do1(GetProp, 2), p + 2)
    case Member(b, x) =>
      var p := a + SizeRef(e);
      CodedRef(f, ns, e, a) && Is(f, p, Dup, p + 1) && Is(f, p + 1, Do1(GetMember(x), 1), p + 3)
    case _ => false
  }

  /** `cassignop2` */
  predicate CodedPut(f: Fn, ns: Names, e: Exp, post: bool, a: nat) {
    var p := if post then a + 1 else a;
    match e
    case Ident(x) => (post ==> Is(f, a, Rot2, p)) && CodedStore(f, ns, x, p)
    case Index(_, _) => (post ==> Is(f, a, Rot4, p)) && Is(f, p, Do1(SetProp, 3), p + 1)
    case Member(_, x) => (post ==> Is(f, a, Rot3, p)) && Is(f, p, Do1(SetMember(x), 2), p + 2)
    case _ => false
  }

  predicate CodedDel(f: Fn, ns: Names, e: Exp, a: nat) {
    match e
    case Ident(x) =>
      if Slot(ns, x).Some? then Is(f, a, Push(Boolean(false)), a + 2) else Is(f, a, Do1(DelVar(x), 0), a + 2)
    case Index(_, _) => Is(f, a, Do1(DelProp, 2), a + 1)
    case Member(_, x) => Is(f, a, Do1(DelMember(x), 1), a + 2)
    case _ => false
  }

  predicate CodedCallee(f: Fn, ns: Names, e: Exp, a: nat)
    decreases e, 4
  {
    match e
    case Index(b, d) =>
      var p := a + SizeE(b);
      var q := p + 1 + SizeE(d);
      Coded(f, ns, b, a) && Is(f, p, Dup, p + 1) && Coded(f, ns, d, p + 1) && Is(f, q, Do1(GetProp, 2), q + 1)
        && Is(f, q + 1, Rot2, q + 2)
    case Member(b, x) =>
      var p := a + SizeE(b);
      Coded(f, ns, b, a) && Is(f, p, Dup, p + 1) && Is(f, p + 1, Do1(GetMember(x), 1), p + 3)
        && Is(f, p + 3, Rot2, p + 4)
    case _ => Coded(f, ns, e, a) && Is(f, a + SizeE(e), Push(Undefined), a + SizeE(e) + 1)
  }

  predicate CodedArgs(f: Fn, ns: Names, args: Exps, a: nat)
    decreases args
  {
    args.Exps? ==> Coded(f, ns, args.head, a) && CodedArgs(f, ns, args.tail, a + SizeE(args.head))
  }

  predicate CodedItems(f: Fn, ns: Names, items: Items, k: nat, a: nat)
    decreases items
  {
    match items
    case NoItems => true
    case Hole(rest) => CodedItems(f, ns, rest, k + 1, a)
    case Item(e, rest) =>
      var p := a + SizeNum(Whole(k));
      var q := p + SizeE(e);
      CodedNum(f, Whole(k), a) && Coded(f, ns, e, p) && Is(f, q, Init3(InitVal), q + 1)
        && CodedItems(f, ns, rest, k + 1, q + 1)
  }

  predicate CodedKind(f: Fn, ns: Names, kind: PropKind, a: nat)
    decreases kind
  {
    match kind
    case PropVal(e) => Coded(f, ns, e, a)
    case PropGet(fun) => Is(f, a, Do1(Closure(fun), 0), a + 2)
    case PropSet(fun) => Is(f, a, Do1(Closure(fun), 0), a + 2)
  }

  predicate CodedProps(f: Fn, ns: Names, props: Props, a: nat)
    decreases props
  {
    match props
    case NoProps => true
    case Prop(key, kind, rest) =>
      var p := a + SizeE(key);
      var q := p + SizeKind(kind);
      && (key.StrLit? || key.NumLit?) && Coded(f, ns, key, a)
      && CodedKind(f, ns, kind, p) && Is(f, q, Init3(InitPrim(kind)), q + 1) && CodedProps(f, ns, rest, q + 1)
  }
}
