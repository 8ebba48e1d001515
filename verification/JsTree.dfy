/** JavaScript values and the syntax trees that jscompile.c compiles: the body of one function,
    without `finally`. */
module JsTree {

  type Name = string

  datatype Option<T> = None | Some(value: T)

  // ----- values -----

  /** IEEE doubles, with the sign of zero kept. */
  datatype Number = NaN | Infinity(neg: bool) | Finite(neg: bool, mag: real)

  predicate IsZero(n: Number) {
    n.Finite? && n.mag == 0.0
  }

  /** == on doubles */
  predicate NumEq(x: Number, y: Number) {
    if IsZero(x) && IsZero(y) then true else !x.NaN? && x == y
  }

  function Minus(n: Number): Number {
    match n
    case NaN => NaN
    case Infinity(neg) => Infinity(!neg)
    case Finite(neg, mag) => Finite(!neg, mag)
  }

  function Whole(k: nat): Number {
    Finite(false, k as real)
  }

  datatype Value = Undefined | Null | Boolean(b: bool) | Num(n: Number) | Str(s: string) | Obj(id: nat)

  /** `jsV_toboolean` */
  predicate Truth(v: Value) {
    match v
    case Undefined => false
    case Null => false
    case Boolean(b) => b
    case Num(n) => !IsZero(n) && !n.NaN?
    case Str(s) => s != ""
    case Obj(_) => true
  }

  /** `js_strictequal` */
  predicate StrictEq(x: Value, y: Value) {
    match (x, y)
    case (Num(m), Num(n)) => NumEq(m, n)
    case _ => x == y
  }

  // ----- trees -----

  datatype UnOp = Pos | Neg | BitNot | LogNot

  datatype BinOp = Mul | Div | Mod | Add | Sub | Shl | Shr | Ushr | Lt | Gt | Le | Ge | Eq | Ne | StrictEqual | StrictNe
    | BitAnd | BitXor | BitOr | InstanceOf | In

  /** A function literal is known by its number in the source. */
  datatype Exp =
    | StrLit(s: string) | NumLit(n: Number) | UndefLit | NullLit | TrueLit | FalseLit | This
    | RegexpLit(s: string, flags: nat)
    | FunLit(fun: nat)
    | ObjLit(props: Props)
    | ArrLit(items: Items)
    | Ident(x: Name)
    | Index(a: Exp, b: Exp)
    | Member(a: Exp, x: Name)
    | Call(f: Exp, args: Exps)
    | New(f: Exp, args: Exps)
    | Delete(a: Exp)
    | Typeof(a: Exp)
    | Void(a: Exp)
    | Crement(inc: bool, post: bool, a: Exp)
    | Unary(u: UnOp, a: Exp)
    | Binary(op: BinOp, a: Exp, b: Exp)
    | Assign(a: Exp, b: Exp)
    | AssignOp(op: BinOp, a: Exp, b: Exp)
    | Comma(a: Exp, b: Exp)
    | LogOr(a: Exp, b: Exp)
    | LogAnd(a: Exp, b: Exp)
    | Cond(a: Exp, b: Exp, c: Exp)

  datatype Exps = NoExps | Exps(head: Exp, tail: Exps)

  datatype Items = NoItems | Hole(rest: Items) | Item(e: Exp, rest: Items)

  datatype PropKind = PropVal(e: Exp) | PropGet(fun: nat) | PropSet(fun: nat)

  datatype Props = NoProps | Prop(key: Exp, kind: PropKind, rest: Props)

  datatype Vars = NoVars | Var(x: Name, init: Option<Exp>, rest: Vars)

  datatype Init = NoInit | VarInit(vars: Vars) | ExpInit(e: Exp)

  /** `for (var x in e)` is ForIn with the identifier x: an initial value of x is not compiled. */
  datatype Stm =
    | FunDec
    | Block(body: Stms)
    | Empty
    | VarStm(vars: Vars)
    | If(c: Exp, a: Stm)
    | IfElse(c: Exp, a: Stm, b: Stm)
    | Do(s: Stm, c: Exp)
    | While(c: Exp, s: Stm)
    | For(init: Init, cond: Option<Exp>, step: Option<Exp>, s: Stm)
    | ForIn(lhs: Exp, e: Exp, s: Stm)
    | Switch(e: Exp, cases: Cases)
    | Label(x: Name, s: Stm)
    | Break(l: Option<Name>)
    | Continue(l: Option<Name>)
    | Return(r: Option<Exp>)
    | Throw(e: Exp)
    | With(e: Exp, s: Stm)
    | Try(s: Stm, x: Name, handler: Stm)
    | Debugger
    | ExpStm(e: Exp)

  datatype Stms = NoStms | Stms(head: Stm, tail: Stms)

  datatype Cases = NoCases | Case(e: Exp, body: Stms, rest: Cases) | Default(body: Stms, rest: Cases)

  // ----- what the compiler accepts -----

  predicate IsRef(e: Exp) {
    e.Ident? || e.Index? || e.Member?
  }
}
