/** The stack machine of jsrun.c: code words, their decoding, and one round of `jsR_run` as a
    step on the machine's state. */
module JsMachine {
  import opened JsTree

  type World(!new)

  /** Scope chains: J->E and its outer environments, by their variables objects. */
  datatype Scope = Global | Inner(vars: Value, outer: Scope)

  /** The operand stack of one call, its top first. */
  datatype Ops = Bottom | On(v: Value, under: Ops)

  function Height(s: Ops): nat {
    if s.Bottom? then 0 else 1 + Height(s.under)
  }

  lemma {:induction false} Heights(s: Ops)
    ensures s.On? <==> Height(s) >= 1
    ensures s.On? ==> Height(s) == 1 + Height(s.under) && (s.under.On? <==> Height(s) >= 2)
    ensures s.On? && s.under.On? ==> Height(s) == 2 + Height(s.under.under) && (s.under.under.On? <==> Height(s) >= 3)
    ensures s.On? && s.under.On? && s.under.under.On? ==>
      Height(s) == 3 + Height(s.under.under.under) && (s.under.under.under.On? <==> Height(s) >= 4)
    ensures s.On? && s.under.On? && s.under.under.On? && s.under.under.under.On? ==>
      Height(s) == 4 + Height(s.under.under.under.under)
  {
    if s.On? && s.under.On? && s.under.under.On? {
      var r := s.under.under;
      assert Height(s) == 2 + Height(r) && Height(r) == 1 + Height(r.under);
      if r.under.On? { assert Height(r.under) == 1 + Height(r.under.under); }
    }
  }

  /** TOP = k */
  function Cut(s: Ops, k: nat): Ops
    requires k <= Height(s)
  {
    if k == Height(s) then s else Cut(s.under, k)
  }

  /** The n topmost values. */
  function Top(s: Ops, n: nat): Ops
    requires n <= Height(s)
  {
    if n == 0 then Bottom else On(s.v, Top(s.under, n - 1))
  }

  // ----- run-time operations that the machine calls -----

  /** Operations on operands, environments and objects. The names are those of the opcodes. */
  datatype Prim =
    | Closure(fun: nat) | NewObject | NewArray | NewRegexp(s: string, flags: nat)
    | GetVar(x: Name) | HasVar(x: Name) | SetVar(x: Name) | DelVar(x: Name)
    | GetProp | GetMember(x: Name) | SetProp | SetMember(x: Name) | DelProp | DelMember(x: Name)
    | InitVal | InitGetter | InitSetter
    | Iterator | EvalString | Invoke | Construct | TypeName
    | Unop(u: UnOp) | Binop(op: BinOp)
    | CatchScope(x: Name) | WithScope

  datatype Res<T> = Ok(val: T, w: World) | Err(exc: Value, w: World)

  /** The run-time library. `prim` is given its operands, the topmost first, and the scope;
      `number` is js_tonumber, `bump` x + 1 or x - 1, `next` jsV_nextiterator, and `self` what
      OP_THIS makes of the frame's slot 0. A store gives what it leaves in the place of the value
      stored: js_tonumber overwrites an object there with its primitive value. */
  datatype Lib = Lib(
    prim: (Prim, Ops, Scope, World) -> Res<Value>,
    number: (Value, World) -> Res<Number>,
    bump: (bool, Number) -> Number,
    next: (Value, World) -> Res<Option<Name>>,
    self: Value -> Value)

  // ----- code -----

  datatype OpCode =
    | OpPop | OpDup | OpDup2 | OpRot2 | OpRot3 | OpRot4
    | OpNumber0 | OpNumber1 | OpNumberPos | OpNumberNeg | OpNumber | OpString
    | OpClosure | OpNewArray | OpNewObject | OpNewRegexp
    | OpUndef | OpNull | OpTrue | OpFalse | OpThis
    | OpGetLocal | OpSetLocal | OpDelLocal | OpHasVar | OpGetVar | OpSetVar | OpDelVar
    | OpInitProp | OpInitGetter | OpInitSetter
    | OpGetProp | OpGetPropS | OpSetProp | OpSetPropS | OpDelProp | OpDelPropS
    | OpIterator | OpNextIter | OpEval | OpCall | OpNew | OpTypeof
    | OpUnary(u: UnOp) | OpCrement(inc: bool, post: bool) | OpBinary(op: BinOp)
    | OpJCase | OpThrow | OpTry | OpEndTry | OpCatch | OpEndCatch | OpWith | OpEndWith
    | OpDebugger | OpJump | OpJTrue | OpJFalse | OpReturn

  /** An opcode or an operand. */
  datatype Word = Op(op: OpCode) | Arg(n: nat)

  /** Which names are locals: those of `vartab`, in a lightweight function. */
  datatype Names = Names(vartab: seq<Name>, lightweight: bool)

  /** A js_Function, without its name, line numbers and capacities. */
  datatype Fn = Fn(code: seq<Word>, numtab: seq<Number>, strtab: seq<string>, funtab: seq<nat>)

  datatype Instr =
    | Push(v: Value)
    | Pop | Dup | Dup2 | Rot2 | Rot3 | Rot4
    | Do1(p: Prim, n: nat)
    | Init3(p: Prim)
    | Bump(inc: bool, post: bool)
    | LoadThis | GetLocal(i: nat) | SetLocal(i: nat)
    | Next
    | Jump(t: nat) | JTrue(t: nat) | JFalse(t: nat) | JCase(t: nat)
    | Raise | TryTo(t: nat) | EndTry | Catch(x: Name) | EnterWith | LeaveScope
    | Trap | Ret

  datatype Decoded = Bad | Decoded(i: Instr, next: nat)

  function Operand(f: Fn, pc: nat): Option<nat> {
    if pc < |f.code| && f.code[pc].Arg? then Some(f.code[pc].n) else None
  }

  /** Instructions of one word. */
  function Simple(op: OpCode): Option<Instr> {
    match op
    case OpPop => Some(Pop)
    case OpDup => Some(Dup)
    case OpDup2 => Some(Dup2)
    case OpRot2 => Some(Rot2)
    case OpRot3 => Some(Rot3)
    case OpRot4 => Some(Rot4)
    case OpNumber0 => Some(Push(Num(Whole(0))))
    case OpNumber1 => Some(Push(Num(Whole(1))))
    case OpNewArray => Some(Do1(NewArray, 0))
    case OpNewObject => Some(Do1(NewObject, 0))
    case OpUndef => Some(Push(Undefined))
    case OpNull => Some(Push(Null))
    case OpTrue => Some(Push(Boolean(true)))
    case OpFalse => Some(Push(Boolean(false)))
    case OpThis => Some(LoadThis)
    case OpInitProp => Some(Init3(InitVal))
    case OpInitGetter => Some(Init3(InitGetter))
    case OpInitSetter => Some(Init3(InitSetter))
    case OpGetProp => Some(Do1(GetProp, 2))
    case OpSetProp => Some(Do1(SetProp, 3))
    case OpDelProp => Some(Do1(DelProp, 2))
    case OpIterator => Some(Do1(Iterator, 1))
    case OpNextIter => Some(Next)
    case OpEval => Some(Do1(EvalString, 1))
    case OpTypeof => Some(Do1(TypeName, 1))
    case OpUnary(u) => Some(Do1(Unop(u), 1))
    case OpCrement(inc, post) => Some(Bump(inc, post))
    case OpBinary(op) => Some(Do1(Binop(op), 2))
    case OpThrow => Some(Raise)
    case OpEndTry => Some(EndTry)
    case OpEndCatch => Some(LeaveScope)
    case OpWith => Some(EnterWith)
    case OpEndWith => Some(LeaveScope)
    case OpDebugger => Some(Trap)
    case OpReturn => Some(Ret)
    case _ => None
  }

  /** Instructions whose operand is an index into the table of strings. */
  function Named(op: OpCode, x: string): Option<Instr> {
    match op
    case OpString => Some(Push(Str(x)))
    case OpHasVar => Some(Do1(HasVar(x), 0))
    case OpGetVar => Some(Do1(GetVar(x), 0))
    case OpSetVar => Some(Do1(SetVar(x), 1))
    case OpDelVar => Some(Do1(DelVar(x), 0))
    case OpGetPropS => Some(Do1(GetMember(x), 1))
    case OpSetPropS => Some(Do1(SetMember(x), 2))
    case OpDelPropS => Some(Do1(DelMember(x), 1))
    case OpCatch => Some(Catch(x))
    case _ => None
  }

  /** Instructions whose operand is a number: an address, a slot, a count or a value. */
  function Numbered(op: OpCode, n: nat): Option<Instr> {
    match op
    case OpNumberPos => Some(Push(Num(Whole(n))))
    case OpNumberNeg => Some(Push(Num(if n == 0 then Whole(0) else Minus(Whole(n)))))
    case OpGetLocal => Some(GetLocal(n))
    case OpSetLocal => Some(SetLocal(n))
    case OpDelLocal => Some(Push(Boolean(false)))
    case OpCall => Some(Do1(Invoke, n + 2))
    case OpNew => Some(Do1(Construct, n + 1))
    case OpJCase => Some(JCase(n))
    case OpTry => Some(TryTo(n))
    case OpJump => Some(Jump(n))
    case OpJTrue => Some(JTrue(n))
    case OpJFalse => Some(JFalse(n))
    case _ => None
  }

  function Regexp(f: Fn, pc: nat, n: nat): Decoded {
    match Operand(f, pc + 2)
    case None => Bad
    case Some(flags) => if n < |f.strtab| then Decoded(Do1(NewRegexp(f.strtab[n], flags), 0), pc + 3) else Bad
  }

  /** The instruction at pc, its operands read from the words that follow and the tables. */
  function Decode(f: Fn, pc: nat): Decoded {
    if pc >= |f.code| || f.code[pc].Arg? then Bad
    else
      var op := f.code[pc].op;
      match Simple(op)
      case Some(i) => Decoded(i, pc + 1)
      case None =>
        match Operand(f, pc + 1)
        case None => Bad
        case Some(n) =>
          if op.OpNewRegexp? then Regexp(f, pc, n)
          else if op.OpNumber? then if n < |f.numtab| then Decoded(Push(Num(f.numtab[n])), pc + 2) else Bad
          else if op.OpClosure? then if n < |f.funtab| then Decoded(Do1(Closure(f.funtab[n]), 0), pc + 2) else Bad
          else if Numbered(op, n).Some? then Decoded(Numbered(op, n).value, pc + 2)
          else if n < |f.strtab| && Named(op, f.strtab[n]).Some? then Decoded(Named(op, f.strtab[n]).value, pc + 2)
          else Bad
  }

  // ----- states and steps -----

  /** One entry of J->trybuf: the saved E and TOP, and where to resume. */
  datatype Handler = Handler(scope: Scope, top: nat, pc: nat)

  datatype Tries = NoTries | Tries(h: Handler, rest: Tries)

  /** The frame holds `this` and the local variables, STACK[BOT] and up, under the operands.
      Returned and Thrown leave jsR_run; Wrong is what compiled code never reaches. */
  datatype State =
    | Running(pc: nat, frame: seq<Value>, ops: Ops, scope: Scope, tries: Tries, w: World)
    | Returned(v: Value, scope: Scope, tries: Tries, w: World)
    | Thrown(v: Value, w: World)
    | Wrong

  /** `js_throw`: back to the last OP_TRY, with the exception on the stack that it saw. */
  function Throwing(s: State, v: Value, w: World): State
    requires s.Running?
  {
    match s.tries
    case NoTries => Thrown(v, w)
    case Tries(h, rest) =>
      if h.top <= Height(s.ops) then Running(h.pc, s.frame, On(v, Cut(s.ops, h.top)), h.scope, rest, w) else Wrong
  }

  /** A value pushed on what is left of the stack, or an exception. */
  function Result(s: State, r: Res<Value>, left: Ops, next: nat): State
    requires s.Running?
  {
    match r
    case Ok(v, w) => s.(pc := next, ops := On(v, left), w := w)
    case Err(v, w) => Throwing(s, v, w)
  }

  function Shuffle(i: Instr, s: Ops): Option<Ops> {
    match (i, s)
    case (Pop, On(_, r)) => Some(r)
    case (Dup, On(a, r)) => Some(On(a, s))
    case (Dup2, On(b, On(a, r))) => Some(On(b, On(a, s)))
    case (Rot2, On(b, On(a, r))) => Some(On(a, On(b, r)))
    case (Rot3, On(c, On(b, On(a, r)))) => Some(On(b, On(a, On(c, r))))
    case (Rot4, On(d, On(c, On(b, On(a, r))))) => Some(On(c, On(b, On(a, On(d, r)))))
    case _ => None
  }

  /** What the instruction i does, where next is the address after it. */
  function Does(lib: Lib, i: Instr, next: nat, s: State): State
    requires s.Running?
  {
    match i
    case Push(v) => s.(pc := next, ops := On(v, s.ops))
    case Do1(p, n) =>
      if n <= Height(s.ops)
        then Result(s, lib.prim(p, Top(s.ops, n), s.scope, s.w), Cut(s.ops, Height(s.ops) - n), next) else Wrong
    case Init3(p) =>
      if 3 <= Height(s.ops) then
        match lib.prim(p, Top(s.ops, 3), s.scope, s.w)
        case Ok(_, w) => s.(pc := next, ops := s.ops.under.under, w := w)
        case Err(v, w) => Throwing(s, v, w)
      else Wrong
    case Bump(inc, post) =>
      if s.ops.On? then
        match lib.number(s.ops.v, s.w)
        case Ok(x, w) =>
          var y := On(Num(lib.bump(inc, x)), s.ops.under);
          s.(pc := next, ops := if post then On(Num(x), y) else y, w := w)
        case Err(v, w) => Throwing(s, v, w)
      else Wrong
    case LoadThis => if s.frame != [] then s.(pc := next, ops := On(lib.self(s.frame[0]), s.ops)) else Wrong
    case GetLocal(k) => if k < |s.frame| then s.(pc := next, ops := On(s.frame[k], s.ops)) else Wrong
    case SetLocal(k) => if k < |s.frame| && s.ops.On? then s.(pc := next, frame := s.frame[k := s.ops.v]) else Wrong
    case Next =>
      if s.ops.On? then
        match lib.next(s.ops.v, s.w)
        case Ok(None, w) => s.(pc := next, ops := On(Boolean(false), s.ops.under), w := w)
        case Ok(Some(x), w) => s.(pc := next, ops := On(Boolean(true), On(Str(x), s.ops)), w := w)
        case Err(v, w) => Throwing(s, v, w)
      else Wrong
    case Jump(t) => s.(pc := t)
    case JTrue(t) => if s.ops.On? then s.(pc := if Truth(s.ops.v) then t else next, ops := s.ops.under) else Wrong
    case JFalse(t) => if s.ops.On? then s.(pc := if Truth(s.ops.v) then next else t, ops := s.ops.under) else Wrong
    case JCase(t) =>
      if s.ops.On? && s.ops.under.On? then
        if StrictEq(s.ops.under.v, s.ops.v) then s.(pc := t, ops := s.ops.under.under)
          else s.(pc := next, ops := s.ops.under)
      else Wrong
    case Raise => if s.ops.On? then Throwing(s, s.ops.v, s.w) else Wrong
    case TryTo(t) => s.(pc := t, tries := Tries(Handler(s.scope, Height(s.ops), next), s.tries))
    case EndTry => if s.tries.Tries? then s.(pc := next, tries := s.tries.rest) else Wrong
    case Catch(x) =>
      if s.ops.On? then Entering(s, lib.prim(CatchScope(x), On(s.ops.v, Bottom), s.scope, s.w), next) else Wrong
    case EnterWith =>
      if s.ops.On? then Entering(s, lib.prim(WithScope, On(s.ops.v, Bottom), s.scope, s.w), next) else Wrong
    case LeaveScope => if s.scope.Inner? then s.(pc := next, scope := s.scope.outer) else Wrong
    case Trap => s.(pc := next)
    case Ret => if s.ops.On? then Returned(s.ops.v, s.scope, s.tries, s.w) else Wrong
    case _ =>
      match Shuffle(i, s.ops)
      case None => Wrong
      case Some(ops) => s.(pc := next, ops := ops)
  }

  function Entering(s: State, r: Res<Value>, next: nat): State
    requires s.Running? && s.ops.On?
  {
    match r
    case Ok(v, w) => s.(pc := next, ops := s.ops.under, scope := Inner(v, s.scope), w := w)
    case Err(v, w) => Throwing(s, v, w)
  }

  /** One round of the loop of `jsR_run`. */
  function Step(f: Fn, lib: Lib, s: State): State {
    if !s.Running? then s else
    match Decode(f, s.pc)
    case Bad => Wrong
    case Decoded(i, next) => Does(lib, i, next, s)
  }

  function Run(f: Fn, lib: Lib, s: State, n: nat): State
    decreases n
  {
    if n == 0 then s else Run(f, lib, Step(f, lib, s), n - 1)
  }

  lemma {:induction false} RunAdd(f: Fn, lib: Lib, s: State, m: nat, n: nat)
    ensures Run(f, lib, s, m + n) == Run(f, lib, Run(f, lib, s, m), n)
    decreases m
  {
    if m > 0 { RunAdd(f, lib, Step(f, lib, s), m - 1, n); }
  }

  /** A machine that has stopped stays as it is. */
  lemma {:induction false} Stopped(f: Fn, lib: Lib, s: State, m: nat, n: nat)
    requires !Run(f, lib, s, m).Running? && m <= n
    ensures Run(f, lib, s, n) == Run(f, lib, s, m)
  {
    RunAdd(f, lib, s, m, n - m);
    StoppedStays(f, lib, Run(f, lib, s, m), n - m);
  }

  lemma {:induction false} StoppedStays(f: Fn, lib: Lib, s: State, n: nat)
    requires !s.Running?
    ensures Run(f, lib, s, n) == s
    decreases n
  {
    if n > 0 { StoppedStays(f, lib, s, n - 1); }
  }

  /** A run that does not go wrong takes each of its steps. */
  lemma {:induction false} RunsOn(f: Fn, lib: Lib, s: State, k: nat, n: nat)
    requires k < n && Run(f, lib, s, n) != Wrong
    ensures Run(f, lib, s, k + 1) == Step(f, lib, Run(f, lib, s, k)) != Wrong
  {
    RunAdd(f, lib, s, k, 1);
    var t := Run(f, lib, s, k);
    assert Run(f, lib, Step(f, lib, t), 0) == Step(f, lib, t);
    if Step(f, lib, t) == Wrong { Stopped(f, lib, s, k + 1, n); }
  }
}
