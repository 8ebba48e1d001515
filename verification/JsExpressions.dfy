/** Compiled expressions, run by the machine, push the value that evaluation gives, or throw
    the exception that it throws. */
module JsExpressions {
  import opened JsTree
  import opened JsMachine
  import opened JsMeaning
  import opened JsCode

  function MemOf(s: State): Mem
    requires s.Running?
  {
    Mem(s.frame, s.w)
  }

  /** Every handler was set up at or under this height of the stack. */
  predicate Below(t: Tries, h: nat) {
    t.Tries? ==> t.h.top <= h && Below(t.rest, h)
  }

  /** What is asked of the library: negating a number negates it. */
  ghost predicate Negates(lib: Lib) {
    forall n: Number, scope: Scope, w: World ::
      lib.prim(Unop(Neg), On(Num(n), Bottom), scope, w) == Ok(Num(Minus(n)), w)
  }

  ghost predicate Ready(c: Ctx, s: State) {
    s.Running? && |s.frame| == FrameSize(c.names) && Below(s.tries, Height(s.ops)) && Negates(c.lib)
  }

  // ----- states on the way -----

  function Over(vs: Ops, s: Ops): Ops {
    if vs.Bottom? then s else On(vs.v, Over(vs.under, s))
  }

  function Pushing(s: State, pc: nat, vs: Ops, m: Mem): State
    requires s.Running?
  {
    Running(pc, m.frame, Over(vs, s.ops), s.scope, s.tries, m.w)
  }

  function Fails(s: State, x: Value, m: Mem): State
    requires s.Running?
  {
    Throwing(s.(frame := m.frame), x, m.w)
  }

  /** The state that code started in s ends in: with values pushed or with an exception. */
  function Ends(s: State, pc: nat, r: Out<Ops>): State
    requires s.Running?
  {
    match r
    case Val(vs, m) => Pushing(s, pc, vs, m)
    case Exc(x, m) => Fails(s, x, m)
  }

  function One(r: Out<Value>): Out<Ops> {
    match r
    case Val(v, m) => Val(On(v, Bottom), m)
    case Exc(x, m) => Exc(x, m)
  }

  /** s1 is s with the values vs pushed and other contents of the frame. */
  predicate Pushed(s: State, s1: State, vs: Ops) {
    s.Running? && s1.Running? && |s1.frame| == |s.frame| && s1.ops == Over(vs, s.ops) && s1.scope == s.scope
      && s1.tries == s.tries
  }

  lemma {:induction false} OverMeans(vs: Ops, s: Ops)
    ensures Height(Over(vs, s)) == Height(vs) + Height(s)
    ensures Top(Over(vs, s), Height(vs)) == vs && Cut(Over(vs, s), Height(s)) == s
    ensures forall k: nat | k <= Height(s) :: Cut(Over(vs, s), k) == Cut(s, k)
  {
    if vs.On? { OverMeans(vs.under, s); }
  }

  lemma {:induction false} Overs(s: Ops)
    ensures Over(Bottom, s) == s && Height(Bottom) == 0
    ensures forall v: Value, vs: Ops {:trigger Height(On(v, vs))} :: Height(On(v, vs)) == 1 + Height(vs)
    ensures forall v: Value, vs: Ops {:trigger Over(On(v, vs), s)} :: Over(On(v, vs), s) == On(v, Over(vs, s))
  {
  }

  lemma {:induction false} BelowUp(t: Tries, h: nat, k: nat)
    requires Below(t, h) && h <= k
    ensures Below(t, k)
  {
    if t.Tries? { BelowUp(t.rest, h, k); }
  }

  /** With operands of an unfinished expression on the stack an exception ends up the same. */
  lemma {:induction false} PushedMeans(c: Ctx, s: State, s1: State, vs: Ops)
    requires Ready(c, s) && Pushed(s, s1, vs)
    ensures Ready(c, s1)
    ensures forall x: Value, m: Mem {:trigger Fails(s1, x, m)} :: Fails(s1, x, m) == Fails(s, x, m)
  {
    OverMeans(vs, s.ops);
    BelowUp(s.tries, Height(s.ops), Height(s1.ops));
  }

  // ----- single instructions -----

  lemma {:induction false} Runs1(f: Fn, lib: Lib, s: State, i: Instr, next: nat)
    requires s.Running? && Is(f, s.pc, i, next)
    ensures Run(f, lib, s, 1) == Does(lib, i, next, s)
  {
    hide Decode, Does;
    assert Run(f, lib, Step(f, lib, s), 0) == Step(f, lib, s);
  }

  /** An operation takes its operands off and pushes its result. */
  lemma {:induction false} Operate(f: Fn, c: Ctx, s: State, s1: State, p: Prim, vs: Ops, next: nat)
    requires Ready(c, s) && Pushed(s, s1, vs) && Is(f, s1.pc, Do1(p, Height(vs)), next)
    ensures Run(f, c.lib, s1, 1) == Ends(s, next, One(Apply(c, p, vs, s.scope, MemOf(s1))))
  {
    hide Is, Decode, Run;
    Runs1(f, c.lib, s1, Do1(p, Height(vs)), next);
    Overs(s.ops);
    OverMeans(vs, s.ops);
    PushedMeans(c, s, s1, vs);
  }

  // ----- expressions -----

  /** After n steps from s the code up to pc has done what r says. */
  ghost predicate Reaches(f: Fn, c: Ctx, s: State, n: nat, pc: nat, r: Out<Ops>)
    requires s.Running?
  {
    Run(f, c.lib, s, n) == Ends(s, pc, r) && |r.m.frame| == |s.frame|
  }

  ghost predicate ExpDone(f: Fn, c: Ctx, e: Exp, s: State, n: nat)
    requires s.Running?
  {
    Reaches(f, c, s, n, s.pc + SizeE(e), One(Eval(c, e, s.scope, MemOf(s))))
  }

  lemma {:induction false} ExpRuns(f: Fn, c: Ctx, e: Exp, s: State) returns (n: nat)
    requires Ready(c, s) && Coded(f, c.names, e, s.pc)
    ensures ExpDone(f, c, e, s, n)
    decreases e, 9
  {
    hide Is, Decode, Run, Eval, Coded, SizeE, ExpDone;
    match e
    case ObjLit(_) => n := ObjLitRuns(f, c, e, s);
    case ArrLit(_) => n := ArrLitRuns(f, c, e, s);
    case Ident(x) => n := IdentRuns(f, c, e, s);
    case Index(_, _) => n := GetRuns(f, c, e, s);
    case Member(_, _) => n := GetRuns(f, c, e, s);
    case Call(g, _) => if g == Ident("eval") { n := EvalCallRuns(f, c, e, s); } else { n := CallRuns(f, c, e, s); }
    case New(_, _) => n := NewRuns(f, c, e, s);
    case Delete(_) => n := DeleteRuns(f, c, e, s);
    case Typeof(_) => n := TypeofRuns(f, c, e, s);
    case Void(_) => n := VoidRuns(f, c, e, s);
    case Crement(_, _, _) => n := CrementRuns(f, c, e, s);
    case Unary(_, _) => n := UnaryRuns(f, c, e, s);
    case Binary(_, _, _) => n := BinaryRuns(f, c, e, s);
    case Assign(_, _) => n := AssignRuns(f, c, e, s);
    case AssignOp(_, _, _) => n := AssignOpRuns(f, c, e, s);
    case Comma(_, _) => n := CommaRuns(f, c, e, s);
    case LogOr(_, _) => n := ElseRuns(f, c, e, s);
    case LogAnd(_, _) => n := ElseRuns(f, c, e, s);
    case Cond(_, _, _) => n := CondRuns(f, c, e, s);
    case _ => n := LiteralRuns(f, c, e, s);
  }

  function Both(r: Out<(Value, Value)>): Out<Ops> {
    match r
    case Val((v, u), m) => Val(On(u, On(v, Bottom)), m)
    case Exc(x, m) => Exc(x, m)
  }

  /** Two operands, one after the other. */
  lemma {:induction false} PairRuns(f: Fn, c: Ctx, e: Exp, s: State) returns (n: nat)
    requires Ready(c, s) && (e.Index? || e.Binary?) && Coded(f, c.names, e.a, s.pc)
      && Coded(f, c.names, e.b, s.pc + SizeE(e.a))
    ensures Reaches(f, c, s, n, s.pc + SizeE(e.a) + SizeE(e.b), Both(EvalPair(c, e, s.scope, MemOf(s))))
    decreases e, 0
  {
    hide Is, Decode, Run, Eval, Coded, SizeE;
    Overs(s.ops);
    n := ExpRuns(f, c, e.a, s);
    var r := Eval(c, e.a, s.scope, MemOf(s));
    if r.Val? {
      var s1 := Pushing(s, s.pc + SizeE(e.a), On(r.v, Bottom), r.m);
      PushedMeans(c, s, s1, On(r.v, Bottom));
      Overs(s1.ops);
      var m := ExpRuns(f, c, e.b, s1);
      RunAdd(f, c.lib, s, n, m);
      n := n + m;
    }
  }

  lemma {:induction false} BinaryRuns(f: Fn, c: Ctx, e: Exp, s: State) returns (n: nat)
    requires Ready(c, s) && Coded(f, c.names, e, s.pc) && e.Binary?
    ensures ExpDone(f, c, e, s, n)
    decreases e, 1
  {
    hide Is, Decode, Run, Eval, Coded, SizeE;
    EvalDef(c, e, s.scope, MemOf(s));
    CodedDef(f, c.names, e, s.pc);
    Overs(s.ops);
    n := PairRuns(f, c, e, s);
    var r := EvalPair(c, e, s.scope, MemOf(s));
    if r.Val? {
      var vs := On(r.v.1, On(r.v.0, Bottom));
      var s1 := Pushing(s, s.pc + SizeE(e.a) + SizeE(e.b), vs, r.m);
      Operate(f, c, s, s1, Binop(e.op), vs, s1.pc + 1);
      RunAdd(f, c.lib, s, n, 1);
      n := n + 1;
    }
  }

  // ----- literals and variables -----

  /** A number is pushed exactly, negative zero included. */
  lemma {:induction false} NumberRuns(f: Fn, c: Ctx, x: Number, s: State) returns (n: nat)
    requires Ready(c, s) && CodedNum(f, x, s.pc)
    ensures Reaches(f, c, s, n, s.pc + SizeNum(x), Val(On(Num(x), Bottom), MemOf(s)))
  {
    hide Is, Decode, Run;
    Overs(s.ops);
    n := 1;
    if IsZero(x) && x.neg {
      var zero := On(Num(Whole(0)), Bottom);
      Runs1(f, c.lib, s, Push(Num(Whole(0))), s.pc + 1);
      var s1 := Pushing(s, s.pc + 1, zero, MemOf(s));
      Operate(f, c, s, s1, Unop(Neg), zero, s.pc + 2);
      RunAdd(f, c.lib, s, 1, 1);
      assert Minus(Whole(0)) == x;
      n := 2;
    } else if IsZero(x) {
      assert x == Whole(0);
      Runs1(f, c.lib, s, Push(Num(Whole(0))), s.pc + 1);
    } else {
      Runs1(f, c.lib, s, Push(Num(x)), s.pc + SizeNum(x));
    }
  }

  /** One instruction that takes nothing off the stack. */
  lemma {:induction false} Produce(f: Fn, c: Ctx, p: Prim, s: State, next: nat)
    requires Ready(c, s) && Is(f, s.pc, Do1(p, 0), next)
    ensures Reaches(f, c, s, 1, next, One(Apply(c, p, Bottom, s.scope, MemOf(s))))
  {
    hide Is, Decode, Run;
    Overs(s.ops);
    Operate(f, c, s, s, p, Bottom, next);
  }

  lemma {:induction false} LiteralRuns(f: Fn, c: Ctx, e: Exp, s: State) returns (n: nat)
    requires Ready(c, s) && Coded(f, c.names, e, s.pc)
    requires e.StrLit? || e.NumLit? || e.UndefLit? || e.NullLit? || e.TrueLit? || e.FalseLit? || e.This? || e.RegexpLit?
      || e.FunLit?
    ensures ExpDone(f, c, e, s, n)
  {
    hide Is, Decode, Run, Eval, Coded, SizeE;
    EvalDef(c, e, s.scope, MemOf(s));
    CodedDef(f, c.names, e, s.pc);
    Overs(s.ops);
    n := 1;
    match e
    case StrLit(v) => Runs1(f, c.lib, s, Push(Str(v)), s.pc + 2);
    case NumLit(x) => n := NumberRuns(f, c, x, s);
    case UndefLit => Runs1(f, c.lib, s, Push(Undefined), s.pc + 1);
    case NullLit => Runs1(f, c.lib, s, Push(Null), s.pc + 1);
    case TrueLit => Runs1(f, c.lib, s, Push(Boolean(true)), s.pc + 1);
    case FalseLit => Runs1(f, c.lib, s, Push(Boolean(false)), s.pc + 1);
    case This => Runs1(f, c.lib, s, LoadThis, s.pc + 1);
    case RegexpLit(v, flags) => Produce(f, c, NewRegexp(v, flags), s, s.pc + 3);
    case FunLit(fun) => Produce(f, c, Closure(fun), s, s.pc + 2);
  }

  lemma {:induction false} SlotRange(names: Names, x: Name)
    ensures Slot(names, x).Some? ==> 1 <= Slot(names, x).value < FrameSize(names)
  {
    FindLocalRange(names.vartab, x);
  }

  lemma {:induction false} FindLocalRange(vars: seq<Name>, x: Name)
    ensures FindLocal(vars, x).Some? ==>
      1 <= FindLocal(vars, x).value <= |vars| && vars[FindLocal(vars, x).value - 1] == x
  {
    if vars != [] && vars[|vars| - 1] != x { FindLocalRange(vars[..|vars| - 1], x); }
  }

  lemma {:induction false} LoadRuns(f: Fn, c: Ctx, x: Name, absent: Prim, s: State)
    requires Ready(c, s) && CodedLoad(f, c.names, x, absent, s.pc)
    ensures Reaches(f, c, s, 1, s.pc + 2, One(Load(c, x, absent, s.scope, MemOf(s))))
  {
    hide Is, Decode, Run;
    Overs(s.ops);
    SlotRange(c.names, x);
    match Slot(c.names, x)
    case Some(k) => Runs1(f, c.lib, s, GetLocal(k), s.pc + 2);
    case None => Produce(f, c, absent, s, s.pc + 2);
  }

  lemma {:induction false} IdentRuns(f: Fn, c: Ctx, e: Exp, s: State) returns (n: nat)
    requires Ready(c, s) && Coded(f, c.names, e, s.pc) && e.Ident?
    ensures ExpDone(f, c, e, s, n)
  {
    hide Is, Decode, Run, Eval, Coded, SizeE, Load;
    EvalDef(c, e, s.scope, MemOf(s));
    CodedDef(f, c.names, e, s.pc);
    LoadRuns(f, c, e.x, GetVar(e.x), s);
    n := 1;
  }

  // ----- sequencing -----

  lemma {:induction false} UnaryRuns(f: Fn, c: Ctx, e: Exp, s: State) returns (n: nat)
    requires Ready(c, s) && Coded(f, c.names, e, s.pc) && e.Unary?
    ensures ExpDone(f, c, e, s, n)
    decreases e, 1
  {
    hide Is, Decode, Run, Eval, Coded, SizeE;
    EvalDef(c, e, s.scope, MemOf(s));
    CodedDef(f, c.names, e, s.pc);
    n := ApplyRuns(f, c, e.a, Unop(e.u), s, s.pc + SizeE(e.a) + 1);
  }

  function Operated(c: Ctx, r: Out<Value>, p: Prim, scope: Scope): Out<Value> {
    match r
    case Val(v, m) => Apply(c, p, On(v, Bottom), scope, m)
    case Exc(x, m) => Exc(x, m)
  }

  /** An operand and an operation on it. */
  lemma {:induction false} ApplyRuns(f: Fn, c: Ctx, e: Exp, p: Prim, s: State, next: nat) returns (n: nat)
    requires Ready(c, s) && Coded(f, c.names, e, s.pc) && Is(f, s.pc + SizeE(e), Do1(p, 1), next)
    ensures Reaches(f, c, s, n, next, One(Operated(c, Eval(c, e, s.scope, MemOf(s)), p, s.scope)))
    decreases e, 10
  {
    hide Is, Decode, Run, Eval, Coded, SizeE;
    Overs(s.ops);
    n := ExpRuns(f, c, e, s);
    var r := Eval(c, e, s.scope, MemOf(s));
    if r.Val? {
      var vs := On(r.v, Bottom);
      var s1 := Pushing(s, s.pc + SizeE(e), vs, r.m);
      Operate(f, c, s, s1, p, vs, next);
      RunAdd(f, c.lib, s, n, 1);
      n := n + 1;
    }
  }

  lemma {:induction false} TypeofRuns(f: Fn, c: Ctx, e: Exp, s: State) returns (n: nat)
    requires Ready(c, s) && Coded(f, c.names, e, s.pc) && e.Typeof?
    ensures ExpDone(f, c, e, s, n)
    decreases e, 1
  {
    hide Is, Decode, Run, Eval, Coded, SizeE, Load;
    EvalDef(c, e, s.scope, MemOf(s));
    CodedDef(f, c.names, e, s.pc);
    var p := s.pc + SizeE(e.a);
    if e.a.Ident? {
      Overs(s.ops);
      CodedDef(f, c.names, e.a, s.pc);
      LoadRuns(f, c, e.a.x, HasVar(e.a.x), s);
      n := 1;
      var r := Load(c, e.a.x, HasVar(e.a.x), s.scope, MemOf(s));
      if r.Val? {
        var vs := On(r.v, Bottom);
        var s1 := Pushing(s, p, vs, r.m);
        Operate(f, c, s, s1, TypeName, vs, p + 1);
        RunAdd(f, c.lib, s, n, 1);
        n := n + 1;
      }
    } else {
      n := ApplyRuns(f, c, e.a, TypeName, s, p + 1);
    }
  }

  lemma {:induction false} VoidRuns(f: Fn, c: Ctx, e: Exp, s: State) returns (n: nat)
    requires Ready(c, s) && Coded(f, c.names, e, s.pc) && e.Void?
    ensures ExpDone(f, c, e, s, n)
    decreases e, 1
  {
    hide Is, Decode, Run, Eval, Coded, SizeE;
    EvalDef(c, e, s.scope, MemOf(s));
    CodedDef(f, c.names, e, s.pc);
    Overs(s.ops);
    n := ExpRuns(f, c, e.a, s);
    var r := Eval(c, e.a, s.scope, MemOf(s));
    if r.Val? {
      var p := s.pc + SizeE(e.a);
      var s1 := Pushing(s, p, On(r.v, Bottom), r.m);
      Runs1(f, c.lib, s1, Pop, p + 1);
      var s2 := Pushing(s, p + 1, Bottom, r.m);
      Runs1(f, c.lib, s2, Push(Undefined), p + 2);
      RunAdd(f, c.lib, s, n, 1);
      RunAdd(f, c.lib, s, n + 1, 1);
      n := n + 2;
    }
  }

  lemma {:induction false} CommaRuns(f: Fn, c: Ctx, e: Exp, s: State) returns (n: nat)
    requires Ready(c, s) && Coded(f, c.names, e, s.pc) && e.Comma?
    ensures ExpDone(f, c, e, s, n)
    decreases e, 1
  {
    hide Is, Decode, Run, Eval, Coded, SizeE;
    EvalDef(c, e, s.scope, MemOf(s));
    CodedDef(f, c.names, e, s.pc);
    Overs(s.ops);
    n := ExpRuns(f, c, e.a, s);
    var r := Eval(c, e.a, s.scope, MemOf(s));
    if r.Val? {
      var p := s.pc + SizeE(e.a);
      var s1 := Pushing(s, p, On(r.v, Bottom), r.m);
      var m := SecondRuns(f, c, e.b, s, s1, r.v);
      RunAdd(f, c.lib, s, n, m);
      n := n + m;
    }
  }

  lemma {:induction false} ElseCode(f: Fn, ns: Names, e: Exp, a: nat)
    requires Coded(f, ns, e, a) && (e.LogOr? || e.LogAnd?)
    ensures
      var p := a + SizeE(e.a);
      var end := p + 4 + SizeE(e.b);
      && Coded(f, ns, e.a, a) && Is(f, p, Dup, p + 1)
      && Is(f, p + 1, if e.LogOr? then JTrue(end) else JFalse(end), p + 3)
      && Is(f, p + 3, Pop, p + 4) && Coded(f, ns, e.b, p + 4) && a + SizeE(e) == end
  {
    hide Is, Coded, SizeE;
    CodedDef(f, ns, e, a);
  }

  /** || and &&: the first operand's value stays if it decides. */
  lemma {:induction false} ElseRuns(f: Fn, c: Ctx, e: Exp, s: State) returns (n: nat)
    requires Ready(c, s) && Coded(f, c.names, e, s.pc) && (e.LogOr? || e.LogAnd?)
    ensures ExpDone(f, c, e, s, n)
    decreases e, 1
  {
    hide Is, Decode, Run, Eval, Coded, SizeE;
    EvalDef(c, e, s.scope, MemOf(s));
    ElseCode(f, c.names, e, s.pc);
    Overs(s.ops);
    n := ExpRuns(f, c, e.a, s);
    var r := Eval(c, e.a, s.scope, MemOf(s));
    if r.Val? {
      var m := ElseEnds(f, c, e, s, Pushing(s, s.pc + SizeE(e.a), On(r.v, Bottom), r.m), r.v);
      RunAdd(f, c.lib, s, n, m);
      n := n + m;
    }
  }

  lemma {:induction false} ElseEnds(f: Fn, c: Ctx, e: Exp, s: State, s1: State, v: Value) returns (n: nat)
    requires Ready(c, s) && Coded(f, c.names, e, s.pc) && (e.LogOr? || e.LogAnd?)
    requires Pushed(s, s1, On(v, Bottom)) && s1.pc == s.pc + SizeE(e.a)
    ensures var r := if Truth(v) == e.LogOr? then Val(v, MemOf(s1)) else Eval(c, e.b, s.scope, MemOf(s1));
      Run(f, c.lib, s1, n) == Ends(s, s.pc + SizeE(e), One(r)) && |r.m.frame| == |s.frame|
    decreases e, 0
  {
    hide Is, Decode, Run, Eval, Coded, SizeE;
    ElseCode(f, c.names, e, s.pc);
    Overs(s.ops);
    var p, end := s1.pc, s.pc + SizeE(e);
    Runs1(f, c.lib, s1, Dup, p + 1);
    Runs1(f, c.lib, Pushing(s, p + 1, On(v, On(v, Bottom)), MemOf(s1)), if e.LogOr? then JTrue(end) else JFalse(end),
      p + 3);
    RunAdd(f, c.lib, s1, 1, 1);
    n := 2;
    if Truth(v) == e.LogAnd? {
      var m := SecondRuns(f, c, e.b, s, Pushing(s, p + 3, On(v, Bottom), MemOf(s1)), v);
      RunAdd(f, c.lib, s1, n, m);
      n := n + m;
    }
  }

  /** A value is dropped for the value of another expression. */
  lemma {:induction false} SecondRuns(f: Fn, c: Ctx, e: Exp, s: State, s1: State, v: Value) returns (n: nat)
    requires Ready(c, s) && Pushed(s, s1, On(v, Bottom)) && Is(f, s1.pc, Pop, s1.pc + 1)
      && Coded(f, c.names, e, s1.pc + 1)
    ensures var r := Eval(c, e, s.scope, MemOf(s1));
      Run(f, c.lib, s1, n) == Ends(s, s1.pc + 1 + SizeE(e), One(r)) && |r.m.frame| == |s.frame|
    decreases e, 10
  {
    hide Is, Decode, Run, Eval, Coded, SizeE;
    Overs(s.ops);
    Runs1(f, c.lib, s1, Pop, s1.pc + 1);
    var s2 := Pushing(s, s1.pc + 1, Bottom, MemOf(s1));
    PushedMeans(c, s, s2, Bottom);
    n := ExpRuns(f, c, e, s2);
    RunAdd(f, c.lib, s1, 1, n);
    n := 1 + n;
  }

  lemma {:induction false} CondCode(f: Fn, ns: Names, e: Exp, a: nat)
    requires Coded(f, ns, e, a) && e.Cond?
    ensures
      var p := a + SizeE(e.a);
      var q := p + 2 + SizeE(e.c);
      && Coded(f, ns, e.a, a) && Is(f, p, JTrue(q + 2), p + 2) && Coded(f, ns, e.c, p + 2)
      && Is(f, q, Jump(q + 2 + SizeE(e.b)), q + 2) && Coded(f, ns, e.b, q + 2) && a + SizeE(e) == q + 2 + SizeE(e.b)
  {
    hide Is, Coded, SizeE;
    CodedDef(f, ns, e, a);
  }

  lemma {:induction false} CondRuns(f: Fn, c: Ctx, e: Exp, s: State) returns (n: nat)
    requires Ready(c, s) && Coded(f, c.names, e, s.pc) && e.Cond?
    ensures ExpDone(f, c, e, s, n)
    decreases e, 1
  {
    hide Is, Decode, Run, Eval, Coded, SizeE;
    EvalDef(c, e, s.scope, MemOf(s));
    CondCode(f, c.names, e, s.pc);
    Overs(s.ops);
    n := ExpRuns(f, c, e.a, s);
    var r := Eval(c, e.a, s.scope, MemOf(s));
    if r.Val? {
      var m := CondEnds(f, c, e, s, Pushing(s, s.pc + SizeE(e.a), On(r.v, Bottom), r.m), r.v);
      RunAdd(f, c.lib, s, n, m);
      n := n + m;
    }
  }

  /** The test, and one of the two expressions. */
  lemma {:induction false} CondEnds(f: Fn, c: Ctx, e: Exp, s: State, s1: State, v: Value) returns (n: nat)
    requires Ready(c, s) && Coded(f, c.names, e, s.pc) && e.Cond?
    requires Pushed(s, s1, On(v, Bottom)) && s1.pc == s.pc + SizeE(e.a)
    ensures var r := Eval(c, if Truth(v) then e.b else e.c, s.scope, MemOf(s1));
      Run(f, c.lib, s1, n) == Ends(s, s.pc + SizeE(e), One(r)) && |r.m.frame| == |s.frame|
    decreases e, 0
  {
    hide Is, Decode, Run, Eval, Coded, SizeE;
    CondCode(f, c.names, e, s.pc);
    Overs(s.ops);
    var p := s1.pc;
    var q := p + 2 + SizeE(e.c);
    Runs1(f, c.lib, s1, JTrue(q + 2), p + 2);
    var s2 := Pushing(s, if Truth(v) then q + 2 else p + 2, Bottom, MemOf(s1));
    PushedMeans(c, s, s2, Bottom);
    n := ExpRuns(f, c, if Truth(v) then e.b else e.c, s2);
    RunAdd(f, c.lib, s1, 1, n);
    n := 1 + n;
    var r := Eval(c, e.c, s.scope, MemOf(s2));
    if !Truth(v) && r.Val? {
      Runs1(f, c.lib, Pushing(s, q, On(r.v, Bottom), r.m), Jump(q + 2 + SizeE(e.b)), q + 2);
      RunAdd(f, c.lib, s1, n, 1);
      n := n + 1;
    }
  }

  // ----- references -----

  /** What a reference leaves on the stack. */
  function RefOps(r: Ref): Ops {
    match r
    case VarRef(_) => Bottom
    case PropRef(o, k) => On(k, On(o, Bottom))
    case MemberRef(o, _) => On(o, Bottom)
  }

  predicate RefTo(e: Exp, r: Ref) {
    match r
    case VarRef(x) => e == Ident(x)
    case PropRef(_, _) => e.Index?
    case MemberRef(_, x) => e.Member? && e.x == x
  }

  function RefOut(r: Out<Ref>): Out<Ops> {
    match r
    case Val(r, m) => Val(RefOps(r), m)
    case Exc(x, m) => Exc(x, m)
  }

  lemma {:induction false} RefRuns(f: Fn, c: Ctx, e: Exp, s: State) returns (n: nat)
    requires Ready(c, s) && CodedRef(f, c.names, e, s.pc)
    ensures var r := EvalRef(c, e, s.scope, MemOf(s));
      Reaches(f, c, s, n, s.pc + SizeRef(e), RefOut(r)) && (r.Val? ==> RefTo(e, r.v))
    decreases e, 1
  {
    hide Is, Decode, Run, Eval, Coded, SizeE;
    Overs(s.ops);
    match e
    case Ident(_) =>
      n := 0;
      assert Run(f, c.lib, s, 0) == s by { Run0(f, c.lib, s); }
    case Index(_, _) => n := PairRuns(f, c, e, s);
    case Member(a, _) => n := ExpRuns(f, c, a, s);
  }

  lemma {:induction false} Run0(f: Fn, lib: Lib, s: State)
    ensures Run(f, lib, s, 0) == s
  {
  }

  /** A property is read with the operands of its reference taken off. */
  lemma {:induction false} GetRuns(f: Fn, c: Ctx, e: Exp, s: State) returns (n: nat)
    requires Ready(c, s) && Coded(f, c.names, e, s.pc) && (e.Index? || e.Member?)
    ensures ExpDone(f, c, e, s, n)
    decreases e, 2
  {
    hide Is, Decode, Run, Eval, Coded, SizeE;
    EvalDef(c, e, s.scope, MemOf(s));
    CodedDef(f, c.names, e, s.pc);
    Overs(s.ops);
    n := RefRuns(f, c, e, s);
    var r := EvalRef(c, e, s.scope, MemOf(s));
    if r.Val? {
      var p := s.pc + SizeRef(e);
      var s1 := Pushing(s, p, RefOps(r.v), r.m);
      Operate(f, c, s, s1, if e.Index? then GetProp else GetMember(e.x), RefOps(r.v), if e.Index? then p + 1
        else p + 2);
      RunAdd(f, c.lib, s, n, 1);
      n := n + 1;
    }
  }

  lemma {:induction false} DeleteRuns(f: Fn, c: Ctx, e: Exp, s: State) returns (n: nat)
    requires Ready(c, s) && Coded(f, c.names, e, s.pc) && e.Delete?
    ensures ExpDone(f, c, e, s, n)
    decreases e, 1
  {
    hide Is, Decode, Run, Eval, Coded, SizeE, CodedDel, EvalRef, CodedRef, SizeRef, RefOps;
    EvalDef(c, e, s.scope, MemOf(s));
    CodedDef(f, c.names, e, s.pc);
    n := RefRuns(f, c, e.a, s);
    var r := EvalRef(c, e.a, s.scope, MemOf(s));
    if r.Val? {
      var s1 := Pushing(s, s.pc + SizeRef(e.a), RefOps(r.v), r.m);
      DelRuns(f, c, e.a, r.v, s, s1);
      RunAdd(f, c.lib, s, n, 1);
      n := n + 1;
    }
  }

  lemma {:induction false} DelRuns(f: Fn, c: Ctx, e: Exp, r: Ref, s: State, s1: State)
    requires Ready(c, s) && RefTo(e, r) && Pushed(s, s1, RefOps(r)) && CodedDel(f, c.names, e, s1.pc)
    ensures Run(f, c.lib, s1, 1) == Ends(s, s1.pc + (if e.Index? then 1 else 2), One(Del(c, r, s.scope, MemOf(s1))))
  {
    hide Is, Decode, Run;
    Overs(s.ops);
    match r
    case VarRef(x) =>
      if Slot(c.names, x).Some? { Runs1(f, c.lib, s1, Push(Boolean(false)), s1.pc + 2); }
      else { Operate(f, c, s, s1, DelVar(x), Bottom, s1.pc + 2); }
    case PropRef(_, _) => Operate(f, c, s, s1, DelProp, RefOps(r), s1.pc + 1);
    case MemberRef(_, x) => Operate(f, c, s, s1, DelMember(x), RefOps(r), s1.pc + 2);
  }

  /** The operands of a reference stay, its old value is pushed. */
  function OldOut(c: Ctx, e: Exp, scope: Scope, m: Mem): Out<Ops> {
    match EvalRef(c, e, scope, m)
    case Exc(x, m1) => Exc(x, m1)
    case Val(r, m1) =>
      match Get(c, r, scope, m1)
      case Exc(x, m2) => Exc(x, m2)
      case Val(v, m2) => Val(On(v, RefOps(r)), m2)
  }

  lemma {:induction false} OldRuns(f: Fn, c: Ctx, e: Exp, s: State) returns (n: nat)
    requires Ready(c, s) && CodedOld(f, c.names, e, s.pc)
    ensures Reaches(f, c, s, n, s.pc + SizeOld(e), OldOut(c, e, s.scope, MemOf(s)))
    ensures var r := EvalRef(c, e, s.scope, MemOf(s)); r.Val? ==> RefTo(e, r.v)
    decreases e, 2
  {
    hide Is, Decode, Run, Eval, Coded, SizeE, Load;
    Overs(s.ops);
    if e.Ident? {
      LoadRuns(f, c, e.x, GetVar(e.x), s);
      n := 1;
    } else {
      n := RefRuns(f, c, e, s);
      var r := EvalRef(c, e, s.scope, MemOf(s));
      if r.Val? {
        var p := s.pc + SizeRef(e);
        var vs := RefOps(r.v);
        var s1 := Pushing(s, p, vs, r.m);
        Runs1(f, c.lib, s1, if e.Index? then Dup2 else Dup, p + 1);
        RunAdd(f, c.lib, s, n, 1);
        var s2 := Pushing(s1, p + 1, vs, r.m);
        PushedMeans(c, s, s1, vs);
        Overs(s1.ops);
        Operate(f, c, s1, s2, if e.Index? then GetProp else GetMember(e.x), vs, if e.Index? then p + 2 else p + 3);
        RunAdd(f, c.lib, s, n + 1, 1);
        n := n + 2;
      }
    }
  }

  /** `cassignop2` stores the value on top through the reference under it. */
  lemma {:induction false} PutRuns(f: Fn, c: Ctx, e: Exp, r: Ref, v: Value, s: State, s1: State)
    requires Ready(c, s) && RefTo(e, r) && Pushed(s, s1, On(v, RefOps(r))) && CodedPut(f, c.names, e, false, s1.pc)
    ensures var r := Put(c, r, v, s.scope, MemOf(s1));
      Run(f, c.lib, s1, 1) == Ends(s, s1.pc + SizePut(e, false), One(r)) && |r.m.frame| == |s.frame|
  {
    hide Is, Decode, Run;
    Overs(s.ops);
    match r
    case VarRef(x) =>
      SlotRange(c.names, x);
      if Slot(c.names, x).Some? { Runs1(f, c.lib, s1, SetLocal(Slot(c.names, x).value), s1.pc + 2); }
      else { Operate(f, c, s, s1, SetVar(x), On(v, Bottom), s1.pc + 2); }
    case PropRef(_, _) => Operate(f, c, s, s1, SetProp, On(v, RefOps(r)), s1.pc + 1);
    case MemberRef(_, x) => Operate(f, c, s, s1, SetMember(x), On(v, RefOps(r)), s1.pc + 2);
  }

  lemma {:induction false} AssignRuns(f: Fn, c: Ctx, e: Exp, s: State) returns (n: nat)
    requires Ready(c, s) && Coded(f, c.names, e, s.pc) && e.Assign?
    ensures ExpDone(f, c, e, s, n)
    decreases e, 1
  {
    hide Is, Decode, Run, Eval, Coded, SizeE, CodedPut, Put;
    EvalDef(c, e, s.scope, MemOf(s));
    CodedDef(f, c.names, e, s.pc);
    n := RefRuns(f, c, e.a, s);
    var r := EvalRef(c, e.a, s.scope, MemOf(s));
    if r.Val? {
      var s1 := Pushing(s, s.pc + SizeRef(e.a), RefOps(r.v), r.m);
      PushedMeans(c, s, s1, RefOps(r.v));
      Overs(s1.ops);
      Overs(s.ops);
      var m := ExpRuns(f, c, e.b, s1);
      RunAdd(f, c.lib, s, n, m);
      n := n + m;
      var r1 := Eval(c, e.b, s.scope, r.m);
      if r1.Val? {
        var s2 := Pushing(s1, s1.pc + SizeE(e.b), On(r1.v, Bottom), r1.m);
        PutRuns(f, c, e.a, r.v, r1.v, s, s2);
        RunAdd(f, c.lib, s, n, 1);
        n := n + 1;
      }
    }
  }

  lemma {:induction false} AssignOpRuns(f: Fn, c: Ctx, e: Exp, s: State) returns (n: nat)
    requires Ready(c, s) && Coded(f, c.names, e, s.pc) && e.AssignOp?
    ensures ExpDone(f, c, e, s, n)
    decreases e, 1
  {
    hide Is, Decode, Run, Eval, Coded, SizeE, CodedPut, Put, Get;
    EvalDef(c, e, s.scope, MemOf(s));
    CodedDef(f, c.names, e, s.pc);
    n := OldRuns(f, c, e.a, s);
    var r := EvalRef(c, e.a, s.scope, MemOf(s));
    var old1 := OldOut(c, e.a, s.scope, MemOf(s));
    if old1.Val? {
      var vs := old1.v;
      var s1 := Pushing(s, s.pc + SizeOld(e.a), vs, old1.m);
      PushedMeans(c, s, s1, vs);
      Overs(s1.ops);
      Overs(s.ops);
      var m := ExpRuns(f, c, e.b, s1);
      RunAdd(f, c.lib, s, n, m);
      n := n + m;
      var r1 := Eval(c, e.b, s.scope, old1.m);
      if r1.Val? {
        var k := AssignOpEnds(f, c, e, r.v, vs.v, r1.v, s, Pushing(s1, s1.pc + SizeE(e.b), On(r1.v, Bottom), r1.m));
        RunAdd(f, c.lib, s, n, k);
        n := n + k;
      }
    }
  }

  /** The operation on the old value and the operand, and the store. */
  lemma {:induction false} AssignOpEnds(f: Fn, c: Ctx, e: Exp, r: Ref, v: Value, u: Value, s: State, s1: State)
    returns (n: nat)
    requires Ready(c, s) && e.AssignOp? && RefTo(e.a, r) && Pushed(s, s1, On(u, On(v, RefOps(r))))
    requires Is(f, s1.pc, Do1(Binop(e.op), 2), s1.pc + 1) && CodedPut(f, c.names, e.a, false, s1.pc + 1)
    ensures var r1 := Apply(c, Binop(e.op), On(u, On(v, Bottom)), s.scope, MemOf(s1));
      var r2 := if r1.Val? then Put(c, r, r1.v, s.scope, r1.m) else r1;
      Run(f, c.lib, s1, n) == Ends(s, s1.pc + 1 + SizePut(e.a, false), One(r2)) && |r2.m.frame| == |s.frame|
  {
    hide Is, Decode, Run, CodedPut, Put;
    var b := Pushing(s, 0, RefOps(r), MemOf(s1));
    Overs(s.ops);
    Overs(b.ops);
    PushedMeans(c, s, b, RefOps(r));
    Operate(f, c, b, s1, Binop(e.op), On(u, On(v, Bottom)), s1.pc + 1);
    n := 1;
    var r1 := Apply(c, Binop(e.op), On(u, On(v, Bottom)), s.scope, MemOf(s1));
    if r1.Val? {
      var s2 := Pushing(b, s1.pc + 1, On(r1.v, Bottom), r1.m);
      PutRuns(f, c, e.a, r, r1.v, s, s2);
      RunAdd(f, c.lib, s1, 1, 1);
      n := 2;
    }
  }

  lemma {:induction false} CrementCode(f: Fn, ns: Names, e: Exp, a: nat)
    requires Coded(f, ns, e, a) && e.Crement?
    ensures
      var p := a + SizeOld(e.a);
      var q := p + 1 + SizePut(e.a, e.post);
      && CodedOld(f, ns, e.a, a) && Is(f, p, Bump(e.inc, e.post), p + 1) && CodedPut(f, ns, e.a, e.post, p + 1)
      && (e.post ==> Is(f, q, Pop, q + 1)) && a + SizeE(e) == if e.post then q + 1 else q
  {
    hide Is, Coded, SizeE;
    CodedDef(f, ns, e, a);
  }

  /** ++ and --. */
  lemma {:induction false} CrementRuns(f: Fn, c: Ctx, e: Exp, s: State) returns (n: nat)
    requires Ready(c, s) && Coded(f, c.names, e, s.pc) && e.Crement?
    ensures ExpDone(f, c, e, s, n)
    decreases e, 3
  {
    hide Is, Decode, Run, Eval, Coded, SizeE, CodedPut, Put, Get;
    EvalDef(c, e, s.scope, MemOf(s));
    CrementCode(f, c.names, e, s.pc);
    Overs(s.ops);
    n := OldRuns(f, c, e.a, s);
    var r := EvalRef(c, e.a, s.scope, MemOf(s));
    var old1 := OldOut(c, e.a, s.scope, MemOf(s));
    if old1.Val? {
      var s1 := Pushing(s, s.pc + SizeOld(e.a), old1.v, old1.m);
      var m := BumpRuns(f, c, e, s, s1, old1.v.v, r.v);
      RunAdd(f, c.lib, s, n, m);
      n := n + m;
    }
  }

  /** The old value v is turned into a number, and the new one stored. A postfix operator turns the
      stack so that the old number stays under the store. */
  lemma {:induction false} BumpRuns(f: Fn, c: Ctx, e: Exp, s: State, s1: State, v: Value, r: Ref) returns (n: nat)
    requires Ready(c, s) && Coded(f, c.names, e, s.pc) && e.Crement? && RefTo(e.a, r)
    requires Pushed(s, s1, On(v, RefOps(r))) && s1.pc == s.pc + SizeOld(e.a)
    ensures var r1 := Bumped(c, e.inc, e.post, v, r, s.scope, MemOf(s1));
      Run(f, c.lib, s1, n) == Ends(s, s.pc + SizeE(e), One(r1)) && |r1.m.frame| == |s.frame|
  {
    hide Is, Decode, Run, Eval, Coded, SizeE, CodedPut, Put;
    CrementCode(f, c.names, e, s.pc);
    Overs(s.ops);
    PushedMeans(c, s, s1, On(v, RefOps(r)));
    var p := s1.pc;
    Runs1(f, c.lib, s1, Bump(e.inc, e.post), p + 1);
    n := 1;
    match c.lib.number(v, s1.w)
    case Err(x, w) => assert Fails(s1, x, MemOf(s1).(w := w)) == Throwing(s1, x, w);
    case Ok(x, w) =>
      var y := Num(c.lib.bump(e.inc, x));
      var vs := On(y, RefOps(r));
      var m1 := Mem(s1.frame, w);
      var k := 1;
      if e.post {
        k := PostEnds(f, c, e.a, r, y, Num(x), s, Pushing(s, p + 1, On(Num(x), vs), m1));
      } else {
        PutRuns(f, c, e.a, r, y, s, Pushing(s, p + 1, vs, m1));
      }
      RunAdd(f, c.lib, s1, 1, k);
      n := 1 + k;
  }

  /** The old number x is moved under the operands of the store, which is then dropped. */
  lemma {:induction false} PostEnds(f: Fn, c: Ctx, e: Exp, r: Ref, y: Value, x: Value, s: State, s1: State)
    returns (n: nat)
    requires Ready(c, s) && RefTo(e, r) && Pushed(s, s1, On(x, On(y, RefOps(r))))
    requires CodedPut(f, c.names, e, true, s1.pc) && Is(f, s1.pc + SizePut(e, true), Pop, s1.pc + SizePut(e, true) + 1)
    ensures var r1 := Put(c, r, y, s.scope, MemOf(s1));
      |r1.m.frame| == |s.frame| &&
      Run(f, c.lib, s1, n)
        == Ends(s, s1.pc + SizePut(e, true) + 1, if r1.Val? then Val(On(x, Bottom), r1.m) else Exc(r1.exc, r1.m))
  {
    hide Is, Decode, Run, Put;
    Overs(s.ops);
    var b := Pushing(s, 0, On(x, Bottom), MemOf(s1));
    PushedMeans(c, s, b, On(x, Bottom));
    Overs(b.ops);
    Runs1(f, c.lib, s1, if r.VarRef? then Rot2 else if r.PropRef? then Rot4 else Rot3, s1.pc + 1);
    var s2 := Pushing(b, s1.pc + 1, On(y, RefOps(r)), MemOf(s1));
    PutRuns(f, c, e, r, y, b, s2);
    RunAdd(f, c.lib, s1, 1, 1);
    n := 2;
    var r1 := Put(c, r, y, s.scope, MemOf(s1));
    if r1.Val? {
      var p := s1.pc + SizePut(e, true);
      var s3 := Pushing(b, p, On(r1.v, Bottom), r1.m);
      Runs1(f, c.lib, s3, Pop, p + 1);
      RunAdd(f, c.lib, s1, 2, 1);
      n := 3;
    }
  }

  // ----- calls -----

  /** Arguments are pushed on what s1 has pushed already. */
  lemma {:induction false} ArgsRun(f: Fn, c: Ctx, args: Exps, vs: Ops, s: State, s1: State) returns (n: nat)
    requires Ready(c, s) && Pushed(s, s1, vs) && CodedArgs(f, c.names, args, s1.pc)
    ensures var r := EvalArgs(c, args, vs, s.scope, MemOf(s1));
      && Run(f, c.lib, s1, n) == Ends(s, s1.pc + SizeArgs(args), r) && |r.m.frame| == |s.frame|
      && (r.Val? ==> Height(r.v) == Height(vs) + Length(args))
    decreases args, 0
  {
    hide Is, Decode, Run, Eval, Coded, SizeE;
    if args.NoExps? {
      n := 0;
      Run0(f, c.lib, s1);
    } else {
      PushedMeans(c, s, s1, vs);
      Overs(s.ops);
      Overs(s1.ops);
      n := ExpRuns(f, c, args.head, s1);
      var r := Eval(c, args.head, s.scope, MemOf(s1));
      if r.Val? {
        var s2 := Pushing(s1, s1.pc + SizeE(args.head), On(r.v, Bottom), r.m);
        var k := ArgsRun(f, c, args.tail, On(r.v, vs), s, s2);
        RunAdd(f, c.lib, s1, n, k);
        n := n + k;
      }
    }
  }

  lemma {:induction false} NewRuns(f: Fn, c: Ctx, e: Exp, s: State) returns (n: nat)
    requires Ready(c, s) && Coded(f, c.names, e, s.pc) && e.New?
    ensures ExpDone(f, c, e, s, n)
    decreases e, 1
  {
    hide Is, Decode, Run, Eval, Coded, SizeE, EvalArgs, CodedArgs, SizeArgs, Length;
    EvalDef(c, e, s.scope, MemOf(s));
    CodedDef(f, c.names, e, s.pc);
    Overs(s.ops);
    n := ExpRuns(f, c, e.f, s);
    var r := Eval(c, e.f, s.scope, MemOf(s));
    if r.Val? {
      var s1 := Pushing(s, s.pc + SizeE(e.f), On(r.v, Bottom), r.m);
      var k := InvokeRuns(f, c, e.args, On(r.v, Bottom), Construct, s, s1);
      RunAdd(f, c.lib, s, n, k);
      n := n + k;
    }
  }

  /** The arguments, and the call with all that has been pushed. */
  lemma {:induction false} InvokeRuns(f: Fn, c: Ctx, args: Exps, vs: Ops, p: Prim, s: State, s1: State) returns (n: nat)
    requires Ready(c, s) && Pushed(s, s1, vs) && CodedArgs(f, c.names, args, s1.pc)
    requires Is(f, s1.pc + SizeArgs(args), Do1(p, Length(args) + Height(vs)), s1.pc + SizeArgs(args) + 2)
    ensures var r := EvalArgs(c, args, vs, s.scope, MemOf(s1));
      var r1 := if r.Val? then Apply(c, p, r.v, s.scope, r.m) else Exc(r.exc, r.m);
      Run(f, c.lib, s1, n) == Ends(s, s1.pc + SizeArgs(args) + 2, One(r1)) && |r1.m.frame| == |s.frame|
    decreases args, 1
  {
    hide Is, Decode, Run, Eval, Coded, SizeE, EvalArgs, CodedArgs, SizeArgs, Length;
    n := ArgsRun(f, c, args, vs, s, s1);
    var r := EvalArgs(c, args, vs, s.scope, MemOf(s1));
    if r.Val? {
      var q := s1.pc + SizeArgs(args);
      Operate(f, c, s, Pushing(s, q, r.v, r.m), p, r.v, q + 2);
      RunAdd(f, c.lib, s1, n, 1);
      n := n + 1;
    }
  }

  lemma {:induction false} CallRuns(f: Fn, c: Ctx, e: Exp, s: State) returns (n: nat)
    requires Ready(c, s) && Coded(f, c.names, e, s.pc) && e.Call? && e.f != Ident("eval")
    ensures ExpDone(f, c, e, s, n)
    decreases e, 1
  {
    hide Is, Decode, Run, Eval, Coded, SizeE, EvalArgs, CodedArgs, SizeArgs, Length, EvalCallee, CodedCallee;
    hide SizeCallee;
    EvalDef(c, e, s.scope, MemOf(s));
    CodedDef(f, c.names, e, s.pc);
    n := CalleeRuns(f, c, e.f, s);
    var r := EvalCallee(c, e.f, s.scope, MemOf(s));
    if r.Val? {
      var s1 := Pushing(s, s.pc + SizeCallee(e.f), r.v, r.m);
      var k := InvokeRuns(f, c, e.args, r.v, Invoke, s, s1);
      RunAdd(f, c.lib, s, n, k);
      n := n + k;
    }
  }

  /** The function and its `this`. A property's object is duplicated before the lookup. */
  lemma {:induction false} CalleeRuns(f: Fn, c: Ctx, e: Exp, s: State) returns (n: nat)
    requires Ready(c, s) && CodedCallee(f, c.names, e, s.pc)
    ensures var r := EvalCallee(c, e, s.scope, MemOf(s));
      Reaches(f, c, s, n, s.pc + SizeCallee(e), r) && (r.Val? ==> Height(r.v) == 2)
    decreases e, 11
  {
    hide Is, Decode, Run, Eval, Coded, SizeE;
    Overs(s.ops);
    if e.Index? {
      n := IndexCalleeRuns(f, c, e, s);
    } else {
      var sub := if e.Member? then e.a else e;
      n := ExpRuns(f, c, sub, s);
      var r := Eval(c, sub, s.scope, MemOf(s));
      if r.Val? {
        var p := s.pc + SizeE(sub);
        var vs := On(r.v, Bottom);
        var s1 := Pushing(s, p, vs, r.m);
        Overs(s1.ops);
        if e.Member? {
          Runs1(f, c.lib, s1, Dup, p + 1);
          RunAdd(f, c.lib, s, n, 1);
          var s2 := Pushing(s1, p + 1, vs, r.m);
          PushedMeans(c, s, s1, vs);
          Operate(f, c, s1, s2, GetMember(e.x), vs, p + 3);
          RunAdd(f, c.lib, s, n + 1, 1);
          n := n + 2;
          var r1 := Apply(c, GetMember(e.x), vs, s.scope, r.m);
          if r1.Val? {
            var s3 := Pushing(s1, p + 3, On(r1.v, Bottom), r1.m);
            Runs1(f, c.lib, s3, Rot2, p + 4);
            RunAdd(f, c.lib, s, n, 1);
            n := n + 1;
          }
        } else {
          Runs1(f, c.lib, s1, Push(Undefined), p + 1);
          RunAdd(f, c.lib, s, n, 1);
          n := n + 1;
        }
      }
    }
  }

  lemma {:induction false} IndexCalleeRuns(f: Fn, c: Ctx, e: Exp, s: State) returns (n: nat)
    requires Ready(c, s) && CodedCallee(f, c.names, e, s.pc) && e.Index?
    ensures var r := EvalCallee(c, e, s.scope, MemOf(s));
      Reaches(f, c, s, n, s.pc + SizeCallee(e), r) && (r.Val? ==> Height(r.v) == 2)
    decreases e, 10
  {
    hide Is, Decode, Run, Eval, Coded, SizeE;
    Overs(s.ops);
    n := ExpRuns(f, c, e.a, s);
    var r := Eval(c, e.a, s.scope, MemOf(s));
    assert EvalRef(c, e, s.scope, MemOf(s)).m == EvalPair(c, e, s.scope, MemOf(s)).m;
    if r.Val? {
      var p := s.pc + SizeE(e.a);
      var s1 := Pushing(s, p, On(r.v, Bottom), r.m);
      Overs(s1.ops);
      PushedMeans(c, s, s1, On(r.v, Bottom));
      Runs1(f, c.lib, s1, Dup, p + 1);
      RunAdd(f, c.lib, s, n, 1);
      var s2 := Pushing(s1, p + 1, On(r.v, Bottom), r.m);
      PushedMeans(c, s1, s2, On(r.v, Bottom));
      Overs(s2.ops);
      var k := ExpRuns(f, c, e.b, s2);
      RunAdd(f, c.lib, s, n + 1, k);
      n := n + 1 + k;
      var r1 := Eval(c, e.b, s.scope, r.m);
      if r1.Val? {
        var q := p + 1 + SizeE(e.b);
        var vs := On(r1.v, On(r.v, Bottom));
        var s3 := Pushing(s1, q, vs, r1.m);
        Operate(f, c, s1, s3, GetProp, vs, q + 1);
        RunAdd(f, c.lib, s, n, 1);
        n := n + 1;
        var r2 := Apply(c, GetProp, vs, s.scope, r1.m);
        if r2.Val? {
          var s4 := Pushing(s1, q + 1, On(r2.v, Bottom), r2.m);
          Runs1(f, c.lib, s4, Rot2, q + 2);
          RunAdd(f, c.lib, s, n, 1);
          n := n + 1;
        }
      }
    }
  }

  /** All but the first argument are dropped. */
  lemma {:induction false} PopsRun(f: Fn, c: Ctx, vs: Ops, s: State, s1: State)
    requires Ready(c, s) && Pushed(s, s1, vs) && vs.On? && Pops(f, s1.pc, Height(vs) - 1)
    ensures Run(f, c.lib, s1, Height(vs) - 1) == Pushing(s, s1.pc + Height(vs) - 1, On(First(vs), Bottom), MemOf(s1))
    decreases vs
  {
    hide Is, Decode, Run;
    Overs(s.ops);
    if vs.under.Bottom? {
      Run0(f, c.lib, s1);
    } else {
      Runs1(f, c.lib, s1, Pop, s1.pc + 1);
      var s2 := Pushing(s, s1.pc + 1, vs.under, MemOf(s1));
      PopsRun(f, c, vs.under, s, s2);
      RunAdd(f, c.lib, s1, 1, Height(vs) - 2);
    }
  }

  lemma {:induction false} LengthZero(args: Exps)
    ensures Length(args) == 0 <==> args.NoExps?
  {
  }

  lemma {:induction false} EvalCallRuns(f: Fn, c: Ctx, e: Exp, s: State) returns (n: nat)
    requires Ready(c, s) && Coded(f, c.names, e, s.pc) && e.Call? && e.f == Ident("eval")
    ensures ExpDone(f, c, e, s, n)
    decreases e, 1
  {
    hide Is, Decode, Run, Eval, Coded, SizeE, EvalArgs, CodedArgs, SizeArgs, Pops, Length;
    EvalDef(c, e, s.scope, MemOf(s));
    CodedDef(f, c.names, e, s.pc);
    LengthZero(e.args);
    Overs(s.ops);
    n := ArgsRun(f, c, e.args, Bottom, s, s);
    var r := EvalArgs(c, e.args, Bottom, s.scope, MemOf(s));
    if r.Val? {
      var s1 := Pushing(s, s.pc + SizeArgs(e.args), r.v, r.m);
      var k := FirstRuns(f, c, r.v, s, s1);
      RunAdd(f, c.lib, s, n, k);
      n := n + k;
    }
  }

  /** The end of `ceval`: the first of the values is evaluated. */
  lemma {:induction false} FirstRuns(f: Fn, c: Ctx, vs: Ops, s: State, s1: State) returns (n: nat)
    requires Ready(c, s) && Pushed(s, s1, vs)
    requires vs.Bottom? ==> Is(f, s1.pc, Push(Undefined), s1.pc + 1)
    requires vs.On? ==> Pops(f, s1.pc, Height(vs) - 1)
    requires var q := s1.pc + if vs.Bottom? then 1 else Height(vs) - 1; Is(f, q, Do1(EvalString, 1), q + 1)
    ensures var r := Apply(c, EvalString, On(First(vs), Bottom), s.scope, MemOf(s1));
      Run(f, c.lib, s1, n) == Ends(s, s1.pc + 1 + if vs.Bottom? then 1 else Height(vs) - 1, One(r))
        && |r.m.frame| == |s.frame|
  {
    hide Is, Decode, Run, Pops;
    Overs(s.ops);
    var us := On(First(vs), Bottom);
    if vs.Bottom? {
      n := 1;
      Runs1(f, c.lib, s1, Push(Undefined), s1.pc + 1);
      Operate(f, c, s, Pushing(s, s1.pc + 1, us, MemOf(s1)), EvalString, us, s1.pc + 2);
    } else {
      n := Height(vs) - 1;
      PopsRun(f, c, vs, s, s1);
      Operate(f, c, s, Pushing(s, s1.pc + n, us, MemOf(s1)), EvalString, us, s1.pc + n + 1);
    }
    RunAdd(f, c.lib, s1, n, 1);
    n := n + 1;
  }

  // ----- object and array literals -----

  lemma {:induction false} ObjLitRuns(f: Fn, c: Ctx, e: Exp, s: State) returns (n: nat)
    requires Ready(c, s) && Coded(f, c.names, e, s.pc) && e.ObjLit?
    ensures ExpDone(f, c, e, s, n)
    decreases e, 1
  {
    hide Is, Decode, Run, Eval, Coded, SizeE, EvalProps, CodedProps, SizeProps;
    EvalDef(c, e, s.scope, MemOf(s));
    CodedDef(f, c.names, e, s.pc);
    Overs(s.ops);
    Produce(f, c, NewObject, s, s.pc + 1);
    n := 1;
    var r := Apply(c, NewObject, Bottom, s.scope, MemOf(s));
    if r.Val? {
      var k := PropsRun(f, c, e.props, r.v, s, Pushing(s, s.pc + 1, On(r.v, Bottom), r.m));
      RunAdd(f, c.lib, s, n, k);
      n := n + k;
    }
  }

  lemma {:induction false} ArrLitRuns(f: Fn, c: Ctx, e: Exp, s: State) returns (n: nat)
    requires Ready(c, s) && Coded(f, c.names, e, s.pc) && e.ArrLit?
    ensures ExpDone(f, c, e, s, n)
    decreases e, 1
  {
    hide Is, Decode, Run, Eval, Coded, SizeE, EvalItems, CodedItems, SizeItems;
    EvalDef(c, e, s.scope, MemOf(s));
    CodedDef(f, c.names, e, s.pc);
    Overs(s.ops);
    Produce(f, c, NewArray, s, s.pc + 1);
    n := 1;
    var r := Apply(c, NewArray, Bottom, s.scope, MemOf(s));
    if r.Val? {
      var k := ItemsRun(f, c, e.items, 0, r.v, s, Pushing(s, s.pc + 1, On(r.v, Bottom), r.m));
      RunAdd(f, c.lib, s, n, k);
      n := n + k;
    }
  }

  /** One property of the object o is set; the object stays. */
  lemma {:induction false} InitRuns(f: Fn, c: Ctx, p: Prim, o: Value, k: Value, v: Value, s: State, s1: State)
    requires Ready(c, s) && Pushed(s, s1, On(v, On(k, On(o, Bottom)))) && Is(f, s1.pc, Init3(p), s1.pc + 1)
    ensures var r := Apply(c, p, On(v, On(k, On(o, Bottom))), s.scope, MemOf(s1));
      Run(f, c.lib, s1, 1) == Ends(s, s1.pc + 1, if r.Val? then Val(On(o, Bottom), r.m) else Exc(r.exc, r.m))
  {
    hide Is, Decode, Run;
    var vs := On(v, On(k, On(o, Bottom)));
    Runs1(f, c.lib, s1, Init3(p), s1.pc + 1);
    Overs(s.ops);
    OverMeans(vs, s.ops);
    PushedMeans(c, s, s1, vs);
  }

  lemma {:induction false} ItemsRun(f: Fn, c: Ctx, items: Items, k: nat, o: Value, s: State, s1: State) returns (n: nat)
    requires Ready(c, s) && Pushed(s, s1, On(o, Bottom)) && CodedItems(f, c.names, items, k, s1.pc)
    ensures var r := EvalItems(c, items, k, o, s.scope, MemOf(s1));
      Run(f, c.lib, s1, n) == Ends(s, s1.pc + SizeItems(items, k), One(r)) && |r.m.frame| == |s.frame|
    decreases items, 1
  {
    hide Is, Decode, Run, Eval, Coded, SizeE;
    match items
    case NoItems =>
      n := 0;
      Run0(f, c.lib, s1);
    case Hole(rest) => n := ItemsRun(f, c, rest, k + 1, o, s, s1);
    case Item(e, rest) =>
      n := ItemRuns(f, c, e, k, o, s, s1);
      var r := Eval(c, e, s.scope, MemOf(s1));
      if r.Val? {
        var r1 := Apply(c, InitVal, On(r.v, On(Num(Whole(k)), On(o, Bottom))), s.scope, r.m);
        if r1.Val? {
          var s2 := Pushing(s, s1.pc + SizeNum(Whole(k)) + SizeE(e) + 1, On(o, Bottom), r1.m);
          var j := ItemsRun(f, c, rest, k + 1, o, s, s2);
          RunAdd(f, c.lib, s1, n, j);
          n := n + j;
        }
      }
  }

  /** The index, the element and the store of one element. */
  lemma {:induction false} ItemRuns(f: Fn, c: Ctx, e: Exp, k: nat, o: Value, s: State, s1: State) returns (n: nat)
    requires Ready(c, s) && Pushed(s, s1, On(o, Bottom))
    requires CodedNum(f, Whole(k), s1.pc) && Coded(f, c.names, e, s1.pc + SizeNum(Whole(k)))
    requires var q := s1.pc + SizeNum(Whole(k)) + SizeE(e); Is(f, q, Init3(InitVal), q + 1)
    ensures var r := Eval(c, e, s.scope, MemOf(s1));
      var r1 := if r.Val? then Apply(c, InitVal, On(r.v, On(Num(Whole(k)), On(o, Bottom))), s.scope, r.m) else r;
      |r1.m.frame| == |s.frame| &&
      Run(f, c.lib, s1, n)
        == Ends(s, s1.pc + SizeNum(Whole(k)) + SizeE(e) + 1, if r1.Val? then Val(On(o, Bottom), r1.m)
        else Exc(r1.exc, r1.m))
    decreases e, 10
  {
    hide Is, Decode, Run, Eval, Coded, SizeE, CodedNum, SizeNum;
    Overs(s.ops);
    PushedMeans(c, s, s1, On(o, Bottom));
    Overs(s1.ops);
    n := NumberRuns(f, c, Whole(k), s1);
    var key := On(Num(Whole(k)), Bottom);
    var s2 := Pushing(s1, s1.pc + SizeNum(Whole(k)), key, MemOf(s1));
    PushedMeans(c, s1, s2, key);
    Overs(s2.ops);
    var j := ExpRuns(f, c, e, s2);
    RunAdd(f, c.lib, s1, n, j);
    n := n + j;
    var r := Eval(c, e, s.scope, MemOf(s1));
    if r.Val? {
      InitRuns(f, c, InitVal, o, Num(Whole(k)), r.v, s, Pushing(s2, s2.pc + SizeE(e), On(r.v, Bottom), r.m));
      RunAdd(f, c.lib, s1, n, 1);
      n := n + 1;
    }
  }

  lemma {:induction false} KindRuns(f: Fn, c: Ctx, kind: PropKind, s: State) returns (n: nat)
    requires Ready(c, s) && CodedKind(f, c.names, kind, s.pc)
    ensures Reaches(f, c, s, n, s.pc + SizeKind(kind), One(EvalKind(c, kind, s.scope, MemOf(s))))
    decreases kind, 1
  {
    hide Is, Decode, Run, Eval, Coded, SizeE;
    if kind.PropVal? {
      n := ExpRuns(f, c, kind.e, s);
    } else {
      Produce(f, c, Closure(kind.fun), s, s.pc + 2);
      n := 1;
    }
  }

  lemma {:induction false} KeyRuns(f: Fn, c: Ctx, key: Exp, s: State) returns (n: nat)
    requires Ready(c, s) && Coded(f, c.names, key, s.pc) && (key.StrLit? || key.NumLit?)
    ensures Reaches(f, c, s, n, s.pc + SizeE(key), Val(On(KeyValue(key), Bottom), MemOf(s)))
  {
    hide Is, Decode, Run, Eval, Coded, SizeE;
    n := LiteralRuns(f, c, key, s);
    EvalDef(c, key, s.scope, MemOf(s));
  }

  lemma {:induction false} PropsRun(f: Fn, c: Ctx, props: Props, o: Value, s: State, s1: State) returns (n: nat)
    requires Ready(c, s) && Pushed(s, s1, On(o, Bottom)) && CodedProps(f, c.names, props, s1.pc)
    ensures var r := EvalProps(c, props, o, s.scope, MemOf(s1));
      Run(f, c.lib, s1, n) == Ends(s, s1.pc + SizeProps(props), One(r)) && |r.m.frame| == |s.frame|
    decreases props, 1
  {
    hide Is, Decode, Run, Eval, Coded, SizeE, EvalKind, CodedKind, SizeKind;
    match props
    case NoProps =>
      n := 0;
      Run0(f, c.lib, s1);
    case Prop(key, kind, rest) =>
      n := PropRuns(f, c, key, kind, o, s, s1);
      var r := EvalKind(c, kind, s.scope, MemOf(s1));
      if r.Val? {
        var r1 := Apply(c, InitPrim(kind), On(r.v, On(KeyValue(key), On(o, Bottom))), s.scope, r.m);
        if r1.Val? {
          var s2 := Pushing(s, s1.pc + SizeE(key) + SizeKind(kind) + 1, On(o, Bottom), r1.m);
          var j := PropsRun(f, c, rest, o, s, s2);
          RunAdd(f, c.lib, s1, n, j);
          n := n + j;
        }
      }
  }

  /** The key, the value or function, and the store of one property. */
  lemma {:induction false} PropRuns(f: Fn, c: Ctx, key: Exp, kind: PropKind, o: Value, s: State, s1: State)
    returns (n: nat)
    requires Ready(c, s) && Pushed(s, s1, On(o, Bottom)) && (key.StrLit? || key.NumLit?)
    requires Coded(f, c.names, key, s1.pc) && CodedKind(f, c.names, kind, s1.pc + SizeE(key))
    requires var q := s1.pc + SizeE(key) + SizeKind(kind); Is(f, q, Init3(InitPrim(kind)), q + 1)
    ensures var r := EvalKind(c, kind, s.scope, MemOf(s1));
      var r1 := if r.Val? then Apply(c, InitPrim(kind), On(r.v, On(KeyValue(key), On(o, Bottom))), s.scope, r.m) else r;
      |r1.m.frame| == |s.frame| &&
      Run(f, c.lib, s1, n)
        == Ends(s, s1.pc + SizeE(key) + SizeKind(kind) + 1, if r1.Val? then Val(On(o, Bottom), r1.m)
        else Exc(r1.exc, r1.m))
    decreases kind, 10
  {
    hide Is, Decode, Run, Eval, Coded, SizeE, EvalKind, CodedKind, SizeKind, KeyValue, InitPrim;
    Overs(s.ops);
    PushedMeans(c, s, s1, On(o, Bottom));
    Overs(s1.ops);
    n := KeyRuns(f, c, key, s1);
    var ks := On(KeyValue(key), Bottom);
    var s2 := Pushing(s1, s1.pc + SizeE(key), ks, MemOf(s1));
    PushedMeans(c, s1, s2, ks);
    Overs(s2.ops);
    var j := KindRuns(f, c, kind, s2);
    RunAdd(f, c.lib, s1, n, j);
    n := n + j;
    var r := EvalKind(c, kind, s.scope, MemOf(s1));
    if r.Val? {
      InitRuns(f, c, InitPrim(kind), o, KeyValue(key), r.v, s,
        Pushing(s2, s2.pc + SizeKind(kind), On(r.v, Bottom), r.m));
      RunAdd(f, c.lib, s1, n, 1);
      n := n + 1;
    }
  }
}
