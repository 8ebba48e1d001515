/** Compiled code is balanced: every address of an instruction has its depths. */
module JsBalance {
  import opened JsTree
  import opened JsMachine
  import opened JsMeaning
  import opened JsCode
  import opened JsTargets
  import opened JsExpressions
  import opened JsDepths

  ghost predicate Fits1(k: Code, ns: Names, d: Depths) {
    k.slots == FrameSize(ns) && Sound(d)
  }

  /** The code of an expression leaves its value. */
  lemma {:induction false} ExpTyped(k: Code, ns: Names, e: Exp, a: nat, d: Depths, outs: set<Spot>)
    requires Fits1(k, ns, d) && Coded(k.f, ns, e, a)
    ensures Typed(k, a, a + SizeE(e), d, Up(d, 1), outs)
    decreases e, 9
  {
    hide Is, Coded, SizeE, Typed, Fits1;
    match e
    case ObjLit(_) => ObjTyped(k, ns, e, a, d, outs);
    case ArrLit(_) => ArrTyped(k, ns, e, a, d, outs);
    case Index(_, _) => PropertyTyped(k, ns, e, a, d, outs);
    case Member(_, _) => PropertyTyped(k, ns, e, a, d, outs);
    case Call(_, _) => CallTyped(k, ns, e, a, d, outs);
    case New(_, _) => NewTyped(k, ns, e, a, d, outs);
    case Delete(_) => DeleteTyped(k, ns, e, a, d, outs);
    case Typeof(_) => TypeofTyped(k, ns, e, a, d, outs);
    case Void(_) => VoidTyped(k, ns, e, a, d, outs);
    case Crement(_, _, _) => CrementTyped(k, ns, e, a, d, outs);
    case Unary(_, _) => UnaryTyped(k, ns, e, a, d, outs);
    case Binary(_, _, _) => BinaryTyped(k, ns, e, a, d, outs);
    case Assign(_, _) => AssignTyped(k, ns, e, a, d, outs);
    case AssignOp(_, _, _) => AssignOpTyped(k, ns, e, a, d, outs);
    case Comma(_, _) => CommaTyped(k, ns, e, a, d, outs);
    case LogOr(_, _) => ElseTyped(k, ns, e, a, d, outs);
    case LogAnd(_, _) => ElseTyped(k, ns, e, a, d, outs);
    case Cond(_, _, _) => CondTyped(k, ns, e, a, d, outs);
    case _ => LiteralTyped(k, ns, e, a, d, outs);
  }

  lemma {:induction false} LiteralTyped(k: Code, ns: Names, e: Exp, a: nat, d: Depths, outs: set<Spot>)
    requires Fits1(k, ns, d) && Coded(k.f, ns, e, a)
      && (e.StrLit? || e.NumLit? || e.UndefLit? || e.NullLit? || e.TrueLit? || e.FalseLit? || e.This? || e.RegexpLit?
      || e.FunLit? || e.Ident?)
    ensures Typed(k, a, a + SizeE(e), d, Up(d, 1), outs)
    decreases e, 1
  {
    hide Is, Coded, SizeE, Typed;
    CodedDef(k.f, ns, e, a);
    SoundUp(d);
    match e
    case StrLit(s) => Single(k, a, Push(Str(s)), a + 2, d, Up(d, 1), outs);
    case NumLit(n) => NumTyped(k, n, a, d, outs);
    case UndefLit => Single(k, a, Push(Undefined), a + 1, d, Up(d, 1), outs);
    case NullLit => Single(k, a, Push(Null), a + 1, d, Up(d, 1), outs);
    case TrueLit => Single(k, a, Push(Boolean(true)), a + 1, d, Up(d, 1), outs);
    case FalseLit => Single(k, a, Push(Boolean(false)), a + 1, d, Up(d, 1), outs);
    case This => Single(k, a, LoadThis, a + 1, d, Up(d, 1), outs);
    case RegexpLit(s, flags) => Single(k, a, Do1(NewRegexp(s, flags), 0), a + 3, d, Up(d, 1), outs);
    case FunLit(fun) => Single(k, a, Do1(Closure(fun), 0), a + 2, d, Up(d, 1), outs);
    case Ident(x) => LoadTyped(k, ns, x, GetVar(x), a, d, outs);
  }

  lemma {:induction false} NumTyped(k: Code, n: Number, a: nat, d: Depths, outs: set<Spot>)
    requires Sound(d) && CodedNum(k.f, n, a)
    ensures Typed(k, a, a + SizeNum(n), d, Up(d, 1), outs)
  {
    hide Is, Typed;
    SoundUp(d);
    if IsZero(n) {
      Single(k, a, Push(Num(Whole(0))), a + 1, d, Up(d, 1), outs);
      if n.neg { Append(k, a, a + 1, Do1(Unop(Neg), 1), a + 2, d, Up(d, 1), Up(d, 1), outs); }
    } else {
      Single(k, a, Push(Num(n)), a + SizeNum(n), d, Up(d, 1), outs);
    }
  }

  lemma {:induction false} LoadTyped(k: Code, ns: Names, x: Name, absent: Prim, a: nat, d: Depths, outs: set<Spot>)
    requires Fits1(k, ns, d) && CodedLoad(k.f, ns, x, absent, a)
    ensures Typed(k, a, a + 2, d, Up(d, 1), outs)
  {
    hide Is, Typed;
    SlotRange(ns, x);
    match Slot(ns, x)
    case Some(j) => Single(k, a, GetLocal(j), a + 2, d, Up(d, 1), outs);
    case None => Single(k, a, Do1(absent, 0), a + 2, d, Up(d, 1), outs);
  }

  lemma {:induction false} StoreTyped(k: Code, ns: Names, x: Name, a: nat, d: Depths, outs: set<Spot>)
    requires Fits1(k, ns, d) && CodedStore(k.f, ns, x, a)
    ensures Typed(k, a, a + 2, Up(d, 1), Up(d, 1), outs)
  {
    hide Is, Typed;
    SoundUp(d);
    SlotRange(ns, x);
    match Slot(ns, x)
    case Some(j) => Single(k, a, SetLocal(j), a + 2, Up(d, 1), Up(d, 1), outs);
    case None => Single(k, a, Do1(SetVar(x), 1), a + 2, Up(d, 1), Up(d, 1), outs);
  }

  /** How many operands a reference has. */
  function Operands(e: Exp): nat {
    if e.Index? then 2 else if e.Member? then 1 else 0
  }

  lemma {:induction false} RefTyped(k: Code, ns: Names, e: Exp, a: nat, d: Depths, outs: set<Spot>)
    requires Fits1(k, ns, d) && CodedRef(k.f, ns, e, a)
    ensures Typed(k, a, a + SizeRef(e), d, Up(d, Operands(e)), outs)
    decreases e, 0
  {
    hide Is, Coded, SizeE, Typed;
    SoundUp(d);
    match e
    case Index(b, g) =>
      var p := a + SizeE(b);
      ExpTyped(k, ns, b, a, d, outs);
      ExpTyped(k, ns, g, p, Up(d, 1), outs);
      Seq(k, a, p, p + SizeE(g), d, Up(d, 1), Up(d, 2), outs);
    case Member(b, _) => ExpTyped(k, ns, b, a, d, outs);
    case _ => NoCode(k, a, d, outs);
  }

  lemma {:induction false} PropertyTyped(k: Code, ns: Names, e: Exp, a: nat, d: Depths, outs: set<Spot>)
    requires Fits1(k, ns, d) && Coded(k.f, ns, e, a) && (e.Index? || e.Member?)
    ensures Typed(k, a, a + SizeE(e), d, Up(d, 1), outs)
    decreases e, 1
  {
    hide Is, Coded, SizeE, Typed;
    CodedDef(k.f, ns, e, a);
    SoundUp(d);
    var p := a + SizeRef(e);
    RefTyped(k, ns, e, a, d, outs);
    if e.Index? {
      Append(k, a, p, Do1(GetProp, 2), p + 1, d, Up(d, 2), Up(d, 1), outs);
    } else {
      Append(k, a, p, Do1(GetMember(e.x), 1), p + 2, d, Up(d, 1), Up(d, 1), outs);
    }
  }

  /** `cassignop1` */
  lemma {:induction false} OldTyped(k: Code, ns: Names, e: Exp, a: nat, d: Depths, outs: set<Spot>)
    requires Fits1(k, ns, d) && CodedOld(k.f, ns, e, a)
    ensures Typed(k, a, a + SizeOld(e), d, Up(d, Operands(e) + 1), outs)
    decreases e, 1
  {
    hide Is, Coded, SizeE, Typed;
    SoundUp(d);
    match e
    case Index(b, g) =>
      var p := a + SizeRef(e);
      RefTyped(k, ns, e, a, d, outs);
      Append(k, a, p, Dup2, p + 1, d, Up(d, 2), Up(d, 4), outs);
      Append(k, a, p + 1, Do1(GetProp, 2), p + 2, d, Up(d, 4), Up(d, 3), outs);
    case Member(b, x) =>
      var p := a + SizeRef(e);
      RefTyped(k, ns, e, a, d, outs);
      Append(k, a, p, Dup, p + 1, d, Up(d, 1), Up(d, 2), outs);
      Append(k, a, p + 1, Do1(GetMember(x), 1), p + 3, d, Up(d, 2), Up(d, 2), outs);
    case Ident(x) => LoadTyped(k, ns, x, GetVar(x), a, d, outs);
  }

  /** `cassignop2`: the new value stays, on top of the old one after a postfix operator. */
  lemma {:induction false} PutTyped(k: Code, ns: Names, e: Exp, post: bool, a: nat, d: Depths, outs: set<Spot>)
    requires Fits1(k, ns, d) && CodedPut(k.f, ns, e, post, a)
    ensures var n := if post then 1 else 0;
      Typed(k, a, a + SizePut(e, post), Up(d, Operands(e) + 1 + n), Up(d, 1 + n), outs)
  {
    hide Is, Typed;
    SoundUp(d);
    var n, p := if post then 1 else 0, if post then a + 1 else a;
    var y := Up(d, Operands(e) + 1 + n);
    if post {
      Single(k, a, if e.Ident? then Rot2 else if e.Index? then Rot4 else Rot3, p, y, y, outs);
    } else {
      NoCode(k, a, y, outs);
    }
    match e
    case Ident(x) =>
      StoreTyped(k, ns, x, p, Up(d, n), outs);
      Seq(k, a, p, p + 2, y, y, y, outs);
    case Index(_, _) => Append(k, a, p, Do1(SetProp, 3), p + 1, y, y, Up(d, 1 + n), outs);
    case Member(_, x) => Append(k, a, p, Do1(SetMember(x), 2), p + 2, y, y, Up(d, 1 + n), outs);
  }

  lemma {:induction false} CrementTyped(k: Code, ns: Names, e: Exp, a: nat, d: Depths, outs: set<Spot>)
    requires Fits1(k, ns, d) && Coded(k.f, ns, e, a) && e.Crement?
    ensures Typed(k, a, a + SizeE(e), d, Up(d, 1), outs)
    decreases e, 1
  {
    hide Is, Coded, SizeE, Typed, CodedOld, SizeOld, CodedPut, SizePut;
    CodedDef(k.f, ns, e, a);
    SoundUp(d);
    var p := a + SizeOld(e.a);
    var r, n := Operands(e.a), if e.post then 1 else 0;
    var q := p + 1 + SizePut(e.a, e.post);
    OldTyped(k, ns, e.a, a, d, outs);
    Append(k, a, p, Bump(e.inc, e.post), p + 1, d, Up(d, r + 1), Up(d, r + 1 + n), outs);
    PutTyped(k, ns, e.a, e.post, p + 1, d, outs);
    Seq(k, a, p + 1, q, d, Up(d, r + 1 + n), Up(d, 1 + n), outs);
    if e.post { Append(k, a, q, Pop, q + 1, d, Up(d, 2), Up(d, 1), outs); }
  }

  lemma {:induction false} UnaryTyped(k: Code, ns: Names, e: Exp, a: nat, d: Depths, outs: set<Spot>)
    requires Fits1(k, ns, d) && Coded(k.f, ns, e, a) && e.Unary?
    ensures Typed(k, a, a + SizeE(e), d, Up(d, 1), outs)
    decreases e, 1
  {
    hide Is, Coded, SizeE, Typed;
    CodedDef(k.f, ns, e, a);
    SoundUp(d);
    var p := a + SizeE(e.a);
    ExpTyped(k, ns, e.a, a, d, outs);
    Append(k, a, p, Do1(Unop(e.u), 1), p + 1, d, Up(d, 1), Up(d, 1), outs);
  }

  lemma {:induction false} BinaryTyped(k: Code, ns: Names, e: Exp, a: nat, d: Depths, outs: set<Spot>)
    requires Fits1(k, ns, d) && Coded(k.f, ns, e, a) && e.Binary?
    ensures Typed(k, a, a + SizeE(e), d, Up(d, 1), outs)
    decreases e, 1
  {
    hide Is, Coded, SizeE, Typed;
    CodedDef(k.f, ns, e, a);
    SoundUp(d);
    var p := a + SizeE(e.a);
    var q := p + SizeE(e.b);
    ExpTyped(k, ns, e.a, a, d, outs);
    ExpTyped(k, ns, e.b, p, Up(d, 1), outs);
    Seq(k, a, p, q, d, Up(d, 1), Up(d, 2), outs);
    Append(k, a, q, Do1(Binop(e.op), 2), q + 1, d, Up(d, 2), Up(d, 1), outs);
  }

  lemma {:induction false} AssignTyped(k: Code, ns: Names, e: Exp, a: nat, d: Depths, outs: set<Spot>)
    requires Fits1(k, ns, d) && Coded(k.f, ns, e, a) && e.Assign?
    ensures Typed(k, a, a + SizeE(e), d, Up(d, 1), outs)
    decreases e, 1
  {
    hide Is, Coded, SizeE, Typed, CodedRef, SizeRef, CodedPut, SizePut;
    CodedDef(k.f, ns, e, a);
    SoundUp(d);
    var p := a + SizeRef(e.a);
    var q := p + SizeE(e.b);
    var r := Operands(e.a);
    RefTyped(k, ns, e.a, a, d, outs);
    ExpTyped(k, ns, e.b, p, Up(d, r), outs);
    Seq(k, a, p, q, d, Up(d, r), Up(d, r + 1), outs);
    PutTyped(k, ns, e.a, false, q, d, outs);
    Seq(k, a, q, q + SizePut(e.a, false), d, Up(d, r + 1), Up(d, 1), outs);
  }

  lemma {:induction false} AssignOpTyped(k: Code, ns: Names, e: Exp, a: nat, d: Depths, outs: set<Spot>)
    requires Fits1(k, ns, d) && Coded(k.f, ns, e, a) && e.AssignOp?
    ensures Typed(k, a, a + SizeE(e), d, Up(d, 1), outs)
    decreases e, 1
  {
    hide Is, Coded, SizeE, Typed, CodedOld, SizeOld, CodedPut, SizePut;
    CodedDef(k.f, ns, e, a);
    SoundUp(d);
    var p := a + SizeOld(e.a);
    var q := p + SizeE(e.b);
    var r := Operands(e.a);
    OldTyped(k, ns, e.a, a, d, outs);
    ExpTyped(k, ns, e.b, p, Up(d, r + 1), outs);
    Seq(k, a, p, q, d, Up(d, r + 1), Up(d, r + 2), outs);
    Append(k, a, q, Do1(Binop(e.op), 2), q + 1, d, Up(d, r + 2), Up(d, r + 1), outs);
    PutTyped(k, ns, e.a, false, q + 1, d, outs);
    Seq(k, a, q + 1, q + 1 + SizePut(e.a, false), d, Up(d, r + 1), Up(d, 1), outs);
  }

  lemma {:induction false} DeleteTyped(k: Code, ns: Names, e: Exp, a: nat, d: Depths, outs: set<Spot>)
    requires Fits1(k, ns, d) && Coded(k.f, ns, e, a) && e.Delete?
    ensures Typed(k, a, a + SizeE(e), d, Up(d, 1), outs)
    decreases e, 1
  {
    hide Is, Coded, SizeE, Typed;
    CodedDef(k.f, ns, e, a);
    SoundUp(d);
    var p := a + SizeRef(e.a);
    RefTyped(k, ns, e.a, a, d, outs);
    match e.a
    case Ident(x) =>
      Append(k, a, p, if Slot(ns, x).Some? then Push(Boolean(false))
        else Do1(DelVar(x), 0), p + 2, d, d, Up(d, 1), outs);
    case Index(_, _) => Append(k, a, p, Do1(DelProp, 2), p + 1, d, Up(d, 2), Up(d, 1), outs);
    case Member(_, x) => Append(k, a, p, Do1(DelMember(x), 1), p + 2, d, Up(d, 1), Up(d, 1), outs);
  }

  lemma {:induction false} TypeofTyped(k: Code, ns: Names, e: Exp, a: nat, d: Depths, outs: set<Spot>)
    requires Fits1(k, ns, d) && Coded(k.f, ns, e, a) && e.Typeof?
    ensures Typed(k, a, a + SizeE(e), d, Up(d, 1), outs)
    decreases e, 1
  {
    hide Is, Coded, SizeE, Typed;
    CodedDef(k.f, ns, e, a);
    SoundUp(d);
    var p := a + SizeE(e.a);
    if e.a.Ident? {
      CodedDef(k.f, ns, e.a, a);
      LoadTyped(k, ns, e.a.x, HasVar(e.a.x), a, d, outs);
    } else {
      ExpTyped(k, ns, e.a, a, d, outs);
    }
    Append(k, a, p, Do1(TypeName, 1), p + 1, d, Up(d, 1), Up(d, 1), outs);
  }

  lemma {:induction false} VoidTyped(k: Code, ns: Names, e: Exp, a: nat, d: Depths, outs: set<Spot>)
    requires Fits1(k, ns, d) && Coded(k.f, ns, e, a) && e.Void?
    ensures Typed(k, a, a + SizeE(e), d, Up(d, 1), outs)
    decreases e, 1
  {
    hide Is, Coded, SizeE, Typed;
    CodedDef(k.f, ns, e, a);
    SoundUp(d);
    var p := a + SizeE(e.a);
    ExpTyped(k, ns, e.a, a, d, outs);
    Append(k, a, p, Pop, p + 1, d, Up(d, 1), d, outs);
    Append(k, a, p + 1, Push(Undefined), p + 2, d, d, Up(d, 1), outs);
  }

  lemma {:induction false} CommaTyped(k: Code, ns: Names, e: Exp, a: nat, d: Depths, outs: set<Spot>)
    requires Fits1(k, ns, d) && Coded(k.f, ns, e, a) && e.Comma?
    ensures Typed(k, a, a + SizeE(e), d, Up(d, 1), outs)
    decreases e, 1
  {
    hide Is, Coded, SizeE, Typed;
    CodedDef(k.f, ns, e, a);
    SoundUp(d);
    var p := a + SizeE(e.a);
    ExpTyped(k, ns, e.a, a, d, outs);
    Append(k, a, p, Pop, p + 1, d, Up(d, 1), d, outs);
    ExpTyped(k, ns, e.b, p + 1, d, outs);
    Seq(k, a, p + 1, p + 1 + SizeE(e.b), d, d, Up(d, 1), outs);
  }

  /** || and && */
  lemma {:induction false} ElseTyped(k: Code, ns: Names, e: Exp, a: nat, d: Depths, outs: set<Spot>)
    requires Fits1(k, ns, d) && Coded(k.f, ns, e, a) && (e.LogOr? || e.LogAnd?)
    ensures Typed(k, a, a + SizeE(e), d, Up(d, 1), outs)
    decreases e, 1
  {
    hide Is, Coded, SizeE, Typed;
    CodedDef(k.f, ns, e, a);
    SoundUp(d);
    var p := a + SizeE(e.a);
    var end := p + 4 + SizeE(e.b);
    var away := outs + {Spot(end, Up(d, 1))};
    ExpTyped(k, ns, e.a, a, d, away);
    Append(k, a, p, Dup, p + 1, d, Up(d, 1), Up(d, 2), away);
    Append(k, a, p + 1, if e.LogOr? then JTrue(end) else JFalse(end), p + 3, d, Up(d, 2), Up(d, 1), away);
    Append(k, a, p + 3, Pop, p + 4, d, Up(d, 1), d, away);
    ExpTyped(k, ns, e.b, p + 4, d, away);
    Seq(k, a, p + 4, end, d, d, Up(d, 1), away);
    Close(k, a, end, d, Up(d, 1), away, outs);
  }

  lemma {:induction false} CondTyped(k: Code, ns: Names, e: Exp, a: nat, d: Depths, outs: set<Spot>)
    requires Fits1(k, ns, d) && Coded(k.f, ns, e, a) && e.Cond?
    ensures Typed(k, a, a + SizeE(e), d, Up(d, 1), outs)
    decreases e, 1
  {
    hide Is, Coded, SizeE, Typed;
    CodedDef(k.f, ns, e, a);
    SoundUp(d);
    var p := a + SizeE(e.a);
    var q := p + 2 + SizeE(e.c);
    var end := q + 2 + SizeE(e.b);
    var away := outs + {Spot(end, Up(d, 1))};
    var all := away + {Spot(q + 2, d)};
    ExpTyped(k, ns, e.a, a, d, all);
    Append(k, a, p, JTrue(q + 2), p + 2, d, Up(d, 1), d, all);
    ExpTyped(k, ns, e.c, p + 2, d, all);
    Seq(k, a, p + 2, q, d, d, Up(d, 1), all);
    Append(k, a, q, Jump(end), q + 2, d, Up(d, 1), d, all);
    Close(k, a, q + 2, d, d, all, away);
    ExpTyped(k, ns, e.b, q + 2, d, away);
    Seq(k, a, q + 2, end, d, d, Up(d, 1), away);
    Close(k, a, end, d, Up(d, 1), away, outs);
  }

  lemma {:induction false} NewTyped(k: Code, ns: Names, e: Exp, a: nat, d: Depths, outs: set<Spot>)
    requires Fits1(k, ns, d) && Coded(k.f, ns, e, a) && e.New?
    ensures Typed(k, a, a + SizeE(e), d, Up(d, 1), outs)
    decreases e, 1
  {
    hide Is, Coded, SizeE, Typed;
    CodedDef(k.f, ns, e, a);
    SoundUp(d);
    var p := a + SizeE(e.f);
    var q, n := p + SizeArgs(e.args), Length(e.args);
    ExpTyped(k, ns, e.f, a, d, outs);
    ArgsTyped(k, ns, e.args, p, Up(d, 1), outs);
    Seq(k, a, p, q, d, Up(d, 1), Up(d, n + 1), outs);
    Append(k, a, q, Do1(Construct, n + 1), q + 2, d, Up(d, n + 1), Up(d, 1), outs);
  }

  lemma {:induction false} CallTyped(k: Code, ns: Names, e: Exp, a: nat, d: Depths, outs: set<Spot>)
    requires Fits1(k, ns, d) && Coded(k.f, ns, e, a) && e.Call?
    ensures Typed(k, a, a + SizeE(e), d, Up(d, 1), outs)
    decreases e, 1
  {
    hide Is, Coded, SizeE, Typed, CodedCallee, SizeCallee;
    CodedDef(k.f, ns, e, a);
    SoundUp(d);
    if e.f == Ident("eval") {
      EvalTyped(k, ns, e, a, d, outs);
    } else {
      var p := a + SizeCallee(e.f);
      var q, n := p + SizeArgs(e.args), Length(e.args);
      CalleeTyped(k, ns, e.f, a, d, outs);
      ArgsTyped(k, ns, e.args, p, Up(d, 2), outs);
      Seq(k, a, p, q, d, Up(d, 2), Up(d, n + 2), outs);
      Append(k, a, q, Do1(Invoke, n + 2), q + 2, d, Up(d, n + 2), Up(d, 1), outs);
    }
  }

  /** `ceval` */
  lemma {:induction false} EvalTyped(k: Code, ns: Names, e: Exp, a: nat, d: Depths, outs: set<Spot>)
    requires Fits1(k, ns, d) && Coded(k.f, ns, e, a) && e.Call? && e.f == Ident("eval")
    ensures Typed(k, a, a + SizeE(e), d, Up(d, 1), outs)
    decreases e, 0
  {
    hide Is, Coded, SizeE, Typed;
    CodedDef(k.f, ns, e, a);
    SoundUp(d);
    var p, n := a + SizeArgs(e.args), Length(e.args);
    ArgsTyped(k, ns, e.args, a, d, outs);
    if n == 0 {
      Append(k, a, p, Push(Undefined), p + 1, d, d, Up(d, 1), outs);
      Append(k, a, p + 1, Do1(EvalString, 1), p + 2, d, Up(d, 1), Up(d, 1), outs);
    } else {
      PopsTyped(k, p, n - 1, Up(d, 1), outs);
      Seq(k, a, p, p + n - 1, d, Up(d, n), Up(d, 1), outs);
      Append(k, a, p + n - 1, Do1(EvalString, 1), p + n, d, Up(d, 1), Up(d, 1), outs);
    }
  }

  lemma {:induction false} PopsTyped(k: Code, a: nat, n: nat, d: Depths, outs: set<Spot>)
    requires Sound(d) && Pops(k.f, a, n)
    ensures Typed(k, a, a + n, Up(d, n), d, outs)
    decreases n
  {
    hide Is, Typed;
    SoundUp(d);
    if n == 0 { NoCode(k, a, d, outs); } else {
      Single(k, a, Pop, a + 1, Up(d, n), Up(d, n - 1), outs);
      PopsTyped(k, a + 1, n - 1, d, outs);
      Seq(k, a, a + 1, a + n, Up(d, n), Up(d, n - 1), d, outs);
    }
  }

  lemma {:induction false} IndexCalleeTyped(k: Code, ns: Names, e: Exp, a: nat, d: Depths, outs: set<Spot>)
    requires Fits1(k, ns, d) && e.Index? && CodedCallee(k.f, ns, e, a)
    ensures Typed(k, a, a + SizeCallee(e), d, Up(d, 2), outs)
    decreases e, 0
  {
    hide Is, Coded, SizeE, Typed;
    SoundUp(d);
    var p := a + SizeE(e.a);
    var q := p + 1 + SizeE(e.b);
    ExpTyped(k, ns, e.a, a, d, outs);
    Append(k, a, p, Dup, p + 1, d, Up(d, 1), Up(d, 2), outs);
    ExpTyped(k, ns, e.b, p + 1, Up(d, 2), outs);
    Seq(k, a, p + 1, q, d, Up(d, 2), Up(d, 3), outs);
    Append(k, a, q, Do1(GetProp, 2), q + 1, d, Up(d, 3), Up(d, 2), outs);
    Append(k, a, q + 1, Rot2, q + 2, d, Up(d, 2), Up(d, 2), outs);
  }

  lemma {:induction false} CalleeTyped(k: Code, ns: Names, e: Exp, a: nat, d: Depths, outs: set<Spot>)
    requires Fits1(k, ns, d) && CodedCallee(k.f, ns, e, a)
    ensures Typed(k, a, a + SizeCallee(e), d, Up(d, 2), outs)
    decreases e, 10
  {
    hide Is, Coded, SizeE, Typed;
    SoundUp(d);
    match e
    case Index(_, _) => IndexCalleeTyped(k, ns, e, a, d, outs);
    case Member(b, x) =>
      var p := a + SizeE(b);
      ExpTyped(k, ns, b, a, d, outs);
      Append(k, a, p, Dup, p + 1, d, Up(d, 1), Up(d, 2), outs);
      Append(k, a, p + 1, Do1(GetMember(x), 1), p + 3, d, Up(d, 2), Up(d, 2), outs);
      Append(k, a, p + 3, Rot2, p + 4, d, Up(d, 2), Up(d, 2), outs);
    case _ =>
      ExpTyped(k, ns, e, a, d, outs);
      Append(k, a, a + SizeE(e), Push(Undefined), a + SizeE(e) + 1, d, Up(d, 1), Up(d, 2), outs);
  }

  lemma {:induction false} ArgsTyped(k: Code, ns: Names, args: Exps, a: nat, d: Depths, outs: set<Spot>)
    requires Fits1(k, ns, d) && CodedArgs(k.f, ns, args, a)
    ensures Typed(k, a, a + SizeArgs(args), d, Up(d, Length(args)), outs)
    decreases args
  {
    hide Is, Coded, SizeE, Typed;
    SoundUp(d);
    if args.NoExps? { NoCode(k, a, d, outs); } else {
      var p, n := a + SizeE(args.head), Length(args.tail);
      ExpTyped(k, ns, args.head, a, d, outs);
      ArgsTyped(k, ns, args.tail, p, Up(d, 1), outs);
      Seq(k, a, p, p + SizeArgs(args.tail), d, Up(d, 1), Up(d, n + 1), outs);
    }
  }

  lemma {:induction false} ArrTyped(k: Code, ns: Names, e: Exp, a: nat, d: Depths, outs: set<Spot>)
    requires Fits1(k, ns, d) && Coded(k.f, ns, e, a) && e.ArrLit?
    ensures Typed(k, a, a + SizeE(e), d, Up(d, 1), outs)
    decreases e, 1
  {
    hide Is, Coded, SizeE, Typed;
    CodedDef(k.f, ns, e, a);
    SoundUp(d);
    Single(k, a, Do1(NewArray, 0), a + 1, d, Up(d, 1), outs);
    ItemsTyped(k, ns, e.items, 0, a + 1, d, outs);
    Seq(k, a, a + 1, a + 1 + SizeItems(e.items, 0), d, Up(d, 1), Up(d, 1), outs);
  }

  lemma {:induction false} ItemsTyped(k: Code, ns: Names, items: Items, j: nat, a: nat, d: Depths, outs: set<Spot>)
    requires Fits1(k, ns, d) && CodedItems(k.f, ns, items, j, a)
    ensures Typed(k, a, a + SizeItems(items, j), Up(d, 1), Up(d, 1), outs)
    decreases items
  {
    hide Is, Coded, SizeE, Typed, CodedNum, SizeNum;
    SoundUp(d);
    match items
    case NoItems => NoCode(k, a, Up(d, 1), outs);
    case Hole(rest) => ItemsTyped(k, ns, rest, j + 1, a, d, outs);
    case Item(e, rest) =>
      var p := a + SizeNum(Whole(j));
      var q := p + SizeE(e);
      NumTyped(k, Whole(j), a, Up(d, 1), outs);
      ExpTyped(k, ns, e, p, Up(d, 2), outs);
      Seq(k, a, p, q, Up(d, 1), Up(d, 2), Up(d, 3), outs);
      Append(k, a, q, Init3(InitVal), q + 1, Up(d, 1), Up(d, 3), Up(d, 1), outs);
      ItemsTyped(k, ns, rest, j + 1, q + 1, d, outs);
      Seq(k, a, q + 1, q + 1 + SizeItems(rest, j + 1), Up(d, 1), Up(d, 1), Up(d, 1), outs);
  }

  lemma {:induction false} ObjTyped(k: Code, ns: Names, e: Exp, a: nat, d: Depths, outs: set<Spot>)
    requires Fits1(k, ns, d) && Coded(k.f, ns, e, a) && e.ObjLit?
    ensures Typed(k, a, a + SizeE(e), d, Up(d, 1), outs)
    decreases e, 1
  {
    hide Is, Coded, SizeE, Typed;
    CodedDef(k.f, ns, e, a);
    SoundUp(d);
    Single(k, a, Do1(NewObject, 0), a + 1, d, Up(d, 1), outs);
    PropsTyped(k, ns, e.props, a + 1, d, outs);
    Seq(k, a, a + 1, a + 1 + SizeProps(e.props), d, Up(d, 1), Up(d, 1), outs);
  }

  lemma {:induction false} PropsTyped(k: Code, ns: Names, props: Props, a: nat, d: Depths, outs: set<Spot>)
    requires Fits1(k, ns, d) && CodedProps(k.f, ns, props, a)
    ensures Typed(k, a, a + SizeProps(props), Up(d, 1), Up(d, 1), outs)
    decreases props
  {
    hide Is, Coded, SizeE, Typed, CodedKind, SizeKind;
    SoundUp(d);
    match props
    case NoProps => NoCode(k, a, Up(d, 1), outs);
    case Prop(key, kind, rest) =>
      var p := a + SizeE(key);
      var q := p + SizeKind(kind);
      ExpTyped(k, ns, key, a, Up(d, 1), outs);
      KindTyped(k, ns, kind, p, Up(d, 2), outs);
      Seq(k, a, p, q, Up(d, 1), Up(d, 2), Up(d, 3), outs);
      Append(k, a, q, Init3(InitPrim(kind)), q + 1, Up(d, 1), Up(d, 3), Up(d, 1), outs);
      PropsTyped(k, ns, rest, q + 1, d, outs);
      Seq(k, a, q + 1, q + 1 + SizeProps(rest), Up(d, 1), Up(d, 1), Up(d, 1), outs);
  }

  lemma {:induction false} KindTyped(k: Code, ns: Names, kind: PropKind, a: nat, d: Depths, outs: set<Spot>)
    requires Fits1(k, ns, d) && CodedKind(k.f, ns, kind, a)
    ensures Typed(k, a, a + SizeKind(kind), d, Up(d, 1), outs)
    decreases kind
  {
    hide Is, Coded, SizeE, Typed;
    SoundUp(d);
    match kind
    case PropVal(e) => ExpTyped(k, ns, e, a, d, outs);
    case PropGet(fun) => Single(k, a, Do1(Closure(fun), 0), a + 2, d, Up(d, 1), outs);
    case PropSet(fun) => Single(k, a, Do1(Closure(fun), 0), a + 2, d, Up(d, 1), outs);
  }
}
