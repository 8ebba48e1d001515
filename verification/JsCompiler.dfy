/** The compiler of jscompile.c: code words are appended one by one, constants are collected in
    tables, and jumps are emitted with address 0 and patched when their target is known. */
module JsCompiler {
  import opened JsTree
  import opened JsMachine
  import opened JsMeaning
  import opened JsCode
  import opened JsTargets
  import opened JsGrowth
  import opened JsAccepted

  /** jsC_error leaves the compiler at once. */
  datatype Status = Pass | Fail {
    predicate IsFailure() { Fail? }
    function PropagateFailure(): Status { Fail }
  }

  /** An entry of a node's list of jumps: a break or a continue, and its operand's position. */
  datatype JumpTo = JumpTo(isBreak: bool, inst: nat)

  predicate Big(w: Word) {
    w.Arg? && w.n >= 0x1_0000
  }

  // ----- what the last words decode to -----

  lemma {:induction false} SimpleIs(f: Fn, a: nat, op: OpCode)
    requires a < |f.code| && f.code[a] == Op(op) && Simple(op).Some?
    ensures Is(f, a, Simple(op).value, a + 1)
  {
  }

  lemma {:induction false} NumberedIs(f: Fn, a: nat, op: OpCode, n: nat)
    requires a + 1 < |f.code| && f.code[a] == Op(op) && f.code[a + 1] == Arg(n) && Numbered(op, n).Some?
    ensures Is(f, a, Numbered(op, n).value, a + 2)
  {
  }

  lemma {:induction false} NamedIs(f: Fn, a: nat, op: OpCode, n: nat)
    requires a + 1 < |f.code| && f.code[a] == Op(op) && f.code[a + 1] == Arg(n)
    requires n < |f.strtab| && Named(op, f.strtab[n]).Some?
    ensures Is(f, a, Named(op, f.strtab[n]).value, a + 2)
  {
  }

  lemma {:induction false} TableIs(f: Fn, a: nat, n: nat)
    requires a + 1 < |f.code| && f.code[a + 1] == Arg(n)
    ensures f.code[a] == Op(OpNumber) && n < |f.numtab| ==> Is(f, a, Push(Num(f.numtab[n])), a + 2)
    ensures f.code[a] == Op(OpClosure) && n < |f.funtab| ==> Is(f, a, Do1(Closure(f.funtab[n]), 0), a + 2)
    ensures f.code[a] == Op(OpNewRegexp) && n < |f.strtab| && a + 2 < |f.code| && f.code[a + 2].Arg? ==>
      Is(f, a, Do1(NewRegexp(f.strtab[n], f.code[a + 2].n), 0), a + 3)
  {
  }

  /** What was coded in f is still there in g. */
  lemma {:induction false} Kept(f: Fn, g: Fn, ns: Names, e: Exp, a: nat)
    requires Last(f, g) && Coded(f, ns, e, a)
    ensures Coded(g, ns, e, a)
  {
    hide Extends;
    CodedUp(f, g, ns, e, a);
  }

  /** Growing is an order, and keeps the instructions that are there. */
  lemma {:induction false} Order()
    ensures forall f: Fn, g: Fn, h: Fn {:trigger Extends(f, g), Extends(g, h)} :: Extends(f, g) && Extends(g, h) ==>
      Extends(f, h)
    ensures forall f: Fn, g: Fn {:trigger Extends(f, g)} :: Extends(f, g) ==> Grows(f, g)
  {
    forall f: Fn, g: Fn | Extends(f, g)
      ensures Grows(f, g)
    {
      ExtendsGrows(f, g);
    }
  }

  /** The opcodes that expressions use. */
  lemma {:induction false} StackCodes()
    ensures Simple(OpPop) == Some(Pop) && Simple(OpDup) == Some(Dup) && Simple(OpDup2) == Some(Dup2)
    ensures Simple(OpRot2) == Some(Rot2) && Simple(OpRot3) == Some(Rot3) && Simple(OpRot4) == Some(Rot4)
  {
  }

  lemma {:induction false} PropertyCodes()
    ensures Simple(OpGetProp) == Some(Do1(GetProp, 2)) && Simple(OpSetProp) == Some(Do1(SetProp, 3))
      && Simple(OpDelProp) == Some(Do1(DelProp, 2))
    ensures Simple(OpInitProp) == Some(Init3(InitVal)) && Simple(OpInitGetter) == Some(Init3(InitGetter))
      && Simple(OpInitSetter) == Some(Init3(InitSetter))
  {
  }

  lemma {:induction false} ValueCodes()
    ensures Simple(OpNewArray) == Some(Do1(NewArray, 0)) && Simple(OpNewObject) == Some(Do1(NewObject, 0))
    ensures Simple(OpUndef) == Some(Push(Undefined)) && Simple(OpEval) == Some(Do1(EvalString, 1))
      && Simple(OpTypeof) == Some(Do1(TypeName, 1))
  {
  }

  lemma {:induction false} OperatorCodes()
    ensures forall u: UnOp :: Simple(OpUnary(u)) == Some(Do1(Unop(u), 1))
    ensures forall op: BinOp :: Simple(OpBinary(op)) == Some(Do1(Binop(op), 2))
    ensures forall inc: bool, post: bool :: Simple(OpCrement(inc, post)) == Some(Bump(inc, post))
  {
  }

  lemma {:induction false} NumberedCodes()
    ensures forall t: nat :: Numbered(OpJTrue, t) == Some(JTrue(t))
    ensures forall t: nat :: Numbered(OpJFalse, t) == Some(JFalse(t))
    ensures forall t: nat :: Numbered(OpJump, t) == Some(Jump(t))
    ensures forall n: nat :: Numbered(OpCall, n) == Some(Do1(Invoke, n + 2))
    ensures forall n: nat :: Numbered(OpNew, n) == Some(Do1(Construct, n + 1))
    ensures forall k: nat :: Numbered(OpGetLocal, k) == Some(GetLocal(k))
    ensures forall k: nat :: Numbered(OpSetLocal, k) == Some(SetLocal(k))
    ensures forall k: nat :: Numbered(OpDelLocal, k) == Some(Push(Boolean(false)))
  {
  }

  lemma {:induction false} NamedCodes()
    ensures forall x: Name :: Named(OpGetVar, x) == Some(Do1(GetVar(x), 0))
    ensures forall x: Name :: Named(OpHasVar, x) == Some(Do1(HasVar(x), 0))
    ensures forall x: Name :: Named(OpSetVar, x) == Some(Do1(SetVar(x), 1))
    ensures forall x: Name :: Named(OpDelVar, x) == Some(Do1(DelVar(x), 0))
    ensures forall x: Name :: Named(OpGetPropS, x) == Some(Do1(GetMember(x), 1))
    ensures forall x: Name :: Named(OpSetPropS, x) == Some(Do1(SetMember(x), 2))
    ensures forall x: Name :: Named(OpDelPropS, x) == Some(Do1(DelMember(x), 1))
  {
  }

  lemma {:induction false} TryCodes()
    ensures forall t: nat :: Numbered(OpTry, t) == Some(TryTo(t))
    ensures forall t: nat :: Numbered(OpJCase, t) == Some(JCase(t))
    ensures forall x: Name :: Named(OpCatch, x) == Some(Catch(x))
  {
  }

  lemma {:induction false} LeaveCodes()
    ensures Simple(OpThrow) == Some(Raise) && Simple(OpDebugger) == Some(Trap) && Simple(OpReturn) == Some(Ret)
      && Simple(OpEndTry) == Some(EndTry)
  {
  }

  lemma {:induction false} ScopeCodes()
    ensures Simple(OpEndCatch) == Some(LeaveScope) && Simple(OpWith) == Some(EnterWith)
      && Simple(OpEndWith) == Some(LeaveScope)
    ensures Simple(OpIterator) == Some(Do1(Iterator, 1)) && Simple(OpNextIter) == Some(Next)
  {
  }

  /** Each of the states is kept by the last. */
  ghost predicate Last(f: Fn, g: Fn) {
    Extends(f, g) && Grows(f, g)
  }

  lemma {:induction false} Then(f: Fn, g: Fn, h: Fn)
    requires Extends(f, g) && Last(g, h)
    ensures Last(f, h) && Extends(f, h)
  {
    ExtendsGrows(f, h);
  }

  lemma {:induction false} Follows(f: Fn, g: Fn)
    requires Extends(f, g)
    ensures Last(f, g)
  {
    ExtendsGrows(f, g);
  }

  lemma {:induction false} Kept2(f: Fn, g: Fn, h: Fn, ns: Names, e: Exp, a: nat)
    requires Extends(f, g) && Extends(g, h) && Coded(g, ns, e, a)
    ensures Extends(f, h) && Coded(h, ns, e, a)
  {
    hide Extends, Coded, Last;
    Follows(g, h);
    Then(f, g, h);
    Kept(g, h, ns, e, a);
  }

  lemma {:induction false} Stands(f: Fn, g: Fn, a: nat, i: Instr, b: nat)
    requires Last(f, g) && Is(f, a, i, b)
    ensures Is(g, a, i, b)
  {
  }

  lemma {:induction false} WordStays(f: Fn, g: Fn, p: nat)
    requires Extends(f, g) && p < |f.code|
    ensures p < |g.code| && g.code[p] == f.code[p]
  {
  }

  // ----- lists of jumps -----

  ghost function Insts(js: seq<JumpTo>): set<nat> {
    set j | j in js :: j.inst
  }

  /** The operands that are in the lists of the enclosing nodes. */
  ghost function Listed(jumps: seq<seq<JumpTo>>): set<nat> {
    if jumps == [] then {} else Listed(jumps[..|jumps| - 1]) + Insts(jumps[|jumps| - 1])
  }

  /** Only loops, switches, labels and what they label are jumped to. */
  ghost predicate Targetable(p: Path, k: nat)
    requires 0 < k <= Depth(p)
  {
    if Depth(p) == k then IsLoop(p.kind) || p.kind.SwitchNode? || p.kind.Labelled?
      || (p.up.Inside? && p.up.kind.Labelled?)
    else Targetable(p.up, k)
  }

  /** Every listed operand will get its node's address. */
  ghost predicate Aimed(v: seq<Word>, js: seq<JumpTo>, d: Dest) {
    forall j | j in js :: j.inst < |v| && v[j.inst] == Arg(if j.isBreak then d.brk else d.cont)
  }

  ghost predicate JumpsOk(v: seq<Word>, jumps: seq<seq<JumpTo>>, p: Path, d: seq<Dest>) {
    && |jumps| == |d| == Depth(p)
    && forall i | 0 <= i < |d| :: Aimed(v, jumps[i], d[i]) && (jumps[i] != [] ==> Targetable(p, i + 1))
  }

  lemma {:induction false} JumpsGrow(f: Fn, g: Fn, jumps: seq<seq<JumpTo>>, p: Path, d: seq<Dest>)
    requires Extends(f, g) && JumpsOk(f.code, jumps, p, d)
    ensures JumpsOk(g.code, jumps, p, d)
  {
  }

  lemma {:induction false} JumpsPush(v: seq<Word>, jumps: seq<seq<JumpTo>>, k: Kind, p: Path, d: seq<Dest>, dest: Dest)
    requires JumpsOk(v, jumps, p, d)
    ensures JumpsOk(v, jumps + [[]], Inside(k, p), d + [dest]) && Listed(jumps + [[]]) == Listed(jumps)
  {
    var js := jumps + [[]];
    assert js[..|js| - 1] == jumps;
    assert Insts([]) == {};
  }

  lemma {:induction false} JumpsPop(v: seq<Word>, jumps: seq<seq<JumpTo>>, k: Kind, p: Path, d: seq<Dest>, dest: Dest)
    requires JumpsOk(v, jumps, Inside(k, p), d + [dest]) && |d| == Depth(p)
    ensures jumps != [] && JumpsOk(v, jumps[..|jumps| - 1], p, d) && Aimed(v, jumps[|jumps| - 1], dest)
    ensures Listed(jumps) == Listed(jumps[..|jumps| - 1]) + Insts(jumps[|jumps| - 1])
    ensures jumps[|jumps| - 1] != [] ==> Targetable(Inside(k, p), Depth(p) + 1)
  {
    assert (d + [dest])[|d|] == dest;
    forall i | 0 <= i < |d|
      ensures Aimed(v, jumps[i], d[i]) && (jumps[i] != [] ==> Targetable(p, i + 1))
    {
      assert (d + [dest])[i] == d[i];
    }
  }

  lemma {:induction false} JumpsAdd(v: seq<Word>, jumps: seq<seq<JumpTo>>, k: nat, j: JumpTo, p: Path, d: seq<Dest>)
    requires JumpsOk(v, jumps, p, d) && 0 < k <= |d| && Targetable(p, k) && Aimed(v, [j], d[k - 1])
    ensures JumpsOk(v, jumps[k - 1 := [j] + jumps[k - 1]], p, d)
    ensures Listed(jumps[k - 1 := [j] + jumps[k - 1]]) == Listed(jumps) + {j.inst}
  {
    var js := jumps[k - 1 := [j] + jumps[k - 1]];
    ListedAdd(jumps, k, j);
    assert j in [j];
    forall i | 0 <= i < |d|
      ensures Aimed(v, js[i], d[i]) && (js[i] != [] ==> Targetable(p, i + 1))
    {
    }
  }

  lemma {:induction false} ListedAdd(jumps: seq<seq<JumpTo>>, k: nat, j: JumpTo)
    requires 0 < k <= |jumps|
    ensures Listed(jumps[k - 1 := [j] + jumps[k - 1]]) == Listed(jumps) + {j.inst}
  {
    var js := jumps[k - 1 := [j] + jumps[k - 1]];
    var n := |jumps| - 1;
    if k - 1 == n {
      assert js[..n] == jumps[..n];
      assert Insts([j] + jumps[n]) == {j.inst} + Insts(jumps[n]);
    } else {
      ListedAdd(jumps[..n], k, j);
      assert js[..n] == jumps[..n][k - 1 := [j] + jumps[..n][k - 1]];
    }
  }

  /** No list has lost a jump. */
  ghost predicate Longer(js: seq<seq<JumpTo>>, ks: seq<seq<JumpTo>>) {
    |js| == |ks| && forall i | 0 <= i < |js| :: Insts(js[i]) <= Insts(ks[i])
  }

  lemma {:induction false} LongerListed(js: seq<seq<JumpTo>>, ks: seq<seq<JumpTo>>)
    requires Longer(js, ks)
    ensures Listed(js) <= Listed(ks)
  {
    var n := |js| - 1;
    if n >= 0 { LongerListed(js[..n], ks[..n]); }
  }

  /** From the lists js with op open to the lists ks with oq open: what is newly open is listed. */
  ghost predicate Accounted(op: set<nat>, js: seq<seq<JumpTo>>, oq: set<nat>, ks: seq<seq<JumpTo>>) {
    Longer(js, ks) && oq <= op + Listed(ks)
  }

  /** Only the jump at inst has been opened. */
  ghost predicate OpenedBy(op: set<nat>, op1: set<nat>, inst: nat) {
    op1 <= op + {inst}
  }

  lemma {:induction false} AccountedSame(op: set<nat>, js: seq<seq<JumpTo>>)
    ensures Accounted(op, js, op, js)
  {
  }

  lemma {:induction false} AccountedThen(op: set<nat>, js: seq<seq<JumpTo>>, oq: set<nat>, ks: seq<seq<JumpTo>>,
    or: set<nat>, ls: seq<seq<JumpTo>>)
    requires Accounted(op, js, oq, ks) && Accounted(oq, ks, or, ls)
    ensures Accounted(op, js, or, ls)
  {
    LongerListed(ks, ls);
  }

  /** A local jump has been patched. */
  lemma {:induction false} AccountedPatch(op: set<nat>, op1: set<nat>, inst: nat, js: seq<seq<JumpTo>>, oq: set<nat>,
    ks: seq<seq<JumpTo>>)
    requires Accounted(op1, js, oq, ks) && OpenedBy(op, op1, inst)
    ensures Accounted(op, js, oq - {inst}, ks)
  {
  }

  lemma {:induction false} AccountedLess(op: set<nat>, op1: set<nat>, inst: nat, js: seq<seq<JumpTo>>, oq: set<nat>,
    ks: seq<seq<JumpTo>>)
    requires Accounted(op1 - {inst}, js, oq, ks) && OpenedBy(op, op1, inst)
    ensures Accounted(op, js, oq, ks)
  {
  }

  /** Jumps that were open before have been patched. */
  lemma {:induction false} AccountedMinus(op: set<nat>, js: seq<seq<JumpTo>>, oq: set<nat>, ks: seq<seq<JumpTo>>,
    gone: set<nat>, or: set<nat>, ls: seq<seq<JumpTo>>)
    requires Accounted(op, js, oq, ks) && Accounted(oq - gone, ks, or, ls)
    ensures Accounted(op - gone, js, or, ls)
  {
    LongerListed(ks, ls);
  }

  lemma {:induction false} AccountedSwitch(op: set<nat>, js: seq<seq<JumpTo>>, op1: set<nat>, insts: set<nat>,
    jump: nat, def: set<nat>, oq: set<nat>, or: set<nat>, ks: seq<seq<JumpTo>>)
    requires Accounted(op1 - insts - def, js, oq, ks) && op1 <= op + insts + {jump}
    requires (def == {} && or == oq - {jump}) || (def == {jump} && or == oq)
    ensures Accounted(op, js, or, ks)
  {
  }

  /** A label has patched what its statement owed. */
  lemma {:induction false} AccountedOwn(op: set<nat>, js: seq<seq<JumpTo>>, oq: set<nat>, or: set<nat>, owed: set<nat>,
    own: seq<JumpTo>, ks: seq<seq<JumpTo>>)
    requires Accounted(op, js, oq - owed, ks) && (owed == {} || owed == Insts(own)) && or <= oq && or * owed == {}
    ensures Accounted(op, js, or, ks)
  {
    forall x | x in or
      ensures x !in owed
    {
      assert x !in or * owed;
    }
  }

  /** The node that was opened is closed again. */
  lemma {:induction false} AccountedClose(op: set<nat>, js: seq<seq<JumpTo>>, oq: set<nat>, ks: seq<seq<JumpTo>>)
    requires Accounted(op, js + [[]], oq, ks)
    ensures ks != [] && Accounted(op, js, oq - Insts(ks[|ks| - 1]), ks[..|ks| - 1])
  {
    var n := |js|;
    forall i | 0 <= i < n
      ensures Insts(js[i]) <= Insts(ks[..n][i])
    {
      assert (js + [[]])[i] == js[i];
    }
  }

  lemma {:induction false} TargetsOk(p: Path, l: Option<Name>)
    ensures 0 < BreakTarget(p, l) ==> Targetable(p, BreakTarget(p, l))
    ensures 0 < ContinueTarget(p, l) ==> Targetable(p, ContinueTarget(p, l))
  {
    if p.Inside? { TargetsOk(p.up, l); }
  }

  /** What a label labels, past further labels. */
  function Unlabelled(s: Stm): Stm {
    if s.Label? then Unlabelled(s.s) else s
  }

  predicate HasDefault(cases: Cases) {
    cases.Default? || (cases.Case? && HasDefault(cases.rest))
  }

  lemma {:induction false} NoDefault(cases: Cases, p: Path, b: nat)
    ensures HasDefault(cases) <==> Defaults(cases) > 0
    ensures !HasDefault(cases) ==> DefaultAt(cases, p, b) == b + SizeBodies(cases, p)
    decreases cases
  {
    hide SizeList;
    if cases.Case? { NoDefault(cases.rest, p, b + SizeList(cases.body, p)); }
  }

  /** Statements that patch their own jumps. */
  predicate PatchesOwn(s: Stm) {
    s.Do? || s.While? || s.For? || s.ForIn? || s.Switch?
  }

  class Compiler {
    const names: Names
    var code: seq<Word>
    var numtab: seq<Number>
    var strtab: seq<string>
    var funtab: seq<nat>
    /** Some operand was too wide for a code word. */
    var overflow: bool
    /** The lists of jumps to the enclosing nodes, the outermost first. */
    var jumps: seq<seq<JumpTo>>
    /** The list of the statement compiled last. */
    var own: seq<JumpTo>
    /** The code as it will be with every jump patched, and the operands still to be patched. */
    ghost var view: seq<Word>
    ghost var open: set<nat>

    constructor (ns: Names)
      ensures Valid() && names == ns && Final() == Fn([], [], [], []) && code == [] && open == {} && jumps == []
        && !overflow
    {
      names, code, numtab, strtab, funtab, overflow, jumps, own := ns, [], [], [], [], false, [], [];
      view, open := [], {};
    }

    ghost function Final(): Fn
      reads this
    {
      Fn(view, numtab, strtab, funtab)
    }

    ghost predicate Valid()
      reads this
    {
      && |view| == |code|
      && (forall p | p in open :: p < |code|)
      && (forall p | 0 <= p < |code| :: code[p] == view[p] || (p in open && code[p] == Arg(0)))
      && (overflow ==> exists p :: 0 <= p < |view| && Big(view[p]))
      && (!overflow ==> forall p | 0 <= p < |code| :: !Big(code[p]))
    }

    /** The state after n words of code have been reached from a state with f. */
    ghost predicate At(f: Fn, n: nat, op: set<nat>, js: seq<seq<JumpTo>>)
      reads this
    {
      Valid() && Extends(f, Final()) && |code| == |Final().code| == n && open == op && jumps == js
    }

    lemma {:induction false} Even()
      requires Valid()
      ensures |Final().code| == |code| && Extends(Final(), Final()) && forall p | p in open :: p < |code|
    {
    }

    // ----- emitting -----

    /** `emitraw`; w is what the word will be in the end. */
    method EmitWord(w: Word, ghost v: Word)
      requires Valid() && (w == v || w == Arg(0))
      modifies this
      ensures At(old(Final()), old(|code|) + 1, if w == v then old(open) else old(open) + {old(|code|)}, old(jumps))
      ensures view == old(view) + [v] && numtab == old(numtab) && strtab == old(strtab) && funtab == old(funtab)
    {
      if w.Arg? && w.n >= 0x1_0000 {
        overflow := true;
        assert Big((view + [v])[|view|]);
      }
      if overflow {
        assert forall p | 0 <= p < |view| :: (view + [v])[p] == view[p];
      }
      if w != v { open := open + {|code|}; }
      code, view := code + [w], view + [v];
    }

    method Emit(op: OpCode)
      requires Valid() && Simple(op).Some?
      modifies this
      ensures At(old(Final()), old(|code|) + 1, old(open), old(jumps))
      ensures Is(Final(), old(|code|), Simple(op).value, old(|code|) + 1)
    {
      hide Simple, Is, Decode, Valid;
      EmitWord(Op(op), Op(op));
      SimpleIs(Final(), |code| - 1, op);
    }

    method EmitNumbered(op: OpCode, n: nat)
      requires Valid() && Numbered(op, n).Some?
      modifies this
      ensures At(old(Final()), old(|code|) + 2, old(open), old(jumps))
      ensures Is(Final(), old(|code|), Numbered(op, n).value, old(|code|) + 2)
    {
      hide Numbered, Is, Decode, Valid;
      EmitWord(Op(op), Op(op));
      EmitWord(Arg(n), Arg(n));
      NumberedIs(Final(), |code| - 2, op, n);
    }

    /** `addnumber` */
    method AddNumber(value: Number) returns (k: nat)
      requires Valid() && !IsZero(value)
      modifies this
      ensures At(old(Final()), old(|code|), old(open), old(jumps)) && view == old(view)
      ensures k < |numtab| && numtab[k] == value
    {
      for i := 0 to |numtab| {
        if NumEq(numtab[i], value) { return i; }
      }
      numtab := numtab + [value];
      return |numtab| - 1;
    }

    /** `addstring` */
    method AddString(value: string) returns (k: nat)
      requires Valid()
      modifies this
      ensures At(old(Final()), old(|code|), old(open), old(jumps)) && view == old(view)
      ensures k < |strtab| && strtab[k] == value
    {
      for i := 0 to |strtab| {
        if strtab[i] == value { return i; }
      }
      strtab := strtab + [value];
      return |strtab| - 1;
    }

    /** `addfunction` */
    method AddFunction(fun: nat) returns (k: nat)
      requires Valid()
      modifies this
      ensures At(old(Final()), old(|code|), old(open), old(jumps)) && view == old(view)
      ensures k < |funtab| && funtab[k] == fun
    {
      funtab := funtab + [fun];
      return |funtab| - 1;
    }

    method EmitString(op: OpCode, x: string)
      requires Valid() && Named(op, x).Some?
      modifies this
      ensures At(old(Final()), old(|code|) + 2, old(open), old(jumps))
      ensures Is(Final(), old(|code|), Named(op, x).value, old(|code|) + 2)
    {
      hide Named, Is, Decode, Valid;
      EmitWord(Op(op), Op(op));
      var k := AddString(x);
      EmitWord(Arg(k), Arg(k));
      NamedIs(Final(), |code| - 2, op, k);
    }

    method EmitFunction(fun: nat)
      requires Valid()
      modifies this
      ensures At(old(Final()), old(|code|) + 2, old(open), old(jumps))
      ensures Is(Final(), old(|code|), Do1(Closure(fun), 0), old(|code|) + 2)
    {
      hide Is, Decode, Valid;
      EmitWord(Op(OpClosure), Op(OpClosure));
      var k := AddFunction(fun);
      EmitWord(Arg(k), Arg(k));
      TableIs(Final(), |code| - 2, k);
    }

    method EmitRegexp(x: string, flags: nat)
      requires Valid()
      modifies this
      ensures At(old(Final()), old(|code|) + 3, old(open), old(jumps))
      ensures Is(Final(), old(|code|), Do1(NewRegexp(x, flags), 0), old(|code|) + 3)
    {
      hide Is, Decode, Valid;
      EmitWord(Op(OpNewRegexp), Op(OpNewRegexp));
      var k := AddString(x);
      EmitWord(Arg(k), Arg(k));
      EmitWord(Arg(flags), Arg(flags));
      TableIs(Final(), |code| - 3, k);
    }

    /** `emitnumber` */
    method EmitNumber(n: Number)
      requires Valid()
      modifies this
      ensures At(old(Final()), old(|code|) + SizeNum(n), old(open), old(jumps))
      ensures CodedNum(Final(), n, old(|code|))
    {
      hide Is, Decode, Valid;
      ghost var a := |code|;
      if IsZero(n) {
        Emit(OpNumber0);
        ghost var f := Final();
        if n.neg {
          Emit(OpUnary(Neg));
          ExtendsGrows(f, Final());
        }
      } else if n == Whole(1) {
        Emit(OpNumber1);
      } else if IsShort(n) {
        EmitNumbered(OpNumberPos, n.mag.Floor);
      } else if IsShort(Minus(n)) {
        EmitNumbered(OpNumberNeg, n.mag.Floor);
      } else {
        EmitWord(Op(OpNumber), Op(OpNumber));
        var k := AddNumber(n);
        EmitWord(Arg(k), Arg(k));
        TableIs(Final(), a, k);
      }
    }

    /** `emitjump`; the target is known to the proof only. */
    method EmitJump(op: OpCode, ghost target: nat) returns (inst: nat)
      requires Valid() && Numbered(op, target).Some?
      modifies this
      ensures Valid() && Extends(old(Final()), Final()) && |code| == |Final().code| == old(|code|) + 2
        && jumps == old(jumps)
      ensures inst == old(|code|) + 1 && Final().code[inst] == Arg(target) && open <= old(open) + {inst}
        && old(open) <= open && inst !in old(open)
      ensures OpenedBy(old(open), open, inst)
      ensures Is(Final(), old(|code|), Numbered(op, target).value, old(|code|) + 2)
    {
      hide Numbered, Is, Decode, Valid;
      Even();
      EmitWord(Op(op), Op(op));
      inst := |code|;
      EmitWord(Arg(0), Arg(target));
      NumberedIs(Final(), |code| - 2, op, target);
    }

    /** `labelto` */
    method LabelTo(inst: nat, addr: nat)
      requires Valid() && inst < |code| && Final().code[inst] == Arg(addr)
      modifies this
      ensures Valid() && Final() == old(Final()) && |code| == |Final().code| == old(|code|)
        && open == old(open) - {inst} && jumps == old(jumps)
      ensures own == old(own)
    {
      if addr >= 0x1_0000 {
        overflow := true;
        assert Big(view[inst]);
      }
      code := code[inst := Arg(addr)];
      open := open - {inst};
    }

    /** `findlocal` */
    method LocalOf(x: Name) returns (k: Option<nat>)
      ensures k == FindLocal(names.vartab, x)
    {
      var i := |names.vartab|;
      assert names.vartab[..i] == names.vartab;
      while i > 0
        invariant 0 <= i <= |names.vartab| && FindLocal(names.vartab, x) == FindLocal(names.vartab[..i], x)
      {
        assert names.vartab[..i][..i - 1] == names.vartab[..i - 1];
        if names.vartab[i - 1] == x { return Some(i); }
        i := i - 1;
      }
      return None;
    }

    /** `emitlocal` */
    method EmitLocal(local: OpCode, global: OpCode, x: Name)
      requires Valid() && Named(global, x).Some? && forall k: nat :: Numbered(local, k).Some?
      modifies this
      ensures At(old(Final()), old(|code|) + 2, old(open), old(jumps))
      ensures Is(Final(), old(|code|),
        match Slot(names, x) { case Some(k) => Numbered(local, k).value case None => Named(global, x).value },
          old(|code|) + 2)
    {
      hide Numbered, Named, Is, Decode, Valid, FindLocal;
      if names.lightweight {
        var k := LocalOf(x);
        if k.Some? {
          EmitNumbered(local, k.value);
          return;
        }
      }
      EmitString(global, x);
    }

    // ----- expressions -----

    ghost predicate ExpAt(f: Fn, e: Exp, a: nat, op: set<nat>, js: seq<seq<JumpTo>>)
      reads this
    {
      At(f, a + SizeE(e), op, js) && Coded(Final(), names, e, a)
    }

    /** `cexp` */
    method Expression(e: Exp) returns (o: Status)
      requires Valid()
      modifies this
      ensures o.Pass? ==> ExpAt(old(Final()), e, old(|code|), old(open), old(jumps))
      ensures o.Fail? ==> !Accepted(e)
      decreases e, 9
    {
      hide Is, Decode, Valid, Simple, Numbered, Named, Coded, SizeE, Accepted, Extends, Final;
      match e
      case ObjLit(_) => o := ObjectLiteral(e);
      case ArrLit(_) => o := ArrayLiteral(e);
      case Index(_, _) => o := PropertyValue(e);
      case Member(_, _) => o := PropertyValue(e);
      case Call(_, _) => o := CallOf(e);
      case New(_, _) => o := NewOf(e);
      case Delete(_) => o := DeleteOf(e);
      case Typeof(_) => o := TypeofOf(e);
      case Void(_) => o := VoidOf(e);
      case Crement(_, _, _) => o := CrementOf(e);
      case Unary(_, _) => o := UnaryOf(e);
      case Binary(_, _, _) => o := BinaryOf(e);
      case Assign(_, _) => o := AssignOf(e);
      case AssignOp(_, _, _) => o := AssignOpOf(e);
      case Comma(_, _) => o := CommaOf(e);
      case LogOr(_, _) => o := ElseOf(e);
      case LogAnd(_, _) => o := ElseOf(e);
      case Cond(_, _, _) => o := CondOf(e);
      case _ =>
        Literal(e);
        o := Pass;
    }

    method Literal(e: Exp)
      requires Valid()
      requires e.StrLit? || e.NumLit? || e.UndefLit? || e.NullLit? || e.TrueLit? || e.FalseLit? || e.This?
        || e.RegexpLit? || e.FunLit? || e.Ident?
      modifies this
      ensures ExpAt(old(Final()), e, old(|code|), old(open), old(jumps))
    {
      hide Is, Decode, Valid, Coded, SizeE, Extends;
      Order();
      ghost var a := |code|;
      match e {
        case StrLit(x) => EmitString(OpString, x);
        case NumLit(n) => EmitNumber(n);
        case UndefLit => Emit(OpUndef);
        case NullLit => Emit(OpNull);
        case TrueLit => Emit(OpTrue);
        case FalseLit => Emit(OpFalse);
        case This => Emit(OpThis);
        case RegexpLit(x, flags) => EmitRegexp(x, flags);
        case FunLit(fun) => EmitFunction(fun);
        case Ident(x) => EmitLocal(OpGetLocal, OpGetVar, x);
      }
      CodedDef(Final(), names, e, a);
    }

    /** `cunary` */
    method UnaryOf(e: Exp) returns (o: Status)
      requires Valid() && e.Unary?
      modifies this
      ensures o.Pass? ==> ExpAt(old(Final()), e, old(|code|), old(open), old(jumps))
      ensures o.Fail? ==> !Accepted(e)
      decreases e, 1
    {
      hide Is, Decode, Valid, Simple, Numbered, Named, Coded, SizeE, Accepted, Extends, Final;
      StackCodes(); PropertyCodes(); ValueCodes(); OperatorCodes(); NumberedCodes(); NamedCodes();
      Even();
      ghost var a := |code|;
      AcceptedDef(e);
      :- Expression(e.a);
      ghost var f := Final();
      Emit(OpUnary(e.u));
      Follows(f, Final());
      Then(old(Final()), f, Final());
      Kept(f, Final(), names, e.a, a);
      CodedDef(Final(), names, e, a);
      o := Pass;
    }

    /** `cbinary` */
    method BinaryOf(e: Exp) returns (o: Status)
      requires Valid() && e.Binary?
      modifies this
      ensures o.Pass? ==> ExpAt(old(Final()), e, old(|code|), old(open), old(jumps))
      ensures o.Fail? ==> !Accepted(e)
      decreases e, 1
    {
      hide Is, Decode, Valid, Simple, Numbered, Named, Coded, SizeE, Accepted, Extends, Final;
      StackCodes(); PropertyCodes(); ValueCodes(); OperatorCodes(); NumberedCodes(); NamedCodes();
      Even();
      ghost var a := |code|;
      AcceptedDef(e);
      :- Expression(e.a);
      ghost var f := Final();
      :- Expression(e.b);
      ghost var g := Final();
      Emit(OpBinary(e.op));
      Follows(g, Final());
      Then(f, g, Final());
      Then(old(Final()), f, Final());
      Kept(f, Final(), names, e.a, a);
      Kept(g, Final(), names, e.b, a + SizeE(e.a));
      CodedDef(Final(), names, e, a);
      o := Pass;
    }

    method VoidOf(e: Exp) returns (o: Status)
      requires Valid() && e.Void?
      modifies this
      ensures o.Pass? ==> ExpAt(old(Final()), e, old(|code|), old(open), old(jumps))
      ensures o.Fail? ==> !Accepted(e)
      decreases e, 1
    {
      hide Is, Decode, Valid, Simple, Numbered, Named, Coded, SizeE, Accepted, Extends, Final;
      StackCodes(); PropertyCodes(); ValueCodes(); OperatorCodes(); NumberedCodes(); NamedCodes();
      Even();
      ghost var a := |code|;
      AcceptedDef(e);
      :- Expression(e.a);
      ghost var f := Final();
      Emit(OpPop);
      ghost var g := Final();
      Emit(OpUndef);
      Follows(g, Final());
      Then(f, g, Final());
      Then(old(Final()), f, Final());
      Kept(f, Final(), names, e.a, a);
      CodedDef(Final(), names, e, a);
      o := Pass;
    }

    method CommaOf(e: Exp) returns (o: Status)
      requires Valid() && e.Comma?
      modifies this
      ensures o.Pass? ==> ExpAt(old(Final()), e, old(|code|), old(open), old(jumps))
      ensures o.Fail? ==> !Accepted(e)
      decreases e, 1
    {
      hide Is, Decode, Valid, Simple, Numbered, Named, Coded, SizeE, Accepted, Extends, Final;
      StackCodes(); PropertyCodes(); ValueCodes(); OperatorCodes(); NumberedCodes(); NamedCodes();
      Even();
      ghost var a := |code|;
      AcceptedDef(e);
      :- Expression(e.a);
      ghost var f := Final();
      Emit(OpPop);
      ghost var g := Final();
      :- Expression(e.b);
      Follows(g, Final());
      Then(f, g, Final());
      Then(old(Final()), f, Final());
      Kept(f, Final(), names, e.a, a);
      CodedDef(Final(), names, e, a);
      o := Pass;
    }

    /** || and && */
    method ElseOf(e: Exp) returns (o: Status)
      requires Valid() && (e.LogOr? || e.LogAnd?)
      modifies this
      ensures o.Pass? ==> ExpAt(old(Final()), e, old(|code|), old(open), old(jumps))
      ensures o.Fail? ==> !Accepted(e)
      decreases e, 1
    {
      hide Is, Decode, Valid, Coded, SizeE, Accepted, Extends, Final, Grows, Simple, Numbered, CodedNode;
      hide SizeNode, AcceptedNode, Last, CodedElse;
      ElseParts(e);
      ghost var a := |code|;
      :- Expression(e.a);
      ghost var f := Final();
      :- Instead(e.b, if e.LogOr? then OpJTrue else OpJFalse);
      ghost var l := Final();
      Kept2(old(Final()), f, l, names, e.a, a);
      ElseCoded(l, names, e, a);
      o := Pass;
    }

    static lemma {:induction false} ElseParts(e: Exp)
      requires e.LogOr? || e.LogAnd?
      ensures Accepted(e) == (Accepted(e.a) && Accepted(e.b))
    {
      hide Accepted;
      AcceptedDef(e);
    }

    static lemma {:induction false} ElseCoded(f: Fn, ns: Names, e: Exp, a: nat)
      requires (e.LogOr? || e.LogAnd?) && Coded(f, ns, e.a, a)
      requires var p, end := a + SizeE(e.a), a + SizeE(e.a) + 4 + SizeE(e.b);
        && Is(f, p, Dup, p + 1) && Is(f, p + 1, if e.LogOr? then JTrue(end) else JFalse(end), p + 3)
        && Is(f, p + 3, Pop, p + 4) && Coded(f, ns, e.b, p + 4)
      ensures Coded(f, ns, e, a) && SizeE(e) == SizeE(e.a) + 4 + SizeE(e.b)
    {
      hide Is, Coded, SizeE;
      CodedDef(f, ns, e, a);
    }

    /** A value is kept, or dropped for that of e. */
    method Instead(e: Exp, jump: OpCode) returns (o: Status)
      requires Valid() && (jump == OpJTrue || jump == OpJFalse)
      modifies this
      ensures o.Pass? ==> At(old(Final()), old(|code|) + 4 + SizeE(e), old(open), old(jumps))
      ensures o.Pass? ==>
        var p, end := old(|code|), old(|code|) + 4 + SizeE(e);
        && Is(Final(), p, Dup, p + 1) && Is(Final(), p + 1, if jump == OpJTrue then JTrue(end) else JFalse(end), p + 3)
        && Is(Final(), p + 3, Pop, p + 4) && Coded(Final(), names, e, p + 4)
      ensures o.Fail? ==> !Accepted(e)
      decreases e, 11
    {
      hide Is, Decode, Valid, Coded, SizeE, Accepted, Extends, Final, Grows, Simple, Numbered;
      StackCodes();
      ghost var p := |code|;
      Emit(OpDup);
      ghost var g := Final();
      :- Skip(e, jump);
      Follows(g, Final());
      Then(old(Final()), g, Final());
      Stands(g, Final(), p, Dup, p + 1);
      o := Pass;
    }

    /** A jump over dropping a value and evaluating e instead. */
    method Skip(e: Exp, jump: OpCode) returns (o: Status)
      requires Valid() && (jump == OpJTrue || jump == OpJFalse)
      modifies this
      ensures o.Pass? ==> At(old(Final()), old(|code|) + 3 + SizeE(e), old(open), old(jumps))
      ensures o.Pass? ==>
        var a, target := old(|code|), old(|code|) + 3 + SizeE(e);
        && Is(Final(), a, if jump == OpJTrue then JTrue(target) else JFalse(target), a + 2)
        && Is(Final(), a + 2, Pop, a + 3) && Coded(Final(), names, e, a + 3)
      ensures o.Fail? ==> !Accepted(e)
      decreases e, 10
    {
      hide Is, Decode, Valid, Coded, SizeE, Accepted, Extends, Final, Grows, Simple, Numbered, Last, OpenedBy;
      NumberedCodes();
      ghost var a := |code|;
      ghost var target := a + 3 + SizeE(e);
      Even();
      var end := EmitJump(jump, target);
      ghost var h := Final();
      :- Replaced(e);
      ghost var l := Final();
      Follows(h, l);
      Then(old(Final()), h, l);
      WordStays(h, l, end);
      LabelTo(end, |code|);
      Stands(h, l, a, Numbered(jump, target).value, a + 2);
      o := Pass;
    }

    /** A value is dropped for that of e. */
    method Replaced(e: Exp) returns (o: Status)
      requires Valid()
      modifies this
      ensures o.Pass? ==> At(old(Final()), old(|code|) + 1 + SizeE(e), old(open), old(jumps))
      ensures o.Pass? ==>
        Is(Final(), old(|code|), Pop, old(|code|) + 1) && Coded(Final(), names, e, old(|code|) + 1)
      ensures o.Fail? ==> !Accepted(e)
      decreases e, 10, 0
    {
      hide Is, Decode, Valid, Coded, SizeE, Accepted, Extends, Final, Grows, Simple, Numbered, Last;
      StackCodes();
      ghost var a := |code|;
      Emit(OpPop);
      ghost var k := Final();
      :- Expression(e);
      Follows(k, Final());
      Then(old(Final()), k, Final());
      Stands(k, Final(), a, Pop, a + 1);
      o := Pass;
    }

    method CondOf(e: Exp) returns (o: Status)
      requires Valid() && e.Cond?
      modifies this
      ensures o.Pass? ==> ExpAt(old(Final()), e, old(|code|), old(open), old(jumps))
      ensures o.Fail? ==> !Accepted(e)
      decreases e, 1
    {
      hide Is, Decode, Valid, Coded, SizeE, Accepted, Extends, Final, Grows, Simple, Numbered;
      NumberedCodes();
      Even();
      ghost var a := |code|;
      AcceptedDef(e);
      :- Expression(e.a);
      ghost var f := Final();
      ghost var p := |code| + 2;
      ghost var q := p + SizeE(e.c);
      var other := EmitJump(OpJTrue, q + 2);
      ghost var g := Final();
      :- Expression(e.c);
      ghost var h := Final();
      Follows(g, h);
      WordStays(g, h, other);
      :- Otherwise(e.b, other);
      ghost var l := Final();
      Follows(h, l);
      Then(g, h, l);
      Then(f, g, l);
      Then(old(Final()), f, l);
      Kept(f, l, names, e.a, a);
      Kept(h, l, names, e.c, p);
      Stands(g, l, p - 2, JTrue(q + 2), p);
      CodedDef(l, names, e, a);
      o := Pass;
    }

    /** A jump over the other alternative e, which starts where `other` jumps to. */
    method Otherwise(e: Exp, other: nat) returns (o: Status)
      requires Valid() && other < |code| && Final().code[other] == Arg(|code| + 2)
      modifies this
      ensures o.Pass? ==> At(old(Final()), old(|code|) + 2 + SizeE(e), old(open) - {other}, old(jumps))
      ensures o.Pass? ==> var a := old(|code|);
        Is(Final(), a, Jump(a + 2 + SizeE(e)), a + 2) && Coded(Final(), names, e, a + 2)
      ensures o.Fail? ==> !Accepted(e)
      decreases e, 10
    {
      hide Is, Decode, Valid, Coded, SizeE, Accepted, Extends, Final, Grows, Simple, Numbered;
      NumberedCodes();
      Even();
      ghost var a := |code|;
      var end := EmitJump(OpJump, a + 2 + SizeE(e));
      ghost var k := Final();
      Follows(old(Final()), k);
      WordStays(old(Final()), k, other);
      LabelTo(other, |code|);
      :- Expression(e);
      ghost var l := Final();
      Follows(k, l);
      Then(old(Final()), k, l);
      WordStays(k, l, end);
      LabelTo(end, |code|);
      Stands(k, l, a, Jump(a + 2 + SizeE(e)), a + 2);
      o := Pass;
    }

    /** `ctypeof` */
    method TypeofOf(e: Exp) returns (o: Status)
      requires Valid() && e.Typeof?
      modifies this
      ensures o.Pass? ==> ExpAt(old(Final()), e, old(|code|), old(open), old(jumps))
      ensures o.Fail? ==> !Accepted(e)
      decreases e, 1
    {
      hide Is, Decode, Valid, Simple, Numbered, Named, Coded, SizeE, Accepted, Extends, Final;
      StackCodes(); PropertyCodes(); ValueCodes(); OperatorCodes(); NumberedCodes(); NamedCodes();
      Even();
      ghost var a := |code|;
      AcceptedDef(e);
      if e.a.Ident? {
        CodedDef(Final(), names, e.a, a);
        EmitLocal(OpGetLocal, OpHasVar, e.a.x);
      } else {
        :- Expression(e.a);
      }
      ghost var f := Final();
      Emit(OpTypeof);
      Follows(f, Final());
      Then(old(Final()), f, Final());
      if !e.a.Ident? { Kept(f, Final(), names, e.a, a); }
      CodedDef(Final(), names, e, a);
      o := Pass;
    }

    // ----- references -----

    /** The operands of a reference. */
    method Reference(e: Exp) returns (o: Status)
      requires Valid()
      modifies this
      ensures o.Pass? ==>
        At(old(Final()), old(|code|) + SizeRef(e), old(open), old(jumps)) && CodedRef(Final(), names, e, old(|code|))
      ensures o.Fail? ==> !AcceptedRef(e)
      decreases e, 0
    {
      hide Is, Decode, Valid, Simple, Numbered, Named, Coded, SizeE, Accepted, Extends, Final;
      StackCodes(); PropertyCodes(); ValueCodes(); OperatorCodes(); NumberedCodes(); NamedCodes();
      Order();
      Even();
      ghost var a := |code|;
      match e {
        case Ident(_) =>
        case Index(x, y) =>
          :- Expression(x);
          ghost var f := Final();
          :- Expression(y);
          Kept(f, Final(), names, x, a);
        case Member(x, _) =>
          :- Expression(x);
        case _ =>
          return Fail;
      }
      o := Pass;
    }

    lemma RefKept(f: Fn, g: Fn, e: Exp, a: nat)
      requires Extends(f, g) && CodedRef(f, names, e, a)
      ensures CodedRef(g, names, e, a)
    {
      ExtendsGrows(f, g);
      RefUp(f, g, names, e, a);
    }

    method PropertyValue(e: Exp) returns (o: Status)
      requires Valid() && (e.Index? || e.Member?)
      modifies this
      ensures o.Pass? ==> ExpAt(old(Final()), e, old(|code|), old(open), old(jumps))
      ensures o.Fail? ==> !Accepted(e)
      decreases e, 1
    {
      hide Is, Decode, Valid, Simple, Numbered, Named, Coded, SizeE, Accepted, Extends, Final, CodedRef;
      StackCodes(); PropertyCodes(); ValueCodes(); OperatorCodes(); NumberedCodes(); NamedCodes();
      Even();
      ghost var a := |code|;
      AcceptedDef(e);
      :- Reference(e);
      ghost var f := Final();
      if e.Index? { Emit(OpGetProp); } else { EmitString(OpGetPropS, e.x); }
      Follows(f, Final());
      Then(old(Final()), f, Final());
      RefKept(f, Final(), e, a);
      CodedDef(Final(), names, e, a);
      o := Pass;
    }

    /** `cdelete` */
    method DeleteOf(e: Exp) returns (o: Status)
      requires Valid() && e.Delete?
      modifies this
      ensures o.Pass? ==> ExpAt(old(Final()), e, old(|code|), old(open), old(jumps))
      ensures o.Fail? ==> !Accepted(e)
      decreases e, 1
    {
      hide Is, Decode, Valid, Simple, Numbered, Named, Coded, SizeE, Accepted, Extends, Final;
      StackCodes(); PropertyCodes(); ValueCodes(); OperatorCodes(); NumberedCodes(); NamedCodes();
      Even();
      ghost var a := |code|;
      AcceptedDef(e);
      :- Reference(e.a);
      ghost var f := Final();
      if e.a.Ident? { EmitLocal(OpDelLocal, OpDelVar, e.a.x); }
      else if e.a.Index? { Emit(OpDelProp); }
      else { EmitString(OpDelPropS, e.a.x); }
      Follows(f, Final());
      Then(old(Final()), f, Final());
      RefKept(f, Final(), e.a, a);
      CodedDef(Final(), names, e, a);
      o := Pass;
    }

    /** `cassignop1` */
    method OldValue(e: Exp) returns (o: Status)
      requires Valid()
      modifies this
      ensures o.Pass? ==>
        At(old(Final()), old(|code|) + SizeOld(e), old(open), old(jumps)) && CodedOld(Final(), names, e, old(|code|))
      ensures o.Fail? ==> !AcceptedRef(e)
      decreases e, 1
    {
      hide Is, Decode, Valid, Simple, Numbered, Named, Coded, SizeE, Accepted, Extends, Final;
      StackCodes(); PropertyCodes(); ValueCodes(); OperatorCodes(); NumberedCodes(); NamedCodes();
      Order();
      Even();
      ghost var a := |code|;
      if e.Ident? {
        EmitLocal(OpGetLocal, OpGetVar, e.x);
      } else {
        :- Reference(e);
        ghost var f := Final();
        if e.Index? { Emit(OpDup2); } else { Emit(OpDup); }
        ghost var g := Final();
        if e.Index? { Emit(OpGetProp); } else { EmitString(OpGetPropS, e.x); }
        RefKept(f, Final(), e, a);
      }
      o := Pass;
    }

    /** `cassignop2`, after `cassignop1` has found e to be a reference. */
    method PutValue(e: Exp, post: bool)
      requires Valid() && IsRef(e)
      modifies this
      ensures At(old(Final()), old(|code|) + SizePut(e, post), old(open), old(jumps))
      ensures CodedPut(Final(), names, e, post, old(|code|))
    {
      hide Is, Decode, Valid, Simple, Numbered, Named, Extends;
      StackCodes(); PropertyCodes(); ValueCodes(); OperatorCodes(); NumberedCodes(); NamedCodes();
      Even();
      if post {
        if e.Ident? { Emit(OpRot2); } else if e.Index? { Emit(OpRot4); } else { Emit(OpRot3); }
      }
      ghost var f := Final();
      if e.Ident? { EmitLocal(OpSetLocal, OpSetVar, e.x); }
      else if e.Index? { Emit(OpSetProp); }
      else { EmitString(OpSetPropS, e.x); }
      Follows(f, Final());
      Then(old(Final()), f, Final());
    }

    lemma OldKept(f: Fn, g: Fn, e: Exp, a: nat)
      requires Extends(f, g) && CodedOld(f, names, e, a)
      ensures CodedOld(g, names, e, a) && IsRef(e)
    {
      ExtendsGrows(f, g);
      OldUp(f, g, names, e, a);
    }

    lemma PutKept(f: Fn, g: Fn, e: Exp, post: bool, a: nat)
      requires Extends(f, g) && CodedPut(f, names, e, post, a)
      ensures CodedPut(g, names, e, post, a)
    {
      ExtendsGrows(f, g);
    }

    method CrementOf(e: Exp) returns (o: Status)
      requires Valid() && e.Crement?
      modifies this
      ensures o.Pass? ==> ExpAt(old(Final()), e, old(|code|), old(open), old(jumps))
      ensures o.Fail? ==> !Accepted(e)
      decreases e, 1
    {
      hide Is, Decode, Valid, Simple, Numbered, Named, Coded, SizeE, Accepted, Extends, Final, CodedOld, CodedPut;
      StackCodes(); PropertyCodes(); ValueCodes(); OperatorCodes(); NumberedCodes(); NamedCodes();
      Even();
      ghost var a := |code|;
      AcceptedDef(e);
      :- OldValue(e.a);
      ghost var f := Final();
      OldKept(f, f, e.a, a);
      Emit(OpCrement(e.inc, e.post));
      ghost var g := Final();
      PutValue(e.a, e.post);
      ghost var h := Final();
      if e.post { Emit(OpPop); }
      Follows(h, Final());
      Then(g, h, Final());
      Then(f, g, Final());
      Then(old(Final()), f, Final());
      OldKept(f, Final(), e.a, a);
      PutKept(h, Final(), e.a, e.post, a + SizeOld(e.a) + 1);
      CodedDef(Final(), names, e, a);
      o := Pass;
    }

    /** `cassign` */
    method AssignOf(e: Exp) returns (o: Status)
      requires Valid() && e.Assign?
      modifies this
      ensures o.Pass? ==> ExpAt(old(Final()), e, old(|code|), old(open), old(jumps))
      ensures o.Fail? ==> !Accepted(e)
      decreases e, 1
    {
      hide Is, Decode, Valid, Simple, Numbered, Named, Coded, SizeE, Accepted, Extends, Final, CodedPut;
      StackCodes(); PropertyCodes(); ValueCodes(); OperatorCodes(); NumberedCodes(); NamedCodes();
      Even();
      ghost var a := |code|;
      AcceptedDef(e);
      :- Reference(e.a);
      ghost var f := Final();
      :- Expression(e.b);
      ghost var g := Final();
      PutValue(e.a, false);
      Follows(g, Final());
      Then(f, g, Final());
      Then(old(Final()), f, Final());
      RefKept(f, Final(), e.a, a);
      Kept(g, Final(), names, e.b, a + SizeRef(e.a));
      CodedDef(Final(), names, e, a);
      o := Pass;
    }

    /** `cassignop` */
    method AssignOpOf(e: Exp) returns (o: Status)
      requires Valid() && e.AssignOp?
      modifies this
      ensures o.Pass? ==> ExpAt(old(Final()), e, old(|code|), old(open), old(jumps))
      ensures o.Fail? ==> !Accepted(e)
      decreases e, 1
    {
      hide Is, Decode, Valid, Simple, Numbered, Named, Coded, SizeE, Accepted, Extends, Final, CodedOld, CodedPut;
      StackCodes(); PropertyCodes(); ValueCodes(); OperatorCodes(); NumberedCodes(); NamedCodes();
      Even();
      ghost var a := |code|;
      AcceptedDef(e);
      :- OldValue(e.a);
      ghost var f := Final();
      OldKept(f, f, e.a, a);
      :- Expression(e.b);
      ghost var g := Final();
      Emit(OpBinary(e.op));
      ghost var h := Final();
      PutValue(e.a, false);
      Follows(h, Final());
      Then(g, h, Final());
      Then(f, g, Final());
      Then(old(Final()), f, Final());
      OldKept(f, Final(), e.a, a);
      Kept(g, Final(), names, e.b, a + SizeOld(e.a));
      CodedDef(Final(), names, e, a);
      o := Pass;
    }

    // ----- calls -----

    /** `cargs` */
    method Arguments(args: Exps) returns (o: Status, n: nat)
      requires Valid()
      modifies this
      ensures o.Pass? ==>
        At(old(Final()), old(|code|) + SizeArgs(args), old(open), old(jumps))
        && CodedArgs(Final(), names, args, old(|code|))
      ensures o.Pass? ==> n == Length(args)
      ensures o.Fail? ==> !AcceptedArgs(args)
      decreases args, 0
    {
      hide Is, Decode, Valid, Simple, Numbered, Named, Coded, SizeE, Accepted, Extends, Final;
      StackCodes(); PropertyCodes(); ValueCodes(); OperatorCodes(); NumberedCodes(); NamedCodes();
      Order();
      Even();
      ghost var a := |code|;
      n := 0;
      if args.Exps? {
        :- Expression(args.head);
        ghost var f := Final();
        var m :- Arguments(args.tail);
        Kept(f, Final(), names, args.head, a);
        n := 1 + m;
      }
      o := Pass;
    }

    lemma ArgsKept(f: Fn, g: Fn, args: Exps, a: nat)
      requires Extends(f, g) && CodedArgs(f, names, args, a)
      ensures CodedArgs(g, names, args, a)
    {
      ExtendsGrows(f, g);
      ArgsUp(f, g, names, args, a);
    }

    method NewOf(e: Exp) returns (o: Status)
      requires Valid() && e.New?
      modifies this
      ensures o.Pass? ==> ExpAt(old(Final()), e, old(|code|), old(open), old(jumps))
      ensures o.Fail? ==> !Accepted(e)
      decreases e, 1
    {
      hide Is, Decode, Valid, Simple, Numbered, Named, Coded, SizeE, Accepted, Extends, Final, CodedArgs;
      hide SizeArgs, AcceptedArgs;
      StackCodes(); PropertyCodes(); ValueCodes(); OperatorCodes(); NumberedCodes(); NamedCodes();
      Even();
      ghost var a := |code|;
      AcceptedDef(e);
      :- Expression(e.f);
      ghost var f := Final();
      var n :- Arguments(e.args);
      ghost var g := Final();
      EmitNumbered(OpNew, n);
      Follows(g, Final());
      Then(f, g, Final());
      Then(old(Final()), f, Final());
      Kept(f, Final(), names, e.f, a);
      ArgsKept(g, Final(), e.args, a + SizeE(e.f));
      CodedDef(Final(), names, e, a);
      o := Pass;
    }

    /** `ccall` */
    method CallOf(e: Exp) returns (o: Status)
      requires Valid() && e.Call?
      modifies this
      ensures o.Pass? ==> ExpAt(old(Final()), e, old(|code|), old(open), old(jumps))
      ensures o.Fail? ==> !Accepted(e)
      decreases e, 1
    {
      hide Is, Decode, Valid, Simple, Numbered, Named, Coded, SizeE, Accepted, Extends, Final, CodedArgs;
      hide SizeArgs, AcceptedArgs, CodedCallee, SizeCallee;
      StackCodes(); PropertyCodes(); ValueCodes(); OperatorCodes(); NumberedCodes(); NamedCodes();
      Order();
      Even();
      ghost var a := |code|;
      AcceptedDef(e);
      CodedDef(Final(), names, e, a);
      if e.f == Ident("eval") {
        :- EvalOf(e);
      } else {
        :- Callee(e.f);
        ghost var f := Final();
        var n :- Arguments(e.args);
        ghost var g := Final();
        EmitNumbered(OpCall, n);
        CalleeUp(f, Final(), names, e.f, a);
        ArgsKept(g, Final(), e.args, a + SizeCallee(e.f));
      }
      CodedDef(Final(), names, e, a);
      o := Pass;
    }

    /** The function, and its `this`. */
    method Callee(e: Exp) returns (o: Status)
      requires Valid()
      modifies this
      ensures o.Pass? ==>
        At(old(Final()), old(|code|) + SizeCallee(e), old(open), old(jumps))
        && CodedCallee(Final(), names, e, old(|code|))
      ensures o.Fail? ==> !Accepted(e)
      decreases e, 10
    {
      hide Is, Decode, Valid, Simple, Numbered, Named, Coded, SizeE, Accepted, Extends, Final, Grows;
      hide CodedCallee, SizeCallee;
      if e.Index? {
        o := IndexCallee(e);
      } else if e.Member? {
        o := MemberCallee(e);
      } else {
        o := PlainCallee(e);
      }
    }

    lemma {:induction false} PlainCoded(f: Fn, e: Exp, a: nat)
      requires !e.Index? && !e.Member? && Coded(f, names, e, a)
      requires Is(f, a + SizeE(e), Push(Undefined), a + SizeE(e) + 1)
      ensures CodedCallee(f, names, e, a) && SizeCallee(e) == SizeE(e) + 1
    {
      hide Is, Coded, SizeE;
    }

    method PlainCallee(e: Exp) returns (o: Status)
      requires Valid() && !e.Index? && !e.Member?
      modifies this
      ensures o.Pass? ==>
        At(old(Final()), old(|code|) + SizeCallee(e), old(open), old(jumps))
        && CodedCallee(Final(), names, e, old(|code|))
      ensures o.Fail? ==> !Accepted(e)
      decreases e, 10, 0
    {
      hide Is, Decode, Valid, Simple, Numbered, Named, Coded, SizeE, Accepted, Extends, Final, Grows;
      hide CodedCallee, SizeCallee;
      ValueCodes();
      ghost var a := |code|;
      :- Expression(e);
      ghost var f := Final();
      Emit(OpUndef);
      Follows(f, Final());
      Then(old(Final()), f, Final());
      Kept(f, Final(), names, e, a);
      PlainCoded(Final(), e, a);
      o := Pass;
    }

    method MemberCallee(e: Exp) returns (o: Status)
      requires Valid() && e.Member?
      modifies this
      ensures o.Pass? ==>
        At(old(Final()), old(|code|) + SizeCallee(e), old(open), old(jumps))
        && CodedCallee(Final(), names, e, old(|code|))
      ensures o.Fail? ==> !Accepted(e)
      decreases e, 1
    {
      hide Is, Decode, Valid, Simple, Numbered, Named, Coded, SizeE, Accepted, Extends, Final, Grows;
      StackCodes(); NamedCodes();
      ghost var a := |code|;
      AcceptedDef(e);
      :- Expression(e.a);
      ghost var f := Final();
      Emit(OpDup);
      ghost var g := Final();
      EmitString(OpGetPropS, e.x);
      ghost var h := Final();
      Emit(OpRot2);
      Follows(h, Final());
      Then(g, h, Final());
      Then(f, g, Final());
      Then(old(Final()), f, Final());
      Kept(f, Final(), names, e.a, a);
      ghost var p := a + SizeE(e.a);
      Stands(g, Final(), p, Dup, p + 1);
      Stands(h, Final(), p + 1, Do1(GetMember(e.x), 1), p + 3);
      o := Pass;
    }

    method IndexCallee(e: Exp) returns (o: Status)
      requires Valid() && e.Index?
      modifies this
      ensures o.Pass? ==>
        At(old(Final()), old(|code|) + SizeCallee(e), old(open), old(jumps))
        && CodedCallee(Final(), names, e, old(|code|))
      ensures o.Fail? ==> !Accepted(e)
      decreases e, 1
    {
      hide Is, Decode, Valid, Simple, Numbered, Named, Coded, SizeE, Accepted, Extends, Final, Grows;
      StackCodes(); PropertyCodes();
      ghost var a := |code|;
      AcceptedDef(e);
      :- Expression(e.a);
      ghost var f := Final();
      Emit(OpDup);
      ghost var g := Final();
      :- Expression(e.b);
      ghost var h := Final();
      Emit(OpGetProp);
      ghost var k := Final();
      Emit(OpRot2);
      Follows(k, Final());
      Then(h, k, Final());
      Then(g, h, Final());
      Then(f, g, Final());
      Then(old(Final()), f, Final());
      Kept(f, Final(), names, e.a, a);
      ghost var p := a + SizeE(e.a);
      Kept(h, Final(), names, e.b, p + 1);
      Stands(g, Final(), p, Dup, p + 1);
      Stands(k, Final(), p + 1 + SizeE(e.b), Do1(GetProp, 2), p + 2 + SizeE(e.b));
      o := Pass;
    }

    /** `ceval` */
    method EvalOf(e: Exp) returns (o: Status)
      requires Valid() && e.Call? && e.f == Ident("eval")
      modifies this
      ensures o.Pass? ==>
        At(old(Final()), old(|code|) + SizeNode(e), old(open), old(jumps)) && CodedCall(Final(), names, e, old(|code|))
      ensures o.Fail? ==> !AcceptedArgs(e.args)
      decreases e, 0
    {
      hide Is, Decode, Valid, Simple, Numbered, Named, Coded, SizeE, Accepted, Extends, Final, CodedArgs;
      hide SizeArgs, AcceptedArgs;
      StackCodes(); PropertyCodes(); ValueCodes(); OperatorCodes(); NumberedCodes(); NamedCodes();
      Order();
      Even();
      ghost var a := |code|;
      var n :- Arguments(e.args);
      ghost var f := Final();
      ghost var p := |code|;
      Even();
      if n == 0 {
        Emit(OpUndef);
      } else {
        var i := n;
        while i > 1
          invariant 1 <= i <= n && At(f, p + n - i, old(open), old(jumps))
          invariant Pops(Final(), p, n - i)
        {
          ghost var g := Final();
          Emit(OpPop);
          PopsUp(g, Final(), p, n - i);
          MorePops(Final(), p, n - i);
          i := i - 1;
        }
      }
      ghost var g := Final();
      Emit(OpEval);
      if n > 0 { PopsUp(g, Final(), p, n - 1); }
      ArgsKept(f, Final(), e.args, a);
      o := Pass;
    }

    static lemma {:induction false} MorePops(f: Fn, a: nat, n: nat)
      requires Pops(f, a, n) && Is(f, a + n, Pop, a + n + 1)
      ensures Pops(f, a, n + 1)
      decreases n
    {
      hide Is;
      if n > 0 { MorePops(f, a + 1, n - 1); }
    }

    // ----- object and array literals -----

    method ArrayLiteral(e: Exp) returns (o: Status)
      requires Valid() && e.ArrLit?
      modifies this
      ensures o.Pass? ==> ExpAt(old(Final()), e, old(|code|), old(open), old(jumps))
      ensures o.Fail? ==> !Accepted(e)
      decreases e, 1
    {
      hide Is, Decode, Valid, Simple, Numbered, Named, Coded, SizeE, Accepted, Extends, Final, CodedItems;
      hide SizeItems, AcceptedItems;
      StackCodes(); PropertyCodes(); ValueCodes(); OperatorCodes(); NumberedCodes(); NamedCodes();
      Even();
      ghost var a := |code|;
      AcceptedDef(e);
      Emit(OpNewArray);
      ghost var f := Final();
      :- Elements(e.items, 0);
      Follows(f, Final());
      Then(old(Final()), f, Final());
      CodedDef(Final(), names, e, a);
      o := Pass;
    }

    /** `carray` */
    method Elements(items: Items, k: nat) returns (o: Status)
      requires Valid()
      modifies this
      ensures o.Pass? ==>
        At(old(Final()), old(|code|) + SizeItems(items, k), old(open), old(jumps))
        && CodedItems(Final(), names, items, k, old(|code|))
      ensures o.Fail? ==> !AcceptedItems(items)
      decreases items, 0
    {
      hide Is, Decode, Valid, Simple, Numbered, Named, Coded, SizeE, Accepted, Extends, Final, CodedNum;
      StackCodes(); PropertyCodes(); ValueCodes(); OperatorCodes(); NumberedCodes(); NamedCodes();
      Order();
      Even();
      ghost var a := |code|;
      match items {
        case NoItems =>
        case Hole(rest) =>
          :- Elements(rest, k + 1);
        case Item(e, rest) =>
          EmitNumber(Whole(k));
          ghost var f := Final();
          :- Expression(e);
          ghost var g := Final();
          Emit(OpInitProp);
          ghost var h := Final();
          :- Elements(rest, k + 1);
          NumKept(f, Final(), Whole(k), a);
          Kept(g, Final(), names, e, a + SizeNum(Whole(k)));
      }
      o := Pass;
    }

    static lemma {:induction false} NumKept(f: Fn, g: Fn, n: Number, a: nat)
      requires Extends(f, g) && CodedNum(f, n, a)
      ensures CodedNum(g, n, a)
    {
      ExtendsGrows(f, g);
      hide Is;
    }

    method ObjectLiteral(e: Exp) returns (o: Status)
      requires Valid() && e.ObjLit?
      modifies this
      ensures o.Pass? ==> ExpAt(old(Final()), e, old(|code|), old(open), old(jumps))
      ensures o.Fail? ==> !Accepted(e)
      decreases e, 1
    {
      hide Is, Decode, Valid, Simple, Numbered, Named, Coded, SizeE, Accepted, Extends, Final, CodedProps;
      hide SizeProps, AcceptedProps;
      StackCodes(); PropertyCodes(); ValueCodes(); OperatorCodes(); NumberedCodes(); NamedCodes();
      Even();
      ghost var a := |code|;
      AcceptedDef(e);
      Emit(OpNewObject);
      ghost var f := Final();
      :- Properties(e.props);
      Follows(f, Final());
      Then(old(Final()), f, Final());
      CodedDef(Final(), names, e, a);
      o := Pass;
    }

    /** `cobject` */
    method Properties(props: Props) returns (o: Status)
      requires Valid()
      modifies this
      ensures o.Pass? ==>
        At(old(Final()), old(|code|) + SizeProps(props), old(open), old(jumps))
        && CodedProps(Final(), names, props, old(|code|))
      ensures o.Fail? ==> !AcceptedProps(props)
      decreases props, 0
    {
      hide Is, Decode, Valid, Simple, Numbered, Named, Coded, SizeE, Accepted, Extends, Final, CodedKind;
      StackCodes(); PropertyCodes(); ValueCodes(); OperatorCodes(); NumberedCodes(); NamedCodes();
      Order();
      Even();
      if props.Prop? {
        ghost var a := |code|;
        if !(props.key.StrLit? || props.key.NumLit?) { return Fail; }
        Literal(props.key);
        ghost var f := Final();
        :- PropertyOf(props.kind);
        ghost var g := Final();
        match props.kind {
          case PropVal(_) => Emit(OpInitProp);
          case PropGet(_) => Emit(OpInitGetter);
          case PropSet(_) => Emit(OpInitSetter);
        }
        ghost var h := Final();
        :- Properties(props.rest);
        Kept(f, Final(), names, props.key, a);
        KindUp(g, Final(), names, props.kind, a + SizeE(props.key));
      }
      o := Pass;
    }

    method PropertyOf(kind: PropKind) returns (o: Status)
      requires Valid()
      modifies this
      ensures o.Pass? ==>
        At(old(Final()), old(|code|) + SizeKind(kind), old(open), old(jumps))
        && CodedKind(Final(), names, kind, old(|code|))
      ensures o.Fail? ==> kind.PropVal? && !Accepted(kind.e)
      decreases kind, 0
    {
      hide Is, Decode, Valid, Simple, Numbered, Named, Coded, SizeE, Accepted, Extends, Final;
      StackCodes(); PropertyCodes(); ValueCodes(); OperatorCodes(); NumberedCodes(); NamedCodes();
      Order();
      Even();
      match kind {
        case PropVal(e) =>
          :- Expression(e);
        case PropGet(fun) => EmitFunction(fun);
        case PropSet(fun) => EmitFunction(fun);
      }
      o := Pass;
    }

    // ----- jumps out -----

    /** `cexit` for one node */
    method EmitLeave(way: Way, k: Kind, target: bool)
      requires Valid()
      modifies this
      ensures At(old(Final()), old(|code|) + SizeLeave(way, k, target), old(open), old(jumps))
      ensures CodedLeave(Final(), way, k, target, old(|code|))
    {
      hide Is, Decode, Valid, Extends, Grows;
      Even();
      match k {
        case ForInLoop =>
          if way.ByReturn? {
            Emit(OpRot2);
            ghost var f := Final();
            Emit(OpPop);
            Follows(f, Final());
            Then(old(Final()), f, Final());
            Stands(f, Final(), old(|code|), Rot2, old(|code|) + 1);
          } else if !Stays(way, k, target) {
            Emit(OpPop);
          }
        case WithNode => Emit(OpEndWith);
        case CatchBody => Emit(OpEndCatch);
        case TryBody => Emit(OpEndTry);
        case _ =>
      }
    }

    /** `cexit` */
    method EmitExit(way: Way, p: Path, k: nat)
      requires Valid()
      modifies this
      ensures At(old(Final()), old(|code|) + SizeExit(way, p, k), old(open), old(jumps))
      ensures CodedExit(Final(), way, p, k, old(|code|))
      decreases p
    {
      hide Is, Decode, Valid, Extends, Grows, CodedLeave, SizeLeave;
      Even();
      ghost var a := |code|;
      var node := p;
      while node.Inside?
        invariant At(old(Final()), |code|, old(open), old(jumps))
          && a + SizeExit(way, p, k) == |code| + SizeExit(way, node, k)
        invariant forall g: Fn {:trigger CodedExit(g, way, p, k, a)} ::
          Last(Final(), g) && CodedExit(g, way, node, k, |code|) ==> CodedExit(g, way, p, k, a)
        decreases node
      {
        ghost var f, b, q := Final(), |code|, node;
        EmitLeave(way, node.kind, Depth(node) == k);
        ghost var f1 := Final();
        Follows(f, f1);
        Then(old(Final()), f, f1);
        forall g: Fn | Last(f1, g) && (Depth(q) == k || CodedExit(g, way, q.up, k, |code|))
          ensures CodedExit(g, way, p, k, a)
        {
          Then(f, f1, g);
          LeaveKept(f1, g, way, q.kind, Depth(q) == k, b);
          assert CodedExit(g, way, q, k, b);
        }
        if Depth(node) == k { Follows(f1, f1); return; }
        node := node.up;
      }
      Follows(Final(), Final());
    }

    static lemma {:induction false} LeaveKept(f: Fn, g: Fn, way: Way, k: Kind, target: bool, a: nat)
      requires Last(f, g) && CodedLeave(f, way, k, target, a)
      ensures CodedLeave(g, way, k, target, a)
    {
      hide Is, Extends;
    }

    /** `addjump`, for the jump that is emitted at the same time. */
    method AddJump(isBreak: bool, k: nat, p: Path, ghost d: seq<Dest>)
      requires Valid() && JumpsOk(Final().code, jumps, p, d) && 0 < k <= Depth(p) && Targetable(p, k)
      modifies this
      ensures Valid() && Extends(old(Final()), Final()) && |code| == |Final().code| == old(|code|) + 2
        && JumpsOk(Final().code, jumps, p, d)
      ensures Accounted(old(open), old(jumps), open, jumps)
      ensures Is(Final(), old(|code|), Jump(if isBreak then d[k - 1].brk else d[k - 1].cont), old(|code|) + 2)
    {
      hide Is, Decode, Extends, Simple, Numbered, Targetable;
      NumberedCodes();
      ghost var f := Final();
      var inst := EmitJump(OpJump, if isBreak then d[k - 1].brk else d[k - 1].cont);
      JumpsGrow(f, Final(), jumps, p, d);
      JumpsAdd(view, jumps, k, JumpTo(isBreak, inst), p, d);
      assert Insts([JumpTo(isBreak, inst)] + jumps[k - 1]) == {inst} + Insts(jumps[k - 1]);
      jumps := jumps[k - 1 := [JumpTo(isBreak, inst)] + jumps[k - 1]];
    }

    /** `labeljumps` */
    method LabelJumps(js: seq<JumpTo>, baddr: nat, caddr: nat)
      requires Valid() && Aimed(Final().code, js, Dest(baddr, caddr))
      modifies this
      ensures Valid() && Final() == old(Final()) && |code| == |Final().code| && open == old(open) - Insts(js)
        && jumps == old(jumps) && own == old(own)
    {
      hide Valid;
      Even();
      var rest := js;
      while rest != []
        invariant Valid() && Final() == old(Final()) && |code| == |Final().code| && jumps == old(jumps)
          && own == old(own)
        invariant Aimed(Final().code, rest, Dest(baddr, caddr)) && open - Insts(rest) == old(open) - Insts(js)
      {
        var j := rest[0];
        assert Insts(rest) == {j.inst} + Insts(rest[1..]);
        LabelTo(j.inst, if j.isBreak then baddr else caddr);
        Even();
        rest := rest[1..];
      }
      assert Insts([]) == {};
    }

    // ----- statements -----

    ghost predicate Upto(f: Fn, n: nat, op: set<nat>, js: seq<seq<JumpTo>>, p: Path, d: seq<Dest>)
      reads this
    {
      Valid() && Extends(f, Final()) && |code| == |Final().code| == n && JumpsOk(Final().code, jumps, p, d)
        && Accounted(op, js, open, jumps)
    }

    /** What a label around the statement has still to patch. */
    ghost function Owed(s: Stm): set<nat>
      reads this
    {
      if PatchesOwn(s) || s.Label? then {} else Insts(own)
    }

    /** A statement leaves the list of its own node in `own`. */
    ghost predicate StmAt(f: Fn, op: set<nat>, js: seq<seq<JumpTo>>, s: Stm, p: Path, d: seq<Dest>, a: nat)
      requires |d| == Depth(p)
      reads this
    {
      && Valid() && Extends(f, Final()) && |code| == |Final().code| == a + SizeS(s, p)
        && JumpsOk(Final().code, jumps, p, d)
      && CodedS(Final(), names, s, p, d, a)
      && Accounted(op, js, open - Owed(s), jumps)
      && (PatchesOwn(Unlabelled(s)) || Aimed(Final().code, own, Dest(|code|, 0)))
      && (PatchesOwn(s) || s.Label? || own == [] || (p.Inside? && p.kind.Labelled?))
    }

    method OpenNode(k: Kind, p: Path, ghost d: seq<Dest>, ghost dest: Dest)
      requires Valid() && JumpsOk(Final().code, jumps, p, d)
      modifies this
      ensures Valid() && Final() == old(Final()) && |code| == |Final().code| == old(|code|) && open == old(open)
      ensures JumpsOk(Final().code, jumps, Inside(k, p), d + [dest]) && jumps == old(jumps) + [[]]
    {
      JumpsPush(view, jumps, k, p, d, dest);
      jumps := jumps + [[]];
    }

    /** js are the lists as they were before the node was opened. */
    method CloseNode(k: Kind, p: Path, ghost d: seq<Dest>, ghost dest: Dest, ghost op: set<nat>,
      ghost js: seq<seq<JumpTo>>)
      requires Valid() && JumpsOk(Final().code, jumps, Inside(k, p), d + [dest]) && |d| == Depth(p)
      requires Accounted(op, js + [[]], open, jumps)
      modifies this
      ensures Valid() && Final() == old(Final()) && |code| == |Final().code| == old(|code|) && open == old(open)
      ensures JumpsOk(Final().code, jumps, p, d) && Aimed(Final().code, own, dest)
        && Accounted(op, js, open - Insts(own), jumps)
      ensures IsLoop(k) || k.SwitchNode? || k.Labelled? || own == [] || (p.Inside? && p.kind.Labelled?)
    {
      JumpsPop(view, jumps, k, p, d, dest);
      AccountedClose(op, js, open, jumps);
      own := jumps[|jumps| - 1];
      jumps := jumps[..|jumps| - 1];
    }

    /** `cstm` */
    method Statement(s: Stm, p: Path, ghost d: seq<Dest>) returns (o: Status)
      requires Valid() && |d| == Depth(p) && JumpsOk(Final().code, jumps, p, d)
      modifies this
      ensures o.Pass? ==> StmAt(old(Final()), old(open), old(jumps), s, p, d, old(|code|))
      ensures o.Fail? ==> !AcceptedS(s, p)
      decreases s, 9
    {
      hide Is, Decode, Valid, Extends, CodedS, SizeS, AcceptedS, JumpsOk, StmAt;
      match s
      case Block(_) => o := BlockOf(s, p, d);
      case If(_, _) => o := IfOf(s, p, d);
      case IfElse(_, _, _) => o := IfElseOf(s, p, d);
      case Do(_, _) => o := DoOf(s, p, d);
      case While(_, _) => o := WhileOf(s, p, d);
      case For(_, _, _, _) => o := ForOf(s, p, d);
      case ForIn(_, _, _) => o := ForInOf(s, p, d);
      case Switch(_, _) => o := SwitchOf(s, p, d);
      case Label(_, _) => o := LabelOf(s, p, d);
      case Break(_) => o := BreakOf(s, p, d);
      case Continue(_) => o := ContinueOf(s, p, d);
      case Return(_) => o := ReturnOf(s, p, d);
      case With(_, _) => o := WithOf(s, p, d);
      case Try(_, _, _) => o := TryOf(s, p, d);
      case VarStm(_) => o := VarStmOf(s, p, d);
      case Throw(_) => o := ExpStmOf(s, p, d);
      case ExpStm(_) => o := ExpStmOf(s, p, d);
      case _ => o := NothingOf(s, p, d);
    }

    /** The statement inside a node that is not a label. */
    method Nested(s: Stm, p: Path, ghost d: seq<Dest>) returns (o: Status)
      requires Valid() && |d| == Depth(p) && JumpsOk(Final().code, jumps, p, d) && !(p.Inside? && p.kind.Labelled?)
      modifies this
      ensures o.Pass? ==> Upto(old(Final()), old(|code|) + SizeS(s, p), old(open), old(jumps), p, d)
      ensures o.Pass? ==> CodedS(Final(), names, s, p, d, old(|code|))
      ensures o.Fail? ==> !AcceptedS(s, p)
      decreases s, 10
    {
      hide Is, Decode, Valid, Extends, CodedS, SizeS, AcceptedS;
      o := Statement(s, p, d);
      assert Insts([]) == {};
    }

    /** `cstmlist` */
    method StatementList(ss: Stms, p: Path, ghost d: seq<Dest>) returns (o: Status)
      requires Valid() && |d| == Depth(p) && JumpsOk(Final().code, jumps, p, d) && !(p.Inside? && p.kind.Labelled?)
      modifies this
      ensures o.Pass? ==> Upto(old(Final()), old(|code|) + SizeList(ss, p), old(open), old(jumps), p, d)
      ensures o.Pass? ==> CodedList(Final(), names, ss, p, d, old(|code|))
      ensures o.Fail? ==> !AcceptedList(ss, p)
      decreases ss, 0
    {
      hide Is, Decode, Valid, Extends, Grows, CodedS, SizeS, AcceptedS, JumpsOk, Accounted;
      Even();
      AccountedSame(open, jumps);
      if ss.Stms? {
        ghost var a := |code|;
        :- Nested(ss.head, p, d);
        ghost var f, op, js := Final(), open, jumps;
        :- StatementList(ss.tail, p, d);
        ghost var l := Final();
        AccountedThen(old(open), old(jumps), op, js, open, jumps);
        Follows(f, l);
        Then(old(Final()), f, l);
        StmUp(f, l, names, ss.head, p, d, a);
      }
      o := Pass;
    }

    /** An expression and a conditional jump on it. */
    method Condition(e: Exp, jump: OpCode, ghost target: nat) returns (o: Status, inst: nat)
      requires Valid() && (jump == OpJTrue || jump == OpJFalse)
      modifies this
      ensures o.Pass? ==>
        Valid() && Extends(old(Final()), Final()) && |code| == |Final().code| == old(|code|) + SizeE(e) + 2
        && jumps == old(jumps)
      ensures o.Pass? ==> inst < |code| && Final().code[inst] == Arg(target) && OpenedBy(old(open), open, inst)
      ensures o.Pass? ==> Coded(Final(), names, e, old(|code|))
      ensures o.Pass? && jump == OpJTrue ==>
        Is(Final(), old(|code|) + SizeE(e), JTrue(target), old(|code|) + SizeE(e) + 2)
      ensures o.Pass? && jump == OpJFalse ==>
        Is(Final(), old(|code|) + SizeE(e), JFalse(target), old(|code|) + SizeE(e) + 2)
      ensures o.Fail? ==> !Accepted(e)
    {
      hide Is, Decode, Valid, Extends, Grows, Coded, SizeE, Accepted, Simple, Numbered, Last, OpenedBy, Final;
      NumberedCodes();
      ghost var a := |code|;
      inst := 0;
      :- Expression(e);
      ghost var f := Final();
      inst := EmitJump(jump, target);
      Follows(f, Final());
      Then(old(Final()), f, Final());
      Kept(f, Final(), names, e, a);
      o := Pass;
    }

    method BlockOf(s: Stm, p: Path, ghost d: seq<Dest>) returns (o: Status)
      requires Valid() && |d| == Depth(p) && JumpsOk(Final().code, jumps, p, d) && s.Block?
      modifies this
      ensures o.Pass? ==> StmAt(old(Final()), old(open), old(jumps), s, p, d, old(|code|))
      ensures o.Fail? ==> !AcceptedS(s, p)
      decreases s, 1
    {
      hide Is, Decode, Valid, Extends, Grows, Last, Coded, SizeE, Accepted, CodedS, SizeS, AcceptedS, JumpsOk;
      hide Final, Accounted, Aimed, Insts, Listed, Targetable, OpenedBy, Simple, Numbered, Named;
      ghost var a := |code|;
      ghost var dest := Dest(a + SizeS(s, p), 0);
      AcceptedSDef(s, p);
      OpenNode(Plain, p, d, dest);
      :- StatementList(s.body, Inside(Plain, p), d + [dest]);
      CodedSDef(Final(), names, s, p, d, a);
      CloseNode(Plain, p, d, dest, old(open), old(jumps));
      o := Pass;
    }

    method IfOf(s: Stm, p: Path, ghost d: seq<Dest>) returns (o: Status)
      requires Valid() && |d| == Depth(p) && JumpsOk(Final().code, jumps, p, d) && s.If?
      modifies this
      ensures o.Pass? ==> StmAt(old(Final()), old(open), old(jumps), s, p, d, old(|code|))
      ensures o.Fail? ==> !AcceptedS(s, p)
      decreases s, 1
    {
      hide Is, Decode, Valid, Extends, Grows, Last, Coded, SizeE, Accepted, CodedS, SizeS, AcceptedS, JumpsOk;
      hide Final, Accounted, Aimed, Insts, Listed, Targetable, OpenedBy, Simple, Numbered, Named, CodedStm;
      hide SizeStm, AcceptedStm;
      ghost var a := |code|;
      ghost var dest := Dest(a + SizeS(s, p), 0);
      IfParts(s, p);
      OpenNode(Plain, p, d, dest);
      :- Guarded(s.c, s.a, Inside(Plain, p), d + [dest]);
      ghost var l := Final();
      CloseNode(Plain, p, d, dest, old(open), old(jumps));
      IfCoded(l, s, p, d, dest, a);
      o := Pass;
    }

    /** A statement, and a conditional jump over it. */
    method Guarded(e: Exp, s: Stm, p: Path, ghost d: seq<Dest>) returns (o: Status)
      requires Valid() && |d| == Depth(p) && JumpsOk(Final().code, jumps, p, d) && !(p.Inside? && p.kind.Labelled?)
      modifies this
      ensures o.Pass? ==> Upto(old(Final()), old(|code|) + SizeE(e) + 2 + SizeS(s, p), old(open), old(jumps), p, d)
      ensures o.Pass? ==>
        var q := old(|code|) + SizeE(e);
        Coded(Final(), names, e, old(|code|)) && Is(Final(), q, JFalse(q + 2 + SizeS(s, p)), q + 2)
          && CodedS(Final(), names, s, p, d, q + 2)
      ensures o.Fail? ==> !Accepted(e) || !AcceptedS(s, p)
      decreases s, 12
    {
      hide Is, Decode, Valid, Extends, Grows, Last, Coded, SizeE, Accepted, CodedS, SizeS, AcceptedS, JumpsOk;
      hide Final, Accounted, Aimed, Insts, Listed, Targetable, OpenedBy, Simple, Numbered, Named, CodedStm;
      hide SizeStm, AcceptedStm;
      ghost var a := |code|;
      ghost var q := a + SizeE(e);
      ghost var target := q + 2 + SizeS(s, p);
      var end :- Condition(e, OpJFalse, target);
      ghost var g, op, js := Final(), open, jumps;
      JumpsGrow(old(Final()), g, jumps, p, d);
      :- ThenPart(s, end, p, d);
      ghost var l := Final();
      Follows(g, l);
      Then(old(Final()), g, l);
      AccountedLess(old(open), op, end, js, open, jumps);
      Stands(g, l, q, JFalse(target), q + 2);
      Kept(g, l, names, e, a);
      o := Pass;
    }

    static lemma {:induction false} IfParts(s: Stm, p: Path)
      requires s.If?
      ensures SizeS(s, p) == SizeE(s.c) + 2 + SizeS(s.a, Inside(Plain, p))
      ensures AcceptedS(s, p) == (Accepted(s.c) && AcceptedS(s.a, Inside(Plain, p)))
    {
      hide SizeE, Accepted;
    }

    lemma {:induction false} IfCoded(l: Fn, s: Stm, p: Path, d: seq<Dest>, dest: Dest, a: nat)
      requires s.If? && |d| == Depth(p) && dest == Dest(a + SizeS(s, p), 0)
      requires Coded(l, names, s.c, a) && Is(l, a + SizeE(s.c), JFalse(dest.brk), a + SizeE(s.c) + 2)
      requires CodedS(l, names, s.a, Inside(Plain, p), d + [dest], a + SizeE(s.c) + 2)
      ensures CodedS(l, names, s, p, d, a)
    {
      hide Is, CodedS, SizeS, Extends, Coded, SizeE;
      CodedSDef(l, names, s, p, d, a);
    }

    method IfElseOf(s: Stm, p: Path, ghost d: seq<Dest>) returns (o: Status)
      requires Valid() && |d| == Depth(p) && JumpsOk(Final().code, jumps, p, d) && s.IfElse?
      modifies this
      ensures o.Pass? ==> StmAt(old(Final()), old(open), old(jumps), s, p, d, old(|code|))
      ensures o.Fail? ==> !AcceptedS(s, p)
      decreases s, 1
    {
      hide Is, Decode, Valid, Extends, Grows, Last, Coded, SizeE, Accepted, CodedS, SizeS, AcceptedS, JumpsOk;
      hide Final, Accounted, Aimed, Insts, Listed, Targetable, OpenedBy, Simple, Numbered, Named, CodedStm;
      hide SizeStm, AcceptedStm;
      ghost var a := |code|;
      ghost var dest := Dest(a + SizeS(s, p), 0);
      IfElseParts(s, p);
      OpenNode(Plain, p, d, dest);
      :- Choice(s, Inside(Plain, p), d + [dest]);
      ghost var l := Final();
      CloseNode(Plain, p, d, dest, old(open), old(jumps));
      IfElseCoded(l, s, p, d, dest, a);
      o := Pass;
    }

    /** One of two statements, the second in front. */
    method Choice(s: Stm, p: Path, ghost d: seq<Dest>) returns (o: Status)
      requires Valid() && |d| == Depth(p) && JumpsOk(Final().code, jumps, p, d) && !(p.Inside? && p.kind.Labelled?)
        && s.IfElse?
      modifies this
      ensures o.Pass? ==>
        Upto(old(Final()), old(|code|) + SizeE(s.c) + 2 + SizeS(s.b, p) + 2 + SizeS(s.a, p), old(open), old(jumps), p,
        d)
      ensures o.Pass? ==> ChoiceCoded(Final(), s, p, d, old(|code|))
      ensures o.Fail? ==> !Accepted(s.c) || !AcceptedS(s.a, p) || !AcceptedS(s.b, p)
      decreases s, 0, 1
    {
      hide Is, Decode, Valid, Extends, Grows, Last, Coded, SizeE, Accepted, CodedS, SizeS, AcceptedS, JumpsOk;
      hide Final, Accounted, Aimed, Insts, Listed, Targetable, OpenedBy, Simple, Numbered, Named, CodedStm;
      hide SizeStm, AcceptedStm, ChoiceCoded, SidesCoded;
      ghost var a := |code|;
      ghost var q := a + SizeE(s.c) + 2;
      ghost var r := q + SizeS(s.b, p);
      var inst :- Condition(s.c, OpJTrue, r + 2);
      ghost var g, op, js := Final(), open, jumps;
      JumpsGrow(old(Final()), g, jumps, p, d);
      :- Alternatives(s, inst, p, d);
      ghost var l := Final();
      ChoiceStands(g, l, s, p, d, a);
      AccountedLess(old(open), op, inst, js, open, jumps);
      Follows(g, l);
      Then(old(Final()), g, l);
      o := Pass;
    }

    ghost predicate ChoiceCoded(f: Fn, s: Stm, p: Path, d: seq<Dest>, a: nat)
      requires |d| == Depth(p) && s.IfElse?
    {
      var q := a + SizeE(s.c) + 2;
      var r := q + SizeS(s.b, p);
      Coded(f, names, s.c, a) && Is(f, q - 2, JTrue(r + 2), q) && SidesCoded(f, s, p, d, q)
    }

    /** The two statements from q on, the jump over the second between them. */
    ghost predicate SidesCoded(f: Fn, s: Stm, p: Path, d: seq<Dest>, q: nat)
      requires |d| == Depth(p) && s.IfElse?
    {
      var r := q + SizeS(s.b, p);
      && CodedS(f, names, s.b, p, d, q)
      && Is(f, r, Jump(r + 2 + SizeS(s.a, p)), r + 2) && CodedS(f, names, s.a, p, d, r + 2)
    }

    lemma {:induction false} ChoiceStands(g: Fn, l: Fn, s: Stm, p: Path, d: seq<Dest>, a: nat)
      requires |d| == Depth(p) && s.IfElse? && Extends(g, l)
      requires var q := a + SizeE(s.c) + 2;
        var r := q + SizeS(s.b, p);
        Coded(g, names, s.c, a) && Is(g, q - 2, JTrue(r + 2), q) && SidesCoded(l, s, p, d, q)
      ensures ChoiceCoded(l, s, p, d, a)
    {
      hide Is, Coded, SizeE, CodedS, SizeS, Extends;
      Follows(g, l);
      Kept(g, l, names, s.c, a);
    }

    /** The two statements; the jump at inst goes to the second. */
    method Alternatives(s: Stm, inst: nat, p: Path, ghost d: seq<Dest>) returns (o: Status)
      requires Valid() && |d| == Depth(p) && JumpsOk(Final().code, jumps, p, d) && !(p.Inside? && p.kind.Labelled?)
        && s.IfElse?
      requires inst < |code| && |Final().code| == |code| && Final().code[inst] == Arg(|code| + SizeS(s.b, p) + 2)
      modifies this
      ensures o.Pass? ==>
        Upto(old(Final()), old(|code|) + SizeS(s.b, p) + 2 + SizeS(s.a, p), old(open) - {inst}, old(jumps), p, d)
      ensures o.Pass? ==> SidesCoded(Final(), s, p, d, old(|code|))
      ensures o.Fail? ==> !AcceptedS(s.a, p) || !AcceptedS(s.b, p)
      decreases s, 0, 0
    {
      hide Is, Decode, Valid, Extends, Grows, Last, Coded, SizeE, Accepted, CodedS, SizeS, AcceptedS, JumpsOk;
      hide Final, Accounted, Aimed, Insts, Listed, Targetable, OpenedBy, Simple, Numbered, Named, CodedStm;
      hide SizeStm, AcceptedStm;
      ghost var q := |code|;
      :- Nested(s.b, p, d);
      ghost var h, op1, js1 := Final(), open, jumps;
      Follows(old(Final()), h);
      WordStays(old(Final()), h, inst);
      :- ElsePart(s.a, inst, p, d);
      ghost var l := Final();
      AccountedPatch(old(open) - {inst}, old(open), inst, old(jumps), op1, js1);
      AccountedThen(old(open) - {inst}, old(jumps), op1 - {inst}, js1, open, jumps);
      Follows(h, l);
      Then(old(Final()), h, l);
      StmUp(h, l, names, s.b, p, d, q);
      o := Pass;
    }

    static lemma {:induction false} IfElseParts(s: Stm, p: Path)
      requires s.IfElse?
      ensures SizeS(s, p) == SizeE(s.c) + 2 + SizeS(s.b, Inside(Plain, p)) + 2 + SizeS(s.a, Inside(Plain, p))
      ensures AcceptedS(s, p) == (Accepted(s.c) && AcceptedS(s.a, Inside(Plain, p)) && AcceptedS(s.b, Inside(Plain, p)))
    {
      hide SizeE, Accepted;
    }

    lemma {:induction false} IfElseCoded(l: Fn, s: Stm, p: Path, d: seq<Dest>, dest: Dest, a: nat)
      requires s.IfElse? && |d| == Depth(p) && dest == Dest(a + SizeS(s, p), 0)
      requires ChoiceCoded(l, s, Inside(Plain, p), d + [dest], a)
      ensures CodedS(l, names, s, p, d, a)
    {
      hide Is, CodedS, SizeS, Extends, Coded, SizeE;
      CodedSDef(l, names, s, p, d, a);
    }

    /** A statement, and the label behind it that the jump at inst goes to. */
    method ThenPart(s: Stm, inst: nat, p: Path, ghost d: seq<Dest>) returns (o: Status)
      requires Valid() && |d| == Depth(p) && JumpsOk(Final().code, jumps, p, d) && !(p.Inside? && p.kind.Labelled?)
      requires inst < |code| && |Final().code| == |code| && Final().code[inst] == Arg(|code| + SizeS(s, p))
      modifies this
      ensures o.Pass? ==> Upto(old(Final()), old(|code|) + SizeS(s, p), old(open) - {inst}, old(jumps), p, d)
      ensures o.Pass? ==> CodedS(Final(), names, s, p, d, old(|code|))
      ensures o.Fail? ==> !AcceptedS(s, p)
      decreases s, 11
    {
      hide Is, Decode, Valid, Extends, Grows, CodedS, SizeS, AcceptedS, JumpsOk, Accounted;
      :- Nested(s, p, d);
      WordStays(old(Final()), Final(), inst);
      AccountedPatch(old(open) - {inst}, old(open), inst, old(jumps), open, jumps);
      LabelTo(inst, |code|);
      o := Pass;
    }

    /** A jump over the statement s, which starts where the jump at inst goes to. */
    method ElsePart(s: Stm, inst: nat, p: Path, ghost d: seq<Dest>) returns (o: Status)
      requires Valid() && |d| == Depth(p) && JumpsOk(Final().code, jumps, p, d) && !(p.Inside? && p.kind.Labelled?)
      requires inst < |code| && |Final().code| == |code| && Final().code[inst] == Arg(|code| + 2)
      modifies this
      ensures o.Pass? ==> Upto(old(Final()), old(|code|) + 2 + SizeS(s, p), old(open) - {inst}, old(jumps), p, d)
      ensures o.Pass? ==> var a := old(|code|);
        Is(Final(), a, Jump(a + 2 + SizeS(s, p)), a + 2) && CodedS(Final(), names, s, p, d, a + 2)
      ensures o.Fail? ==> !AcceptedS(s, p)
      decreases s, 12
    {
      hide Is, Decode, Valid, Extends, Grows, Last, Coded, SizeE, Accepted, CodedS, SizeS, AcceptedS, JumpsOk;
      hide Final, Accounted, Aimed, Insts, Listed, Targetable, OpenedBy, Simple, Numbered, Named;
      NumberedCodes();
      ghost var a := |code|;
      var end := EmitJump(OpJump, a + 2 + SizeS(s, p));
      ghost var k := Final();
      Follows(old(Final()), k);
      WordStays(old(Final()), k, inst);
      LabelTo(inst, |code|);
      JumpsGrow(old(Final()), k, jumps, p, d);
      ghost var op, js := open, jumps;
      :- ThenPart(s, end, p, d);
      ghost var l := Final();
      Follows(k, l);
      Then(old(Final()), k, l);
      AccountedLess(old(open) - {inst}, op, end, js, open, jumps);
      Stands(k, l, a, Jump(a + 2 + SizeS(s, p)), a + 2);
      o := Pass;
    }

    /** A statement without jumps of its own. */
    method NoJumps(ghost f: Fn, ghost op: set<nat>, ghost js: seq<seq<JumpTo>>, ghost p: Path, ghost d: seq<Dest>)
      requires At(f, |code|, op, js) && |d| == Depth(p) && JumpsOk(f.code, js, p, d)
      modifies this`own
      ensures Upto(f, |code|, op, js, p, d) && Final() == old(Final()) && own == []
    {
      JumpsGrow(f, Final(), jumps, p, d);
      AccountedSame(open, jumps);
      own := [];
    }

    /** `cvarinit` */
    method VarInits(vars: Vars) returns (o: Status)
      requires Valid()
      modifies this
      ensures o.Pass? ==>
        At(old(Final()), old(|code|) + SizeVars(vars), old(open), old(jumps))
        && CodedVars(Final(), names, vars, old(|code|))
      ensures o.Fail? ==> !AcceptedVars(vars)
      decreases vars
    {
      hide Is, Decode, Valid, Extends, Grows, Last, Coded, SizeE, Accepted, CodedS, SizeS, AcceptedS, JumpsOk;
      hide Final, Accounted, Aimed, Insts, Listed, Targetable, OpenedBy, Simple, Numbered, Named;
      Even();
      if vars.Var? {
        if vars.init.Some? {
          ghost var a := |code|;
          ghost var e := vars.init.value;
          StackCodes(); NumberedCodes(); NamedCodes();
          :- Expression(vars.init.value);
          ghost var f := Final();
          EmitLocal(OpSetLocal, OpSetVar, vars.x);
          ghost var g := Final();
          Emit(OpPop);
          ghost var h := Final();
          :- VarInits(vars.rest);
          ghost var l := Final();
          Follows(h, l);
          Then(g, h, l);
          Then(f, g, l);
          Then(old(Final()), f, l);
          Kept(f, l, names, e, a);
          StoreKept(g, l, names, vars.x, a + SizeE(e));
          Stands(h, l, a + SizeE(e) + 2, Pop, a + SizeE(e) + 3);
        } else {
          :- VarInits(vars.rest);
        }
      }
      o := Pass;
    }

    static lemma {:induction false} StoreKept(f: Fn, g: Fn, ns: Names, x: Name, a: nat)
      requires Last(f, g) && CodedStore(f, ns, x, a)
      ensures CodedStore(g, ns, x, a)
    {
      hide Is, Extends;
    }

    /** An expression whose value is dropped, or used by one more instruction. */
    method ExpThen(e: Exp, op: OpCode) returns (o: Status)
      requires Valid() && Simple(op).Some?
      modifies this
      ensures o.Pass? ==>
        At(old(Final()), old(|code|) + SizeE(e) + 1, old(open), old(jumps)) && Coded(Final(), names, e, old(|code|))
      ensures o.Pass? ==> var q := old(|code|) + SizeE(e); Is(Final(), q, Simple(op).value, q + 1)
      ensures o.Fail? ==> !Accepted(e)
    {
      hide Is, Decode, Valid, Extends, Grows, Last, Coded, SizeE, Accepted, CodedS, SizeS, AcceptedS, JumpsOk;
      hide Final, Accounted, Aimed, Insts, Listed, Targetable, OpenedBy, Simple, Numbered, Named;
      ghost var a := |code|;
      :- Expression(e);
      ghost var f := Final();
      Emit(op);
      Follows(f, Final());
      Then(old(Final()), f, Final());
      Kept(f, Final(), names, e, a);
      o := Pass;
    }

    method Initial(init: Init) returns (o: Status)
      requires Valid()
      modifies this
      ensures o.Pass? ==>
        At(old(Final()), old(|code|) + SizeInit(init), old(open), old(jumps))
        && CodedInit(Final(), names, init, old(|code|))
      ensures o.Fail? ==> !AcceptedInit(init)
    {
      hide Is, Decode, Valid, Extends, Grows, Last, Coded, SizeE, Accepted, CodedS, SizeS, AcceptedS, JumpsOk;
      hide Final, Accounted, Aimed, Insts, Listed, Targetable, OpenedBy, Simple, Numbered, Named;
      Even();
      StackCodes();
      match init {
        case NoInit =>
        case VarInit(vars) =>
          :- VarInits(vars);
        case ExpInit(e) =>
          :- ExpThen(e, OpPop);
      }
      o := Pass;
    }

    method VarStmOf(s: Stm, p: Path, ghost d: seq<Dest>) returns (o: Status)
      requires Valid() && |d| == Depth(p) && JumpsOk(Final().code, jumps, p, d) && s.VarStm?
      modifies this
      ensures o.Pass? ==> StmAt(old(Final()), old(open), old(jumps), s, p, d, old(|code|))
      ensures o.Fail? ==> !AcceptedS(s, p)
      decreases s, 1
    {
      hide Is, Decode, Valid, Extends, Grows, Last, Coded, SizeE, Accepted, CodedS, SizeS, AcceptedS, JumpsOk;
      hide Final, Accounted, Aimed, Insts, Listed, Targetable, OpenedBy, Simple, Numbered, Named;
      ghost var a := |code|;
      AcceptedSDef(s, p);
      :- VarInits(s.vars);
      CodedSDef(Final(), names, s, p, d, a);
      NoJumps(old(Final()), old(open), old(jumps), p, d);
      ClearOwn();
      o := Pass;
    }

    method ExpStmOf(s: Stm, p: Path, ghost d: seq<Dest>) returns (o: Status)
      requires Valid() && |d| == Depth(p) && JumpsOk(Final().code, jumps, p, d) && (s.Throw? || s.ExpStm?)
      modifies this
      ensures o.Pass? ==> StmAt(old(Final()), old(open), old(jumps), s, p, d, old(|code|))
      ensures o.Fail? ==> !AcceptedS(s, p)
      decreases s, 1
    {
      hide Is, Decode, Valid, Extends, Grows, Last, Coded, SizeE, Accepted, CodedS, SizeS, AcceptedS, JumpsOk;
      hide Final, Accounted, Aimed, Insts, Listed, Targetable, OpenedBy, Simple, Numbered, Named;
      StackCodes();
      LeaveCodes();
      ghost var a := |code|;
      AcceptedSDef(s, p);
      :- ExpThen(s.e, if s.Throw? then OpThrow else OpPop);
      CodedSDef(Final(), names, s, p, d, a);
      NoJumps(old(Final()), old(open), old(jumps), p, d);
      ClearOwn();
      o := Pass;
    }

    method NothingOf(s: Stm, p: Path, ghost d: seq<Dest>) returns (o: Status)
      requires Valid() && |d| == Depth(p) && JumpsOk(Final().code, jumps, p, d)
        && (s.FunDec? || s.Empty? || s.Debugger?)
      modifies this
      ensures o.Pass? ==> StmAt(old(Final()), old(open), old(jumps), s, p, d, old(|code|))
      ensures o.Fail? ==> !AcceptedS(s, p)
      decreases s, 1
    {
      hide Is, Decode, Valid, Extends, Grows, Last, Coded, SizeE, Accepted, CodedS, SizeS, AcceptedS, JumpsOk;
      hide Final, Accounted, Aimed, Insts, Listed, Targetable, OpenedBy, Simple, Numbered, Named, CodedStm;
      hide SizeStm, AcceptedStm;
      Even();
      LeaveCodes();
      ghost var a := |code|;
      if s.Debugger? { Emit(OpDebugger); }
      NothingCoded(Final(), names, s, p, d, a);
      NoJumps(old(Final()), old(open), old(jumps), p, d);
      ClearOwn();
      o := Pass;
    }

    static lemma {:induction false} NothingCoded(f: Fn, ns: Names, s: Stm, p: Path, d: seq<Dest>, a: nat)
      requires |d| == Depth(p) && (s.FunDec? || s.Empty? || s.Debugger?) && (s.Debugger? ==> Is(f, a, Trap, a + 1))
      ensures CodedS(f, ns, s, p, d, a) && SizeS(s, p) == if s.Debugger? then 1 else 0
    {
      hide Is;
      CodedSDef(f, ns, s, p, d, a);
    }

    method BreakOf(s: Stm, p: Path, ghost d: seq<Dest>) returns (o: Status)
      requires Valid() && |d| == Depth(p) && JumpsOk(Final().code, jumps, p, d) && s.Break?
      modifies this
      ensures o.Pass? ==> StmAt(old(Final()), old(open), old(jumps), s, p, d, old(|code|))
      ensures o.Fail? ==> !AcceptedS(s, p)
      decreases s, 1
    {
      hide Is, Decode, Valid, Extends, Grows, Last, Coded, SizeE, Accepted, CodedS, SizeS, AcceptedS, JumpsOk;
      hide Final, Accounted, Aimed, Insts, Listed, Targetable, OpenedBy, Simple, Numbered, Named;
      ghost var a := |code|;
      AcceptedSDef(s, p);
      var k := BreakTarget(p, s.l);
      if k == 0 { return Fail; }
      TargetsOk(p, s.l);
      EmitExit(ByBreak, p, k);
      ghost var f, op, js := Final(), open, jumps;
      JumpsGrow(old(Final()), f, jumps, p, d);
      AddJump(true, k, p, d);
      ghost var l := Final();
      Follows(f, l);
      Then(old(Final()), f, l);
      ExitUp(f, l, ByBreak, p, k, a);
      CodedSDef(l, names, s, p, d, a);
      ClearOwn();
      o := Pass;
    }

    method ClearOwn()
      requires Valid()
      modifies this`own
      ensures Valid() && Final() == old(Final()) && own == [] && open - Insts(own) == open
        && Aimed(Final().code, own, Dest(|code|, 0)) && |Final().code| == |code|
    {
      own := [];
    }

    method ContinueOf(s: Stm, p: Path, ghost d: seq<Dest>) returns (o: Status)
      requires Valid() && |d| == Depth(p) && JumpsOk(Final().code, jumps, p, d) && s.Continue?
      modifies this
      ensures o.Pass? ==> StmAt(old(Final()), old(open), old(jumps), s, p, d, old(|code|))
      ensures o.Fail? ==> !AcceptedS(s, p)
      decreases s, 1
    {
      hide Is, Decode, Valid, Extends, Grows, Last, Coded, SizeE, Accepted, CodedS, SizeS, AcceptedS, JumpsOk;
      hide Final, Accounted, Aimed, Insts, Listed, Targetable, OpenedBy, Simple, Numbered, Named;
      ghost var a := |code|;
      AcceptedSDef(s, p);
      var k := ContinueTarget(p, s.l);
      if k == 0 { return Fail; }
      TargetsOk(p, s.l);
      EmitExit(ByContinue, p, k);
      ghost var f, op, js := Final(), open, jumps;
      JumpsGrow(old(Final()), f, jumps, p, d);
      AddJump(false, k, p, d);
      ghost var l := Final();
      Follows(f, l);
      Then(old(Final()), f, l);
      ExitUp(f, l, ByContinue, p, k, a);
      CodedSDef(l, names, s, p, d, a);
      ClearOwn();
      o := Pass;
    }

    lemma {:induction false} ReturnCoded(f: Fn, s: Stm, p: Path, d: seq<Dest>, a: nat)
      requires s.Return? && |d| == Depth(p)
      requires if s.r.Some? then Coded(f, names, s.r.value, a) else Is(f, a, Push(Undefined), a + 1)
      requires var q := a + SizeOpt(s.r, 1);
        var r := q + SizeExit(ByReturn, p, 0);
        CodedExit(f, ByReturn, p, 0, q) && Is(f, r, Ret, r + 1)
      ensures CodedS(f, names, s, p, d, a) && SizeS(s, p) == SizeOpt(s.r, 1) + SizeExit(ByReturn, p, 0) + 1
    {
      hide Is, CodedS, SizeS, CodedExit, SizeExit, Coded, SizeE;
      CodedSDef(f, names, s, p, d, a);
    }

    method ReturnOf(s: Stm, p: Path, ghost d: seq<Dest>) returns (o: Status)
      requires Valid() && |d| == Depth(p) && JumpsOk(Final().code, jumps, p, d) && s.Return?
      modifies this
      ensures o.Pass? ==> StmAt(old(Final()), old(open), old(jumps), s, p, d, old(|code|))
      ensures o.Fail? ==> !AcceptedS(s, p)
      decreases s, 1
    {
      hide Is, Decode, Valid, Extends, Grows, Last, Coded, SizeE, Accepted, CodedS, SizeS, AcceptedS, JumpsOk;
      hide Final, Accounted, Aimed, Insts, Listed, Targetable, OpenedBy, Simple, Numbered, Named;
      hide CodedExit, SizeExit;
      ValueCodes();
      LeaveCodes();
      ghost var a := |code|;
      AcceptedSDef(s, p);
      if s.r.Some? {
        :- Expression(s.r.value);
      } else {
        Emit(OpUndef);
      }
      ghost var f, q := Final(), |code|;
      EmitExit(ByReturn, p, 0);
      ghost var g := Final();
      Emit(OpReturn);
      ghost var l := Final();
      Follows(g, l);
      Then(f, g, l);
      Then(old(Final()), f, l);
      ExitUp(g, l, ByReturn, p, 0, q);
      if s.r.Some? { Kept(f, l, names, s.r.value, a); } else { Stands(f, l, a, Push(Undefined), a + 1); }
      ReturnCoded(l, s, p, d, a);
      NoJumps(old(Final()), old(open), old(jumps), p, d);
      ClearOwn();
      o := Pass;
    }


    /** The list of what is labelled is patched here, unless it is a loop's or a switch's. */
    method LabelOf(s: Stm, p: Path, ghost d: seq<Dest>) returns (o: Status)
      requires Valid() && |d| == Depth(p) && JumpsOk(Final().code, jumps, p, d) && s.Label?
      modifies this
      ensures o.Pass? ==> StmAt(old(Final()), old(open), old(jumps), s, p, d, old(|code|))
      ensures o.Fail? ==> !AcceptedS(s, p)
      decreases s, 1
    {
      hide Is, Decode, Valid, Extends, Grows, Last, Coded, SizeE, Accepted, CodedS, SizeS, AcceptedS, JumpsOk;
      hide Final, Accounted, Aimed, Insts, Listed, Targetable, OpenedBy, Simple, Numbered, Named;
      ghost var a := |code|;
      ghost var dest := Dest(0, 0);
      var p1 := Inside(Labelled(s.x), p);
      AcceptedSDef(s, p);
      OpenNode(Labelled(s.x), p, d, dest);
      :- Statement(s.s, p1, d + [dest]);
      ghost var op, js := open, jumps;
      if !PatchesOwn(Unlabelled(s.s)) { LabelJumps(own, |code|, 0); }
      AccountedOwn(old(open), old(jumps) + [[]], op, open, Owed(s.s), own, js);
      CodedSDef(Final(), names, s, p, d, a);
      CloseLabel(s.x, p, d, old(open), old(jumps));
      assert open - {} == open;
      o := Pass;
    }

    /** The label's own list is dropped: those jumps stay as they are. */
    method CloseLabel(x: Name, p: Path, ghost d: seq<Dest>, ghost op: set<nat>, ghost js: seq<seq<JumpTo>>)
      requires Valid() && JumpsOk(Final().code, jumps, Inside(Labelled(x), p), d + [Dest(0, 0)]) && |d| == Depth(p)
      requires Accounted(op, js + [[]], open, jumps)
      modifies this
      ensures Valid() && Final() == old(Final()) && |code| == |Final().code| == old(|code|) && own == old(own)
      ensures JumpsOk(Final().code, jumps, p, d) && Accounted(op, js, open, jumps)
    {
      hide JumpsOk, Accounted, Listed;
      JumpsPop(view, jumps, Labelled(x), p, d, Dest(0, 0));
      AccountedClose(op, js, open, jumps);
      open := open - Insts(jumps[|jumps| - 1]);
      jumps := jumps[..|jumps| - 1];
    }

    method WithOf(s: Stm, p: Path, ghost d: seq<Dest>) returns (o: Status)
      requires Valid() && |d| == Depth(p) && JumpsOk(Final().code, jumps, p, d) && s.With?
      modifies this
      ensures o.Pass? ==> StmAt(old(Final()), old(open), old(jumps), s, p, d, old(|code|))
      ensures o.Fail? ==> !AcceptedS(s, p)
      decreases s, 1
    {
      hide Is, Decode, Valid, Extends, Grows, Last, Coded, SizeE, Accepted, CodedS, SizeS, AcceptedS, JumpsOk;
      hide Final, Accounted, Aimed, Insts, Listed, Targetable, OpenedBy, Simple, Numbered, Named, CodedStm;
      hide SizeStm, AcceptedStm;
      ScopeCodes();
      ghost var a := |code|;
      ghost var dest := Dest(a + SizeS(s, p), 0);
      var p1 := Inside(WithNode, p);
      ghost var d1 := d + [dest];
      WithParts(s, p);
      OpenNode(WithNode, p, d, dest);
      :- ExpThen(s.e, OpWith);
      ghost var g, q := Final(), a + SizeE(s.e);
      JumpsGrow(old(Final()), g, jumps, p1, d1);
      :- Nested(s.s, p1, d1);
      ghost var h, op, js := Final(), open, jumps;
      Emit(OpEndWith);
      ghost var l := Final();
      JumpsGrow(h, l, jumps, p1, d1);
      CloseNode(WithNode, p, d, dest, old(open), old(jumps));
      Follows(h, l);
      Then(g, h, l);
      Then(old(Final()), g, l);
      WithCoded(g, h, l, s, p, d, a);
      o := Pass;
    }

    static lemma {:induction false} WithParts(s: Stm, p: Path)
      requires s.With?
      ensures SizeS(s, p) == SizeE(s.e) + 2 + SizeS(s.s, Inside(WithNode, p))
      ensures AcceptedS(s, p) == (Accepted(s.e) && AcceptedS(s.s, Inside(WithNode, p)))
    {
      hide SizeE, Accepted;
    }

    lemma {:induction false} WithCoded(g: Fn, h: Fn, l: Fn, s: Stm, p: Path, d: seq<Dest>, a: nat)
      requires s.With? && |d| == Depth(p) && Last(g, l) && Last(h, l)
      requires var p1, q := Inside(WithNode, p), a + SizeE(s.e);
        var r := q + 1 + SizeS(s.s, p1);
        && Coded(g, names, s.e, a) && Is(g, q, EnterWith, q + 1)
        && CodedS(h, names, s.s, p1, d + [Dest(a + SizeS(s, p), 0)], q + 1) && Is(l, r, LeaveScope, r + 1)
      ensures CodedS(l, names, s, p, d, a)
    {
      hide Is, CodedS, SizeS, Extends, Coded, SizeE;
      CodedUp(g, l, names, s.e, a);
      StmUp(h, l, names, s.s, Inside(WithNode, p), d + [Dest(a + SizeS(s, p), 0)], a + SizeE(s.e) + 1);
      CodedSDef(l, names, s, p, d, a);
    }

    /** `ctrycatch` */
    method TryOf(s: Stm, p: Path, ghost d: seq<Dest>) returns (o: Status)
      requires Valid() && |d| == Depth(p) && JumpsOk(Final().code, jumps, p, d) && s.Try?
      modifies this
      ensures o.Pass? ==> StmAt(old(Final()), old(open), old(jumps), s, p, d, old(|code|))
      ensures o.Fail? ==> !AcceptedS(s, p)
      decreases s, 1
    {
      hide Is, Decode, Valid, Extends, Grows, Last, Coded, SizeE, Accepted, CodedS, SizeS, AcceptedS, JumpsOk;
      hide Final, Accounted, Aimed, Insts, Listed, Targetable, OpenedBy, Simple, Numbered, Named, CodedStm;
      hide SizeStm, AcceptedStm;
      TryCodes();
      ghost var a := |code|;
      ghost var end := a + SizeS(s, p);
      ghost var d1 := d + [Dest(end, 0)];
      ghost var q := a + 4 + SizeS(s.handler, Inside(CatchBody, p));
      TryParts(s, p);
      OpenNode(CatchBody, p, d, Dest(end, 0));
      var body := EmitJump(OpTry, q + 3);
      ghost var f, op, js := Final(), open, jumps;
      JumpsGrow(old(Final()), f, jumps, Inside(CatchBody, p), d1);
      :- HandlerPart(s.x, s.handler, Inside(CatchBody, p), d1);
      ghost var k, op1, js1 := Final(), open, jumps;
      Follows(f, k);
      JumpsTry(k.code, jumps, p, d1);
      WordStays(f, k, body);
      :- TryPart(s.s, body, Inside(TryBody, p), d1);
      ghost var l := Final();
      AccountedPatch(old(open), op, body, js, op1, js1);
      AccountedThen(old(open), js, op1 - {body}, js1, open, jumps);
      CloseNode(TryBody, p, d, Dest(end, 0), old(open), old(jumps));
      Follows(k, l);
      Then(f, k, l);
      Then(old(Final()), f, l);
      TryCoded(f, k, l, s, p, d, a);
      o := Pass;
    }

    /** The handler in its scope. */
    method HandlerPart(x: Name, s: Stm, p: Path, ghost d: seq<Dest>) returns (o: Status)
      requires Valid() && |d| == Depth(p) && JumpsOk(Final().code, jumps, p, d) && !(p.Inside? && p.kind.Labelled?)
      modifies this
      ensures o.Pass? ==> Upto(old(Final()), old(|code|) + 3 + SizeS(s, p), old(open), old(jumps), p, d)
      ensures o.Pass? ==> var a, q := old(|code|), old(|code|) + 2 + SizeS(s, p);
        Is(Final(), a, Catch(x), a + 2) && CodedS(Final(), names, s, p, d, a + 2) && Is(Final(), q, LeaveScope, q + 1)
      ensures o.Fail? ==> !AcceptedS(s, p)
      decreases s, 11
    {
      hide Is, Decode, Valid, Extends, Grows, Last, Coded, SizeE, Accepted, CodedS, SizeS, AcceptedS, JumpsOk;
      hide Final, Accounted, Aimed, Insts, Listed, Targetable, OpenedBy, Simple, Numbered, Named, CodedStm;
      hide SizeStm, AcceptedStm;
      ScopeCodes();
      TryCodes();
      ghost var a := |code|;
      EmitString(OpCatch, x);
      ghost var g := Final();
      JumpsGrow(old(Final()), g, jumps, p, d);
      :- Nested(s, p, d);
      ghost var h := Final();
      Emit(OpEndCatch);
      ghost var l := Final();
      Follows(h, l);
      Then(g, h, l);
      Then(old(Final()), g, l);
      JumpsGrow(h, l, jumps, p, d);
      Stands(g, l, a, Catch(x), a + 2);
      StmUp(h, l, names, s, p, d, a + 2);
      o := Pass;
    }

    static lemma {:induction false} TryParts(s: Stm, p: Path)
      requires s.Try?
      ensures SizeS(s, p) == 8 + SizeS(s.handler, Inside(CatchBody, p)) + SizeS(s.s, Inside(TryBody, p))
      ensures AcceptedS(s, p) == (AcceptedS(s.handler, Inside(CatchBody, p)) && AcceptedS(s.s, Inside(TryBody, p)))
    {
    }

    /** The jump behind the try statement, its body and the end of its handler. */
    method TryPart(s: Stm, inst: nat, p: Path, ghost d: seq<Dest>) returns (o: Status)
      requires Valid() && |d| == Depth(p) && JumpsOk(Final().code, jumps, p, d) && !(p.Inside? && p.kind.Labelled?)
      requires inst < |code| && |Final().code| == |code| && Final().code[inst] == Arg(|code| + 2)
      modifies this
      ensures o.Pass? ==> Upto(old(Final()), old(|code|) + 3 + SizeS(s, p), old(open) - {inst}, old(jumps), p, d)
      ensures o.Pass? ==> var a, r := old(|code|), old(|code|) + 2 + SizeS(s, p);
        Is(Final(), a, Jump(r + 1), a + 2) && CodedS(Final(), names, s, p, d, a + 2) && Is(Final(), r, EndTry, r + 1)
      ensures o.Fail? ==> !AcceptedS(s, p)
      decreases s, 12
    {
      hide Is, Decode, Valid, Extends, Grows, Last, Coded, SizeE, Accepted, CodedS, SizeS, AcceptedS, JumpsOk;
      hide Final, Accounted, Aimed, Insts, Listed, Targetable, OpenedBy, Simple, Numbered, Named;
      NumberedCodes();
      LeaveCodes();
      ghost var a := |code|;
      var end := EmitJump(OpJump, a + 3 + SizeS(s, p));
      ghost var k := Final();
      Follows(old(Final()), k);
      WordStays(old(Final()), k, inst);
      LabelTo(inst, |code|);
      JumpsGrow(old(Final()), k, jumps, p, d);
      ghost var op, js := open, jumps;
      :- Nested(s, p, d);
      ghost var h := Final();
      Emit(OpEndTry);
      ghost var l := Final();
      JumpsGrow(h, l, jumps, p, d);
      Follows(h, l);
      Then(k, h, l);
      Then(old(Final()), k, l);
      WordStays(k, l, end);
      AccountedPatch(old(open) - {inst}, op, end, js, open, jumps);
      LabelTo(end, |code|);
      Stands(k, l, a, Jump(a + 3 + SizeS(s, p)), a + 2);
      StmUp(h, l, names, s, p, d, a + 2);
      o := Pass;
    }

    lemma {:induction false} TryCoded(f: Fn, k: Fn, l: Fn, s: Stm, p: Path, d: seq<Dest>, a: nat)
      requires s.Try? && |d| == Depth(p) && Last(f, l) && Last(k, l)
      requires var d1, q, end := d + [Dest(a + SizeS(s, p), 0)], a + 4 + SizeS(s.handler, Inside(CatchBody, p)),
        a + SizeS(s, p);
        var r := q + 3 + SizeS(s.s, Inside(TryBody, p));
        && Is(f, a, TryTo(q + 3), a + 2) && Is(k, a + 2, Catch(s.x), a + 4)
        && CodedS(k, names, s.handler, Inside(CatchBody, p), d1, a + 4) && Is(k, q, LeaveScope, q + 1)
          && Is(l, q + 1, Jump(end), q + 3)
        && CodedS(l, names, s.s, Inside(TryBody, p), d1, q + 3) && Is(l, r, EndTry, r + 1)
      ensures CodedS(l, names, s, p, d, a)
    {
      hide Is, CodedS, SizeS, Extends;
      var d1 := d + [Dest(a + SizeS(s, p), 0)];
      StmUp(k, l, names, s.handler, Inside(CatchBody, p), d1, a + 4);
      CodedSDef(l, names, s, p, d, a);
    }

    static lemma {:induction false} JumpsTry(v: seq<Word>, jumps: seq<seq<JumpTo>>, p: Path, d: seq<Dest>)
      requires JumpsOk(v, jumps, Inside(CatchBody, p), d)
      ensures JumpsOk(v, jumps, Inside(TryBody, p), d)
    {
      forall i | 0 <= i < |d|
        ensures jumps[i] != [] ==> Targetable(Inside(TryBody, p), i + 1)
      {
        if jumps[i] != [] { assert Targetable(Inside(CatchBody, p), i + 1); }
      }
    }


    // ----- loops -----

    /** A loop's list is patched as soon as its code ends. */
    method CloseLoop(k: Kind, p: Path, ghost d: seq<Dest>, cont: nat, ghost op: set<nat>, ghost js: seq<seq<JumpTo>>)
      requires Valid() && JumpsOk(Final().code, jumps, Inside(k, p), d + [Dest(|code|, cont)]) && |d| == Depth(p)
      requires Accounted(op, js + [[]], open, jumps)
      modifies this
      ensures Valid() && Final() == old(Final()) && |code| == |Final().code| == old(|code|)
      ensures JumpsOk(Final().code, jumps, p, d) && Accounted(op, js, open - {}, jumps)
    {
      hide Valid, JumpsOk, Accounted;
      CloseNode(k, p, d, Dest(|code|, cont), op, js);
      LabelJumps(own, |code|, cont);
      assert open - {} == open;
    }

    method DoOf(s: Stm, p: Path, ghost d: seq<Dest>) returns (o: Status)
      requires Valid() && |d| == Depth(p) && JumpsOk(Final().code, jumps, p, d) && s.Do?
      modifies this
      ensures o.Pass? ==> StmAt(old(Final()), old(open), old(jumps), s, p, d, old(|code|))
      ensures o.Fail? ==> !AcceptedS(s, p)
      decreases s, 3
    {
      hide Is, Decode, Valid, Extends, Grows, Last, Coded, SizeE, Accepted, CodedS, SizeS, AcceptedS, JumpsOk;
      hide Final, Accounted, Aimed, Insts, Listed, Targetable, OpenedBy, Simple, Numbered, Named;
      NumberedCodes();
      ghost var a := |code|;
      var loop := |code|;
      var p1 := Inside(Loop, p);
      ghost var q := a + SizeS(s.s, p1);
      ghost var dest := Dest(a + SizeS(s, p), q);
      AcceptedSDef(s, p);
      CodedSDef(Final(), names, s, p, d, a);
      OpenNode(Loop, p, d, dest);
      :- Nested(s.s, p1, d + [dest]);
      ghost var f := Final();
      var cont := |code|;
      :- Expression(s.c);
      ghost var g := Final();
      EmitNumbered(OpJTrue, loop);
      ghost var l := Final();
      Follows(g, l);
      Then(f, g, l);
      Then(old(Final()), f, l);
      JumpsGrow(f, l, jumps, p1, d + [dest]);
      CloseLoop(Loop, p, d, cont, old(open), old(jumps));
      StmUp(f, l, names, s.s, p1, d + [dest], a);
      Kept(g, l, names, s.c, q);
      CodedSDef(l, names, s, p, d, a);
      o := Pass;
    }

    method WhileOf(s: Stm, p: Path, ghost d: seq<Dest>) returns (o: Status)
      requires Valid() && |d| == Depth(p) && JumpsOk(Final().code, jumps, p, d) && s.While?
      modifies this
      ensures o.Pass? ==> StmAt(old(Final()), old(open), old(jumps), s, p, d, old(|code|))
      ensures o.Fail? ==> !AcceptedS(s, p)
      decreases s, 3
    {
      hide Is, Decode, Valid, Extends, Grows, Last, Coded, SizeE, Accepted, CodedS, SizeS, AcceptedS, JumpsOk;
      hide Final, Accounted, Aimed, Insts, Listed, Targetable, OpenedBy, Simple, Numbered, Named;
      ghost var a := |code|;
      var loop := |code|;
      ghost var dest := LoopDest(s, a, p, a);
      AcceptedSDef(s, p);
      LoopSize(s, p);
      OpenNode(Loop, p, d, dest);
      var cont :- LoopPart(s, a, p, d, dest);
      CloseLoop(Loop, p, d, loop, old(open), old(jumps));
      CodedSDef(Final(), names, s, p, d, a);
      o := Pass;
    }

    method ForOf(s: Stm, p: Path, ghost d: seq<Dest>) returns (o: Status)
      requires Valid() && |d| == Depth(p) && JumpsOk(Final().code, jumps, p, d) && s.For?
      modifies this
      ensures o.Pass? ==> StmAt(old(Final()), old(open), old(jumps), s, p, d, old(|code|))
      ensures o.Fail? ==> !AcceptedS(s, p)
      decreases s, 3
    {
      hide Is, Decode, Valid, Extends, Grows, Last, Coded, SizeE, Accepted, CodedS, SizeS, AcceptedS, JumpsOk;
      hide Final, Accounted, Aimed, Insts, Listed, Targetable, OpenedBy, Simple, Numbered, Named;
      ghost var a := |code|;
      AcceptedSDef(s, p);
      LoopSize(s, p);
      :- Initial(s.init);
      ghost var f := Final();
      ghost var dest := LoopDest(s, a, p, |code|);
      JumpsGrow(old(Final()), f, jumps, p, d);
      OpenNode(Loop, p, d, dest);
      var cont :- LoopPart(s, a, p, d, dest);
      ghost var l := Final();
      Follows(f, l);
      Then(old(Final()), f, l);
      CloseLoop(Loop, p, d, cont, old(open), old(jumps));
      InitUp(f, l, names, s.init, a);
      CodedSDef(l, names, s, p, d, a);
      o := Pass;
    }

    /** Where the jumps to a `while` or `for` at start go, its test being at a. */
    ghost function LoopDest(s: Stm, start: nat, p: Path, a: nat): Dest
      requires s.While? || s.For?
    {
      var b := if TestOf(s).Some? then a + SizeE(TestOf(s).value) + 2 else a;
      Dest(start + SizeS(s, p), if s.While? then a else b + SizeS(s.s, Inside(Loop, p)))
    }

    /** Where the jump back is, when the loop's body starts at b. */
    static ghost function BackAt(s: Stm, p: Path, b: nat): nat
      requires s.While? || s.For?
    {
      b + SizeS(s.s, Inside(Loop, p)) + if StepOf(s).Some? then SizeE(StepOf(s).value) + 1 else 0
    }

    /** The body at b, the step, and the jump back to the test. */
    ghost predicate RoundCoded(f: Fn, s: Stm, p: Path, d: seq<Dest>, test: nat, b: nat)
      requires (s.While? || s.For?) && |d| == Depth(p) + 1
    {
      var step, q, r := StepOf(s), b + SizeS(s.s, Inside(Loop, p)), BackAt(s, p, b);
      && CodedS(f, names, s.s, Inside(Loop, p), d, b) && Is(f, r, Jump(test), r + 2)
      && (step.Some? ==> Coded(f, names, step.value, q) && Is(f, q + SizeE(step.value), Pop, r))
    }

    lemma {:induction false} LoopSize(s: Stm, p: Path)
      requires s.While? || s.For?
      ensures SizeS(s, p) == (if s.For? then SizeInit(s.init) else 0)
        + (if TestOf(s).Some? then SizeE(TestOf(s).value) + 2 else 0)
        + SizeS(s.s, Inside(Loop, p)) + (if StepOf(s).Some? then SizeE(StepOf(s).value) + 1 else 0) + 2
    {
      hide SizeE;
    }

    /** From the test to the jump back. */
    method LoopPart(s: Stm, ghost start: nat, p: Path, ghost d: seq<Dest>, ghost dest: Dest)
      returns (o: Status, cont: nat)
      requires (s.While? || s.For?) && Valid() && |d| == Depth(p)
        && JumpsOk(Final().code, jumps, Inside(Loop, p), d + [dest])
      requires dest == LoopDest(s, start, p, |code|) && |code| == start + if s.For? then SizeInit(s.init) else 0
      modifies this
      ensures o.Pass? ==> Upto(old(Final()), start + SizeS(s, p), old(open), old(jumps), Inside(Loop, p), d + [dest])
      ensures o.Pass? ==> CodedLoop(Final(), names, s, start, p, d, old(|code|)) && (s.For? ==> cont == dest.cont)
      ensures o.Fail? ==> !AcceptedOpt(TestOf(s)) || !AcceptedOpt(StepOf(s)) || !AcceptedS(s.s, Inside(Loop, p))
      decreases s, 2
    {
      hide Is, Decode, Valid, Extends, Grows, Last, Coded, SizeE, Accepted, CodedS, SizeS, AcceptedS, JumpsOk;
      hide Final, Accounted, Aimed, Insts, Listed, Targetable, OpenedBy, Simple, Numbered, Named, CodedLoop, RoundCoded;
      LoopSize(s, p);
      AccountedSame(open, jumps);
      ghost var a := |code|;
      var loop := |code|;
      cont := 0;
      if TestOf(s).Some? {
        cont :- TestedPart(s, p, d, dest);
      } else {
        cont :- LoopBody(s, loop, p, d, dest);
      }
      LoopCoded(Final(), s, start, p, d, a);
      o := Pass;
    }

    /** A test that leaves the loop, and what follows it. */
    method TestedPart(s: Stm, p: Path, ghost d: seq<Dest>, ghost dest: Dest) returns (o: Status, cont: nat)
      requires (s.While? || s.For?) && TestOf(s).Some? && Valid() && |d| == Depth(p)
        && JumpsOk(Final().code, jumps, Inside(Loop, p), d + [dest])
      requires dest.brk == BackAt(s, p, |code| + SizeE(TestOf(s).value) + 2) + 2
      modifies this
      ensures o.Pass? ==> var e, a := TestOf(s).value, old(|code|);
        var b := a + SizeE(e) + 2;
        && Upto(old(Final()), BackAt(s, p, b) + 2, old(open), old(jumps), Inside(Loop, p), d + [dest])
        && cont == b + SizeS(s.s, Inside(Loop, p))
        && Coded(Final(), names, e, a) && Is(Final(), a + SizeE(e), JFalse(dest.brk), b)
        && RoundCoded(Final(), s, p, d + [dest], a, b)
      ensures o.Fail? ==> !AcceptedOpt(TestOf(s)) || !AcceptedOpt(StepOf(s)) || !AcceptedS(s.s, Inside(Loop, p))
      decreases s, 1, 2
    {
      hide Is, Decode, Valid, Extends, Grows, Last, Coded, SizeE, Accepted, CodedS, SizeS, AcceptedS, JumpsOk;
      hide Final, Accounted, Aimed, Insts, Listed, Targetable, OpenedBy, Simple, Numbered, Named;
      hide RoundCoded, BackAt;
      ghost var a := |code|;
      ghost var p1, d1 := Inside(Loop, p), d + [dest];
      var loop := |code|;
      cont := 0;
      var end :- Condition(TestOf(s).value, OpJFalse, dest.brk);
      ghost var f, op, js := Final(), open, jumps;
      JumpsGrow(old(Final()), f, jumps, p1, d1);
      cont :- RoundThen(s, loop, end, p, d, dest);
      ghost var l := Final();
      Follows(f, l);
      Then(old(Final()), f, l);
      AccountedLess(old(open), op, end, js, open, jumps);
      Kept(f, l, names, TestOf(s).value, a);
      Stands(f, l, a + SizeE(TestOf(s).value), JFalse(dest.brk), a + SizeE(TestOf(s).value) + 2);
      o := Pass;
    }

    lemma {:induction false} LoopCoded(l: Fn, s: Stm, start: nat, p: Path, d: seq<Dest>, a: nat)
      requires (s.While? || s.For?) && |d| == Depth(p) && a == start + if s.For? then SizeInit(s.init) else 0
      requires var e, dest := TestOf(s), LoopDest(s, start, p, a);
        var b := if e.Some? then a + SizeE(e.value) + 2 else a;
        && (e.Some? ==> Coded(l, names, e.value, a) && Is(l, a + SizeE(e.value), JFalse(dest.brk), b))
        && RoundCoded(l, s, p, d + [dest], a, b)
      ensures CodedLoop(l, names, s, start, p, d, a)
    {
      hide Is, Coded, SizeE, CodedS, SizeS;
    }

    /** A round, and the label behind it that the jump at inst goes to. */
    method RoundThen(s: Stm, loop: nat, inst: nat, p: Path, ghost d: seq<Dest>, ghost dest: Dest)
      returns (o: Status, cont: nat)
      requires (s.While? || s.For?) && Valid() && |d| == Depth(p)
        && JumpsOk(Final().code, jumps, Inside(Loop, p), d + [dest])
      requires inst < |code| && |Final().code| == |code| && Final().code[inst] == Arg(BackAt(s, p, |code|) + 2)
      modifies this
      ensures o.Pass? ==> var b := old(|code|);
        && Upto(old(Final()), BackAt(s, p, b) + 2, old(open) - {inst}, old(jumps), Inside(Loop, p), d + [dest])
        && cont == b + SizeS(s.s, Inside(Loop, p)) && RoundCoded(Final(), s, p, d + [dest], loop, b)
      ensures o.Fail? ==> !AcceptedOpt(StepOf(s)) || !AcceptedS(s.s, Inside(Loop, p))
      decreases s, 1, 1
    {
      hide Is, Decode, Valid, Extends, Grows, CodedS, SizeS, AcceptedS, Accepted, JumpsOk, Accounted;
      hide RoundCoded, BackAt;
      cont := 0;
      cont :- LoopBody(s, loop, p, d, dest);
      WordStays(old(Final()), Final(), inst);
      AccountedPatch(old(open) - {inst}, old(open), inst, old(jumps), open, jumps);
      LabelTo(inst, |code|);
      o := Pass;
    }

    /** The body, the step and the jump back to the test. */
    method LoopBody(s: Stm, loop: nat, p: Path, ghost d: seq<Dest>, ghost dest: Dest)
      returns (o: Status, cont: nat)
      requires (s.While? || s.For?) && Valid() && |d| == Depth(p)
        && JumpsOk(Final().code, jumps, Inside(Loop, p), d + [dest])
      modifies this
      ensures o.Pass? ==> var b := old(|code|);
        && Upto(old(Final()), BackAt(s, p, b) + 2, old(open), old(jumps), Inside(Loop, p), d + [dest])
        && cont == b + SizeS(s.s, Inside(Loop, p)) && RoundCoded(Final(), s, p, d + [dest], loop, b)
      ensures o.Fail? ==> !AcceptedOpt(StepOf(s)) || !AcceptedS(s.s, Inside(Loop, p))
      decreases s, 1, 0
    {
      hide Is, Decode, Valid, Extends, Grows, Last, Coded, SizeE, Accepted, CodedS, SizeS, AcceptedS, JumpsOk;
      hide Final, Accounted, Aimed, Insts, Listed, Targetable, OpenedBy, Simple, Numbered, Named;
      NumberedCodes(); StackCodes();
      ghost var b := |code|;
      var p1 := Inside(Loop, p);
      cont := 0;
      :- Nested(s.s, p1, d + [dest]);
      ghost var f := Final();
      cont := |code|;
      ghost var g := Final();
      Follows(f, g);
      if StepOf(s).Some? {
        :- ExpThen(StepOf(s).value, OpPop);
        g := Final();
        Follows(f, g);
      }
      EmitNumbered(OpJump, loop);
      ghost var l := Final();
      Follows(g, l);
      Then(f, g, l);
      Then(old(Final()), f, l);
      JumpsGrow(f, l, jumps, p1, d + [dest]);
      StmUp(f, l, names, s.s, p1, d + [dest], b);
      if StepOf(s).Some? {
        Kept(g, l, names, StepOf(s).value, cont);
        Stands(g, l, cont + SizeE(StepOf(s).value), Pop, cont + SizeE(StepOf(s).value) + 1);
      }
      o := Pass;
    }

    method ForInOf(s: Stm, p: Path, ghost d: seq<Dest>) returns (o: Status)
      requires Valid() && |d| == Depth(p) && JumpsOk(Final().code, jumps, p, d) && s.ForIn?
      modifies this
      ensures o.Pass? ==> StmAt(old(Final()), old(open), old(jumps), s, p, d, old(|code|))
      ensures o.Fail? ==> !AcceptedS(s, p)
      decreases s, 3
    {
      hide Is, Decode, Valid, Extends, Grows, Last, Coded, SizeE, Accepted, CodedS, SizeS, AcceptedS, JumpsOk;
      hide Final, Accounted, Aimed, Insts, Listed, Targetable, OpenedBy, Simple, Numbered, Named;
      ScopeCodes(); NumberedCodes();
      ghost var a := |code|;
      var p1 := Inside(ForInLoop, p);
      ghost var q := a + SizeE(s.e) + 1;
      ghost var dest := Dest(a + SizeS(s, p), q);
      AcceptedSDef(s, p);
      CodedSDef(Final(), names, s, p, d, a);
      OpenNode(ForInLoop, p, d, dest);
      :- ExpThen(s.e, OpIterator);
      var loop := |code|;
      ghost var f := Final();
      JumpsGrow(old(Final()), f, jumps, p1, d + [dest]);
      :- NameRounds(s, p, d, dest, loop);
      ghost var l := Final();
      Follows(f, l);
      Then(old(Final()), f, l);
      CloseLoop(ForInLoop, p, d, loop, old(open), old(jumps));
      Kept(f, l, names, s.e, a);
      Stands(f, l, q - 1, Do1(Iterator, 1), q);
      CodedSDef(l, names, s, p, d, a);
      o := Pass;
    }

    /** The rounds of a for-in loop. */
    method NameRounds(s: Stm, p: Path, ghost d: seq<Dest>, ghost dest: Dest, loop: nat) returns (o: Status)
      requires s.ForIn? && Valid() && |d| == Depth(p) && JumpsOk(Final().code, jumps, Inside(ForInLoop, p), d + [dest])
      requires |Final().code| == |code|
        && dest.brk == |code| + 5 + SizeForAssign(s.lhs) + SizeS(s.s, Inside(ForInLoop, p))
      modifies this
      ensures o.Pass? ==> Upto(old(Final()), dest.brk, old(open), old(jumps), Inside(ForInLoop, p), d + [dest])
      ensures o.Pass? ==> var q := old(|code|);
        && Is(Final(), q, Next, q + 1) && Is(Final(), q + 1, JFalse(dest.brk), q + 3)
          && CodedForAssign(Final(), names, s.lhs, q + 3)
        && CodedS(Final(), names, s.s, Inside(ForInLoop, p), d + [dest], q + 3 + SizeForAssign(s.lhs))
        && Is(Final(), dest.brk - 2, Jump(loop), dest.brk)
      ensures o.Fail? ==> !AcceptedRef(s.lhs) || !AcceptedS(s.s, Inside(ForInLoop, p))
      decreases s, 2
    {
      hide Is, Decode, Valid, Extends, Grows, Last, Coded, SizeE, Accepted, CodedS, SizeS, AcceptedS, JumpsOk;
      hide Final, Accounted, Aimed, Insts, Listed, Targetable, OpenedBy, Simple, Numbered, Named;
      hide CodedForAssign, SizeForAssign, AcceptedRef;
      ScopeCodes(); NumberedCodes();
      ghost var q := |code|;
      var p1 := Inside(ForInLoop, p);
      ghost var d1 := d + [dest];
      Emit(OpNextIter);
      ghost var f := Final();
      var end := EmitJump(OpJFalse, dest.brk);
      ghost var g, op, js := Final(), open, jumps;
      :- ForAssign(s.lhs);
      ghost var h := Final();
      Follows(g, h);
      Then(f, g, h);
      Then(old(Final()), f, h);
      JumpsGrow(old(Final()), h, jumps, p1, d1);
      :- BodyAndBack(s.s, p1, d1, loop);
      ghost var l := Final();
      Follows(h, l);
      Then(g, h, l);
      Then(f, g, l);
      Then(old(Final()), f, l);
      WordStays(g, l, end);
      AccountedPatch(old(open), op, end, js, open, jumps);
      LabelTo(end, |code|);
      Stands(f, l, q, Next, q + 1);
      Stands(g, l, q + 1, JFalse(dest.brk), q + 3);
      ForAssignUp(h, l, names, s.lhs, q + 3);
      o := Pass;
    }

    /** A body and the jump back. */
    method BodyAndBack(s: Stm, p: Path, ghost d: seq<Dest>, loop: nat) returns (o: Status)
      requires Valid() && |d| == Depth(p) && JumpsOk(Final().code, jumps, p, d) && !(p.Inside? && p.kind.Labelled?)
      modifies this
      ensures o.Pass? ==> Upto(old(Final()), old(|code|) + SizeS(s, p) + 2, old(open), old(jumps), p, d)
      ensures o.Pass? ==> var a, r := old(|code|), old(|code|) + SizeS(s, p);
        CodedS(Final(), names, s, p, d, a) && Is(Final(), r, Jump(loop), r + 2)
      ensures o.Fail? ==> !AcceptedS(s, p)
      decreases s, 11
    {
      hide Is, Decode, Valid, Extends, Grows, Last, Coded, SizeE, Accepted, CodedS, SizeS, AcceptedS, JumpsOk;
      hide Final, Accounted, Aimed, Insts, Listed, Targetable, OpenedBy, Simple, Numbered, Named;
      NumberedCodes();
      ghost var a := |code|;
      :- Nested(s, p, d);
      ghost var f := Final();
      EmitNumbered(OpJump, loop);
      ghost var l := Final();
      Follows(f, l);
      Then(old(Final()), f, l);
      JumpsGrow(f, l, jumps, p, d);
      StmUp(f, l, names, s, p, d, a);
      o := Pass;
    }

    /** `cassignforin` */
    method ForAssign(e: Exp) returns (o: Status)
      requires Valid()
      modifies this
      ensures o.Pass? ==>
        At(old(Final()), old(|code|) + SizeForAssign(e), old(open), old(jumps))
        && CodedForAssign(Final(), names, e, old(|code|))
      ensures o.Fail? ==> !AcceptedRef(e)
    {
      hide Is, Decode, Valid, Extends, Grows, Last, Coded, SizeE, Accepted, CodedS, SizeS, AcceptedS, JumpsOk;
      hide Final, Accounted, Aimed, Insts, Listed, Targetable, OpenedBy, Simple, Numbered, Named, CodedRef;
      hide SizeRef, AcceptedRef;
      StackCodes(); PropertyCodes(); NumberedCodes(); NamedCodes();
      RefParts(e);
      ghost var a := |code|;
      if !IsRef(e) { return Fail; }
      :- Reference(e);
      ghost var f, q := Final(), |code|;
      if e.Index? { Emit(OpRot3); } else if e.Member? { Emit(OpRot2); }
      ghost var g := Final();
      Follows(f, g);
      if e.Ident? {
        EmitLocal(OpSetLocal, OpSetVar, e.x);
      } else if e.Index? {
        Emit(OpSetProp);
      } else {
        EmitString(OpSetPropS, e.x);
      }
      ghost var h, r := Final(), |code|;
      Emit(OpPop);
      ghost var l := Final();
      Follows(h, l);
      Then(g, h, l);
      if !e.Ident? { Then(f, g, l); }
      Then(old(Final()), f, l);
      ForAssignCoded(f, g, h, l, e, a);
      o := Pass;
    }

    static lemma {:induction false} RefParts(e: Exp)
      ensures e.Ident? ==> SizeRef(e) == 0 && AcceptedRef(e)
      ensures !IsRef(e) ==> !AcceptedRef(e)
    {
    }

    lemma {:induction false} ForAssignCoded(f: Fn, g: Fn, h: Fn, l: Fn, e: Exp, a: nat)
      requires Last(f, l) && Last(g, l) && Last(h, l) && CodedRef(f, names, e, a)
      requires var q := a + SizeRef(e);
        && (e.Ident? ==> CodedStore(h, names, e.x, q) && Is(l, q + 2, Pop, q + 3))
        && (e.Index? ==> Is(g, q, Rot3, q + 1) && Is(h, q + 1, Do1(SetProp, 3), q + 2) && Is(l, q + 2, Pop, q + 3))
        && (e.Member? ==>
          Is(g, q, Rot2, q + 1) && Is(h, q + 1, Do1(SetMember(e.x), 2), q + 3) && Is(l, q + 3, Pop, q + 4))
      ensures CodedForAssign(l, names, e, a)
    {
      hide Is, Extends, Coded, SizeE;
      RefKept(f, l, e, a);
      if e.Ident? { StoreKept(h, l, names, e.x, a); }
    }

    // ----- switch -----

    static ghost function Elems(insts: seq<nat>): set<nat> {
      set i | i in insts
    }

    /** The tests' jumps go to the bodies that lie from b on. */
    static ghost predicate Clauses(v: seq<Word>, cases: Cases, p: Path, b: nat, insts: seq<nat>)
      decreases cases
    {
      match cases
      case NoCases => insts == []
      case Default(body, rest) => Clauses(v, rest, p, b + SizeList(body, p), insts)
      case Case(_, body, rest) =>
        && insts != [] && insts[0] < |v| && v[insts[0]] == Arg(b)
        && Clauses(v, rest, p, b + SizeList(body, p), insts[1..])
    }

    static lemma {:induction false} ClausesUp(f: Fn, g: Fn, cases: Cases, p: Path, b: nat, insts: seq<nat>)
      requires Extends(f, g) && Clauses(f.code, cases, p, b, insts)
      ensures Clauses(g.code, cases, p, b, insts)
      decreases cases
    {
      hide SizeList;
      match cases
      case NoCases =>
      case Default(body, rest) => ClausesUp(f, g, rest, p, b + SizeList(body, p), insts);
      case Case(_, body, rest) => ClausesUp(f, g, rest, p, b + SizeList(body, p), insts[1..]);
    }

    /** The chain of tests of `cswitch`; seen says that there has been a default clause. */
    method Tests(cases: Cases, seen: bool, ghost p: Path, ghost b: nat) returns (o: Status, insts: seq<nat>)
      requires Valid()
      modifies this
      ensures o.Pass? ==>
        Valid() && Extends(old(Final()), Final()) && |code| == |Final().code| == old(|code|) + SizeTests(cases)
        && jumps == old(jumps)
      ensures o.Pass? ==>
        CodedTests(Final(), names, cases, p, old(|code|), b) && Clauses(Final().code, cases, p, b, insts)
        && open <= old(open) + Elems(insts)
      ensures o.Pass? ==> Defaults(cases) + (if seen then 1 else 0) <= 1
      ensures o.Fail? ==> !AcceptedCases(cases, p) || Defaults(cases) + (if seen then 1 else 0) > 1
      decreases cases
    {
      hide Is, Decode, Valid, Extends, Grows, Last, Coded, SizeE, Accepted, CodedS, SizeS, AcceptedS, JumpsOk;
      hide Final, Accounted, Aimed, Insts, Listed, Targetable, OpenedBy, Simple, Numbered, Named, SizeList;
      hide AcceptedList;
      Even();
      insts := [];
      match cases {
        case NoCases =>
        case Default(body, rest) =>
          if seen { return Fail, []; }
          insts :- Tests(rest, true, p, b + SizeList(body, p));
        case Case(e, body, rest) =>
          TryCodes();
          ghost var a := |code|;
          :- Expression(e);
          ghost var f := Final();
          var inst := EmitJump(OpJCase, b);
          ghost var g, op := Final(), open;
          insts :- Tests(rest, seen, p, b + SizeList(body, p));
          ghost var l := Final();
          Follows(g, l);
          Then(f, g, l);
          Then(old(Final()), f, l);
          WordStays(g, l, inst);
          Kept(f, l, names, e, a);
          Stands(g, l, a + SizeE(e), JCase(b), a + SizeE(e) + 2);
          ghost var rests := insts;
          insts := [inst] + insts;
          assert insts[1..] == rests;
          assert Elems(insts) == {inst} + Elems(rests);
      }
      o := Pass;
    }

    /** The jumps to the bodies. */
    static ghost function Waiting(cases: Cases, insts: seq<nat>, def: nat): set<nat> {
      Elems(insts) + if Defaults(cases) == 1 then {def} else {}
    }

    static function First(cases: Cases, insts: seq<nat>, def: nat): nat
      requires cases.Case? ==> insts != []
    {
      if cases.Case? then insts[0] else def
    }

    static lemma {:induction false} WaitingFirst(op: set<nat>, cases: Cases, insts: seq<nat>, rest: seq<nat>, def: nat)
      requires !cases.NoCases? && Defaults(cases) <= 1 && (cases.Case? ==> insts != [])
      requires rest == if cases.Case? then insts[1..] else insts
      ensures op - {First(cases, insts, def)} - Waiting(cases.rest, rest, def) == op - Waiting(cases, insts, def)
    {
      if cases.Case? { assert insts == [insts[0]] + rest; }
    }

    static lemma {:induction false} WaitingNone(op: set<nat>, def: nat)
      ensures op - Waiting(NoCases, [], def) == op
    {
    }

    static lemma {:induction false} WaitingAll(op: set<nat>, cases: Cases, insts: seq<nat>, def: nat)
      requires Defaults(cases) <= 1
      ensures op - Waiting(cases, insts, def) == op - Elems(insts) - if HasDefault(cases) then {def} else {}
    {
      NoDefault(cases, Function, 0);
    }

    /** The body of a clause, with the label that the jump at inst goes to. */
    method BodyAt(body: Stms, inst: nat, p: Path, ghost d: seq<Dest>) returns (o: Status)
      requires Valid() && |d| == Depth(p) && JumpsOk(Final().code, jumps, p, d) && !(p.Inside? && p.kind.Labelled?)
      requires inst < |Final().code| && Final().code[inst] == Arg(|code|)
      modifies this
      ensures o.Pass? ==> Upto(old(Final()), old(|code|) + SizeList(body, p), old(open) - {inst}, old(jumps), p, d)
      ensures o.Pass? ==> CodedList(Final(), names, body, p, d, old(|code|))
      ensures o.Fail? ==> !AcceptedList(body, p)
      decreases body, 1
    {
      hide Is, Decode, Valid, Extends, Grows, JumpsOk, Accounted, SizeList, AcceptedList, CodedList;
      Even();
      LabelTo(inst, |code|);
      o := StatementList(body, p, d);
    }

    /** The bodies, each with the label that its test jumps to; def is the default's jump. */
    method Bodies(cases: Cases, insts: seq<nat>, def: nat, p: Path, ghost d: seq<Dest>) returns (o: Status)
      requires Valid() && |d| == Depth(p) && JumpsOk(Final().code, jumps, p, d) && !(p.Inside? && p.kind.Labelled?)
      requires Clauses(Final().code, cases, p, |code|, insts) && Defaults(cases) <= 1
      requires Defaults(cases) == 1 ==> def < |Final().code| && Final().code[def] == Arg(DefaultAt(cases, p, |code|))
      modifies this
      ensures o.Pass? ==>
        Upto(old(Final()), old(|code|) + SizeBodies(cases, p), old(open) - Waiting(cases, insts, def), old(jumps), p, d)
      ensures o.Pass? ==> CodedBodies(Final(), names, cases, p, d, old(|code|))
      ensures o.Fail? ==> !AcceptedCases(cases, p)
      decreases cases, 0
    {
      hide Is, Decode, Valid, Extends, Grows, Last, Coded, SizeE, Accepted, CodedS, SizeS, AcceptedS, JumpsOk;
      hide Final, Accounted, Aimed, Insts, Listed, Targetable, OpenedBy, Simple, Numbered, Named, SizeList;
      hide AcceptedList, CodedList, Waiting;
      Even();
      AccountedSame(open, jumps);
      if !cases.NoCases? {
        ghost var a := |code|;
        ghost var f0 := Final();
        ghost var op0 := open - {First(cases, insts, def)};
        :- BodyAt(cases.body, First(cases, insts, def), p, d);
        ghost var f, op, js := Final(), open, jumps;
        var rest := if cases.Case? then insts[1..] else insts;
        ClausesUp(f0, f, cases.rest, p, |code|, rest);
        if Defaults(cases.rest) == 1 { WordStays(f0, f, def); }
        :- Bodies(cases.rest, rest, def, p, d);
        ghost var l := Final();
        AccountedMinus(op0, old(jumps), op, js, Waiting(cases.rest, rest, def), open, jumps);
        WaitingFirst(old(open), cases, insts, rest, def);
        Follows(f, l);
        Then(f0, f, l);
        ListUp(f, l, names, cases.body, p, d, a);
      } else {
        WaitingNone(open, def);
      }
      o := Pass;
    }

    lemma {:induction false} SwitchCoded(k: Fn, l: Fn, s: Stm, p: Path, d: seq<Dest>, a: nat)
      requires s.Switch? && |d| == Depth(p) && Last(k, l) && HeadCoded(k, s, Inside(SwitchNode, p), a)
      requires CodedBodies(l, names, s.cases, Inside(SwitchNode, p), d + [Dest(a + SizeS(s, p), 0)],
        a + SizeE(s.e) + SizeTests(s.cases) + 3)
      ensures CodedS(l, names, s, p, d, a)
    {
      hide Is, CodedS, SizeS, Extends, Coded, SizeE, CodedTests, CodedBodies, SizeTests;
      var q := a + SizeE(s.e);
      CodedUp(k, l, names, s.e, a);
      TestsUp(k, l, names, s.cases, Inside(SwitchNode, p), q, q + SizeTests(s.cases) + 3);
      CodedSDef(l, names, s, p, d, a);
    }

    /** What is tested, the tests, and the jump to the default clause. */
    ghost predicate HeadCoded(f: Fn, s: Stm, p: Path, a: nat)
      requires s.Switch?
    {
      var q := a + SizeE(s.e);
      var r := q + SizeTests(s.cases);
      && Coded(f, names, s.e, a) && Defaults(s.cases) <= 1 && CodedTests(f, names, s.cases, p, q, r + 3)
      && Is(f, r, Pop, r + 1) && Is(f, r + 1, Jump(DefaultAt(s.cases, p, r + 3)), r + 3)
    }

    method SwitchHead(s: Stm, ghost p: Path) returns (o: Status, insts: seq<nat>, jump: nat)
      requires s.Switch? && Valid()
      modifies this
      ensures o.Pass? ==>
        Valid() && Extends(old(Final()), Final())
        && |code| == |Final().code| == old(|code|) + SizeE(s.e) + SizeTests(s.cases) + 3
      ensures o.Pass? ==>
        jumps == old(jumps) && HeadCoded(Final(), s, p, old(|code|)) && Clauses(Final().code, s.cases, p, |code|, insts)
      ensures o.Pass? ==>
        jump < |code| && Final().code[jump] == Arg(DefaultAt(s.cases, p, |code|))
        && open <= old(open) + Elems(insts) + {jump}
      ensures o.Fail? ==> !Accepted(s.e) || Defaults(s.cases) > 1 || !AcceptedCases(s.cases, p)
    {
      hide Is, Decode, Valid, Extends, Grows, Last, Coded, SizeE, Accepted, CodedS, SizeS, AcceptedS, JumpsOk;
      hide Final, Accounted, Aimed, Insts, Listed, Targetable, OpenedBy, Simple, Numbered, Named, CodedStm;
      hide SizeStm, AcceptedStm, SizeTests, SizeBodies, CodedTests, CodedBodies, AcceptedCases, Defaults;
      hide Clauses, DefaultAt;
      StackCodes(); NumberedCodes();
      ghost var a := |code|;
      ghost var b := a + SizeE(s.e) + SizeTests(s.cases) + 3;
      insts, jump := [], 0;
      :- Expression(s.e);
      ghost var f := Final();
      insts :- Tests(s.cases, false, p, b);
      ghost var g := Final();
      Emit(OpPop);
      ghost var h := Final();
      jump := EmitJump(OpJump, DefaultAt(s.cases, p, b));
      ghost var k := Final();
      Follows(h, k);
      Then(g, h, k);
      Then(f, g, k);
      Then(old(Final()), f, k);
      ClausesUp(g, k, s.cases, p, b, insts);
      Kept(f, k, names, s.e, a);
      TestsKept(g, k, s.cases, p, a + SizeE(s.e), b);
      Stands(h, k, b - 3, Pop, b - 2);
      o := Pass;
    }

    lemma {:induction false} TestsKept(f: Fn, g: Fn, cases: Cases, p: Path, a: nat, b: nat)
      requires Last(f, g) && CodedTests(f, names, cases, p, a, b)
      ensures CodedTests(g, names, cases, p, a, b)
    {
      hide Extends, CodedTests;
      TestsUp(f, g, names, cases, p, a, b);
    }

    /** `cswitch` */
    method SwitchOf(s: Stm, p: Path, ghost d: seq<Dest>) returns (o: Status)
      requires Valid() && |d| == Depth(p) && JumpsOk(Final().code, jumps, p, d) && s.Switch?
      modifies this
      ensures o.Pass? ==> StmAt(old(Final()), old(open), old(jumps), s, p, d, old(|code|))
      ensures o.Fail? ==> !AcceptedS(s, p)
      decreases s, 3
    {
      hide Is, Decode, Valid, Extends, Grows, Last, Coded, SizeE, Accepted, CodedS, SizeS, AcceptedS, JumpsOk;
      hide Final, Accounted, Aimed, Insts, Listed, Targetable, OpenedBy, Simple, Numbered, Named, CodedStm;
      hide SizeStm, AcceptedStm, SizeTests, SizeBodies, CodedTests, CodedBodies, AcceptedCases, Defaults;
      hide Clauses, DefaultAt, HeadCoded;
      ghost var a := |code|;
      var p1 := Inside(SwitchNode, p);
      ghost var dest := Dest(a + SizeS(s, p), 0);
      ghost var d1 := d + [dest];
      SwitchParts(s, p);
      OpenNode(SwitchNode, p, d, dest);
      var insts, jump :- SwitchHead(s, p1);
      ghost var k, b, op := Final(), |code|, open;
      HeadDefaults(k, s, p1, a);
      JumpsGrow(old(Final()), k, jumps, p1, d1);
      :- Bodies(s.cases, insts, jump, p1, d1);
      ghost var l := Final();
      Follows(k, l);
      Then(old(Final()), k, l);
      WordStays(k, l, jump);
      NoDefault(s.cases, p1, b);
      WaitingAll(op, s.cases, insts, jump);
      ghost var oq := open;
      if !HasDefault(s.cases) { LabelTo(jump, |code|); }
      AccountedSwitch(old(open), old(jumps) + [[]], op, Elems(insts), jump, if HasDefault(s.cases) then {jump}
        else {}, oq, open, jumps);
      CloseLoop(SwitchNode, p, d, 0, old(open), old(jumps));
      SwitchCoded(k, l, s, p, d, a);
      o := Pass;
    }

    lemma {:induction false} HeadDefaults(f: Fn, s: Stm, p: Path, a: nat)
      requires s.Switch? && HeadCoded(f, s, p, a)
      ensures Defaults(s.cases) <= 1
    {
    }

    static lemma {:induction false} SwitchParts(s: Stm, p: Path)
      requires s.Switch?
      ensures SizeS(s, p) == SizeE(s.e) + SizeTests(s.cases) + 3 + SizeBodies(s.cases, Inside(SwitchNode, p))
      ensures AcceptedS(s, p)
        == (Accepted(s.e) && Defaults(s.cases) <= 1 && AcceptedCases(s.cases, Inside(SwitchNode, p)))
    {
      hide SizeE, Accepted, SizeTests, SizeBodies, AcceptedCases;
    }
  }
}
