/** The regular expression compiler and matcher as the engine runs them: `count`, `emit`,
    `compile` and `regcompx` fill and patch a pre-sized instruction buffer, and `match` and
    `regexec` run it with captures kept in a record that is copied at every choice. */
module RegexpEngine {
  import opened RegexpTree
  import opened RegexpProgram
  import opened RegexpCount

  ghost predicate SameCode(p: Prog, q: Prog, b: nat, e: nat) {
    e <= |p| && e <= |q| && forall pc: nat | b <= pc < e :: p[pc] == q[pc]
  }

  lemma {:induction false} CodedFrame(re: Re, p: Prog, q: Prog, b: nat)
    requires Coded(re, p, b) && SameCode(p, q, b, b + Size(re))
    ensures Coded(re, q, b)
  {
    hide Size, Prefer, Coded;
    CodedDef(re, p, b);
    CodedDef(re, q, b);
    match re
    case Then(x, y) => CodedFrame(x, p, q, b); CodedFrame(y, p, q, b + Size(x));
    case Or(x, y) => CodedFrame(x, p, q, b + 1); CodedFrame(y, p, q, b + 2 + Size(x));
    case Opt(x, _) => CodedFrame(x, p, q, b + 1);
    case Star(x, _) => CodedFrame(x, p, q, b + 1);
    case Plus(x, _) => CodedFrame(x, p, q, b);
    case Group(_, x) => CodedFrame(x, p, q, b + 1);
    case Look(_, x) => CodedFrame(x, p, q, b + 1);
    case _ =>
  }

  /** Code emitted with its split and jump still open, then patched. */
  lemma {:induction false} OrPatched(x: Re, y: Re, px: Prog, py: Prog, q: Prog, b: nat)
    requires var j := b + 1 + Size(x);
      && |px| == j && Coded(x, px, b + 1) && px <= py && j < |py|
      && |py| == j + 1 + Size(y) && Coded(y, py, j + 1)
      && q == py[b := ISplit(b + 1, j + 1)][j := IJump(|py|)]
    ensures Coded(Or(x, y), q, b)
  {
    hide Coded, Size;
    CodedDef(Or(x, y), q, b);
    CodedFrame(x, px, q, b + 1);
    CodedFrame(y, py, q, b + 2 + Size(x));
  }

  /** The instruction buffer: `start` is allocated once, `end` is where the next goes. */
  class Reprog {
    const start: array<Inst>
    var end: nat

    ghost predicate Valid()
      reads this
    {
      end <= start.Length
    }

    ghost function Code(): Prog
      requires Valid()
      reads this, start
    {
      start[..end]
    }

    constructor (n: nat)
      ensures Valid() && start.Length == n && end == 0 && fresh(start)
    {
      start := new Inst[n](_ => IEnd);
      end := 0;
    }

    method Emit(inst: Inst) returns (at: nat)
      requires Valid() && end < start.Length
      modifies this`end, start
      ensures Valid() && at == old(end) && Code() == old(Code()) + [inst]
    {
      at := end;
      start[end] := inst;
      end := end + 1;
    }

    /** `compile`: append the code of a node, patching the splits and jumps it opens. */
    method Compile(node: Node)
      requires Accepted(node) && Valid() && end + Size(Expand(node)) <= start.Length
      modifies this`end, start
      ensures Valid() && end == old(end) + Size(Expand(node))
      ensures old(Code()) <= Code() && Coded(Expand(node), Code(), old(end))
      decreases node, 1
    {
      hide Coded, Size, Expand, Accepted;
      ghost var re, b := Expand(node), end;
      ExpandDef(node);
      CodedDef(re, [], 0);
      match node {
        case Null =>
        case Cat(x, y) =>
          Compile(x);
          ghost var p := Code();
          Compile(y);
          CodedFrame(Expand(x), p, Code(), b);
        case Alt(x, y) => CompileAlt(x, y);
        case Rep(x, ng, m, n) => CompileRep(x, ng, m, n);
        case Assert(a) => var _ := Emit(IAssert(a));
        case Par(k, x) =>
          var _ := Emit(ILPar(k));
          Compile(x);
          ghost var p := Code();
          var _ := Emit(IRPar(k));
          CodedFrame(Expand(x), p, Code(), b + 1);
        case Pla(x) => CompileLook(true, x);
        case Nla(x) => CompileLook(false, x);
        case One(t) => var _ := Emit(IRune(t));
      }
      CodedDef(re, Code(), b);
    }

    method CompileAlt(x: Node, y: Node)
      requires Accepted(x) && Accepted(y) && Valid()
      requires end + Size(Or(Expand(x), Expand(y))) <= start.Length
      modifies this`end, start
      ensures Valid() && end == old(end) + Size(Or(Expand(x), Expand(y)))
      ensures old(Code()) <= Code() && Coded(Or(Expand(x), Expand(y)), Code(), old(end))
      decreases Alt(x, y), 0
    {
      hide Coded, Size, Expand, Accepted;
      CodedDef(Or(Expand(x), Expand(y)), [], 0);
      var split := Emit(ISplit(0, 0));
      Compile(x);
      ghost var px := Code();
      var jump := Emit(IJump(0));
      Compile(y);
      ghost var py := Code();
      Patch(split, ISplit(split + 1, jump + 1));
      Patch(jump, IJump(end));
      OrPatched(Expand(x), Expand(y), px, py, Code(), split);
    }

    /** An operand of an earlier instruction is filled in. */
    method Patch(at: nat, inst: Inst)
      requires Valid() && at < end
      modifies start
      ensures Code() == old(Code())[at := inst]
    {
      start[at] := inst;
    }

    method CompileLook(positive: bool, x: Node)
      requires Accepted(x) && Valid() && end + Size(Look(positive, Expand(x))) <= start.Length
      modifies this`end, start
      ensures Valid() && end == old(end) + Size(Look(positive, Expand(x)))
      ensures old(Code()) <= Code() && Coded(Look(positive, Expand(x)), Code(), old(end))
      decreases x, 2
    {
      hide Coded, Size, Expand, Accepted;
      ghost var re := Look(positive, Expand(x));
      CodedDef(re, [], 0);
      var split := Emit(if positive then IPla(0, 0) else INla(0, 0));
      Compile(x);
      ghost var p := Code();
      var _ := Emit(IEnd);
      Patch(split, if positive then IPla(split + 1, end) else INla(split + 1, end));
      CodedFrame(Expand(x), p, Code(), split + 1);
      CodedDef(re, Code(), split);
    }

    method CompileRep(x: Node, ng: bool, m: nat, n: nat)
      requires Accepted(x) && m < REPINF && m <= n <= REPINF && Valid()
      requires end + Size(Repeat(Expand(x), ng, m, n)) <= start.Length
      modifies this`end, start
      ensures Valid() && end == old(end) + Size(Repeat(Expand(x), ng, m, n))
      ensures old(Code()) <= Code() && Coded(Repeat(Expand(x), ng, m, n), Code(), old(end))
      decreases x, 4
    {
      hide Coded, Size, Expand, Accepted, Copies;
      ghost var re, b := Expand(x), end;
      RepeatSizes(re, ng, m, n);
      var inst := CompileCopies(x, m);
      if m == n { return; }
      ghost var p := Code();
      CodedDef(Repeat(re, ng, m, n), p, b);
      CopiesDef(re, m, p, b);
      if n < REPINF {
        CompileOpts(x, ng, n - m);
        CodedFrame(Copies(re, m), p, Code(), b);
      } else if m == 0 {
        CompileStar(x, ng);
      } else {
        CodedDef(Plus(re, ng), p, inst);
        CompilePlus(re, ng, inst);
        CodedFrame(Copies(re, m - 1), p, Code(), b);
      }
      CodedDef(Repeat(re, ng, m, n), Code(), b);
    }

    /** The first loop of a repeat; `inst` is where the last copy starts. */
    method CompileCopies(x: Node, count: nat) returns (inst: nat)
      requires Accepted(x) && Valid() && end + Size(Copies(Expand(x), count)) <= start.Length
      modifies this`end, start
      ensures Valid() && end == old(end) + Size(Copies(Expand(x), count))
      ensures old(Code()) <= Code() && Coded(Copies(Expand(x), count), Code(), old(end))
      ensures count > 0 ==> inst == old(end) + Size(Copies(Expand(x), count - 1))
      decreases x, 3
    {
      hide Coded, Size, Expand, Accepted, Copies;
      ghost var re, b := Expand(x), end;
      inst := end;
      var i := 0;
      CopiesDef(re, 0, Code(), b);
      while i < count
        invariant 0 <= i <= count && Valid() && end == b + Size(Copies(re, i))
        invariant old(Code()) <= Code() && Coded(Copies(re, i), Code(), b)
        invariant i > 0 ==> inst == b + Size(Copies(re, i - 1))
      {
        inst := end;
        CopiesGrow(re, i, count);
        ghost var p := Code();
        Compile(x);
        CodedFrame(Copies(re, i), p, Code(), b);
        i := i + 1;
        CopiesDef(re, i, Code(), b);
      }
    }

    /** Close a loop over the copy of re that starts at inst and ends here. */
    method CompilePlus(ghost re: Re, ng: bool, inst: nat)
      requires Valid() && end < start.Length && Coded(re, Code(), inst) && end == inst + Size(re)
      modifies this`end, start
      ensures Valid() && end == old(end) + 1
      ensures old(Code()) <= Code() && Coded(Plus(re, ng), Code(), inst)
    {
      hide Coded, Size;
      ghost var p := Code();
      var split := Emit(ISplit(0, 0));
      Patch(split, if ng then ISplit(end, inst) else ISplit(inst, end));
      CodedFrame(re, p, Code(), inst);
      CodedDef(Plus(re, ng), Code(), inst);
    }

    method CompileOpts(x: Node, ng: bool, count: nat)
      requires Accepted(x) && Valid() && end + Size(Copies(Opt(Expand(x), ng), count)) <= start.Length
      modifies this`end, start
      ensures Valid() && end == old(end) + Size(Copies(Opt(Expand(x), ng), count))
      ensures old(Code()) <= Code() && Coded(Copies(Opt(Expand(x), ng), count), Code(), old(end))
      decreases x, 3
    {
      hide Coded, Size, Expand, Accepted, Copies;
      ghost var re, b := Opt(Expand(x), ng), end;
      var i := 0;
      CopiesDef(re, 0, Code(), b);
      while i < count
        invariant 0 <= i <= count && Valid() && end == b + Size(Copies(re, i))
        invariant old(Code()) <= Code() && Coded(Copies(re, i), Code(), b)
      {
        CopiesGrow(re, i, count);
        ghost var p := Code();
        CompileOpt(x, ng);
        CodedFrame(Copies(re, i), p, Code(), b);
        i := i + 1;
        CopiesDef(re, i, Code(), b);
      }
    }

    method CompileOpt(x: Node, ng: bool)
      requires Accepted(x) && Valid() && end + Size(Opt(Expand(x), ng)) <= start.Length
      modifies this`end, start
      ensures Valid() && end == old(end) + Size(Opt(Expand(x), ng))
      ensures old(Code()) <= Code() && Coded(Opt(Expand(x), ng), Code(), old(end))
      decreases x, 2
    {
      hide Coded, Size, Expand, Accepted;
      ghost var re := Opt(Expand(x), ng);
      CodedDef(re, [], 0);
      var split := Emit(ISplit(0, 0));
      Compile(x);
      ghost var p := Code();
      Patch(split, if ng then ISplit(end, split + 1) else ISplit(split + 1, end));
      CodedFrame(Expand(x), p, Code(), split + 1);
      CodedDef(re, Code(), split);
    }

    method CompileStar(x: Node, ng: bool)
      requires Accepted(x) && Valid() && end + Size(Star(Expand(x), ng)) <= start.Length
      modifies this`end, start
      ensures Valid() && end == old(end) + Size(Star(Expand(x), ng))
      ensures old(Code()) <= Code() && Coded(Star(Expand(x), ng), Code(), old(end))
      decreases x, 2
    {
      hide Coded, Size, Expand, Accepted;
      ghost var re := Star(Expand(x), ng);
      CodedDef(re, [], 0);
      var split := Emit(ISplit(0, 0));
      Compile(x);
      ghost var p := Code();
      var jump := Emit(IJump(0));
      Patch(split, if ng then ISplit(end, split + 1) else ISplit(split + 1, end));
      Patch(jump, IJump(split));
      CodedFrame(Expand(x), p, Code(), split + 1);
      CodedDef(re, Code(), split);
    }
  }

  /** Copies emitted so far leave room for the next one. */
  lemma {:induction false} CopiesGrow(x: Re, i: nat, count: nat)
    requires i < count
    ensures Size(Copies(x, i)) + Size(x) == Size(Copies(x, i + 1)) <= Size(Copies(x, count))
  {
    hide Size, Copies;
    CopiesSize(x, i);
    CopiesSize(x, i + 1);
    CopiesSize(x, count);
    Distribute(Size(x), i, i + 1);
    MulMono(i + 1, count, Size(x));
  }

  lemma {:induction false} RepeatSizes(x: Re, ng: bool, m: nat, n: nat)
    requires m <= n <= REPINF
    ensures Size(Copies(x, m)) <= Size(Repeat(x, ng, m, n))
  {
    hide Size, Copies, Repeat;
    RepeatSize(x, ng, m, n);
    CopiesSize(x, m);
    MulMono(m, n, Size(x));
  }

  /** TooLarge is the error exit. After Overrun the program goes on to write behind its buffer. */
  datatype Outcome = Compiled(prog: Reprog) | TooLarge | Overrun

  /** The part of `regcompx` after parsing: size the buffer, emit the search loop around
      the pattern. */
  method Regcompx(node: Node) returns (r: Outcome)
    requires Accepted(node)
    ensures r.TooLarge? <==> !Checked(node)
    ensures r.Overrun? <==> Checked(node) && 6 + Room(node) > INT_MAX
    ensures r.Compiled? ==> r.prog.Valid() && Program(Expand(node), r.prog.Code())
  {
    hide Coded, Size, Expand, Accepted, Count, Room;
    var c := Count(node);
    if c.None? { return TooLarge; }
    var n := Int(6 + c.value);
    if n < 0 || n > MAXPROG { return TooLarge; }
    Overruns(node);
    if n < 6 + Size(Expand(node)) { return Overrun; }
    var p := new Reprog(n);
    EmitSearch(p);
    FinishProgram(p, node);
    r := Compiled(p);
  }

  /** Try the pattern here, or skip a rune and try again. */
  method EmitSearch(p: Reprog)
    requires p.Valid() && p.end == 0 && 4 <= p.start.Length
    modifies p`end, p.start
    ensures p.Valid() && p.Code() == [ISplit(3, 1), IRune(AnyNL), IJump(0), ILPar(0)]
  {
    var split := p.Emit(ISplit(0, 0));
    p.Patch(split, ISplit(split + 3, split + 1));
    var _ := p.Emit(IRune(AnyNL));
    var jump := p.Emit(IJump(0));
    p.Patch(jump, IJump(split));
    var _ := p.Emit(ILPar(0));
  }

  method FinishProgram(p: Reprog, node: Node)
    requires Accepted(node) && p.Valid() && 6 + Size(Expand(node)) <= p.start.Length
    requires p.Code() == [ISplit(3, 1), IRune(AnyNL), IJump(0), ILPar(0)]
    modifies p`end, p.start
    ensures p.Valid() && Program(Expand(node), p.Code())
  {
    hide Coded, Size, Expand, Accepted;
    ghost var head := p.Code();
    p.Compile(node);
    ghost var body := p.Code();
    assert forall i | 0 <= i < 4 :: body[i] == head[i];
    var _ := p.Emit(IRPar(0));
    var _ := p.Emit(IEnd);
    CodedFrame(Expand(node), body, p.Code(), 4);
  }

  // ----- matching -----

  /** Resub: the captures of a match, copied by assignment. */
  class Resub {
    var sub: Caps

    constructor (c: Caps)
      ensures sub == c
    {
      sub := c;
    }
  }

  /** `match`: run the program from pc at sp; on success the captures are in out. */
  method Match(prog: Prog, ghost rank: seq<nat>, text: Text, pc0: nat, sp0: nat, out: Resub) returns (ok: bool)
    requires Ranked(prog, rank) && pc0 < |prog| && sp0 <= |text.s|
    modifies out
    ensures var r := Exec(Machine(prog, rank, text), pc0, State(sp0, old(out.sub)));
            ok == r.Some? && (ok ==> out.sub == r.value)
    decreases |text.s| - sp0, rank[pc0]
  {
    ghost var m := Machine(prog, rank, text);
    var pc, sp := pc0, sp0;
    while true
      invariant 0 <= pc < |prog| && 0 <= sp <= |text.s|
      invariant Exec(m, pc, State(sp, out.sub)) == Exec(m, pc0, State(sp0, old(out.sub)))
      invariant sp0 < sp || (sp == sp0 && rank[pc] <= rank[pc0])
      decreases |text.s| - sp, rank[pc]
    {
      assert InstOk(prog, rank, pc);
      match prog[pc] {
        case IEnd => return true;
        case IJump(x) => pc := x;
        case ISplit(x, y) =>
          var scratch := new Resub(out.sub);
          var found := Match(prog, rank, text, x, sp, scratch);
          if found {
            out.sub := scratch.sub;
            return true;
          }
          pc := y;
        case IPla(x, y) =>
          var found := Match(prog, rank, text, x, sp, out);
          if !found { return false; }
          pc := y;
        case INla(x, y) =>
          var scratch := new Resub(out.sub);
          var found := Match(prog, rank, text, x, sp, scratch);
          if found { return false; }
          pc := y;
        case IRune(t) =>
          if sp == |text.s| || !Passes(t, text.s[sp]) { return false; }
          sp := sp + 1;
          pc := pc + 1;
        case IAssert(a) =>
          if !Holds(a, text, sp) { return false; }
          pc := pc + 1;
        case ILPar(k) =>
          out.sub := Open(out.sub, k, sp);
          pc := pc + 1;
        case IRPar(k) =>
          out.sub := Close(out.sub, k, sp);
          pc := pc + 1;
      }
    }
  }
}
