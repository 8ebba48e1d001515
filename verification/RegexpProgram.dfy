/** Instructions of the regular expression machine, the code of a pattern, and the machine
    itself as a function of a program on which every silent step goes down in rank. */
module RegexpProgram {
  import opened RegexpTree

  datatype Option<T> = None | Some(value: T)

  datatype Inst =
    | IEnd
    | IJump(x: nat)
    | ISplit(x: nat, y: nat)
    | IPla(x: nat, y: nat)
    | INla(x: nat, y: nat)
    | IRune(t: RuneTest)
    | IAssert(a: Assertion)
    | ILPar(k: nat)
    | IRPar(k: nat)

  type Prog = seq<Inst>

  function Size(re: Re): nat {
    match re
    case Eps => 0
    case Then(x, y) => Size(x) + Size(y)
    case Or(x, y) => Size(x) + Size(y) + 2
    case Opt(x, _) => Size(x) + 1
    case Star(x, _) => Size(x) + 2
    case Plus(x, _) => Size(x) + 1
    case Test(_) => 1
    case Group(_, x) => Size(x) + 2
    case Look(_, x) => Size(x) + 2
    case Rune1(_) => 1
  }

  /** A split that prefers `inner`, or `outer` when the repeat is not greedy. */
  function Prefer(ng: bool, inner: nat, outer: nat): Inst {
    if ng then ISplit(outer, inner) else ISplit(inner, outer)
  }

  /** The code of re occupies the Size(re) instructions from address b. */
  predicate Coded(re: Re, prog: Prog, b: nat)
    decreases re, 1
  {
    CodedNode(re, prog, b)
  }

  predicate CodedNode(re: Re, prog: Prog, b: nat)
    decreases re, 0
  {
    b + Size(re) <= |prog| &&
    match re
    case Eps => true
    case Then(x, y) => Coded(x, prog, b) && Coded(y, prog, b + Size(x))
    case Or(x, y) =>
      var j := b + 1 + Size(x);
      && prog[b] == ISplit(b + 1, j + 1) && Coded(x, prog, b + 1)
      && prog[j] == IJump(j + 1 + Size(y)) && Coded(y, prog, j + 1)
    case Opt(x, ng) => prog[b] == Prefer(ng, b + 1, b + 1 + Size(x)) && Coded(x, prog, b + 1)
    case Star(x, ng) =>
      var j := b + 1 + Size(x);
      prog[b] == Prefer(ng, b + 1, j + 1) && Coded(x, prog, b + 1) && prog[j] == IJump(b)
    case Plus(x, ng) =>
      var j := b + Size(x);
      Coded(x, prog, b) && prog[j] == Prefer(ng, b, j + 1)
    case Test(a) => prog[b] == IAssert(a)
    case Group(k, x) =>
      prog[b] == ILPar(k) && Coded(x, prog, b + 1) && prog[b + 1 + Size(x)] == IRPar(k)
    case Look(positive, x) =>
      var j := b + 1 + Size(x);
      && prog[b] == (if positive then IPla(b + 1, j + 1) else INla(b + 1, j + 1))
      && Coded(x, prog, b + 1) && prog[j] == IEnd
    case Rune1(t) => prog[b] == IRune(t)
  }

  /** The whole program: try at the first position, else skip a rune and try again. */
  predicate Program(re: Re, prog: Prog) {
    && |prog| == Size(re) + 6
    && prog[0] == ISplit(3, 1) && prog[1] == IRune(AnyNL) && prog[2] == IJump(0) && prog[3] == ILPar(0)
    && Coded(re, prog, 4)
    && prog[Size(re) + 4] == IRPar(0) && prog[Size(re) + 5] == IEnd
  }

  // ----- ranks: why the machine stops -----

  predicate StepDown(rank: seq<nat>, pc: nat, next: nat) {
    pc < |rank| && next < |rank| && rank[next] < rank[pc]
  }

  /** Every target of the instruction is an address of the program, and lower in rank
      unless a rune is consumed on the way. */
  predicate InstOk(prog: Prog, rank: seq<nat>, pc: nat)
    requires pc < |prog| == |rank|
  {
    match prog[pc]
    case IEnd => true
    case IJump(x) => StepDown(rank, pc, x)
    case ISplit(x, y) => StepDown(rank, pc, x) && StepDown(rank, pc, y)
    case IPla(x, y) => StepDown(rank, pc, x) && StepDown(rank, pc, y)
    case INla(x, y) => StepDown(rank, pc, x) && StepDown(rank, pc, y)
    case IRune(_) => pc + 1 < |prog|
    case IAssert(_) => StepDown(rank, pc, pc + 1)
    case ILPar(k) => k < MAXSUB && StepDown(rank, pc, pc + 1)
    case IRPar(k) => k < MAXSUB && StepDown(rank, pc, pc + 1)
  }

  predicate Ranked(prog: Prog, rank: seq<nat>) {
    |prog| == |rank| && forall pc: nat | pc < |prog| :: InstOk(prog, rank, pc)
  }

  function Max(a: nat, b: nat): nat {
    if a < b then b else a
  }

  /** The rank of the first instruction of re when the code after it starts at rank k. */
  function Entry(re: Re, k: nat): nat
    decreases re, 0
  {
    match re
    case Eps => k
    case Then(x, y) => Entry(x, Entry(y, k))
    case Or(x, y) => Max(Entry(x, k + 1), Entry(y, k)) + 1
    case Opt(x, _) => Max(Entry(x, k), k) + 1
    case Star(x, _) => LoopRank(x, k)
    case Plus(x, _) => Entry(x, LoopRank(x, k))
    case Test(_) => k + 1
    case Group(_, x) => Entry(x, k + 1) + 1
    case Look(_, x) => Max(Entry(x, 0), k) + 1
    case Rune1(_) => 0
  }

  /** The rank of the split of a loop: above its body's entry and its exit. */
  function LoopRank(x: Re, k: nat): nat
    decreases x, 1
  {
    Max(Entry(x, 0), k) + 1
  }

  /** The entry rank of a node that must consume does not depend on what follows it. */
  lemma {:induction false} EntryFixed(re: Re, k: nat)
    requires !MayBeEmpty(re)
    ensures Size(re) > 0 && Entry(re, k) == Entry(re, 0)
  {
    match re
    case Then(x, y) =>
      if MayBeEmpty(x) { EntryFixed(y, k); }
      else { EntryFixed(x, Entry(y, k)); EntryFixed(x, Entry(y, 0)); }
    case Or(x, y) => EntryFixed(x, k + 1); EntryFixed(x, 1); EntryFixed(y, k);
    case Plus(x, _) => EntryFixed(x, LoopRank(x, k)); EntryFixed(x, LoopRank(x, 0));
    case Group(_, x) => EntryFixed(x, k + 1); EntryFixed(x, 1);
    case Rune1(_) =>
  }

  /** The instructions of re at b carry these ranks. */
  ghost predicate Carries(re: Re, k: nat, rank: seq<nat>, b: nat)
    decreases re, 1
  {
    CarriesNode(re, k, rank, b)
  }

  ghost predicate CarriesNode(re: Re, k: nat, rank: seq<nat>, b: nat)
    decreases re, 0
  {
    b + Size(re) <= |rank| &&
    match re
    case Eps => true
    case Then(x, y) => Carries(x, Entry(y, k), rank, b) && Carries(y, k, rank, b + Size(x))
    case Or(x, y) =>
      && rank[b] == Max(Entry(x, k + 1), Entry(y, k)) + 1 && Carries(x, k + 1, rank, b + 1)
      && rank[b + 1 + Size(x)] == k + 1 && Carries(y, k, rank, b + 2 + Size(x))
    case Opt(x, _) => rank[b] == Max(Entry(x, k), k) + 1 && Carries(x, k, rank, b + 1)
    case Star(x, _) =>
      && rank[b] == LoopRank(x, k) && Carries(x, LoopRank(x, k) + 1, rank, b + 1)
      && rank[b + 1 + Size(x)] == LoopRank(x, k) + 1
    case Plus(x, _) => Carries(x, LoopRank(x, k), rank, b) && rank[b + Size(x)] == LoopRank(x, k)
    case Test(_) => rank[b] == k + 1
    case Group(_, x) =>
      && rank[b] == Entry(x, k + 1) + 1 && Carries(x, k + 1, rank, b + 1) && rank[b + 1 + Size(x)] == k + 1
    case Look(_, x) =>
      && rank[b] == Max(Entry(x, 0), k) + 1 && Carries(x, 0, rank, b + 1) && rank[b + 1 + Size(x)] == 0
    case Rune1(_) => rank[b] == 0
  }

  /** One unfolding of Carries. */
  lemma {:induction false} CarriesDef(re: Re, k: nat, r: seq<nat>, b: nat)
    ensures match re
      case Eps => Size(re) == 0 && (Carries(re, k, r, b) <==> b <= |r|)
      case Then(x, y) => Size(re) == Size(x) + Size(y) && (Carries(re, k, r, b) <==>
        Carries(x, Entry(y, k), r, b) && Carries(y, k, r, b + Size(x)))
      case Or(x, y) => Size(re) == Size(x) + Size(y) + 2 && (Carries(re, k, r, b) <==>
        && b + Size(re) <= |r| && r[b] == Max(Entry(x, k + 1), Entry(y, k)) + 1 && r[b + 1 + Size(x)] == k + 1
        && Carries(x, k + 1, r, b + 1) && Carries(y, k, r, b + 2 + Size(x)))
      case Opt(x, _) => Size(re) == Size(x) + 1 && (Carries(re, k, r, b) <==>
        b + Size(re) <= |r| && r[b] == Max(Entry(x, k), k) + 1 && Carries(x, k, r, b + 1))
      case Star(x, _) => Size(re) == Size(x) + 2 && (Carries(re, k, r, b) <==>
        && b + Size(re) <= |r| && r[b] == LoopRank(x, k) && r[b + 1 + Size(x)] == LoopRank(x, k) + 1
        && Carries(x, LoopRank(x, k) + 1, r, b + 1))
      case Plus(x, _) => Size(re) == Size(x) + 1 && (Carries(re, k, r, b) <==>
        b + Size(re) <= |r| && r[b + Size(x)] == LoopRank(x, k) && Carries(x, LoopRank(x, k), r, b))
      case Test(_) => Size(re) == 1 && (Carries(re, k, r, b) <==> b < |r| && r[b] == k + 1)
      case Group(_, x) => Size(re) == Size(x) + 2 && (Carries(re, k, r, b) <==>
        && b + Size(re) <= |r| && r[b] == Entry(x, k + 1) + 1 && r[b + 1 + Size(x)] == k + 1
        && Carries(x, k + 1, r, b + 1))
      case Look(_, x) => Size(re) == Size(x) + 2 && (Carries(re, k, r, b) <==>
        && b + Size(re) <= |r| && r[b] == Max(Entry(x, 0), k) + 1 && r[b + 1 + Size(x)] == 0
        && Carries(x, 0, r, b + 1))
      case Rune1(_) => Size(re) == 1 && (Carries(re, k, r, b) <==> b < |r| && r[b] == 0)
  {
    hide Entry, LoopRank, Carries;
    CarriesOnce(re, k, r, b);
    if re.Then? { CarriesEnds(re.y, k, r, b + Size(re.x)); }
  }

  lemma {:induction false} CarriesOnce(re: Re, k: nat, r: seq<nat>, b: nat)
    ensures Carries(re, k, r, b) == CarriesNode(re, k, r, b)
  {
    hide CarriesNode;
  }

  lemma {:induction false} CarriesEnds(re: Re, k: nat, r: seq<nat>, b: nat)
    ensures Carries(re, k, r, b) ==> b + Size(re) <= |r|
  {
    hide Carries;
    CarriesOnce(re, k, r, b);
  }

  ghost predicate SameInside(r: seq<nat>, q: seq<nat>, b: nat, e: nat) {
    e <= |r| && e <= |q| && forall pc: nat | b <= pc < e :: r[pc] == q[pc]
  }

  lemma {:induction false} CarriesFrame(re: Re, k: nat, r: seq<nat>, q: seq<nat>, b: nat)
    requires Carries(re, k, r, b) && SameInside(r, q, b, b + Size(re))
    ensures Carries(re, k, q, b)
  {
    hide Entry, LoopRank, Carries, Size;
    CarriesDef(re, k, r, b);
    CarriesDef(re, k, q, b);
    match re
    case Then(x, y) =>
      CarriesFrame(x, Entry(y, k), r, q, b);
      CarriesFrame(y, k, r, q, b + Size(x));
    case Or(x, y) =>
      CarriesFrame(x, k + 1, r, q, b + 1);
      CarriesFrame(y, k, r, q, b + 2 + Size(x));
    case Opt(x, _) => CarriesFrame(x, k, r, q, b + 1);
    case Star(x, _) => CarriesFrame(x, LoopRank(x, k) + 1, r, q, b + 1);
    case Plus(x, _) => CarriesFrame(x, LoopRank(x, k), r, q, b);
    case Group(_, x) => CarriesFrame(x, k + 1, r, q, b + 1);
    case Look(_, x) => CarriesFrame(x, 0, r, q, b + 1);
    case _ =>
  }

  ghost predicate SameOutside(r: seq<nat>, q: seq<nat>, b: nat, e: nat) {
    |r| == |q| && forall pc: nat | pc < |r| && !(b <= pc < e) :: r[pc] == q[pc]
  }

  /** Such ranks exist: they can be written over any region of the right size. */
  lemma {:induction false} FillOr(re: Re, k: nat, r: seq<nat>, b: nat) returns (q: seq<nat>)
    requires re.Or? && b + Size(re) <= |r|
    ensures SameOutside(r, q, b, b + Size(re)) && Carries(re, k, q, b)
    decreases re, 0
  {
    hide Entry, Carries, Size;
    var Or(x, y) := re;
    CarriesDef(re, k, r, b);
    var j := b + 1 + Size(x);
    var q1 := FillRanks(x, k + 1, r[b := Max(Entry(x, k + 1), Entry(y, k)) + 1][j := k + 1], b + 1);
    q := FillRanks(y, k, q1, j + 1);
    CarriesFrame(x, k + 1, q1, q, b + 1);
    CarriesDef(re, k, q, b);
  }

  lemma {:induction false} FillRanks(re: Re, k: nat, r: seq<nat>, b: nat) returns (q: seq<nat>)
    requires b + Size(re) <= |r|
    ensures SameOutside(r, q, b, b + Size(re)) && Carries(re, k, q, b)
    decreases re, 1
  {
    hide Entry, LoopRank, Carries, Size;
    CarriesDef(re, k, r, b);
    match re {
      case Eps => q := r;
      case Then(x, y) =>
        var q1 := FillRanks(x, Entry(y, k), r, b);
        q := FillRanks(y, k, q1, b + Size(x));
        CarriesFrame(x, Entry(y, k), q1, q, b);
      case Or(_, _) => q := FillOr(re, k, r, b);
      case Opt(x, _) => q := FillRanks(x, k, r[b := Max(Entry(x, k), k) + 1], b + 1);
      case Star(x, _) =>
        var top := LoopRank(x, k);
        q := FillRanks(x, top + 1, r[b := top][b + 1 + Size(x) := top + 1], b + 1);
      case Plus(x, _) => q := FillRanks(x, LoopRank(x, k), r[b + Size(x) := LoopRank(x, k)], b);
      case Test(_) => q := r[b := k + 1];
      case Group(_, x) => q := FillRanks(x, k + 1, r[b := Entry(x, k + 1) + 1][b + 1 + Size(x) := k + 1], b + 1);
      case Look(_, x) => q := FillRanks(x, 0, r[b := Max(Entry(x, 0), k) + 1][b + 1 + Size(x) := 0], b + 1);
      case Rune1(_) => q := r[b := 0];
    }
    CarriesDef(re, k, q, b);
  }

  lemma {:induction false} CarriesEntry(re: Re, k: nat, rank: seq<nat>, b: nat)
    requires Carries(re, k, rank, b) && b + Size(re) < |rank| && rank[b + Size(re)] == k
    ensures rank[b] == Entry(re, k)
  {
    match re
    case Then(x, y) =>
      CarriesEntry(y, k, rank, b + Size(x));
      CarriesEntry(x, Entry(y, k), rank, b);
    case Plus(x, _) => CarriesEntry(x, LoopRank(x, k), rank, b);
    case _ =>
  }

  /** The code of re and its ranks are at b, with rank k after them. */
  ghost predicate Placed(re: Re, k: nat, prog: Prog, rank: seq<nat>, b: nat) {
    && Loopable(re) && |prog| == |rank| && Coded(re, prog, b) && Carries(re, k, rank, b)
    && b + Size(re) < |rank| && rank[b + Size(re)] == k
  }

  lemma {:induction false} PlacedEntry(re: Re, k: nat, prog: Prog, rank: seq<nat>, b: nat)
    requires Placed(re, k, prog, rank, b)
    ensures rank[b] == Entry(re, k)
  {
    CarriesEntry(re, k, rank, b);
  }

  ghost predicate AllOk(prog: Prog, rank: seq<nat>, b: nat, e: nat)
    requires |prog| == |rank|
  {
    b <= e <= |prog| && forall pc: nat | b <= pc < e :: InstOk(prog, rank, pc)
  }

  /** One unfolding of Coded. */
  lemma {:induction false} CodedDef(re: Re, prog: Prog, b: nat)
    ensures match re
      case Eps => Size(re) == 0 && (Coded(re, prog, b) <==> b <= |prog|)
      case Then(x, y) => Size(re) == Size(x) + Size(y) && (Coded(re, prog, b) <==>
        Coded(x, prog, b) && Coded(y, prog, b + Size(x)))
      case Or(x, y) =>
        var j := b + 1 + Size(x);
        Size(re) == Size(x) + Size(y) + 2 && (Coded(re, prog, b) <==>
        && b + Size(re) <= |prog| && prog[b] == ISplit(b + 1, j + 1) && prog[j] == IJump(j + 1 + Size(y))
        && Coded(x, prog, b + 1) && Coded(y, prog, j + 1))
      case Opt(x, ng) => Size(re) == Size(x) + 1 && (Coded(re, prog, b) <==>
        b + Size(re) <= |prog| && prog[b] == Prefer(ng, b + 1, b + 1 + Size(x)) && Coded(x, prog, b + 1))
      case Star(x, ng) => Size(re) == Size(x) + 2 && (Coded(re, prog, b) <==>
        && b + Size(re) <= |prog| && prog[b] == Prefer(ng, b + 1, b + 2 + Size(x))
        && prog[b + 1 + Size(x)] == IJump(b) && Coded(x, prog, b + 1))
      case Plus(x, ng) => Size(re) == Size(x) + 1 && (Coded(re, prog, b) <==>
        b + Size(re) <= |prog| && prog[b + Size(x)] == Prefer(ng, b, b + Size(x) + 1) && Coded(x, prog, b))
      case Test(a) => Size(re) == 1 && (Coded(re, prog, b) <==> b < |prog| && prog[b] == IAssert(a))
      case Group(k, x) => Size(re) == Size(x) + 2 && (Coded(re, prog, b) <==>
        && b + Size(re) <= |prog| && prog[b] == ILPar(k) && prog[b + 1 + Size(x)] == IRPar(k)
        && Coded(x, prog, b + 1))
      case Look(positive, x) => Size(re) == Size(x) + 2 && (Coded(re, prog, b) <==>
        && b + Size(re) <= |prog| && prog[b + 1 + Size(x)] == IEnd && Coded(x, prog, b + 1)
        && prog[b] == if positive then IPla(b + 1, b + 2 + Size(x)) else INla(b + 1, b + 2 + Size(x)))
      case Rune1(t) => Size(re) == 1 && (Coded(re, prog, b) <==> b < |prog| && prog[b] == IRune(t))
    ensures Coded(re, prog, b) ==> b + Size(re) <= |prog|
  {
    hide Prefer, Coded;
    CodedOnce(re, prog, b);
    if re.Then? { CodedEnds(re.y, prog, b + Size(re.x)); }
  }

  lemma {:induction false} CodedEnds(re: Re, prog: Prog, b: nat)
    ensures Coded(re, prog, b) ==> b + Size(re) <= |prog|
  {
    hide Coded;
    CodedOnce(re, prog, b);
  }

  lemma {:induction false} CodedOnce(re: Re, prog: Prog, b: nat)
    ensures Coded(re, prog, b) == CodedNode(re, prog, b)
  {
    hide CodedNode;
  }

  /** One unfolding of Placed: where the parts of re sit and the ranks around them. */
  lemma {:induction false} PlacedDef(re: Re, k: nat, prog: Prog, rank: seq<nat>, b: nat)
    requires Placed(re, k, prog, rank, b)
    ensures match re
      case Then(x, y) =>
        && Size(re) == Size(x) + Size(y)
        && Placed(y, k, prog, rank, b + Size(x)) && Placed(x, Entry(y, k), prog, rank, b)
      case Or(x, y) =>
        var j := b + 1 + Size(x);
        && Size(re) == Size(x) + Size(y) + 2
        && Placed(x, k + 1, prog, rank, b + 1) && Placed(y, k, prog, rank, j + 1)
        && prog[b] == ISplit(b + 1, j + 1) && prog[j] == IJump(j + 1 + Size(y))
        && rank[b] == Max(Entry(x, k + 1), Entry(y, k)) + 1
      case Opt(x, ng) =>
        && Size(re) == Size(x) + 1 && Placed(x, k, prog, rank, b + 1)
        && prog[b] == Prefer(ng, b + 1, b + 1 + Size(x)) && rank[b] == Max(Entry(x, k), k) + 1
      case Star(x, ng) =>
        && Size(re) == Size(x) + 2 && !MayBeEmpty(x) && Placed(x, LoopRank(x, k) + 1, prog, rank, b + 1)
        && prog[b] == Prefer(ng, b + 1, b + 2 + Size(x)) && rank[b] == LoopRank(x, k)
        && prog[b + 1 + Size(x)] == IJump(b)
      case Plus(x, ng) =>
        && Size(re) == Size(x) + 1 && !MayBeEmpty(x) && Placed(x, LoopRank(x, k), prog, rank, b)
        && prog[b + Size(x)] == Prefer(ng, b, b + Size(x) + 1)
      case Group(n, x) =>
        && Size(re) == Size(x) + 2 && n < MAXSUB && Placed(x, k + 1, prog, rank, b + 1)
        && prog[b] == ILPar(n) && prog[b + 1 + Size(x)] == IRPar(n) && rank[b] == Entry(x, k + 1) + 1
      case Look(positive, x) =>
        && Size(re) == Size(x) + 2 && Placed(x, 0, prog, rank, b + 1)
        && prog[b] == (if positive then IPla(b + 1, b + 2 + Size(x)) else INla(b + 1, b + 2 + Size(x)))
        && prog[b + 1 + Size(x)] == IEnd && rank[b] == Max(Entry(x, 0), k) + 1
      case Test(a) => Size(re) == 1 && prog[b] == IAssert(a) && rank[b] == k + 1
      case Rune1(t) => Size(re) == 1 && prog[b] == IRune(t)
      case Eps => Size(re) == 0
  {
    hide MayBeEmpty, Entry, LoopRank, Coded, Carries, Size;
    CodedDef(re, prog, b);
    CarriesDef(re, k, rank, b);
    match re
    case Then(x, y) => PlacedEntry(y, k, prog, rank, b + Size(x));
    case _ =>
  }

  /** Every silent step inside the code goes down in rank. */
  lemma {:induction false} CodeRanked(re: Re, k: nat, prog: Prog, rank: seq<nat>, b: nat)
    requires Placed(re, k, prog, rank, b)
    ensures AllOk(prog, rank, b, b + Size(re))
    decreases re, 1
  {
    hide Loopable, Carries, Entry, Coded, Size;
    PlacedDef(re, k, prog, rank, b);
    match re
    case Then(x, y) => RankedThen(x, y, k, prog, rank, b);
    case Or(x, y) => RankedOr(x, y, k, prog, rank, b);
    case Opt(x, ng) => RankedOpt(x, ng, k, prog, rank, b);
    case Star(x, ng) => RankedStar(x, ng, k, prog, rank, b);
    case Plus(x, ng) => RankedPlus(x, ng, k, prog, rank, b);
    case Group(n, x) => RankedGroup(n, x, k, prog, rank, b);
    case Look(positive, x) => RankedLook(positive, x, k, prog, rank, b);
    case _ =>
  }

  lemma {:induction false} RankedThen(x: Re, y: Re, k: nat, prog: Prog, rank: seq<nat>, b: nat)
    requires Placed(Then(x, y), k, prog, rank, b)
    ensures AllOk(prog, rank, b, b + Size(Then(x, y)))
    decreases Then(x, y), 0
  {
    hide Coded, Loopable, Size, Carries, Entry;
    PlacedDef(Then(x, y), k, prog, rank, b);
    PlacedEntry(y, k, prog, rank, b + Size(x));
    CodeRanked(x, Entry(y, k), prog, rank, b);
    CodeRanked(y, k, prog, rank, b + Size(x));
  }

  lemma {:induction false} RankedOr(x: Re, y: Re, k: nat, prog: Prog, rank: seq<nat>, b: nat)
    requires Placed(Or(x, y), k, prog, rank, b)
    ensures AllOk(prog, rank, b, b + Size(Or(x, y)))
    decreases Or(x, y), 0
  {
    hide Coded, Loopable, Size, Carries, Entry;
    PlacedDef(Or(x, y), k, prog, rank, b);
    var j := b + 1 + Size(x);
    PlacedEntry(x, k + 1, prog, rank, b + 1);
    PlacedEntry(y, k, prog, rank, j + 1);
    CodeRanked(x, k + 1, prog, rank, b + 1);
    CodeRanked(y, k, prog, rank, j + 1);
  }

  lemma {:induction false} RankedOpt(x: Re, ng: bool, k: nat, prog: Prog, rank: seq<nat>, b: nat)
    requires Placed(Opt(x, ng), k, prog, rank, b)
    ensures AllOk(prog, rank, b, b + Size(Opt(x, ng)))
    decreases Opt(x, ng), 0
  {
    hide Coded, Loopable, Size, Carries, Entry;
    PlacedDef(Opt(x, ng), k, prog, rank, b);
    PlacedEntry(x, k, prog, rank, b + 1);
    CodeRanked(x, k, prog, rank, b + 1);
  }

  lemma {:induction false} RankedStar(x: Re, ng: bool, k: nat, prog: Prog, rank: seq<nat>, b: nat)
    requires Placed(Star(x, ng), k, prog, rank, b)
    ensures AllOk(prog, rank, b, b + Size(Star(x, ng)))
    decreases Star(x, ng), 0
  {
    hide Coded, Loopable, Size, Carries, Entry;
    PlacedDef(Star(x, ng), k, prog, rank, b);
    var top := LoopRank(x, k);
    EntryFixed(x, top + 1);
    PlacedEntry(x, top + 1, prog, rank, b + 1);
    CodeRanked(x, top + 1, prog, rank, b + 1);
  }

  lemma {:induction false} RankedPlus(x: Re, ng: bool, k: nat, prog: Prog, rank: seq<nat>, b: nat)
    requires Placed(Plus(x, ng), k, prog, rank, b)
    ensures AllOk(prog, rank, b, b + Size(Plus(x, ng)))
    decreases Plus(x, ng), 0
  {
    hide Coded, Loopable, Size, Carries, Entry;
    PlacedDef(Plus(x, ng), k, prog, rank, b);
    var top := LoopRank(x, k);
    EntryFixed(x, top);
    PlacedEntry(x, top, prog, rank, b);
    CodeRanked(x, top, prog, rank, b);
  }

  lemma {:induction false} RankedGroup(n: nat, x: Re, k: nat, prog: Prog, rank: seq<nat>, b: nat)
    requires Placed(Group(n, x), k, prog, rank, b)
    ensures AllOk(prog, rank, b, b + Size(Group(n, x)))
    decreases Group(n, x), 0
  {
    hide Coded, Loopable, Size, Carries, Entry;
    PlacedDef(Group(n, x), k, prog, rank, b);
    PlacedEntry(x, k + 1, prog, rank, b + 1);
    CodeRanked(x, k + 1, prog, rank, b + 1);
  }

  lemma {:induction false} RankedLook(positive: bool, x: Re, k: nat, prog: Prog, rank: seq<nat>, b: nat)
    requires Placed(Look(positive, x), k, prog, rank, b)
    ensures AllOk(prog, rank, b, b + Size(Look(positive, x)))
    decreases Look(positive, x), 0
  {
    hide Coded, Loopable, Size, Carries, Entry;
    PlacedDef(Look(positive, x), k, prog, rank, b);
    PlacedEntry(x, 0, prog, rank, b + 1);
    CodeRanked(x, 0, prog, rank, b + 1);
  }

  /** Termination: on the program of any accepted pattern the machine cannot go round a
      cycle without consuming a rune, and every target lies inside the program. */
  lemma {:induction false} ProgramRanked(re: Re, prog: Prog) returns (rank: seq<nat>)
    requires Loopable(re) && Program(re, prog)
    ensures Ranked(prog, rank)
  {
    hide Coded, Loopable, Size, Carries, Entry;
    var n, l := Size(re), Entry(re, 1) + 1;
    rank := FillRanks(re, 1, [l + 1, 0, l + 2, l] + seq(n, _ => 0) + [1, 0], 4);
    PlacedEntry(re, 1, prog, rank, 4);
    CodeRanked(re, 1, prog, rank, 4);
    forall pc: nat | pc < |prog|
      ensures InstOk(prog, rank, pc)
    {
      if 4 <= pc < 4 + n { assert AllOk(prog, rank, 4, 4 + n); }
    }
  }

  // ----- the machine -----

  /** A ranked program at work on a text. */
  datatype Machine = Machine(prog: Prog, rank: seq<nat>, text: Text) {
    ghost predicate Valid() {
      Ranked(prog, rank)
    }

    ghost predicate Can(pc: nat, st: State) {
      Valid() && pc < |prog| && st.pos <= |text.s|
    }
  }

  /** The outcome of `match` from pc: the captures it leaves, if it succeeds. */
  ghost function Exec(m: Machine, pc: nat, st: State): Option<Caps>
    requires m.Can(pc, st)
    decreases |m.text.s| - st.pos, m.rank[pc]
  {
    assert InstOk(m.prog, m.rank, pc);
    match m.prog[pc]
    case IEnd => Some(st.caps)
    case IJump(x) => Exec(m, x, st)
    case ISplit(x, y) => var r := Exec(m, x, st); if r.Some? then r else Exec(m, y, st)
    case IPla(x, y) => var r := Exec(m, x, st); if r.None? then None else Exec(m, y, st.(caps := r.value))
    case INla(x, y) => if Exec(m, x, st).Some? then None else Exec(m, y, st)
    case IRune(t) =>
      if st.pos < |m.text.s| && Passes(t, m.text.s[st.pos]) then Exec(m, pc + 1, st.(pos := st.pos + 1)) else None
    case IAssert(a) => if Holds(a, m.text, st.pos) then Exec(m, pc + 1, st) else None
    case ILPar(k) => Exec(m, pc + 1, st.(caps := Open(st.caps, k, st.pos)))
    case IRPar(k) => Exec(m, pc + 1, st.(caps := Close(st.caps, k, st.pos)))
  }

  ghost predicate CanAll(m: Machine, pc: nat, l: seq<State>) {
    m.Valid() && pc < |m.prog| && Within(l, 0, |m.text.s|)
  }

  /** Continue at pc with each of the states in turn until one succeeds. */
  ghost function Resume(m: Machine, pc: nat, l: seq<State>): Option<Caps>
    requires CanAll(m, pc, l)
  {
    if l == [] then None
    else var r := Exec(m, pc, l[0]); if r.Some? then r else Resume(m, pc, l[1..])
  }

  ghost function OrElse(r: Option<Caps>, s: Option<Caps>): Option<Caps> {
    if r.Some? then r else s
  }

  lemma {:induction false} ExecSplit(m: Machine, pc: nat, st: State, x: nat, y: nat)
    requires m.Can(pc, st) && m.prog[pc] == ISplit(x, y)
    ensures x < |m.prog| && y < |m.prog| && Exec(m, pc, st) == OrElse(Exec(m, x, st), Exec(m, y, st))
  {
    assert InstOk(m.prog, m.rank, pc);
  }

  lemma {:induction false} ExecNext(m: Machine, pc: nat, st: State)
    requires m.Can(pc, st)
    ensures match m.prog[pc]
      case IRune(t) => pc + 1 < |m.prog| && Exec(m, pc, st) ==
        if st.pos < |m.text.s| && Passes(t, m.text.s[st.pos]) then Exec(m, pc + 1, st.(pos := st.pos + 1)) else None
      case IAssert(a) =>
        pc + 1 < |m.prog| && Exec(m, pc, st) == if Holds(a, m.text, st.pos) then Exec(m, pc + 1, st) else None
      case ILPar(k) => k < MAXSUB && pc + 1 < |m.prog|
        && Exec(m, pc, st) == Exec(m, pc + 1, st.(caps := Open(st.caps, k, st.pos)))
      case IRPar(k) => k < MAXSUB && pc + 1 < |m.prog|
        && Exec(m, pc, st) == Exec(m, pc + 1, st.(caps := Close(st.caps, k, st.pos)))
      case IJump(x) => x < |m.prog| && Exec(m, pc, st) == Exec(m, x, st)
      case IEnd => Exec(m, pc, st) == Some(st.caps)
      case _ => true
  {
    assert InstOk(m.prog, m.rank, pc);
  }

  lemma {:induction false} ExecLook(m: Machine, pc: nat, st: State, positive: bool, x: nat, y: nat)
    requires m.Can(pc, st) && m.prog[pc] == if positive then IPla(x, y) else INla(x, y)
    ensures x < |m.prog| && y < |m.prog|
    ensures var r := Exec(m, x, st);
      Exec(m, pc, st) == if positive then (if r.None? then None else Exec(m, y, st.(caps := r.value)))
                         else (if r.Some? then None else Exec(m, y, st))
  {
    assert InstOk(m.prog, m.rank, pc);
  }

  lemma {:induction false} ResumeCons(m: Machine, pc: nat, l: seq<State>)
    requires CanAll(m, pc, l) && l != []
    ensures CanAll(m, pc, l[1..]) && Resume(m, pc, l) == OrElse(Exec(m, pc, l[0]), Resume(m, pc, l[1..]))
  {
    hide Exec;
  }

  lemma {:induction false} ResumeOne(m: Machine, pc: nat, st: State)
    requires m.Can(pc, st)
    ensures Resume(m, pc, [st]) == Exec(m, pc, st)
  {
    hide Exec;
    assert [st][1..] == [];
  }

  lemma {:induction false} ResumeAppend(m: Machine, pc: nat, k: seq<State>, l: seq<State>)
    requires CanAll(m, pc, k) && CanAll(m, pc, l)
    ensures CanAll(m, pc, k + l) && Resume(m, pc, k + l) == OrElse(Resume(m, pc, k), Resume(m, pc, l))
  {
    hide Exec;
    if k == [] {
      assert k + l == l;
    } else {
      assert (k + l)[1..] == k[1..] + l;
      ResumeAppend(m, pc, k[1..], l);
    }
  }

  lemma {:induction false} ResumeJump(m: Machine, pc: nat, l: seq<State>, x: nat)
    requires CanAll(m, pc, l) && m.prog[pc] == IJump(x)
    ensures x < |m.prog| && Resume(m, pc, l) == Resume(m, x, l)
  {
    assert InstOk(m.prog, m.rank, pc);
    hide Exec;
    if l != [] {
      ExecNext(m, pc, l[0]);
      ResumeJump(m, pc, l[1..], x);
    }
  }

  lemma {:induction false} ResumeClose(m: Machine, pc: nat, l: seq<State>, k: nat)
    requires CanAll(m, pc, l) && m.prog[pc] == IRPar(k) && k < MAXSUB
    ensures pc + 1 < |m.prog| && Resume(m, pc, l) == Resume(m, pc + 1, CloseAll(k, l))
  {
    assert InstOk(m.prog, m.rank, pc);
    hide Exec;
    if l != [] {
      ExecNext(m, pc, l[0]);
      ResumeClose(m, pc, l[1..], k);
      assert CloseAll(k, l)[1..] == CloseAll(k, l[1..]);
    }
  }

  lemma {:induction false} ResumeEnd(m: Machine, pc: nat, l: seq<State>)
    requires CanAll(m, pc, l) && m.prog[pc] == IEnd
    ensures Resume(m, pc, l) == if l == [] then None else Some(l[0].caps)
  {
    hide Exec;
    if l != [] { ExecNext(m, pc, l[0]); }
  }

  /** A split between going on inside a repeat, which amounts to `more` after it, and
      leaving it. */
  lemma {:induction false} PreferCorrect(m: Machine, ng: bool, pc: nat, inner: nat, outer: nat, st: State,
    more: seq<State>)
    requires m.Can(pc, st) && m.Can(inner, st) && CanAll(m, outer, more) && m.prog[pc] == Prefer(ng, inner, outer)
    requires Exec(m, inner, st) == Resume(m, outer, more)
    ensures var l := if ng then [st] + more else more + [st];
            CanAll(m, outer, l) && Exec(m, pc, st) == Resume(m, outer, l)
  {
    hide Exec, Resume;
    ResumeOne(m, outer, st);
    if ng {
      ExecSplit(m, pc, st, outer, inner);
      ResumeAppend(m, outer, [st], more);
    } else {
      ExecSplit(m, pc, st, inner, outer);
      ResumeAppend(m, outer, more, [st]);
    }
  }

  /** The code of re sits at address b of the machine's program and is not its end. */
  ghost predicate Ready(m: Machine, re: Re, b: nat) {
    Loopable(re) && m.Valid() && Coded(re, m.prog, b) && b + Size(re) < |m.prog|
  }

  lemma {:induction false} ReadyDef(m: Machine, re: Re, b: nat)
    requires Ready(m, re, b)
    ensures match re
      case Eps => Size(re) == 0
      case Then(x, y) => Ready(m, x, b) && Ready(m, y, b + Size(x)) && Size(re) == Size(x) + Size(y)
      case Or(x, y) =>
        var j := b + 1 + Size(x);
        && Ready(m, x, b + 1) && Ready(m, y, j + 1) && Size(re) == Size(x) + Size(y) + 2
        && m.prog[b] == ISplit(b + 1, j + 1) && m.prog[j] == IJump(j + 1 + Size(y))
      case Opt(x, ng) =>
        && Ready(m, x, b + 1) && Size(re) == Size(x) + 1
        && m.prog[b] == Prefer(ng, b + 1, b + 1 + Size(x))
      case Star(x, ng) =>
        && Ready(m, x, b + 1) && !MayBeEmpty(x) && Size(re) == Size(x) + 2
        && m.prog[b] == Prefer(ng, b + 1, b + 2 + Size(x)) && m.prog[b + 1 + Size(x)] == IJump(b)
      case Plus(x, ng) => ReadyPlus(m, x, ng, b) && Size(re) == Size(x) + 1
      case Test(a) => Size(re) == 1 && m.prog[b] == IAssert(a)
      case Group(k, x) =>
        && 0 < k < MAXSUB && Ready(m, x, b + 1) && Size(re) == Size(x) + 2
        && m.prog[b] == ILPar(k) && m.prog[b + 1 + Size(x)] == IRPar(k)
      case Look(positive, x) =>
        && Ready(m, x, b + 1) && Size(re) == Size(x) + 2 && m.prog[b + 1 + Size(x)] == IEnd
        && m.prog[b] == if positive then IPla(b + 1, b + 2 + Size(x)) else INla(b + 1, b + 2 + Size(x))
      case Rune1(t) => Size(re) == 1 && m.prog[b] == IRune(t)
  {
    hide Ranked, Coded, Size, MayBeEmpty;
    CodedDef(re, m.prog, b);
  }

  /** Main theorem: from the first instruction of a node the machine does what trying the
      node's ways in order, each followed by the code after the node, would do. */
  lemma {:induction false} CodeCorrect(m: Machine, re: Re, b: nat, st: State)
    requires Ready(m, re, b) && st.pos <= |m.text.s|
    ensures Exec(m, b, st) == Resume(m, b + Size(re), Ways(re, m.text, st))
    decreases re, 0, 1, 0, 0
  {
    hide Exec, Resume, Ranked, Ways, WaysAll, Loop, LoopAll, Coded, Loopable, Size;
    match re
    case Eps =>
      ReadyDef(m, re, b);
      WaysDef(re, m.text, st);
      ResumeOne(m, b, st);
    case Then(x, y) => ThenCorrect(m, x, y, b, st);
    case Or(x, y) => OrCorrect(m, x, y, b, st);
    case Opt(x, ng) => OptCorrect(m, x, ng, b, st);
    case Star(x, ng) =>
      ReadyDef(m, re, b);
      WaysDef(re, m.text, st);
      LoopCorrect(m, x, ng, b, st);
    case Plus(x, ng) => PlusCorrect(m, x, ng, b, st);
    case Test(a) => TestCorrect(m, a, b, st);
    case Group(k, x) => GroupCorrect(m, k, x, b, st);
    case Look(positive, x) => LookCorrect(m, positive, x, b, st);
    case Rune1(t) => RuneCorrect(m, t, b, st);
  }

  lemma {:induction false} ThenCorrect(m: Machine, x: Re, y: Re, b: nat, st: State)
    requires Ready(m, Then(x, y), b) && st.pos <= |m.text.s|
    ensures Exec(m, b, st) == Resume(m, b + Size(Then(x, y)), Ways(Then(x, y), m.text, st))
    decreases Then(x, y), 0, 0, 0, 0
  {
    hide Exec, Resume, Ranked, Ways, WaysAll, Loop, LoopAll, Coded, Loopable, Size;
    ReadyDef(m, Then(x, y), b);
    WaysDef(Then(x, y), m.text, st);
    var lo := if MayBeEmpty(x) then st.pos else st.pos + 1;
    CodeCorrect(m, x, b, st);
    AllCorrect(m, y, b + Size(x), Ways(x, m.text, st), lo);
  }

  lemma {:induction false} OrCorrect(m: Machine, x: Re, y: Re, b: nat, st: State)
    requires Ready(m, Or(x, y), b) && st.pos <= |m.text.s|
    ensures Exec(m, b, st) == Resume(m, b + Size(Or(x, y)), Ways(Or(x, y), m.text, st))
    decreases Or(x, y), 0, 0, 0, 0
  {
    hide Exec, Resume, Ranked, Ways, WaysAll, Loop, LoopAll, Coded, Loopable, Size;
    ReadyDef(m, Or(x, y), b);
    WaysDef(Or(x, y), m.text, st);
    var j := b + 1 + Size(x);
    var e := j + 1 + Size(y);
    ExecSplit(m, b, st, b + 1, j + 1);
    CodeCorrect(m, x, b + 1, st);
    CodeCorrect(m, y, j + 1, st);
    ResumeJump(m, j, Ways(x, m.text, st), e);
    ResumeAppend(m, e, Ways(x, m.text, st), Ways(y, m.text, st));
  }

  lemma {:induction false} OptCorrect(m: Machine, x: Re, ng: bool, b: nat, st: State)
    requires Ready(m, Opt(x, ng), b) && st.pos <= |m.text.s|
    ensures Exec(m, b, st) == Resume(m, b + Size(Opt(x, ng)), Ways(Opt(x, ng), m.text, st))
    decreases Opt(x, ng), 0, 0, 0, 0
  {
    hide Exec, Resume, Ranked, Ways, WaysAll, Loop, LoopAll, Coded, Loopable, Size;
    ReadyDef(m, Opt(x, ng), b);
    WaysDef(Opt(x, ng), m.text, st);
    CodeCorrect(m, x, b + 1, st);
    PreferCorrect(m, ng, b, b + 1, b + 1 + Size(x), st, Ways(x, m.text, st));
  }

  lemma {:induction false} PlusCorrect(m: Machine, x: Re, ng: bool, b: nat, st: State)
    requires Ready(m, Plus(x, ng), b) && st.pos <= |m.text.s|
    ensures Exec(m, b, st) == Resume(m, b + Size(Plus(x, ng)), Ways(Plus(x, ng), m.text, st))
    decreases Plus(x, ng), 0, 0, 0, 0
  {
    hide Exec, Resume, Ranked, Ways, WaysAll, Loop, LoopAll, Coded, Loopable, Size;
    ReadyDef(m, Plus(x, ng), b);
    WaysDef(Plus(x, ng), m.text, st);
    CodeCorrect(m, x, b, st);
    PlusAll(m, x, ng, b, Ways(x, m.text, st), st.pos + 1);
  }

  lemma {:induction false} TestCorrect(m: Machine, a: Assertion, b: nat, st: State)
    requires Ready(m, Test(a), b) && st.pos <= |m.text.s|
    ensures Exec(m, b, st) == Resume(m, b + Size(Test(a)), Ways(Test(a), m.text, st))
    decreases Test(a), 0, 0, 0, 0
  {
    hide Exec, Resume, Ranked, Ways, WaysAll, Loop, LoopAll, Coded, Loopable, Size;
    ReadyDef(m, Test(a), b);
    WaysDef(Test(a), m.text, st);
    ExecNext(m, b, st);
    ResumeOne(m, b + 1, st);
    ResumeNone(m, b + 1);
  }

  lemma {:induction false} GroupCorrect(m: Machine, k: nat, x: Re, b: nat, st: State)
    requires Ready(m, Group(k, x), b) && st.pos <= |m.text.s|
    ensures Exec(m, b, st) == Resume(m, b + Size(Group(k, x)), Ways(Group(k, x), m.text, st))
    decreases Group(k, x), 0, 0, 0, 0
  {
    hide Exec, Resume, Ranked, Ways, WaysAll, Loop, LoopAll, Coded, Loopable, Size;
    ReadyDef(m, Group(k, x), b);
    WaysDef(Group(k, x), m.text, st);
    var st' := st.(caps := Open(st.caps, k, st.pos));
    ExecNext(m, b, st);
    CodeCorrect(m, x, b + 1, st');
    ResumeClose(m, b + 1 + Size(x), Ways(x, m.text, st'), k);
  }

  lemma {:induction false} LookCorrect(m: Machine, positive: bool, x: Re, b: nat, st: State)
    requires Ready(m, Look(positive, x), b) && st.pos <= |m.text.s|
    ensures Exec(m, b, st) == Resume(m, b + Size(Look(positive, x)), Ways(Look(positive, x), m.text, st))
    decreases Look(positive, x), 0, 0, 0, 0
  {
    hide Exec, Resume, Ranked, Ways, WaysAll, Loop, LoopAll, Coded, Loopable, Size;
    ReadyDef(m, Look(positive, x), b);
    WaysDef(Look(positive, x), m.text, st);
    var e := b + Size(x) + 2;
    var l := Ways(x, m.text, st);
    ExecLook(m, b, st, positive, b + 1, e);
    CodeCorrect(m, x, b + 1, st);
    ResumeEnd(m, e - 1, l);
    ResumeNone(m, e);
    ResumeOne(m, e, if l == [] || !positive then st else st.(caps := l[0].caps));
  }

  lemma {:induction false} RuneCorrect(m: Machine, t: RuneTest, b: nat, st: State)
    requires Ready(m, Rune1(t), b) && st.pos <= |m.text.s|
    ensures Exec(m, b, st) == Resume(m, b + Size(Rune1(t)), Ways(Rune1(t), m.text, st))
    decreases Rune1(t), 0, 0, 0, 0
  {
    hide Exec, Resume, Ranked, Ways, WaysAll, Loop, LoopAll, Coded, Loopable, Size;
    ReadyDef(m, Rune1(t), b);
    WaysDef(Rune1(t), m.text, st);
    ExecNext(m, b, st);
    ResumeNone(m, b + 1);
    if st.pos < |m.text.s| { ResumeOne(m, b + 1, st.(pos := st.pos + 1)); }
  }

  lemma {:induction false} ResumeNone(m: Machine, pc: nat)
    requires m.Valid() && pc < |m.prog|
    ensures Resume(m, pc, []) == None
  {
  }

  lemma {:induction false} AllCorrect(m: Machine, re: Re, b: nat, l: seq<State>, lo: nat)
    requires Ready(m, re, b) && Within(l, lo, |m.text.s|)
    ensures Resume(m, b, l) == Resume(m, b + Size(re), WaysAll(re, m.text, l, lo))
    decreases re, 0, 1, 1, |l|
  {
    hide Resume, Exec, Ways, Ranked, Loop, LoopAll, Coded, Loopable, Size;
    if l == [] {
      ResumeNone(m, b);
      ResumeNone(m, b + Size(re));
    } else {
      ResumeCons(m, b, l);
      CodeCorrect(m, re, b, l[0]);
      AllCorrect(m, re, b, l[1..], lo);
      ResumeAppend(m, b + Size(re), Ways(re, m.text, l[0]), WaysAll(re, m.text, l[1..], lo));
    }
  }

  lemma {:induction false} LoopCorrect(m: Machine, x: Re, ng: bool, b: nat, st: State)
    requires Ready(m, Star(x, ng), b) && st.pos <= |m.text.s|
    ensures Exec(m, b, st) == Resume(m, b + Size(x) + 2, Loop(x, ng, m.text, st))
    decreases x, 1, |m.text.s| + 1 - st.pos, 0, 0
  {
    hide Exec, Resume, Ways, WaysAll, Ranked, Coded, Loopable, Size, LoopAll;
    ReadyDef(m, Star(x, ng), b);
    var e := b + Size(x) + 2;
    var l := Ways(x, m.text, st);
    CodeCorrect(m, x, b + 1, st);
    ResumeJump(m, e - 1, l, b);
    LoopAllCorrect(m, x, ng, b, l, st.pos + 1);
    PreferCorrect(m, ng, b, b + 1, e, st, LoopAll(x, ng, m.text, l, st.pos + 1));
  }

  lemma {:induction false} LoopAllCorrect(m: Machine, x: Re, ng: bool, b: nat, l: seq<State>, lo: nat)
    requires Ready(m, Star(x, ng), b) && lo <= |m.text.s| + 1 && Within(l, lo, |m.text.s|)
    ensures Resume(m, b, l) == Resume(m, b + Size(x) + 2, LoopAll(x, ng, m.text, l, lo))
    decreases x, 1, |m.text.s| + 1 - lo, 1, |l|
  {
    hide Resume, Exec, Ways, WaysAll, Ranked, Loop, Coded, Loopable, Size;
    ReadyDef(m, Star(x, ng), b);
    if l == [] {
      ResumeNone(m, b);
      ResumeNone(m, b + Size(x) + 2);
    } else {
      ResumeCons(m, b, l);
      LoopCorrect(m, x, ng, b, l[0]);
      LoopAllCorrect(m, x, ng, b, l[1..], lo);
      ResumeAppend(m, b + Size(x) + 2, Loop(x, ng, m.text, l[0]), LoopAll(x, ng, m.text, l[1..], lo));
    }
  }

  /** The code of x at b is followed by the split of x+. */
  ghost predicate ReadyPlus(m: Machine, x: Re, ng: bool, b: nat) {
    && Ready(m, x, b) && !MayBeEmpty(x)
    && b + Size(x) + 1 < |m.prog| && m.prog[b + Size(x)] == Prefer(ng, b, b + Size(x) + 1)
  }

  lemma {:induction false} PlusOne(m: Machine, x: Re, ng: bool, b: nat, st: State)
    requires ReadyPlus(m, x, ng, b) && st.pos <= |m.text.s|
    ensures Exec(m, b + Size(x), st) == Resume(m, b + Size(x) + 1, Loop(x, ng, m.text, st))
    decreases x, 1, |m.text.s| + 1 - st.pos, 0, 0
  {
    hide Exec, Resume, Ways, WaysAll, Ranked, Coded, Loopable, Size, LoopAll;
    var next := Ways(x, m.text, st);
    CodeCorrect(m, x, b, st);
    PlusAll(m, x, ng, b, next, st.pos + 1);
    PreferCorrect(m, ng, b + Size(x), b, b + Size(x) + 1, st, LoopAll(x, ng, m.text, next, st.pos + 1));
  }

  lemma {:induction false} PlusAll(m: Machine, x: Re, ng: bool, b: nat, l: seq<State>, lo: nat)
    requires ReadyPlus(m, x, ng, b) && lo <= |m.text.s| + 1 && Within(l, lo, |m.text.s|)
    ensures Resume(m, b + Size(x), l) == Resume(m, b + Size(x) + 1, LoopAll(x, ng, m.text, l, lo))
    decreases x, 1, |m.text.s| + 1 - lo, 1, |l|
  {
    hide Resume, Exec, Ways, WaysAll, Ranked, Loop, Coded, Loopable, Size;
    if l == [] {
      ResumeNone(m, b + Size(x));
      ResumeNone(m, b + Size(x) + 1);
    } else {
      ResumeCons(m, b + Size(x), l);
      PlusOne(m, x, ng, b, l[0]);
      PlusAll(m, x, ng, b, l[1..], lo);
      ResumeAppend(m, b + Size(x) + 1, Loop(x, ng, m.text, l[0]), LoopAll(x, ng, m.text, l[1..], lo));
    }
  }
}
