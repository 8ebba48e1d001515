/** How deep the stacks are at each address of the code: pieces of code whose addresses have been
    given depths that agree with what the instructions do, and runs of code in which all have. */
module JsDepths {
  import opened JsTree
  import opened JsMachine
  import opened JsCode

  /** The depths that handlers go back to, the innermost handler's first. */
  datatype Saved = NoSaved | Saved(ops: nat, scopes: nat, rest: Saved)

  /** Behind OP_NEXTITER, a test: the flag on top says whether two more operands lie under it. */
  datatype Depths = Depths(ops: nat, scopes: nat, saved: Saved, test: bool)

  const ZERO: Depths := Depths(0, 0, NoSaved, false)

  function Up(d: Depths, n: nat): Depths {
    d.(ops := d.ops + n)
  }

  /** Handlers never have to go back to more than there is. */
  predicate Ordered(ops: nat, saved: Saved) {
    saved.Saved? ==> saved.ops <= ops && Ordered(saved.ops, saved.rest)
  }

  predicate Sound(d: Depths) {
    !d.test && Ordered(d.ops, d.saved)
  }

  lemma {:induction false} SoundUp(d: Depths)
    requires Sound(d)
    ensures forall n: nat :: Sound(Up(d, n))
  {
  }

  lemma {:induction false} ZeroSound()
    ensures Sound(ZERO)
  {
  }

  /** A function and the number of slots in its frames. */
  datatype Code = Code(f: Fn, slots: nat)

  datatype Spot = Spot(pc: nat, d: Depths)

  // ----- instructions -----

  function Needs(i: Instr): nat {
    match i
    case Pop => 1
    case Dup => 1
    case Dup2 => 2
    case Rot2 => 2
    case Rot3 => 3
    case Rot4 => 4
    case Do1(_, n) => n
    case Init3(_) => 3
    case Bump(_, _) => 1
    case SetLocal(_) => 1
    case Next => 1
    case JTrue(_) => 1
    case JFalse(_) => 1
    case JCase(_) => 2
    case Raise => 1
    case Catch(_) => 1
    case EnterWith => 1
    case Ret => 1
    case _ => 0
  }

  /** The instruction finds what it takes. */
  predicate Allowed(k: Code, i: Instr, d: Depths) {
    && Ordered(d.ops, d.saved) && Needs(i) <= d.ops && (d.test ==> i.JFalse?)
    && (i.LoadThis? ==> 0 < k.slots) && (i.GetLocal? || i.SetLocal? ==> i.i < k.slots)
    && (i.LeaveScope? ==> 0 < d.scopes) && (i.EndTry? ==> d.saved.Saved?)
  }

  /** The depths after an instruction that goes on to the next. */
  function After(i: Instr, d: Depths): Depths
    requires Needs(i) <= d.ops && (i.LeaveScope? ==> 0 < d.scopes) && (i.EndTry? ==> d.saved.Saved?)
  {
    var less := d.ops - Needs(i);
    match i
    case Push(_) => Up(d, 1)
    case Pop => d.(ops := less)
    case Dup => Up(d, 1)
    case Dup2 => Up(d, 2)
    case Do1(_, _) => d.(ops := less + 1)
    case Init3(_) => d.(ops := less + 1)
    case Bump(_, post) => if post then Up(d, 1) else d
    case LoadThis => Up(d, 1)
    case GetLocal(_) => Up(d, 1)
    case Next => d.(test := true)
    case EndTry => d.(saved := d.saved.rest)
    case Catch(_) => d.(ops := less, scopes := d.scopes + 1)
    case EnterWith => d.(ops := less, scopes := d.scopes + 1)
    case LeaveScope => d.(scopes := d.scopes - 1)
    case _ => d
  }

  /** Where an instruction can go. An exception under OP_TRY resumes at the next one. */
  function Succ(i: Instr, next: nat, d: Depths): set<Spot>
    requires Needs(i) <= d.ops && (i.LeaveScope? ==> 0 < d.scopes) && (i.EndTry? ==> d.saved.Saved?)
  {
    var less := d.ops - Needs(i);
    match i
    case Jump(t) => {Spot(t, d)}
    case JTrue(t) => {Spot(t, d.(ops := less)), Spot(next, d.(ops := less))}
    case JFalse(t) =>
      {Spot(t, d.(ops := less, test := false)),
        Spot(next, d.(ops := if d.test then d.ops + 1 else less, test := false))}
    case JCase(t) => {Spot(t, d.(ops := less)), Spot(next, d.(ops := less + 1))}
    case TryTo(t) => {Spot(t, d.(saved := Saved(d.ops, d.scopes, d.saved))), Spot(next, Up(d, 1))}
    case Raise => {}
    case Ret => {}
    case _ => {Spot(next, After(i, d))}
  }

  // ----- pieces of code -----

  /** The addresses of the instructions from a to b. */
  function Starts(f: Fn, a: nat, b: nat): set<nat>
    decreases b - a
  {
    match Decode(f, a)
    case Bad => {}
    case Decoded(_, next) => if a < next && a < b then {a} + Starts(f, next, b) else {}
  }

  /** Going from instruction to instruction, one comes to b. */
  predicate Hits(f: Fn, a: nat, b: nat)
    decreases b - a
  {
    a == b || (a < b && Decode(f, a).Decoded? && a < Decode(f, a).next && Hits(f, Decode(f, a).next, b))
  }

  lemma {:induction false} HitsThen(f: Fn, a: nat, b: nat, c: nat)
    requires Hits(f, a, b) && Hits(f, b, c)
    ensures Hits(f, a, c) && Starts(f, a, c) == Starts(f, a, b) + Starts(f, b, c)
    decreases b - a
  {
    hide Decode;
    HitsUpwards(f, b, c);
    if a < b {
      HitsUpwards(f, Decode(f, a).next, b);
      HitsThen(f, Decode(f, a).next, b, c);
    }
  }

  lemma {:induction false} HitsUpwards(f: Fn, a: nat, b: nat)
    requires Hits(f, a, b)
    ensures a <= b && forall pc | pc in Starts(f, a, b) :: a <= pc < b
    decreases b - a
  {
    hide Decode;
    if a < b { HitsUpwards(f, Decode(f, a).next, b); }
  }

  lemma {:induction false} NextIsLater(f: Fn, pc: nat)
    ensures Decode(f, pc).Decoded? ==> pc < Decode(f, pc).next
  {
    hide Simple, Named, Numbered;
  }

  /** The spot is in m, or at the end, or where the code may leave to. */
  predicate To(m: map<nat, Depths>, b: nat, z: Depths, outs: set<Spot>, s: Spot) {
    (s.pc in m && m[s.pc] == s.d) || s == Spot(b, z) || s in outs
  }

  ghost predicate Agrees(k: Code, m: map<nat, Depths>, b: nat, z: Depths, outs: set<Spot>, pc: nat)
    requires pc in m
  {
    match Decode(k.f, pc)
    case Bad => false
    case Decoded(i, next) => Allowed(k, i, m[pc]) && forall s | s in Succ(i, next, m[pc]) :: To(m, b, z, outs, s)
  }

  /** One of the instructions is OP_NEXTITER, right in front of pc. */
  ghost predicate BehindNext(k: Code, m: map<nat, Depths>, pc: nat) {
    exists q | q in m :: Is(k.f, q, Next, pc)
  }

  /** A test is where the code starts with one, or else behind OP_NEXTITER. */
  ghost predicate Tests(k: Code, m: map<nat, Depths>, a: nat, b: nat, y: Depths, z: Depths) {
    && (forall pc | pc in m && m[pc].test :: (pc == a && y.test) || BehindNext(k, m, pc))
    && (z.test ==> (b == a && y.test) || BehindNext(k, m, b))
  }

  /** m gives the instructions from a to b their depths, from y at a to z at b. */
  ghost predicate Piece(k: Code, m: map<nat, Depths>, a: nat, b: nat, y: Depths, z: Depths, outs: set<Spot>) {
    && Hits(k.f, a, b) && m.Keys == Starts(k.f, a, b) && To(m, b, z, {}, Spot(a, y)) && Tests(k, m, a, b, y, z)
    && forall pc | pc in m :: Agrees(k, m, b, z, outs, pc)
  }

  ghost predicate Typed(k: Code, a: nat, b: nat, y: Depths, z: Depths, outs: set<Spot>) {
    exists m :: Piece(k, m, a, b, y, z, outs)
  }

  /** The same, where ins are spots in the code. */
  ghost predicate TypedIn(k: Code, a: nat, b: nat, y: Depths, z: Depths, outs: set<Spot>, ins: set<Spot>) {
    exists m :: Piece(k, m, a, b, y, z, outs) && forall s | s in ins :: To(m, b, z, {}, s)
  }

  lemma {:induction false} NoCode(k: Code, a: nat, y: Depths, outs: set<Spot>)
    ensures Typed(k, a, a, y, y, outs)
  {
    var m: map<nat, Depths> := map[];
    assert Piece(k, m, a, a, y, y, outs);
  }

  /** Every place that the instruction can go to is the next one or among outs. */
  predicate Leads(i: Instr, next: nat, y: Depths, z: Depths, outs: set<Spot>)
    requires Needs(i) <= y.ops && (i.LeaveScope? ==> 0 < y.scopes) && (i.EndTry? ==> y.saved.Saved?)
  {
    (z.test ==> i.Next?) && forall s | s in Succ(i, next, y) :: s == Spot(next, z) || s in outs
  }

  lemma {:induction false} Single(k: Code, a: nat, i: Instr, next: nat, y: Depths, z: Depths, outs: set<Spot>)
    requires Is(k.f, a, i, next) && Allowed(k, i, y) && Leads(i, next, y, z, outs)
    ensures Typed(k, a, next, y, z, outs)
  {
    hide Decode, Allowed, Succ;
    NextIsLater(k.f, a);
    var m := map[a := y];
    assert Hits(k.f, next, next) && Starts(k.f, next, next) == {};
    assert Agrees(k, m, next, z, outs, a);
    assert z.test ==> BehindNext(k, m, next) by { assert a in m; }
    assert Piece(k, m, a, next, y, z, outs);
  }

  lemma {:induction false} PiecesThen(k: Code, m1: map<nat, Depths>, m2: map<nat, Depths>, a: nat, b: nat, c: nat,
    x: Depths, y: Depths, z: Depths, outs1: set<Spot>, outs: set<Spot>)
    requires Piece(k, m1, a, b, x, y, outs1) && Piece(k, m2, b, c, y, z, outs)
    requires forall s | s in outs1 :: s in outs || To(m2, c, z, {}, s)
    ensures Piece(k, m1 + m2, a, c, x, z, outs)
  {
    hide Decode, Allowed, Succ, Starts, Hits, Tests;
    HitsThen(k.f, a, b, c);
    HitsUpwards(k.f, a, b);
    HitsUpwards(k.f, b, c);
    var m := m1 + m2;
    TestsThen(k, m1, m2, a, b, c, x, y, z);
    forall pc | pc in m
      ensures Agrees(k, m, c, z, outs, pc)
    {
      if pc in m2 {
        assert m[pc] == m2[pc] && Agrees(k, m2, c, z, outs, pc);
      } else {
        assert m[pc] == m1[pc] && Agrees(k, m1, b, y, outs1, pc);
      }
    }
  }

  lemma {:induction false} TestsThen(k: Code, m1: map<nat, Depths>, m2: map<nat, Depths>, a: nat, b: nat, c: nat,
    x: Depths, y: Depths, z: Depths)
    requires Tests(k, m1, a, b, x, y) && Tests(k, m2, b, c, y, z)
    ensures Tests(k, m1 + m2, a, c, x, z)
  {
    hide BehindNext;
    var m := m1 + m2;
    forall pc | BehindNext(k, m1, pc) || BehindNext(k, m2, pc)
      ensures BehindNext(k, m, pc)
    {
      StillBehind(k, m1, m2, pc);
    }
  }

  lemma {:induction false} StillBehind(k: Code, m1: map<nat, Depths>, m2: map<nat, Depths>, pc: nat)
    requires BehindNext(k, m1, pc) || BehindNext(k, m2, pc)
    ensures BehindNext(k, m1 + m2, pc)
  {
    hide Is;
    if BehindNext(k, m1, pc) {
      var q :| q in m1 && Is(k.f, q, Next, pc);
      assert q in m1 + m2;
    } else {
      var q :| q in m2 && Is(k.f, q, Next, pc);
      assert q in m1 + m2;
    }
  }

  lemma {:induction false} Seq(k: Code, a: nat, b: nat, c: nat, x: Depths, y: Depths, z: Depths, outs: set<Spot>)
    requires Typed(k, a, b, x, y, outs) && Typed(k, b, c, y, z, outs)
    ensures Typed(k, a, c, x, z, outs)
  {
    hide Piece;
    var m1 :| Piece(k, m1, a, b, x, y, outs);
    var m2 :| Piece(k, m2, b, c, y, z, outs);
    PiecesThen(k, m1, m2, a, b, c, x, y, z, outs, outs);
  }

  lemma {:induction false} Append(k: Code, a: nat, b: nat, i: Instr, next: nat, x: Depths, y: Depths, z: Depths,
    outs: set<Spot>)
    requires Typed(k, a, b, x, y, outs) && Is(k.f, b, i, next) && Allowed(k, i, y) && Leads(i, next, y, z, outs)
    ensures Typed(k, a, next, x, z, outs)
  {
    hide Typed, Is, Allowed;
    Single(k, b, i, next, y, z, outs);
    Seq(k, a, b, next, x, y, z, outs);
  }

  /** Jumps to the start and the end are not jumps to elsewhere. */
  lemma {:induction false} Close(k: Code, a: nat, b: nat, y: Depths, z: Depths, outs1: set<Spot>, outs: set<Spot>)
    requires Typed(k, a, b, y, z, outs1) && forall s | s in outs1 :: s in outs || s == Spot(a, y) || s == Spot(b, z)
    ensures Typed(k, a, b, y, z, outs)
  {
    hide Decode, Allowed, Succ, Starts, Hits;
    var m :| Piece(k, m, a, b, y, z, outs1);
    forall pc | pc in m
      ensures Agrees(k, m, b, z, outs, pc)
    {
      assert Agrees(k, m, b, z, outs1, pc);
    }
    assert Piece(k, m, a, b, y, z, outs);
  }

  // ----- pieces with known spots in them -----

  lemma {:induction false} NoCodeIn(k: Code, a: nat, y: Depths, outs: set<Spot>)
    ensures TypedIn(k, a, a, y, y, outs, {Spot(a, y)})
  {
    var m: map<nat, Depths> := map[];
    assert Piece(k, m, a, a, y, y, outs);
  }

  /** The start of a piece is a known spot. */
  lemma {:induction false} SeqIn(k: Code, a: nat, b: nat, c: nat, x: Depths, y: Depths, z: Depths, outs: set<Spot>,
    ins: set<Spot>)
    requires Typed(k, a, b, x, y, outs) && TypedIn(k, b, c, y, z, outs, ins)
    ensures TypedIn(k, a, c, x, z, outs, ins + {Spot(a, x)})
  {
    hide Piece;
    var m1 :| Piece(k, m1, a, b, x, y, outs);
    var m2 :| Piece(k, m2, b, c, y, z, outs) && forall s | s in ins :: To(m2, c, z, {}, s);
    PiecesThen(k, m1, m2, a, b, c, x, y, z, outs, outs);
    forall s | s in ins + {Spot(a, x)}
      ensures To(m1 + m2, c, z, {}, s)
    {
      if s in ins { assert To(m2, c, z, {}, s); } else { StartOf(k, m1 + m2, a, c, x, z, outs); }
    }
  }

  lemma {:induction false} StartOf(k: Code, m: map<nat, Depths>, a: nat, b: nat, y: Depths, z: Depths, outs: set<Spot>)
    requires Piece(k, m, a, b, y, z, outs)
    ensures To(m, b, z, {}, Spot(a, y))
  {
  }

  /** Jumps into the second piece. */
  lemma {:induction false} SeqInto(k: Code, a: nat, b: nat, c: nat, x: Depths, y: Depths, z: Depths, outs1: set<Spot>,
    outs: set<Spot>, ins: set<Spot>)
    requires Typed(k, a, b, x, y, outs1) && TypedIn(k, b, c, y, z, outs, ins) && outs1 <= outs + ins
    ensures Typed(k, a, c, x, z, outs)
  {
    hide Piece;
    var m1 :| Piece(k, m1, a, b, x, y, outs1);
    var m2 :| Piece(k, m2, b, c, y, z, outs) && forall s | s in ins :: To(m2, c, z, {}, s);
    PiecesThen(k, m1, m2, a, b, c, x, y, z, outs1, outs);
  }

  // ----- whole functions -----

  /** Every address of an instruction has its depths, no instruction leads anywhere else, and a
      test lies only behind OP_NEXTITER. */
  ghost predicate Balanced(k: Code, m: map<nat, Depths>, end: nat) {
    && Hits(k.f, 0, end) && m.Keys == Starts(k.f, 0, end) && 0 in m && m[0] == ZERO
    && (forall pc | pc in m && m[pc].test :: BehindNext(k, m, pc))
    && forall pc | pc in m :: Closed(k, m, pc)
  }

  ghost predicate Closed(k: Code, m: map<nat, Depths>, pc: nat)
    requires pc in m
  {
    match Decode(k.f, pc)
    case Bad => false
    case Decoded(i, next) => Allowed(k, i, m[pc]) && forall s | s in Succ(i, next, m[pc]) :: s.pc in m && m[s.pc] == s.d
  }

  // ----- runs -----

  function ScopeDepth(s: Scope): nat {
    if s.Global? then 0 else 1 + ScopeDepth(s.outer)
  }

  /** The operands that belong to the depths d. */
  predicate Measures(d: Depths, ops: Ops) {
    if d.test then ops.On? && ops.v.Boolean? && Height(ops) == if ops.v.b then d.ops + 2 else d.ops
    else Height(ops) == d.ops
  }

  /** Each handler resumes where one more operand than it saw is expected, the exception. */
  predicate HandlersOk(m: map<nat, Depths>, base: nat, tries: Tries, saved: Saved) {
    match tries
    case NoTries => saved.NoSaved?
    case Tries(h, rest) =>
      && saved.Saved? && h.top == saved.ops && ScopeDepth(h.scope) == base + saved.scopes
      && h.pc in m && m[h.pc] == Depths(saved.ops + 1, saved.scopes, saved.rest, false)
      && HandlersOk(m, base, rest, saved.rest)
  }

  /** A running machine has exactly the depths of its address; base is how deep the scope chain
      was when the function was called. */
  predicate Measured(k: Code, m: map<nat, Depths>, base: nat, s: State) {
    s.Running? ==>
      && s.pc in m && |s.frame| == k.slots && Measures(m[s.pc], s.ops)
      && ScopeDepth(s.scope) == base + m[s.pc].scopes && HandlersOk(m, base, s.tries, m[s.pc].saved)
  }

  lemma {:induction false} CutHeight(s: Ops, n: nat)
    requires n <= Height(s)
    ensures Height(Cut(s, n)) == n
  {
    if n < Height(s) { CutHeight(s.under, n); }
  }

  lemma {:induction false} ThrowMeasured(k: Code, m: map<nat, Depths>, base: nat, s: State, v: Value, w: World)
    requires s.Running? && Measured(k, m, base, s) && Ordered(m[s.pc].ops, m[s.pc].saved)
    ensures Throwing(s, v, w) != Wrong && Measured(k, m, base, Throwing(s, v, w))
  {
    if s.tries.Tries? { CutHeight(s.ops, s.tries.h.top); }
  }

  lemma {:induction false} ResultMeasured(k: Code, m: map<nat, Depths>, base: nat, s: State, r: Res<Value>, n: nat,
    next: nat)
    requires s.Running? && Measured(k, m, base, s) && Ordered(m[s.pc].ops, m[s.pc].saved) && !m[s.pc].test
      && n <= m[s.pc].ops
    requires next in m && m[next] == m[s.pc].(ops := m[s.pc].ops - n + 1)
    ensures var left := Cut(s.ops, Height(s.ops) - n);
      Result(s, r, left, next) != Wrong && Measured(k, m, base, Result(s, r, left, next))
  {
    hide Throwing;
    CutHeight(s.ops, Height(s.ops) - n);
    match r
    case Ok(_, _) =>
    case Err(v, w) => ThrowMeasured(k, m, base, s, v, w);
  }

  /** No instruction goes wrong, and each leaves the depths of the address it goes to. */
  lemma {:induction false} StepMeasured(k: Code, m: map<nat, Depths>, end: nat, base: nat, lib: Lib, s: State)
    requires Balanced(k, m, end) && s != Wrong && Measured(k, m, base, s)
    ensures Step(k.f, lib, s) != Wrong && Measured(k, m, base, Step(k.f, lib, s))
  {
    hide Decode, Balanced, Throwing, Result, Shuffle, Starts, Hits;
    if s.Running? {
      ClosedAt(k, m, end, s.pc);
      var i := Decode(k.f, s.pc).i;
      match i
      case Do1(p, n) => ResultMeasured(k, m, base, s, lib.prim(p, Top(s.ops, n), s.scope, s.w), n,
        Decode(k.f, s.pc).next);
      case Init3(_) => InitMeasured(k, m, end, base, lib, s);
      case Bump(_, _) => BumpMeasured(k, m, end, base, lib, s);
      case Catch(_) => EnterMeasured(k, m, end, base, lib, s);
      case EnterWith => EnterMeasured(k, m, end, base, lib, s);
      case Next => NextMeasured(k, m, end, base, lib, s);
      case Raise => ThrowMeasured(k, m, base, s, s.ops.v, s.w);
      case JTrue(_) => BranchMeasured(k, m, end, base, lib, s);
      case JFalse(_) => BranchMeasured(k, m, end, base, lib, s);
      case JCase(_) => BranchMeasured(k, m, end, base, lib, s);
      case TryTo(_) => ScopesMeasured(k, m, end, base, lib, s);
      case EndTry => ScopesMeasured(k, m, end, base, lib, s);
      case LeaveScope => ScopesMeasured(k, m, end, base, lib, s);
      case _ =>
        if Shuffles(i) {
          ShuffleMeasured(k, m, end, base, lib, s);
        } else {
          SimpleMeasured(k, m, end, base, lib, s);
        }
    }
  }

  lemma {:induction false} ClosedAt(k: Code, m: map<nat, Depths>, end: nat, pc: nat)
    requires Balanced(k, m, end) && pc in m
    ensures Closed(k, m, pc) && Continues(m, Decode(k.f, pc).i, Decode(k.f, pc).next, m[pc])
  {
    hide Decode, Starts, Hits;
    assert Closed(k, m, pc);
    var i, next, d := Decode(k.f, pc).i, Decode(k.f, pc).next, m[pc];
    forall s | s in Succ(i, next, d)
      ensures Has(m, s.pc, s.d)
    {
    }
    SuccMeans(m, i, next, d);
  }

  lemma {:induction false} BalancedStart(k: Code, m: map<nat, Depths>, end: nat)
    requires Balanced(k, m, end)
    ensures Has(m, 0, ZERO)
  {
  }

  predicate Has(m: map<nat, Depths>, pc: nat, d: Depths) {
    pc in m && m[pc] == d
  }

  predicate Continues(m: map<nat, Depths>, i: Instr, next: nat, d: Depths)
    requires Needs(i) <= d.ops && (i.LeaveScope? ==> 0 < d.scopes) && (i.EndTry? ==> d.saved.Saved?)
  {
    var less := d.ops - Needs(i);
    match i
    case Jump(t) => Has(m, t, d)
    case JTrue(t) => Has(m, t, d.(ops := less)) && Has(m, next, d.(ops := less))
    case JFalse(t) =>
      && Has(m, t, d.(ops := less, test := false))
      && Has(m, next, d.(ops := if d.test then d.ops + 1 else less, test := false))
    case JCase(t) => Has(m, t, d.(ops := less)) && Has(m, next, d.(ops := less + 1))
    case TryTo(t) => Has(m, t, d.(saved := Saved(d.ops, d.scopes, d.saved))) && Has(m, next, Up(d, 1))
    case Raise => true
    case Ret => true
    case _ => Has(m, next, After(i, d))
  }

  lemma {:induction false} SuccMeans(m: map<nat, Depths>, i: Instr, next: nat, d: Depths)
    requires Needs(i) <= d.ops && (i.LeaveScope? ==> 0 < d.scopes) && (i.EndTry? ==> d.saved.Saved?)
    requires forall s | s in Succ(i, next, d) :: Has(m, s.pc, s.d)
    ensures Continues(m, i, next, d)
  {
    hide Has;
    var less := d.ops - Needs(i);
    match i
    case Jump(t) => assert Spot(t, d) in Succ(i, next, d);
    case JTrue(t) => assert Spot(t, d.(ops := less)) in Succ(i, next, d)
      && Spot(next, d.(ops := less)) in Succ(i, next, d);
    case JFalse(t) =>
      assert Spot(t, d.(ops := less, test := false)) in Succ(i, next, d);
      assert Spot(next, d.(ops := if d.test then d.ops + 1 else less, test := false)) in Succ(i, next, d);
    case JCase(t) => assert Spot(t, d.(ops := less)) in Succ(i, next, d)
      && Spot(next, d.(ops := less + 1)) in Succ(i, next, d);
    case TryTo(t) =>
      assert Spot(t, d.(saved := Saved(d.ops, d.scopes, d.saved))) in Succ(i, next, d)
        && Spot(next, Up(d, 1)) in Succ(i, next, d);
    case Raise =>
    case Ret =>
    case _ => assert Spot(next, After(i, d)) in Succ(i, next, d);
  }

  lemma {:induction false} InitMeasured(k: Code, m: map<nat, Depths>, end: nat, base: nat, lib: Lib, s: State)
    requires Balanced(k, m, end) && s.Running? && Measured(k, m, base, s) && Decode(k.f, s.pc).Decoded?
    requires var i := Decode(k.f, s.pc).i; i.Init3?
    ensures Step(k.f, lib, s) != Wrong && Measured(k, m, base, Step(k.f, lib, s))
  {
    hide Decode, Balanced, Throwing, Shuffle, Starts, Hits;
    ClosedAt(k, m, end, s.pc);
    match lib.prim(Decode(k.f, s.pc).i.p, Top(s.ops, 3), s.scope, s.w)
    case Ok(_, _) =>
    case Err(v, w) => ThrowMeasured(k, m, base, s, v, w);
  }

  lemma {:induction false} BumpMeasured(k: Code, m: map<nat, Depths>, end: nat, base: nat, lib: Lib, s: State)
    requires Balanced(k, m, end) && s.Running? && Measured(k, m, base, s) && Decode(k.f, s.pc).Decoded?
    requires var i := Decode(k.f, s.pc).i; i.Bump?
    ensures Step(k.f, lib, s) != Wrong && Measured(k, m, base, Step(k.f, lib, s))
  {
    hide Decode, Balanced, Throwing, Shuffle, Starts, Hits;
    ClosedAt(k, m, end, s.pc);
    var t := Step(k.f, lib, s);
    Heights(s.ops);
    if t.Running? { Heights(t.ops); }
    match lib.number(s.ops.v, s.w)
    case Ok(_, _) =>
    case Err(v, w) => ThrowMeasured(k, m, base, s, v, w);
  }

  lemma {:induction false} EnterMeasured(k: Code, m: map<nat, Depths>, end: nat, base: nat, lib: Lib, s: State)
    requires Balanced(k, m, end) && s.Running? && Measured(k, m, base, s) && Decode(k.f, s.pc).Decoded?
    requires var i := Decode(k.f, s.pc).i; i.Catch? || i.EnterWith?
    ensures Step(k.f, lib, s) != Wrong && Measured(k, m, base, Step(k.f, lib, s))
  {
    hide Decode, Balanced, Throwing, Shuffle, Starts, Hits;
    ClosedAt(k, m, end, s.pc);
    var i := Decode(k.f, s.pc).i;
    match lib.prim(if i.Catch? then CatchScope(i.x) else WithScope, On(s.ops.v, Bottom), s.scope, s.w)
    case Ok(_, _) =>
    case Err(v, w) => ThrowMeasured(k, m, base, s, v, w);
  }

  lemma {:induction false} NextMeasured(k: Code, m: map<nat, Depths>, end: nat, base: nat, lib: Lib, s: State)
    requires Balanced(k, m, end) && s.Running? && Measured(k, m, base, s) && Decode(k.f, s.pc).Decoded?
    requires var i := Decode(k.f, s.pc).i; i.Next?
    ensures Step(k.f, lib, s) != Wrong && Measured(k, m, base, Step(k.f, lib, s))
  {
    hide Decode, Balanced, Throwing, Shuffle, Starts, Hits;
    ClosedAt(k, m, end, s.pc);
    var t := Step(k.f, lib, s);
    Heights(s.ops);
    if t.Running? { Heights(t.ops); }
    match lib.next(s.ops.v, s.w)
    case Ok(_, _) =>
    case Err(v, w) => ThrowMeasured(k, m, base, s, v, w);
  }

  lemma {:induction false} BranchMeasured(k: Code, m: map<nat, Depths>, end: nat, base: nat, lib: Lib, s: State)
    requires Balanced(k, m, end) && s.Running? && Measured(k, m, base, s) && Decode(k.f, s.pc).Decoded?
    requires var i := Decode(k.f, s.pc).i; i.JTrue? || i.JFalse? || i.JCase?
    ensures Step(k.f, lib, s) != Wrong && Measured(k, m, base, Step(k.f, lib, s))
  {
    hide Decode, Balanced, Shuffle, Starts, Hits;
    ClosedAt(k, m, end, s.pc);
    var t := Step(k.f, lib, s);
    Heights(s.ops);
    if t.Running? { Heights(t.ops); }
  }

  lemma {:induction false} ScopesMeasured(k: Code, m: map<nat, Depths>, end: nat, base: nat, lib: Lib, s: State)
    requires Balanced(k, m, end) && s.Running? && Measured(k, m, base, s) && Decode(k.f, s.pc).Decoded?
    requires var i := Decode(k.f, s.pc).i; i.TryTo? || i.EndTry? || i.LeaveScope?
    ensures Step(k.f, lib, s) != Wrong && Measured(k, m, base, Step(k.f, lib, s))
  {
    hide Decode, Balanced, Shuffle, Starts, Hits;
    ClosedAt(k, m, end, s.pc);
  }

  predicate Shuffles(i: Instr) {
    i.Pop? || i.Dup? || i.Dup2? || i.Rot2? || i.Rot3? || i.Rot4?
  }

  lemma {:induction false} ShuffleMeasured(k: Code, m: map<nat, Depths>, end: nat, base: nat, lib: Lib, s: State)
    requires Balanced(k, m, end) && s.Running? && Measured(k, m, base, s) && Decode(k.f, s.pc).Decoded?
    requires Shuffles(Decode(k.f, s.pc).i)
    ensures Step(k.f, lib, s) != Wrong && Measured(k, m, base, Step(k.f, lib, s))
  {
    hide Decode, Balanced, Starts, Hits, Result, Throwing;
    ClosedAt(k, m, end, s.pc);
    var t := Step(k.f, lib, s);
    Heights(s.ops);
    if t.Running? { Heights(t.ops); }
  }

  predicate Plain(i: Instr) {
    i.Push? || i.LoadThis? || i.GetLocal? || i.SetLocal? || i.Jump? || i.Trap? || i.Ret?
  }

  lemma {:induction false} SimpleMeasured(k: Code, m: map<nat, Depths>, end: nat, base: nat, lib: Lib, s: State)
    requires Balanced(k, m, end) && s.Running? && Measured(k, m, base, s) && Decode(k.f, s.pc).Decoded?
    requires Plain(Decode(k.f, s.pc).i)
    ensures Step(k.f, lib, s) != Wrong && Measured(k, m, base, Step(k.f, lib, s))
  {
    hide Decode, Balanced, Starts, Hits, Result, Throwing, Shuffle;
    ClosedAt(k, m, end, s.pc);
    var t := Step(k.f, lib, s);
    Heights(s.ops);
    if t.Running? { Heights(t.ops); }
  }

  /** At every moment of every run. */
  lemma {:induction false} RunMeasured(k: Code, m: map<nat, Depths>, end: nat, base: nat, lib: Lib, s: State, n: nat)
    requires Balanced(k, m, end) && s != Wrong && Measured(k, m, base, s)
    ensures Run(k.f, lib, s, n) != Wrong && Measured(k, m, base, Run(k.f, lib, s, n))
    decreases n
  {
    hide Balanced, Measured, Step;
    if n > 0 {
      StepMeasured(k, m, end, base, lib, s);
      RunMeasured(k, m, end, base, lib, Step(k.f, lib, s), n - 1);
    }
  }
}
