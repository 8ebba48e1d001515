/** Break, continue and return (jscompile.c): how a jump finds the node it leaves to, and the
    code that takes everything in between off the stacks. */
module JsTargets {
  import opened JsTree
  import opened JsMachine
  import opened JsMeaning
  import opened JsCode

  /** What an enclosing node is to `cexit` and to the search for targets. A try statement
      counts as two, by the side one comes from. */
  datatype Kind = Plain | Labelled(x: Name) | Loop | ForInLoop | SwitchNode | WithNode | TryBody | CatchBody

  /** The enclosing nodes from the innermost out, by their parent links. */
  datatype Path = Function | Inside(kind: Kind, up: Path)

  function Depth(p: Path): nat {
    if p.Function? then 0 else 1 + Depth(p.up)
  }

  predicate IsLoop(k: Kind) {
    k.Loop? || k.ForInLoop?
  }

  /** `matchlabel` */
  predicate MatchLabel(p: Path, l: Name) {
    p.Inside? && p.kind.Labelled? && (p.kind.x == l || MatchLabel(p.up, l))
  }

  /** `breaktarget`, as the depth of the node found, or 0. */
  function BreakTarget(p: Path, l: Option<Name>): (k: nat)
    ensures k <= Depth(p)
  {
    if p.Function? then 0
    else if (if l.None? then IsLoop(p.kind) || p.kind.SwitchNode? else MatchLabel(p.up, l.value)) then Depth(p)
    else BreakTarget(p.up, l)
  }

  /** `continuetarget` */
  function ContinueTarget(p: Path, l: Option<Name>): (k: nat)
    ensures k <= Depth(p)
  {
    if p.Function? then 0
    else if IsLoop(p.kind) && (l.None? || MatchLabel(p.up, l.value)) then Depth(p)
    else ContinueTarget(p.up, l)
  }

  function LabelSet(p: Path): set<Name> {
    if p.Inside? && p.kind.Labelled? then {p.kind.x} + LabelSet(p.up) else {}
  }

  lemma {:induction false} LabelSetMeans(p: Path, l: Name)
    ensures l in LabelSet(p) <==> MatchLabel(p, l)
  {
    if p.Inside? { LabelSetMeans(p.up, l); }
  }

  /** Where the jumps to a node go, once patched: behind it, and to its next round. */
  datatype Dest = Dest(brk: nat, cont: nat)

  // ----- leaving nodes -----

  datatype Way = ByBreak | ByContinue | ByReturn

  datatype Regs = Regs(ops: Ops, scope: Scope, tries: Tries)

  /** What must be on the stacks inside a node, and what is there outside it. */
  predicate Inner1(k: Kind, g: Regs) {
    match k
    case ForInLoop => g.ops.On?
    case WithNode => g.scope.Inner?
    case CatchBody => g.scope.Inner?
    case TryBody => g.tries.Tries?
    case _ => true
  }

  function Outer1(k: Kind, g: Regs): Regs
    requires Inner1(k, g)
  {
    match k
    case ForInLoop => g.(ops := g.ops.under)
    case WithNode => g.(scope := g.scope.outer)
    case CatchBody => g.(scope := g.scope.outer)
    case TryBody => g.(tries := g.tries.rest)
    case _ => g
  }

  predicate Fits(p: Path, g: Regs) {
    p.Inside? ==> Inner1(p.kind, g) && Fits(p.up, Outer1(p.kind, g))
  }

  /** A continue leaves the iterator of its own loop in place. */
  predicate Stays(way: Way, k: Kind, target: bool) {
    way.ByContinue? && target && k.ForInLoop?
  }

  /** The stacks as the node at depth k expects them. */
  function Unwind(way: Way, p: Path, k: nat, g: Regs): Regs
    requires Fits(p, g)
  {
    if p.Function? then g
    else
      var g1 := if Stays(way, p.kind, Depth(p) == k) then g else Outer1(p.kind, g);
      if Depth(p) == k then g1 else Unwind(way, p.up, k, g1)
  }

  function SizeLeave(way: Way, k: Kind, target: bool): nat {
    match k
    case ForInLoop => if way.ByReturn? then 2 else if Stays(way, k, target) then 0 else 1
    case WithNode => 1
    case CatchBody => 1
    case TryBody => 1
    case _ => 0
  }

  predicate CodedLeave(f: Fn, way: Way, k: Kind, target: bool, a: nat) {
    match k
    case ForInLoop =>
      if way.ByReturn? then Is(f, a, Rot2, a + 1) && Is(f, a + 1, Pop, a + 2)
      else Stays(way, k, target) || Is(f, a, Pop, a + 1)
    case WithNode => Is(f, a, LeaveScope, a + 1)
    case CatchBody => Is(f, a, LeaveScope, a + 1)
    case TryBody => Is(f, a, EndTry, a + 1)
    case _ => true
  }

  /** `cexit`: from the inside out, up to the node at depth k. */
  function SizeExit(way: Way, p: Path, k: nat): nat {
    if p.Function? then 0
    else SizeLeave(way, p.kind, Depth(p) == k) + if Depth(p) == k then 0 else SizeExit(way, p.up, k)
  }

  predicate CodedExit(f: Fn, way: Way, p: Path, k: nat, a: nat) {
    p.Inside? ==>
      && CodedLeave(f, way, p.kind, Depth(p) == k, a)
      && (Depth(p) != k ==> CodedExit(f, way, p.up, k, a + SizeLeave(way, p.kind, false)))
  }

  // ----- statements -----

  function SizeOpt(e: Option<Exp>, absent: nat): nat {
    if e.Some? then SizeE(e.value) else absent
  }

  function SizeVars(vars: Vars): nat {
    match vars
    case NoVars => 0
    case Var(_, None, rest) => SizeVars(rest)
    case Var(_, Some(e), rest) => SizeE(e) + 3 + SizeVars(rest)
  }

  predicate CodedVars(f: Fn, ns: Names, vars: Vars, a: nat)
    decreases vars
  {
    match vars
    case NoVars => true
    case Var(_, None, rest) => CodedVars(f, ns, rest, a)
    case Var(x, Some(e), rest) =>
      var p := a + SizeE(e);
      Coded(f, ns, e, a) && CodedStore(f, ns, x, p) && Is(f, p + 2, Pop, p + 3) && CodedVars(f, ns, rest, p + 3)
  }

  function SizeInit(init: Init): nat {
    match init
    case NoInit => 0
    case VarInit(vars) => SizeVars(vars)
    case ExpInit(e) => SizeE(e) + 1
  }

  predicate CodedInit(f: Fn, ns: Names, init: Init, a: nat) {
    match init
    case NoInit => true
    case VarInit(vars) => CodedVars(f, ns, vars, a)
    case ExpInit(e) => Coded(f, ns, e, a) && Is(f, a + SizeE(e), Pop, a + SizeE(e) + 1)
  }

  /** `cassignforin`. For an index expression the rotation puts the operands in the wrong order. */
  function SizeForAssign(e: Exp): nat {
    SizeRef(e) + (if e.Ident? then 3 else if e.Index? then 3 else 4)
  }

  predicate CodedForAssign(f: Fn, ns: Names, e: Exp, a: nat) {
    var p := a + SizeRef(e);
    match e
    case Ident(x) => CodedStore(f, ns, x, a) && Is(f, a + 2, Pop, a + 3)
    case Index(_, _) =>
      CodedRef(f, ns, e, a) && Is(f, p, Rot3, p + 1) && Is(f, p + 1, Do1(SetProp, 3), p + 2)
      && Is(f, p + 2, Pop, p + 3)
    case Member(_, x) =>
      CodedRef(f, ns, e, a) && Is(f, p, Rot2, p + 1) && Is(f, p + 1, Do1(SetMember(x), 2), p + 3)
      && Is(f, p + 3, Pop, p + 4)
    case _ => false
  }

  function SizeS(s: Stm, p: Path): nat
    decreases s, 2
  {
    SizeStm(s, p)
  }

  function SizeStm(s: Stm, p: Path): nat
    decreases s, 1
  {
    match s
    case FunDec => 0
    case Block(body) => SizeList(body, Inside(Plain, p))
    case Empty => 0
    case VarStm(vars) => SizeVars(vars)
    case If(e, b) => SizeE(e) + 2 + SizeS(b, Inside(Plain, p))
    case IfElse(e, b, b2) => SizeE(e) + 2 + SizeS(b2, Inside(Plain, p)) + 2 + SizeS(b, Inside(Plain, p))
    case Do(b, e) => SizeS(b, Inside(Loop, p)) + SizeE(e) + 2
    case While(e, b) => SizeE(e) + 2 + SizeS(b, Inside(Loop, p)) + 2
    case For(init, e, step, b) =>
      SizeInit(init) + (if e.Some? then SizeE(e.value) + 2 else 0) + SizeS(b, Inside(Loop, p))
        + (if step.Some? then SizeE(step.value) + 1 else 0) + 2
    case ForIn(lhs, e, b) => SizeE(e) + 4 + SizeForAssign(lhs) + SizeS(b, Inside(ForInLoop, p)) + 2
    case Switch(e, cases) => SizeE(e) + SizeTests(cases) + 3 + SizeBodies(cases, Inside(SwitchNode, p))
    case Label(x, b) => SizeS(b, Inside(Labelled(x), p))
    case Break(l) => SizeExit(ByBreak, p, BreakTarget(p, l)) + 2
    case Continue(l) => SizeExit(ByContinue, p, ContinueTarget(p, l)) + 2
    case Return(e) => SizeOpt(e, 1) + SizeExit(ByReturn, p, 0) + 1
    case Throw(e) => SizeE(e) + 1
    case With(e, b) => SizeE(e) + 1 + SizeS(b, Inside(WithNode, p)) + 1
    case Try(b, _, h) => 4 + SizeS(h, Inside(CatchBody, p)) + 3 + SizeS(b, Inside(TryBody, p)) + 1
    case Debugger => 1
    case ExpStm(e) => SizeE(e) + 1
  }

  function SizeList(ss: Stms, p: Path): nat
    decreases ss, 0
  {
    if ss.NoStms? then 0 else SizeS(ss.head, p) + SizeList(ss.tail, p)
  }

  /** The chain of tests of a switch. */
  function SizeTests(cases: Cases): nat {
    match cases
    case NoCases => 0
    case Default(_, rest) => SizeTests(rest)
    case Case(e, _, rest) => SizeE(e) + 2 + SizeTests(rest)
  }

  function SizeBodies(cases: Cases, p: Path): nat
    decreases cases, 0
  {
    if cases.NoCases? then 0 else SizeList(cases.body, p) + SizeBodies(cases.rest, p)
  }

  /** Where the default clause's body starts, or the end. */
  function DefaultAt(cases: Cases, p: Path, b: nat): nat {
    match cases
    case NoCases => b
    case Default(_, _) => b
    case Case(_, body, rest) => DefaultAt(rest, p, b + SizeList(body, p))
  }

  function Defaults(cases: Cases): nat {
    match cases
    case NoCases => 0
    case Default(_, rest) => 1 + Defaults(rest)
    case Case(_, _, rest) => Defaults(rest)
  }

  /** The statement's code lies at a; d says where jumps to the enclosing nodes go. Jumps to a
      label's own node are never patched and stay 0. */
  predicate CodedS(f: Fn, ns: Names, s: Stm, p: Path, d: seq<Dest>, a: nat)
    requires |d| == Depth(p)
    decreases s, 3
  {
    CodedStm(f, ns, s, p, d, a)
  }

  lemma {:induction false} CodedSDef(f: Fn, ns: Names, s: Stm, p: Path, d: seq<Dest>, a: nat)
    requires |d| == Depth(p)
    ensures CodedS(f, ns, s, p, d, a) == CodedStm(f, ns, s, p, d, a)
    ensures SizeS(s, p) == SizeStm(s, p)
  {
  }

  predicate CodedStm(f: Fn, ns: Names, s: Stm, p: Path, d: seq<Dest>, a: nat)
    requires |d| == Depth(p)
    decreases s, 2
  {
    var end := a + SizeS(s, p);
    var behind := d + [Dest(end, 0)];
    match s
    case FunDec => true
    case Block(body) => CodedList(f, ns, body, Inside(Plain, p), behind, a)
    case Empty => true
    case VarStm(vars) => CodedVars(f, ns, vars, a)
    case If(e, b) =>
      var q := a + SizeE(e);
      Coded(f, ns, e, a) && Is(f, q, JFalse(end), q + 2) && CodedS(f, ns, b, Inside(Plain, p), behind, q + 2)
    case IfElse(e, b, b2) =>
      var q := a + SizeE(e);
      var r := q + 2 + SizeS(b2, Inside(Plain, p));
      && Coded(f, ns, e, a) && Is(f, q, JTrue(r + 2), q + 2) && CodedS(f, ns, b2, Inside(Plain, p), behind, q + 2)
      && Is(f, r, Jump(end), r + 2) && CodedS(f, ns, b, Inside(Plain, p), behind, r + 2)
    case Do(b, e) =>
      var q := a + SizeS(b, Inside(Loop, p));
      && CodedS(f, ns, b, Inside(Loop, p), d + [Dest(end, q)], a) && Coded(f, ns, e, q)
      && Is(f, q + SizeE(e), JTrue(a), end)
    case While(e, b) => CodedLoop(f, ns, s, a, p, d, a)
    case For(init, _, _, b) => CodedInit(f, ns, init, a) && CodedLoop(f, ns, s, a, p, d, a + SizeInit(init))
    case ForIn(lhs, e, b) => CodedForIn(f, ns, s, p, d, a)
    case Switch(e, cases) =>
      var q := a + SizeE(e);
      var r := q + SizeTests(cases);
      var p1 := Inside(SwitchNode, p);
      && Coded(f, ns, e, a) && Defaults(cases) <= 1 && CodedTests(f, ns, cases, p1, q, r + 3)
      && Is(f, r, Pop, r + 1) && Is(f, r + 1, Jump(DefaultAt(cases, p1, r + 3)), r + 3)
      && CodedBodies(f, ns, cases, p1, behind, r + 3)
    case Label(x, b) => CodedS(f, ns, b, Inside(Labelled(x), p), d + [Dest(0, 0)], a)
    case Break(l) =>
      var k := BreakTarget(p, l);
      var q := a + SizeExit(ByBreak, p, k);
      0 < k && CodedExit(f, ByBreak, p, k, a) && Is(f, q, Jump(d[k - 1].brk), q + 2)
    case Continue(l) =>
      var k := ContinueTarget(p, l);
      var q := a + SizeExit(ByContinue, p, k);
      0 < k && CodedExit(f, ByContinue, p, k, a) && Is(f, q, Jump(d[k - 1].cont), q + 2)
    case Return(e) =>
      && (if e.Some? then Coded(f, ns, e.value, a) else Is(f, a, Push(Undefined), a + 1))
      && (var q := a + SizeOpt(e, 1);
          var r := q + SizeExit(ByReturn, p, 0);
          CodedExit(f, ByReturn, p, 0, q) && Is(f, r, Ret, r + 1))
    case Throw(e) => Coded(f, ns, e, a) && Is(f, a + SizeE(e), Raise, end)
    case With(e, b) =>
      var q := a + SizeE(e);
      var r := q + 1 + SizeS(b, Inside(WithNode, p));
      && Coded(f, ns, e, a) && Is(f, q, EnterWith, q + 1)
      && CodedS(f, ns, b, Inside(WithNode, p), behind, q + 1) && Is(f, r, LeaveScope, r + 1)
    case Try(b, x, h) =>
      var q := a + 4 + SizeS(h, Inside(CatchBody, p));
      var r := q + 3 + SizeS(b, Inside(TryBody, p));
      && Is(f, a, TryTo(q + 3), a + 2) && Is(f, a + 2, Catch(x), a + 4)
      && CodedS(f, ns, h, Inside(CatchBody, p), behind, a + 4) && Is(f, q, LeaveScope, q + 1)
        && Is(f, q + 1, Jump(end), q + 3)
      && CodedS(f, ns, b, Inside(TryBody, p), behind, q + 3) && Is(f, r, EndTry, r + 1)
    case Debugger => Is(f, a, Trap, a + 1)
    case ExpStm(e) => Coded(f, ns, e, a) && Is(f, a + SizeE(e), Pop, end)
  }

  predicate CodedList(f: Fn, ns: Names, ss: Stms, p: Path, d: seq<Dest>, a: nat)
    requires |d| == Depth(p)
    decreases ss, 0
  {
    ss.Stms? ==> CodedS(f, ns, ss.head, p, d, a) && CodedList(f, ns, ss.tail, p, d, a + SizeS(ss.head, p))
  }

  function TestOf(s: Stm): Option<Exp>
    requires s.While? || s.For?
  {
    if s.While? then Some(s.c) else s.cond
  }

  function StepOf(s: Stm): Option<Exp>
    requires s.While? || s.For?
  {
    if s.While? then None else s.step
  }

  /** `while` and `for` from the test on. A `while` goes on at its test, a `for` at its step. */
  predicate CodedLoop(f: Fn, ns: Names, s: Stm, start: nat, p: Path, d: seq<Dest>, a: nat)
    requires |d| == Depth(p) && (s.While? || s.For?)
    decreases s, 1
  {
    var e, step, end := TestOf(s), StepOf(s), start + SizeS(s, p);
    var b := if e.Some? then a + SizeE(e.value) + 2 else a;
    var q := b + SizeS(s.s, Inside(Loop, p));
    var r := q + if step.Some? then SizeE(step.value) + 1 else 0;
    && (e.Some? ==> Coded(f, ns, e.value, a) && Is(f, a + SizeE(e.value), JFalse(end), b))
    && CodedS(f, ns, s.s, Inside(Loop, p), d + [Dest(end, if s.While? then a else q)], b)
    && (step.Some? ==> Coded(f, ns, step.value, q) && Is(f, q + SizeE(step.value), Pop, r))
    && Is(f, r, Jump(a), r + 2)
  }

  predicate CodedForIn(f: Fn, ns: Names, s: Stm, p: Path, d: seq<Dest>, a: nat)
    requires |d| == Depth(p) && s.ForIn?
    decreases s, 1
  {
    var end := a + SizeS(s, p);
    var q := a + SizeE(s.e) + 1;
    var b := q + 3 + SizeForAssign(s.lhs);
    var r := b + SizeS(s.s, Inside(ForInLoop, p));
    && Coded(f, ns, s.e, a) && Is(f, a + SizeE(s.e), Do1(Iterator, 1), q)
    && Is(f, q, Next, q + 1) && Is(f, q + 1, JFalse(end), q + 3)
    && CodedForAssign(f, ns, s.lhs, q + 3)
    && CodedS(f, ns, s.s, Inside(ForInLoop, p), d + [Dest(end, q)], b)
    && Is(f, r, Jump(q), r + 2)
  }

  /** Each test jumps to its own clause's body; the bodies lie one after the other from b. */
  predicate CodedTests(f: Fn, ns: Names, cases: Cases, p: Path, a: nat, b: nat)
    decreases cases, 0
  {
    match cases
    case NoCases => true
    case Default(body, rest) => CodedTests(f, ns, rest, p, a, b + SizeList(body, p))
    case Case(e, body, rest) =>
      var q := a + SizeE(e);
      Coded(f, ns, e, a) && Is(f, q, JCase(b), q + 2) && CodedTests(f, ns, rest, p, q + 2, b + SizeList(body, p))
  }

  predicate CodedBodies(f: Fn, ns: Names, cases: Cases, p: Path, d: seq<Dest>, a: nat)
    requires |d| == Depth(p)
    decreases cases, 0
  {
    !cases.NoCases? ==>
      CodedList(f, ns, cases.body, p, d, a) && CodedBodies(f, ns, cases.rest, p, d, a + SizeList(cases.body, p))
  }
}
