/** Where the statements of a body lie in its code, and what lies behind them: the nodes around
    a statement end at its own end, or behind it. */
module JsLayout {
  import opened JsTree
  import opened JsMachine
  import opened JsMeaning
  import opened JsCode
  import opened JsTargets

  /** A statement, its enclosing nodes with their destinations, and the address of its code. */
  datatype Part = Part(s: Stm, p: Path, d: seq<Dest>, a: nat)

  function EndOf(x: Part): nat {
    x.a + SizeS(x.s, x.p)
  }

  /** The statements directly inside another. */
  function Children(x: Part): seq<Part> {
    var s, p, a := x.s, x.p, x.a;
    var behind := x.d + [Dest(EndOf(x), 0)];
    match s
    case Block(body) => Members(body, Inside(Plain, p), behind, a)
    case If(e, b) => [Part(b, Inside(Plain, p), behind, a + SizeE(e) + 2)]
    case IfElse(e, b, b2) =>
      var q := a + SizeE(e) + 2;
      var r := q + SizeS(b2, Inside(Plain, p)) + 2;
      [Part(b2, Inside(Plain, p), behind, q), Part(b, Inside(Plain, p), behind, r)]
    case Do(b, _) => [Part(b, Inside(Loop, p), x.d + [Dest(EndOf(x), a + SizeS(b, Inside(Loop, p)))], a)]
    case While(_, b) => [LoopChild(x, a)]
    case For(init, _, _, b) => [LoopChild(x, a + SizeInit(init))]
    case ForIn(lhs, e, b) =>
      var q := a + SizeE(e) + 1;
      [Part(b, Inside(ForInLoop, p), x.d + [Dest(EndOf(x), q)], q + 3 + SizeForAssign(lhs))]
    case Switch(e, cases) => CaseMembers(cases, Inside(SwitchNode, p), behind, a + SizeE(e) + SizeTests(cases) + 3)
    case Label(l, b) => [Part(b, Inside(Labelled(l), p), x.d + [Dest(0, 0)], a)]
    case With(e, b) => [Part(b, Inside(WithNode, p), behind, a + SizeE(e) + 1)]
    case Try(b, _, h) =>
      var q := a + 4 + SizeS(h, Inside(CatchBody, p)) + 3;
      [Part(h, Inside(CatchBody, p), behind, a + 4), Part(b, Inside(TryBody, p), behind, q)]
    case _ => []
  }

  /** The body of a `while` or `for` whose test is at a. */
  function LoopChild(x: Part, a: nat): Part
    requires x.s.While? || x.s.For?
  {
    var b := if TestOf(x.s).Some? then a + SizeE(TestOf(x.s).value) + 2 else a;
    Part(x.s.s, Inside(Loop, x.p),
      x.d + [Dest(EndOf(x), if x.s.While? then a else b + SizeS(x.s.s, Inside(Loop, x.p)))], b)
  }

  function Members(ss: Stms, p: Path, d: seq<Dest>, a: nat): seq<Part> {
    if ss.NoStms? then [] else [Part(ss.head, p, d, a)] + Members(ss.tail, p, d, a + SizeS(ss.head, p))
  }

  function CaseMembers(cases: Cases, p: Path, d: seq<Dest>, a: nat): seq<Part> {
    if cases.NoCases? then []
    else Members(cases.body, p, d, a) + CaseMembers(cases.rest, p, d, a + SizeList(cases.body, p))
  }

  /** x is n levels inside one of the statements ys. */
  ghost predicate Inmost(x: Part, ys: seq<Part>, n: nat)
    decreases n
  {
    if n == 0 then x in ys else exists y | y in ys :: Inmost(x, Children(y), n - 1)
  }

  /** x is somewhere in a function body. */
  ghost predicate PartOf(x: Part, body: Stms) {
    exists n :: Inmost(x, Members(body, Function, [], 0), n)
  }

  /** How many words of a node's code lie behind a statement in it, at least. */
  function Behind(k: Kind): nat {
    match k
    case Loop => 2
    case ForInLoop => 2
    case WithNode => 1
    case TryBody => 1
    case CatchBody => 3
    case _ => 0
  }

  /** The enclosing nodes of code that ends at `end`. The destinations of a label stay 0. */
  predicate Laid(p: Path, d: seq<Dest>, end: nat)
    requires |d| == Depth(p)
  {
    p.Inside? ==>
      var n := |d| - 1;
      if p.kind.Labelled? then d[n] == Dest(0, 0) && Laid(p.up, d[..n], end)
      else end + Behind(p.kind) <= d[n].brk && Laid(p.up, d[..n], d[n].brk)
  }

  lemma {:induction false} LaidEarlier(p: Path, d: seq<Dest>, end: nat, end1: nat)
    requires |d| == Depth(p) && Laid(p, d, end) && end1 <= end
    ensures Laid(p, d, end1)
  {
    if p.Inside? && p.kind.Labelled? { LaidEarlier(p.up, d[..|d| - 1], end, end1); }
  }

  lemma {:induction false} LaidInside(k: Kind, p: Path, d: seq<Dest>, dest: Dest, end: nat)
    requires |d| == Depth(p) && Laid(p, d, if k.Labelled? then end else dest.brk)
    requires if k.Labelled? then dest == Dest(0, 0) else end + Behind(k) <= dest.brk
    ensures Laid(Inside(k, p), d + [dest], end)
  {
    assert (d + [dest])[..|d|] == d;
  }

  ghost predicate Placed(f: Fn, ns: Names, x: Part) {
    |x.d| == Depth(x.p) && CodedS(f, ns, x.s, x.p, x.d, x.a) && Laid(x.p, x.d, EndOf(x))
  }

  lemma {:induction false} MembersPlaced(f: Fn, ns: Names, ss: Stms, p: Path, d: seq<Dest>, a: nat, x: Part)
    requires |d| == Depth(p) && CodedList(f, ns, ss, p, d, a) && Laid(p, d, a + SizeList(ss, p))
    requires x in Members(ss, p, d, a)
    ensures Placed(f, ns, x)
    decreases ss
  {
    hide CodedS, SizeS, Laid;
    var y := Part(ss.head, p, d, a);
    LaidEarlier(p, d, a + SizeList(ss, p), EndOf(y));
    if x != y { MembersPlaced(f, ns, ss.tail, p, d, a + SizeS(ss.head, p), x); }
  }

  lemma {:induction false} CaseMembersPlaced(f: Fn, ns: Names, cases: Cases, p: Path, d: seq<Dest>, a: nat, x: Part)
    requires |d| == Depth(p) && CodedBodies(f, ns, cases, p, d, a) && Laid(p, d, a + SizeBodies(cases, p))
    requires x in CaseMembers(cases, p, d, a)
    ensures Placed(f, ns, x)
    decreases cases
  {
    hide CodedList, SizeList, Laid, Placed;
    var q := a + SizeList(cases.body, p);
    LaidEarlier(p, d, a + SizeBodies(cases, p), q);
    if x in Members(cases.body, p, d, a) {
      MembersPlaced(f, ns, cases.body, p, d, a, x);
    } else {
      CaseMembersPlaced(f, ns, cases.rest, p, d, q, x);
    }
  }

  lemma {:induction false} ChildPlaced(f: Fn, ns: Names, x: Part, y: Part)
    requires Placed(f, ns, x) && y in Children(x)
    ensures Placed(f, ns, y)
  {
    hide Placed;
    match x.s
    case Block(_) | Switch(_, _) => MemberPlaced(f, ns, x, y);
    case While(_, _) | For(_, _, _, _) => LoopPlaced(f, ns, x, y);
    case IfElse(_, _, _) => ElsePlaced(f, ns, x, y);
    case Try(_, _, _) => TryPlaced(f, ns, x, y);
    case If(_, _) | With(_, _) => OnlyPlaced(f, ns, x, y);
    case Do(_, _) | ForIn(_, _, _) | Label(_, _) => RoundPlaced(f, ns, x, y);
    case _ =>
  }

  lemma {:induction false} MemberPlaced(f: Fn, ns: Names, x: Part, y: Part)
    requires Placed(f, ns, x) && y in Children(x) && (x.s.Block? || x.s.Switch?)
    ensures Placed(f, ns, y)
  {
    hide CodedS, SizeS, CodedList, SizeList, Coded, SizeE, Is, Laid, CodedBodies, SizeBodies, Members, CaseMembers;
    var s, p, d, dest := x.s, x.p, x.d, Dest(EndOf(x), 0);
    CodedSDef(f, ns, s, p, d, x.a);
    if s.Block? {
      LaidInside(Plain, p, d, dest, dest.brk);
      MembersPlaced(f, ns, s.body, Inside(Plain, p), d + [dest], x.a, y);
    } else {
      LaidInside(SwitchNode, p, d, dest, dest.brk);
      CaseMembersPlaced(f, ns, s.cases, Inside(SwitchNode, p), d + [dest], x.a + SizeE(s.e) + SizeTests(s.cases) + 3,
        y);
    }
  }

  lemma {:induction false} LoopPlaced(f: Fn, ns: Names, x: Part, y: Part)
    requires Placed(f, ns, x) && y in Children(x) && (x.s.While? || x.s.For?)
    ensures Placed(f, ns, y)
  {
    hide CodedS, SizeS, CodedList, SizeList, Coded, SizeE, Is, Laid, CodedBodies, SizeBodies, Members, CaseMembers;
    CodedSDef(f, ns, x.s, x.p, x.d, x.a);
    LaidInside(Loop, x.p, x.d, y.d[|x.d|], EndOf(y));
  }

  lemma {:induction false} ElsePlaced(f: Fn, ns: Names, x: Part, y: Part)
    requires Placed(f, ns, x) && y in Children(x) && x.s.IfElse?
    ensures Placed(f, ns, y)
  {
    hide CodedS, SizeS, CodedList, SizeList, Coded, SizeE, Is, Laid, CodedBodies, SizeBodies, Members, CaseMembers;
    CodedSDef(f, ns, x.s, x.p, x.d, x.a);
    LaidInside(y.p.kind, x.p, x.d, y.d[|x.d|], EndOf(y));
  }

  lemma {:induction false} TryPlaced(f: Fn, ns: Names, x: Part, y: Part)
    requires Placed(f, ns, x) && y in Children(x) && x.s.Try?
    ensures Placed(f, ns, y)
  {
    hide CodedS, SizeS, CodedList, SizeList, Coded, SizeE, Is, Laid, CodedBodies, SizeBodies, Members, CaseMembers;
    CodedSDef(f, ns, x.s, x.p, x.d, x.a);
    LaidInside(y.p.kind, x.p, x.d, y.d[|x.d|], EndOf(y));
  }

  lemma {:induction false} OnlyPlaced(f: Fn, ns: Names, x: Part, y: Part)
    requires Placed(f, ns, x) && y in Children(x) && (x.s.If? || x.s.With?)
    ensures Placed(f, ns, y)
  {
    hide CodedS, SizeS, CodedList, SizeList, Coded, SizeE, Is, Laid, CodedBodies, SizeBodies, Members, CaseMembers;
    CodedSDef(f, ns, x.s, x.p, x.d, x.a);
    LaidInside(y.p.kind, x.p, x.d, y.d[|x.d|], EndOf(y));
  }

  lemma {:induction false} RoundPlaced(f: Fn, ns: Names, x: Part, y: Part)
    requires Placed(f, ns, x) && y in Children(x) && (x.s.Do? || x.s.ForIn? || x.s.Label?)
    ensures Placed(f, ns, y)
  {
    hide CodedS, SizeS, CodedList, SizeList, Coded, SizeE, Is, Laid, CodedBodies, SizeBodies, Members, CaseMembers;
    CodedSDef(f, ns, x.s, x.p, x.d, x.a);
    LaidInside(y.p.kind, x.p, x.d, y.d[|x.d|], EndOf(y));
  }

  lemma {:induction false} InmostPlaced(f: Fn, ns: Names, ys: seq<Part>, n: nat, x: Part)
    requires (forall y | y in ys :: Placed(f, ns, y)) && Inmost(x, ys, n)
    ensures Placed(f, ns, x)
    decreases n
  {
    hide Placed, Children;
    if n > 0 {
      var y :| y in ys && Inmost(x, Children(y), n - 1);
      forall z | z in Children(y)
        ensures Placed(f, ns, z)
      {
        ChildPlaced(f, ns, y, z);
      }
      InmostPlaced(f, ns, Children(y), n - 1, x);
    }
  }

  /** Every statement of a compiled body is where it is said to be. */
  lemma {:induction false} PartsPlaced(f: Fn, ns: Names, body: Stms, x: Part)
    requires CodedList(f, ns, body, Function, [], 0) && PartOf(x, body)
    ensures Placed(f, ns, x)
  {
    hide Placed, CodedList;
    var ys := Members(body, Function, [], 0);
    var n :| Inmost(x, ys, n);
    forall y | y in ys
      ensures Placed(f, ns, y)
    {
      MembersPlaced(f, ns, body, Function, [], 0, y);
    }
    InmostPlaced(f, ns, ys, n, x);
  }
}
