/** The interpreter state as the collector sees it, and `js_gc` itself. */
module GcState {
  import opened GcHeap
  import opened GcMark
  import opened GcCollect

  // ----- roots -----

  /** The fifteen prototypes with the registry and the global object, the value stack, the
      current and the global scope, and the scopes of the callers. */
  datatype Roots = Roots(protos: seq<Cell>, stack: seq<Value>, scope: Cell, globalScope: Cell, envstack: seq<Cell>)

  ghost function StackRefs(stack: seq<Value>): set<Cell> {
    set i, c | 0 <= i < |stack| && c in ValueRefs(stack[i]) :: c
  }

  ghost function RootCells(r: Roots): set<Cell> {
    Elements(r.protos) + StackRefs(r.stack) + {r.scope, r.globalScope} + Elements(r.envstack)
  }

  ghost predicate StackTyped(stack: seq<Value>) {
    forall i | 0 <= i < |stack| :: ValueTyped(stack[i])
  }

  ghost predicate AllObjs(l: seq<Cell>) {
    forall c | c in l :: c.kind.ObjKind?
  }

  ghost predicate AllEnvs(l: seq<Cell>) {
    forall c | c in l :: c.kind.EnvKind?
  }

  ghost predicate RootsTyped(r: Roots) {
    AllObjs(r.protos) && StackTyped(r.stack) && r.scope.kind.EnvKind? && r.globalScope.kind.EnvKind?
      && AllEnvs(r.envstack)
  }

  /** A root leads to d. */
  ghost predicate RootTo(r: Roots, d: Cell) {
    || d in r.protos || MemStr(d) in r.stack || Ref(d) in r.stack
    || d == r.scope || d == r.globalScope || d in r.envstack
  }

  /** All that the roots lead to is in U. */
  ghost predicate RootsIn(r: Roots, U: set<Cell>) {
    && (forall i | 0 <= i < |r.protos| :: r.protos[i] in U)
    && (forall i | 0 <= i < |r.stack| ::
          (r.stack[i].MemStr? ==> r.stack[i].s in U) && (r.stack[i].Ref? ==> r.stack[i].o in U))
    && r.scope in U && r.globalScope in U && (forall i | 0 <= i < |r.envstack| :: r.envstack[i] in U)
  }

  lemma {:induction false} RootsMeans(r: Roots, d: Cell)
    ensures d in RootCells(r) <==> RootTo(r, d)
  {
    if Ref(d) in r.stack || MemStr(d) in r.stack {
      var i :| 0 <= i < |r.stack| && (r.stack[i] == Ref(d) || r.stack[i] == MemStr(d));
      assert d in ValueRefs(r.stack[i]);
    }
    if d in StackRefs(r.stack) {
      var i :| 0 <= i < |r.stack| && d in ValueRefs(r.stack[i]);
      assert r.stack[i] in r.stack;
    }
  }

  /** From a root, n fields of cells of U lead to c one after the other. */
  ghost predicate Path(U: set<Cell>, r: Roots, n: nat, c: Cell)
    reads U`body
  {
    if n == 0 then RootTo(r, c) else exists d | d in U :: PointsTo(d, c) && Path(U, r, n - 1, d)
  }

  ghost predicate LedTo(U: set<Cell>, r: Roots, c: Cell)
    reads U`body
  {
    exists n: nat :: Path(U, r, n, c)
  }

  /** The roots and the fields of cells of U lead to all of U, and to nothing else. */
  ghost predicate Exactly(U: set<Cell>, r: Roots)
    reads U`body
  {
    RootsIn(r, U) && (forall c | c in U :: FieldsIn(c, U)) && (forall c | c in U :: LedTo(U, r, c))
  }

  lemma {:induction false} PathMeans(U: set<Cell>, r: Roots, n: nat, c: Cell)
    requires Closed(U)
    ensures Path(U, r, n, c) <==> ReachesIn(Snapshot(U), RootCells(r), n, c)
    decreases n
  {
    hide Closed, Refs, PointsTo, RootTo, RootCells;
    if n == 0 {
      RootsMeans(r, c);
    } else {
      forall d | d in U
        ensures PointsTo(d, c) && Path(U, r, n - 1, d) <==>
          c in Snapshot(U)[d] && ReachesIn(Snapshot(U), RootCells(r), n - 1, d)
      {
        RefsMeans(d, c);
        PathMeans(U, r, n - 1, d);
      }
    }
  }

  // ----- the four lists -----

  datatype Lists = Lists(envs: seq<Cell>, funs: seq<Cell>, objs: seq<Cell>, strs: seq<Cell>)

  ghost function ListCells(l: Lists): set<Cell> {
    Elements(l.envs) + Elements(l.funs) + Elements(l.objs) + Elements(l.strs)
  }

  ghost predicate KindsRight(l: Lists) {
    && AllEnvs(l.envs) && (forall c | c in l.funs :: c.kind.FunKind?)
    && AllObjs(l.objs) && (forall c | c in l.strs :: c.kind.StrKind?)
  }

  ghost predicate Apart(l: Lists) {
    && Elements(l.envs) !! Elements(l.funs) && Elements(l.envs) !! Elements(l.objs)
      && Elements(l.envs) !! Elements(l.strs)
    && Elements(l.funs) !! Elements(l.objs) && Elements(l.funs) !! Elements(l.strs)
      && Elements(l.objs) !! Elements(l.strs)
  }

  lemma {:induction false} KindsApart(l: Lists)
    requires KindsRight(l)
    ensures Apart(l)
  {
  }

  ghost function Survivors(l: Lists, live: set<Cell>): (r: Lists)
    ensures ListCells(r) == ListCells(l) * live
  {
    Lists(Filter(l.envs, live), Filter(l.funs, live), Filter(l.objs, live), Filter(l.strs, live))
  }

  ghost function Count(l: Lists): nat {
    |l.envs| + |l.funs| + |l.objs| + |l.strs|
  }

  // ----- marking from the roots -----

  method MarkObjects(mark: int, l: seq<Cell>, ghost U: set<Cell>)
    requires Closed(U) && Elements(l) <= U && AllObjs(l) && Black(U, mark, {})
    modifies U`gcmark
    ensures Grew(U, mark) && Black(U, mark, {}) && AllMarked(Elements(l), mark)
  {
    hide Closed, Black, Unmarked;
    var i := 0;
    while i < |l|
      invariant 0 <= i <= |l| && Black(U, mark, {}) && Grew(U, mark)
      invariant forall j | 0 <= j < i :: l[j].gcmark == mark
    {
      assert l[i] in Elements(l);
      MarkObject(mark, l[i], U, {});
      i := i + 1;
    }
  }

  method MarkEnvironments(mark: int, l: seq<Cell>, ghost U: set<Cell>)
    requires Closed(U) && Elements(l) <= U && AllEnvs(l) && Black(U, mark, {})
    modifies U`gcmark
    ensures Grew(U, mark) && Black(U, mark, {}) && AllMarked(Elements(l), mark)
  {
    hide Closed, Black, Unmarked;
    var i := 0;
    while i < |l|
      invariant 0 <= i <= |l| && Black(U, mark, {}) && Grew(U, mark)
      invariant forall j | 0 <= j < i :: l[j].gcmark == mark
    {
      assert l[i] in Elements(l);
      MarkEnvironment(mark, l[i], U, {});
      i := i + 1;
    }
  }

  /** `jsG_markstack` */
  method MarkStack(mark: int, stack: seq<Value>, ghost U: set<Cell>)
    requires Closed(U) && StackRefs(stack) <= U && StackTyped(stack) && Black(U, mark, {})
    modifies U`gcmark
    ensures Grew(U, mark) && Black(U, mark, {}) && AllMarked(StackRefs(stack), mark)
  {
    hide Closed, Black, ValueTyped, Unmarked;
    var i := 0;
    while i < |stack|
      invariant 0 <= i <= |stack| && Black(U, mark, {}) && Grew(U, mark)
      invariant forall j | 0 <= j < i :: AllMarked(ValueRefs(stack[j]), mark)
    {
      assert ValueRefs(stack[i]) <= StackRefs(stack);
      MarkValue(mark, stack[i], U, {});
      i := i + 1;
    }
  }

  method MarkRoots(mark: int, r: Roots, ghost U: set<Cell>)
    requires Closed(U) && RootCells(r) <= U && RootsTyped(r) && Black(U, mark, {})
    modifies U`gcmark
    ensures Grew(U, mark) && Black(U, mark, {}) && AllMarked(RootCells(r), mark)
  {
    RootParts(r, U);
    hide Closed, Black, StackTyped, AllObjs, AllEnvs, StackRefs, Unmarked, RootCells;
    MarkObjects(mark, r.protos, U);
    MarkStack(mark, r.stack, U);
    MarkEnvironment(mark, r.scope, U, {});
    MarkEnvironment(mark, r.globalScope, U, {});
    MarkEnvironments(mark, r.envstack, U);
    RootsMarked(r, mark);
  }

  lemma {:induction false} RootParts(r: Roots, U: set<Cell>)
    requires RootCells(r) <= U
    ensures Elements(r.protos) <= U && StackRefs(r.stack) <= U && Elements(r.envstack) <= U
    ensures r.scope in U && r.globalScope in U
  {
    assert r.scope in RootCells(r) && r.globalScope in RootCells(r);
  }

  lemma {:induction false} RootsMarked(r: Roots, mark: int)
    requires AllMarked(Elements(r.protos), mark) && AllMarked(StackRefs(r.stack), mark)
    requires r.scope.gcmark == mark && r.globalScope.gcmark == mark && AllMarked(Elements(r.envstack), mark)
    ensures AllMarked(RootCells(r), mark)
  {
  }

  /** When the roots are marked and no marked cell has an unmarked reference, every
      reachable cell is marked. */
  lemma {:induction false} MarkedAreLive(U: set<Cell>, live: set<Cell>, roots: set<Cell>, mark: int)
    requires Closed(U) && roots <= U && live == ReachSet(U, roots) && Closed(live)
    requires Black(live, mark, {}) && AllMarked(roots, mark)
    ensures AllMarked(live, mark)
  {
    var g := Snapshot(U);
    var s := set c | c in live && c.gcmark == mark;
    forall c | c in roots
      ensures c in s
    {
      assert ReachesIn(g, roots, 0, c);
    }
    forall c, d | c in s && d in Refs(c.kind, c.body)
      ensures d in s
    {
      assert c !in {};
    }
    assert ClosedUnder(g, s);
    forall c | c in live
      ensures c in s
    {
      var n: nat :| ReachesIn(g, roots, n, c);
      ReachedStays(g, roots, s, n, c);
    }
  }

  ghost predicate Unused(U: set<Cell>, mark: int)
    reads U`gcmark
  {
    forall c | c in U :: c.gcmark != mark
  }

  ghost predicate MarksAre(U: set<Cell>, live: set<Cell>, mark: int)
    reads U`gcmark
  {
    forall c | c in U :: c in live <==> c.gcmark == mark
  }

  /** With a mark no cell carries, marking from the roots marks exactly the live cells. */
  method MarkLive(mark: int, r: Roots, ghost U: set<Cell>, ghost live: set<Cell>)
    requires Closed(U) && RootCells(r) <= U && RootsTyped(r) && Unused(U, mark)
    requires live == ReachSet(U, RootCells(r))
    modifies live`gcmark
    ensures MarksAre(U, live, mark) && Closed(live) && RootCells(r) <= live <= U
  {
    ReachSetClosed(U, RootCells(r));
    assert Black(live, mark, {});
    hide Closed, RootCells, RootsTyped, Black, Unmarked, Refs, BodyTyped;
    MarkRoots(mark, r, live);
    MarkedAreLive(U, live, RootCells(r), mark);
  }

  // ----- sweeping -----

  datatype Heads = Heads(env: Cell?, fun: Cell?, obj: Cell?, str: Cell?)

  ghost predicate AllLinked(h: Heads, l: Lists)
    reads ListCells(l)`gcnext
  {
    Linked(h.env, l.envs) && Linked(h.fun, l.funs) && Linked(h.obj, l.objs) && Linked(h.str, l.strs)
  }

  method SweepAll(h: Heads, mark: int, ghost l: Lists, ghost live: set<Cell>) returns (k: Heads, freed: nat, total: nat)
    requires AllLinked(h, l) && Apart(l) && MarksAre(ListCells(l), live, mark)
    modifies ListCells(l)`gcnext
    ensures AllLinked(k, Survivors(l, live)) && total == Count(l) && freed == Count(l) - Count(Survivors(l, live))
  {
    hide Linked, Filter;
    var env, g0, n0 := Sweep(h.env, mark, l.envs, live);
    var fun, g1, n1 := Sweep(h.fun, mark, l.funs, live);
    var obj, g2, n2 := Sweep(h.obj, mark, l.objs, live);
    var str, g3, n3 := Sweep(h.str, mark, l.strs, live);
    k := Heads(env, fun, obj, str);
    freed, total := g0 + g1 + g2 + g3, n0 + n1 + n2 + n3;
  }

  // ----- the interpreter state -----

  ghost predicate HeapValid(gcmark: int, r: Roots, h: Heads, l: Lists)
    reads ListCells(l), RootCells(r)
  {
    && (gcmark == 1 || gcmark == 2) && (forall c | c in ListCells(l) :: c.gcmark == 0 || c.gcmark == gcmark)
    && AllLinked(h, l) && KindsRight(l) && Closed(ListCells(l))
    && RootCells(r) <= ListCells(l) && RootsTyped(r)
  }

  lemma {:induction false} NewHeap(r: Cell, g: Cell, e: Cell)
    requires r != g && r != e && g != e && r.gcmark == g.gcmark == e.gcmark == 0
    requires r.gcnext == null && g.gcnext == r && e.gcnext == null
    requires r.body == g.body == Obj(Leaf, null, null, null, null) && e.body == Env(g, null)
    requires r.kind == g.kind == ObjKind(OtherClass) && e.kind == EnvKind
    ensures var l := Lists([e], [], [g, r], []);
      ListCells(l) == {r, g, e} && HeapValid(1, Roots([r, g], [], e, e, []), Heads(e, null, g, null), l)
  {
    var l, roots := Lists([e], [], [g, r], []), Roots([r, g], [], e, e, []);
    assert Elements(l.envs) == {e} && Elements(l.objs) == {g, r} && ListCells(l) == {r, g, e};
    assert Elements(roots.protos) == {r, g} && RootCells(roots) == {r, g, e};
  }

  class State {
    var gcmark: int
    var gccounter: int
    var roots: Roots
    var heads: Heads
    ghost var lists: Lists

    ghost predicate Valid()
      reads this, ListCells(lists), RootCells(roots)
    {
      HeapValid(gcmark, roots, heads, lists)
    }

    /** `js_newstate`: the registry, the global object and the global scope. */
    constructor ()
      ensures Valid() && gcmark == 1 && fresh(ListCells(lists))
      ensures |lists.envs| == 1 && lists.funs == [] && |lists.objs| == 2 && lists.strs == []
    {
      hide HeapValid, ListCells;
      var r := new Cell(ObjKind(OtherClass), Obj(Leaf, null, null, null, null), null);
      var g := new Cell(ObjKind(OtherClass), Obj(Leaf, null, null, null, null), r);
      var e := new Cell(EnvKind, Env(g, null), null);
      gcmark, gccounter := 1, 3;
      roots := Roots([r, g], [], e, e, []);
      heads := Heads(e, null, g, null);
      lists := Lists([e], [], [g, r], []);
      new;
      NewHeap(r, g, e);
    }

    /** `js_gc`: afterwards the lists hold exactly the cells that were reachable, in their
        old order, and each carries the new mark, so the next collection starts fresh. The roots
        and the fields of what is kept lead to what is kept, and to nothing else. */
    method Collect() returns (freed: nat, total: nat)
      requires Valid()
      modifies this, ListCells(lists)`gcmark, ListCells(lists)`gcnext
      ensures Valid() && gcmark == 3 - old(gcmark) && roots == old(roots) && gccounter == old(gccounter)
      ensures var live := old(ReachSet(ListCells(lists), RootCells(roots)));
        && lists == Survivors(old(lists), live) && ListCells(lists) == live && AllMarked(live, gcmark)
      ensures total == Count(old(lists)) && freed == Count(old(lists)) - Count(lists)
      ensures Exactly(ListCells(lists), roots)
    {
      hide HeapValid, Survivors, Count, ListCells, RootTo, ReachSet, RootCells, Refs, Exactly;
      ghost var live := ReachSet(ListCells(lists), RootCells(roots));
      HeapParts(gcmark, roots, heads, lists);
      LiveReached(ListCells(lists), RootCells(roots));
      ghost var g := Snapshot(live);
      freed, total := Reclaim();
      HeapParts(gcmark, roots, heads, lists);
      assert Snapshot(live) == g;
      Kept(live, roots);
    }

    method Reclaim() returns (freed: nat, total: nat)
      requires Valid()
      modifies this, ListCells(lists)`gcmark, ListCells(lists)`gcnext
      ensures Valid() && gcmark == 3 - old(gcmark) && roots == old(roots) && gccounter == old(gccounter)
      ensures var live := old(ReachSet(ListCells(lists), RootCells(roots)));
        && lists == Survivors(old(lists), live) && ListCells(lists) == live && AllMarked(live, gcmark)
      ensures total == Count(old(lists)) && freed == Count(old(lists)) - Count(lists)
    {
      hide Closed, ReachSet, AllLinked, RootsTyped, RootCells, Apart, KindsRight, Survivors, Refs, BodyTyped;
      hide Linked, Filter, StackRefs, ListCells, Count;
      ghost var l, r := lists, roots;
      ghost var U, live := ListCells(l), ReachSet(ListCells(l), RootCells(r));
      KindsApart(l);
      gcmark := if gcmark == 1 then 2 else 1;
      assert Unused(U, gcmark);
      MarkLive(gcmark, roots, U, live);
      heads, freed, total := SweepAll(heads, gcmark, l, live);
      lists := Survivors(l, live);
      assert ListCells(lists) == live;
      SurvivorKinds(l, live);
    }

    /** Allocation: `jsV_newobject`, `jsR_newenvironment`, `newfun` and `jsV_newmemstring`
        all push a cell at mark 0 on the list of its kind and count it. */
    method Allocate(k: Kind, b: Body) returns (c: Cell)
      requires Valid() && Refs(k, b) <= ListCells(lists) && BodyTyped(k, b)
      modifies this`gccounter, this`heads, this`lists
      ensures Valid() && fresh(c) && c.kind == k && c.body == b && c.gcmark == 0
      ensures gcmark == old(gcmark) && roots == old(roots)
      ensures lists == Push(old(lists), c) && gccounter == old(gccounter) + 1
    {
      hide Refs, BodyTyped, Push, HeadFor, HeadsAfter, AllLinked, Closed, KindsRight, RootsTyped;
      c := new Cell(k, b, HeadFor(heads, k));
      PushKeeps(gcmark, roots, heads, lists, c);
      heads := HeadsAfter(heads, c);
      lists := Push(lists, c);
      gccounter := gccounter + 1;
    }

    /** Running code rewrites the references of a cell and moves the roots. */
    method Rewrite(c: Cell, b: Body, r: Roots)
      requires Valid() && c in ListCells(lists) && Refs(c.kind, b) <= ListCells(lists) && BodyTyped(c.kind, b)
      requires RootCells(r) <= ListCells(lists) && RootsTyped(r)
      modifies this`roots, c`body
      ensures Valid() && c.body == b && roots == r && lists == old(lists) && gcmark == old(gcmark)
    {
      hide AllLinked, RootsTyped, RootCells, KindsRight, Refs, BodyTyped, ListCells;
      c.body := b;
      roots := r;
    }
  }

  lemma {:induction false} HeapParts(gcmark: int, r: Roots, h: Heads, l: Lists)
    requires HeapValid(gcmark, r, h, l)
    ensures Closed(ListCells(l)) && RootCells(r) <= ListCells(l)
  {
  }

  lemma {:induction false} LiveReached(U: set<Cell>, roots: set<Cell>)
    requires Closed(U) && roots <= U
    ensures var live := ReachSet(U, roots); AllReached(Snapshot(live), roots, live)
  {
    hide Closed, ReachesIn;
    LiveStaysLive(U, roots);
    var live := ReachSet(U, roots);
    assert forall c | c in live :: c in ReachSet(live, roots);
  }

  ghost predicate AllReached(g: Graph, roots: set<Cell>, live: set<Cell>) {
    forall c | c in live :: Reaches(g, roots, c)
  }

  /** Where fields lead, and only that. */
  lemma {:induction false} Kept(live: set<Cell>, r: Roots)
    requires Closed(live) && RootCells(r) <= live && AllReached(Snapshot(live), RootCells(r), live)
    ensures Exactly(live, r)
  {
    hide PointsTo, RootsIn, FieldsIn, RootCells, Refs, BodyTyped, LedTo, AllReached, Closed;
    RootsKept(r, live);
    FieldsKept(live);
    PathsKept(live, r);
  }

  lemma {:induction false} PathsKept(live: set<Cell>, r: Roots)
    requires Closed(live) && AllReached(Snapshot(live), RootCells(r), live)
    ensures forall c | c in live :: LedTo(live, r, c)
  {
    hide PointsTo, RootTo, RootCells, Refs, BodyTyped, LedTo, Closed, Reaches;
    forall c | c in live
      ensures LedTo(live, r, c)
    {
      PathKept(live, r, c);
    }
  }

  lemma {:induction false} RootsKept(r: Roots, live: set<Cell>)
    requires RootCells(r) <= live
    ensures RootsIn(r, live)
  {
    RootParts(r, live);
    forall i | 0 <= i < |r.stack|
      ensures ValueRefs(r.stack[i]) <= live
    {
      assert ValueRefs(r.stack[i]) <= StackRefs(r.stack);
    }
    assert forall i | 0 <= i < |r.protos| :: r.protos[i] in Elements(r.protos);
    assert forall i | 0 <= i < |r.envstack| :: r.envstack[i] in Elements(r.envstack);
  }

  lemma {:induction false} FieldsKept(live: set<Cell>)
    requires Closed(live)
    ensures forall c | c in live :: FieldsIn(c, live)
  {
    hide FieldsIn, Refs, BodyTyped;
    forall c | c in live
      ensures FieldsIn(c, live)
    {
      RefsIn(c, live);
    }
  }

  lemma {:induction false} PathKept(live: set<Cell>, r: Roots, c: Cell)
    requires Closed(live) && Reaches(Snapshot(live), RootCells(r), c)
    ensures LedTo(live, r, c)
  {
    hide PointsTo, RootTo, RootCells, Refs, BodyTyped, Path, Closed, ReachesIn, Snapshot;
    var n: nat :| ReachesIn(Snapshot(live), RootCells(r), n, c);
    PathMeans(live, r, n, c);
  }

  /** c put at the head of the list of its kind. */
  ghost function Push(l: Lists, c: Cell): Lists {
    match c.kind
    case EnvKind => l.(envs := [c] + l.envs)
    case FunKind => l.(funs := [c] + l.funs)
    case ObjKind(_) => l.(objs := [c] + l.objs)
    case StrKind => l.(strs := [c] + l.strs)
  }

  function HeadsAfter(h: Heads, c: Cell): Heads {
    match c.kind
    case EnvKind => h.(env := c)
    case FunKind => h.(fun := c)
    case ObjKind(_) => h.(obj := c)
    case StrKind => h.(str := c)
  }

  function HeadFor(h: Heads, k: Kind): Cell? {
    match k
    case EnvKind => h.env
    case FunKind => h.fun
    case ObjKind(_) => h.obj
    case StrKind => h.str
  }

  lemma {:induction false} LinkedCons(head: Cell?, l: seq<Cell>, c: Cell)
    requires Linked(head, l) && c !in l && c.gcnext == head
    ensures Linked(c, [c] + l) && Elements([c] + l) == Elements(l) + {c}
  {
    var r := [c] + l;
    forall i | 0 <= i < |r|
      ensures r[i].gcnext == if i + 1 < |r| then r[i + 1] else null
    {
      if i > 0 { assert r[i] == l[i - 1]; }
    }
  }

  lemma {:induction false} PushKeeps(gcmark: int, r: Roots, h: Heads, l: Lists, c: Cell)
    requires HeapValid(gcmark, r, h, l) && c !in ListCells(l) && c.gcmark == 0 && c.gcnext == HeadFor(h, c.kind)
    requires Refs(c.kind, c.body) <= ListCells(l) && BodyTyped(c.kind, c.body)
    ensures HeapValid(gcmark, r, HeadsAfter(h, c), Push(l, c))
  {
    hide Linked, Refs, BodyTyped, RootsTyped, RootCells, ListCells;
    PushCells(l, c);
    match c.kind
    case EnvKind => LinkedCons(h.env, l.envs, c);
    case FunKind => LinkedCons(h.fun, l.funs, c);
    case ObjKind(_) => LinkedCons(h.obj, l.objs, c);
    case StrKind => LinkedCons(h.str, l.strs, c);
  }

  lemma {:induction false} PushCells(l: Lists, c: Cell)
    ensures ListCells(Push(l, c)) == ListCells(l) + {c}
    ensures c !in ListCells(l) ==> c !in l.envs && c !in l.funs && c !in l.objs && c !in l.strs
  {
  }

  /** Nothing more is garbage right after a collection. */
  lemma {:induction false} LiveStaysLive(U: set<Cell>, roots: set<Cell>)
    requires Closed(U) && roots <= U
    ensures ReachSet(ReachSet(U, roots), roots) == ReachSet(U, roots)
  {
    var live := ReachSet(U, roots);
    forall c | c in live
      ensures Reaches(Snapshot(live), roots, c)
    {
      var n: nat :| ReachesIn(Snapshot(U), roots, n, c);
      LivePath(U, roots, n, c);
    }
  }

  lemma {:induction false} LivePath(U: set<Cell>, roots: set<Cell>, n: nat, c: Cell)
    requires Closed(U) && roots <= U && ReachesIn(Snapshot(U), roots, n, c)
    ensures ReachesIn(Snapshot(ReachSet(U, roots)), roots, n, c)
  {
    hide Closed, Refs;
    var g, live := Snapshot(U), ReachSet(U, roots);
    if n > 0 {
      var d :| d in g && c in g[d] && ReachesIn(g, roots, n - 1, d);
      LivePath(U, roots, n - 1, d);
      assert Reaches(g, roots, d);
      assert d in live && Snapshot(live)[d] == g[d];
      ReachesNext(Snapshot(live), roots, n, d, c);
    }
  }

  lemma {:induction false} ReachesNext(g: Graph, roots: set<Cell>, n: nat, d: Cell, c: Cell)
    requires n > 0 && d in g && c in g[d] && ReachesIn(g, roots, n - 1, d)
    ensures ReachesIn(g, roots, n, c)
  {
  }

  lemma {:induction false} SurvivorKinds(l: Lists, live: set<Cell>)
    requires KindsRight(l)
    ensures KindsRight(Survivors(l, live))
  {
    var r := Survivors(l, live);
    assert Elements(r.envs) <= Elements(l.envs) && Elements(r.funs) <= Elements(l.funs);
    assert Elements(r.objs) <= Elements(l.objs) && Elements(r.strs) <= Elements(l.strs);
    assert forall c | c in r.envs :: c in Elements(r.envs);
    assert forall c | c in r.funs :: c in Elements(r.funs);
    assert forall c | c in r.objs :: c in Elements(r.objs);
    assert forall c | c in r.strs :: c in Elements(r.strs);
  }
}
