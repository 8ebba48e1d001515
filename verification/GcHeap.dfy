/** The garbage-collected heap of jsgc.c: cells of four kinds, the references between them,
    and what is reachable. The four C structures share their gc fields, so one class with a
    tagged body stands for all of them; each keeps its own list. */
module GcHeap {

  datatype Class = IteratorClass | FunctionClass | ScriptClass | OtherClass

  /** What a cell is, fixed when it is allocated. */
  datatype Kind = EnvKind | FunKind | ObjKind(cls: Class) | StrKind

  datatype Value = MemStr(s: Cell) | Ref(o: Cell) | Plain

  /** The property tree of an object; Leaf is the sentinel, at level 0. */
  datatype Tree = Leaf | Node(left: Tree, right: Tree, value: Value, getter: Cell?, setter: Cell?)

  datatype Body =
    | Env(variables: Cell, outer: Cell?)
    | Fun(funtab: seq<Cell>)
    | Obj(properties: Tree, prototype: Cell?, target: Cell?, scope: Cell?, code: Cell?)
    | Str

  class Cell {
    const kind: Kind
    var gcmark: int
    var gcnext: Cell?
    var body: Body

    /** Cells are allocated at mark 0, at the head of their list. */
    constructor (k: Kind, b: Body, next: Cell?)
      ensures kind == k && gcmark == 0 && gcnext == next && body == b
    {
      kind, gcmark, gcnext, body := k, 0, next, b;
    }
  }

  function Opt(c: Cell?): set<Cell> {
    if c == null then {} else {c}
  }

  function ValueRefs(v: Value): set<Cell> {
    match v
    case MemStr(s) => {s}
    case Ref(o) => {o}
    case Plain => {}
  }

  function TreeRefs(t: Tree): set<Cell> {
    match t
    case Leaf => {}
    case Node(l, r, v, g, s) => TreeRefs(l) + TreeRefs(r) + ValueRefs(v) + Opt(g) + Opt(s)
  }

  predicate HasCode(cls: Class) {
    cls == FunctionClass || cls == ScriptClass
  }

  /** The cells that a cell of kind k with body b refers to, as far as the collector looks. */
  function Refs(k: Kind, b: Body): set<Cell> {
    match b
    case Env(v, outer) => {v} + Opt(outer)
    case Fun(tab) => set c | c in tab
    case Obj(t, p, target, scope, fun) =>
      TreeRefs(t) + Opt(p) + (if k == ObjKind(IteratorClass) then Opt(target) else {})
      + (if k.ObjKind? && HasCode(k.cls) then Opt(scope) + Opt(fun) else {})
    case Str => {}
  }

  // ----- kinds -----

  predicate IsObj(c: Cell?) {
    c != null ==> c.kind.ObjKind?
  }

  predicate IsEnv(c: Cell?) {
    c != null ==> c.kind.EnvKind?
  }

  predicate IsFun(c: Cell?) {
    c != null ==> c.kind.FunKind?
  }

  predicate ValueTyped(v: Value) {
    match v
    case MemStr(s) => s.kind.StrKind?
    case Ref(o) => o.kind.ObjKind?
    case Plain => true
  }

  predicate TreeTyped(t: Tree) {
    match t
    case Leaf => true
    case Node(l, r, v, g, s) => TreeTyped(l) && TreeTyped(r) && ValueTyped(v) && IsObj(g) && IsObj(s)
  }

  /** The body fits the kind, references lead to cells of the right kind, and an iterator's
      target is an object of the program, never another iterator. */
  predicate BodyTyped(k: Kind, b: Body) {
    match b
    case Env(v, outer) => k.EnvKind? && v.kind.ObjKind? && IsEnv(outer)
    case Fun(tab) => k.FunKind? && forall c | c in tab :: c.kind.FunKind?
    case Obj(t, p, target, scope, fun) =>
      && k.ObjKind? && TreeTyped(t) && IsObj(p)
      && (k.cls == IteratorClass ==> target != null && target.kind.ObjKind? && target.kind.cls != IteratorClass)
      && (HasCode(k.cls) ==> IsEnv(scope) && IsFun(fun))
    case Str => k.StrKind?
  }

  /** Every reference from a cell of U stays in U and is well kinded. */
  ghost predicate Closed(U: set<Cell>)
    reads U`body
  {
    forall c | c in U :: Refs(c.kind, c.body) <= U && BodyTyped(c.kind, c.body)
  }

  // ----- reachability, on a snapshot of the references -----

  type Graph = map<Cell, set<Cell>>

  ghost function Snapshot(U: set<Cell>): Graph
    reads U`body
  {
    map c | c in U :: Refs(c.kind, c.body)
  }

  /** A path of n references leads from a root to c. */
  ghost predicate ReachesIn(g: Graph, roots: set<Cell>, n: nat, c: Cell) {
    if n == 0 then c in roots
    else exists d | d in g :: c in g[d] && ReachesIn(g, roots, n - 1, d)
  }

  ghost predicate Reaches(g: Graph, roots: set<Cell>, c: Cell) {
    exists n: nat :: ReachesIn(g, roots, n, c)
  }

  lemma {:induction false} StepReached(g: Graph, roots: set<Cell>, c: Cell, d: Cell)
    requires Reaches(g, roots, c) && c in g && d in g[c]
    ensures Reaches(g, roots, d)
  {
    var n: nat :| ReachesIn(g, roots, n, c);
    assert ReachesIn(g, roots, n + 1, d);
  }

  ghost predicate ClosedUnder(g: Graph, s: set<Cell>) {
    forall c | c in s && c in g :: g[c] <= s
  }

  /** A set holding the roots and closed under references holds everything reachable. */
  lemma {:induction false} ReachedStays(g: Graph, roots: set<Cell>, s: set<Cell>, n: nat, c: Cell)
    requires roots <= s && ClosedUnder(g, s) && ReachesIn(g, roots, n, c)
    ensures c in s
  {
    if n > 0 {
      var d :| d in g && c in g[d] && ReachesIn(g, roots, n - 1, d);
      ReachedStays(g, roots, s, n - 1, d);
    }
  }

  /** The cells of U that the roots reach. */
  ghost function ReachSet(U: set<Cell>, roots: set<Cell>): (live: set<Cell>)
    reads U`body
    ensures live <= U
  {
    set c | c in U && Reaches(Snapshot(U), roots, c)
  }

  lemma {:induction false} ReachSetClosed(U: set<Cell>, roots: set<Cell>)
    requires Closed(U) && roots <= U
    ensures roots <= ReachSet(U, roots) && Closed(ReachSet(U, roots))
  {
    var g := Snapshot(U);
    forall c | c in roots
      ensures Reaches(g, roots, c)
    {
      assert ReachesIn(g, roots, 0, c);
    }
    forall c, d | c in ReachSet(U, roots) && d in Refs(c.kind, c.body)
      ensures Reaches(g, roots, d)
    {
      StepReached(g, roots, c, d);
    }
  }

  // ----- the fields themselves -----

  /** The value, the getter or the setter of a property in the tree is d. */
  predicate Property(t: Tree, d: Cell) {
    t.Node? &&
      (t.value == MemStr(d) || t.value == Ref(d) || t.getter == d || t.setter == d
        || Property(t.left, d) || Property(t.right, d))
  }

  /** A field of c leads to d: a scope's variables object or outer scope, an inner function, a
      property, the prototype, an iterator's target, the scope or the code of a function or script. */
  ghost predicate PointsTo(c: Cell, d: Cell)
    reads c`body
  {
    match c.body
    case Env(variables, outer) => d == variables || d == outer
    case Fun(funtab) => exists i | 0 <= i < |funtab| :: funtab[i] == d
    case Obj(properties, prototype, target, scope, code) =>
      || Property(properties, d)
      || d == prototype
      || (c.kind == ObjKind(IteratorClass) && d == target)
      || ((c.kind == ObjKind(FunctionClass) || c.kind == ObjKind(ScriptClass)) && (d == scope || d == code))
    case Str => false
  }

  predicate OptIn(c: Cell?, U: set<Cell>) {
    c != null ==> c in U
  }

  /** For each property in the tree, the string or object that is its value, its getter and its setter
      are in U. */
  predicate PropertiesIn(t: Tree, U: set<Cell>) {
    t.Node? ==>
      && (t.value.MemStr? ==> t.value.s in U) && (t.value.Ref? ==> t.value.o in U)
      && OptIn(t.getter, U) && OptIn(t.setter, U) && PropertiesIn(t.left, U) && PropertiesIn(t.right, U)
  }

  /** All that the fields of c lead to is in U. */
  ghost predicate FieldsIn(c: Cell, U: set<Cell>)
    reads c`body
  {
    match c.body
    case Env(variables, outer) => variables in U && OptIn(outer, U)
    case Fun(funtab) => forall i | 0 <= i < |funtab| :: funtab[i] in U
    case Obj(properties, prototype, target, scope, code) =>
      && PropertiesIn(properties, U) && OptIn(prototype, U)
      && (c.kind == ObjKind(IteratorClass) ==> OptIn(target, U))
      && (c.kind == ObjKind(FunctionClass) || c.kind == ObjKind(ScriptClass) ==> OptIn(scope, U) && OptIn(code, U))
    case Str => true
  }

  lemma {:induction false} TreeRefsIn(t: Tree, U: set<Cell>)
    ensures TreeRefs(t) <= U <==> PropertiesIn(t, U)
    decreases t
  {
    if t.Node? {
      TreeRefsIn(t.left, U);
      TreeRefsIn(t.right, U);
      assert TreeRefs(t) == TreeRefs(t.left) + TreeRefs(t.right) + ValueRefs(t.value) + Opt(t.getter) + Opt(t.setter);
    }
  }

  lemma {:induction false} RefsIn(c: Cell, U: set<Cell>)
    ensures Refs(c.kind, c.body) <= U <==> FieldsIn(c, U)
  {
    hide TreeRefs, PropertiesIn;
    match c.body
    case Obj(t, p, target, scope, code) =>
      TreeRefsIn(t, U);
      ObjRefsIn(c.kind, t, p, target, scope, code, U);
    case _ =>
  }

  lemma {:induction false} ObjRefsIn(k: Kind, t: Tree, p: Cell?, target: Cell?, scope: Cell?, code: Cell?, U: set<Cell>)
    ensures Refs(k, Obj(t, p, target, scope, code)) <= U <==>
      && TreeRefs(t) <= U && OptIn(p, U) && (k == ObjKind(IteratorClass) ==> OptIn(target, U))
      && (k == ObjKind(FunctionClass) || k == ObjKind(ScriptClass) ==> OptIn(scope, U) && OptIn(code, U))
  {
    hide TreeRefs;
    var s := Refs(k, Obj(t, p, target, scope, code));
    assert TreeRefs(t) <= s && Opt(p) <= s;
    if k == ObjKind(IteratorClass) { assert Opt(target) <= s; }
    if k == ObjKind(FunctionClass) || k == ObjKind(ScriptClass) { assert Opt(scope) + Opt(code) <= s; }
  }

  lemma {:induction false} TreeRefsMeans(t: Tree, d: Cell)
    ensures d in TreeRefs(t) <==> Property(t, d)
    decreases t
  {
    if t.Node? {
      TreeRefsMeans(t.left, d);
      TreeRefsMeans(t.right, d);
    }
  }

  /** The collector looks at exactly these fields. */
  lemma {:induction false} RefsMeans(c: Cell, d: Cell)
    ensures d in Refs(c.kind, c.body) <==> PointsTo(c, d)
  {
    if c.body.Obj? { TreeRefsMeans(c.body.properties, d); }
  }
}
