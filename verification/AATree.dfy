/** Names in `strcmp` order and lists of entries sorted by name. */
module NameOrder {

  type Name = string

  /** strcmp(a, b) < 0 */
  predicate Less(a: Name, b: Name) {
    if b == [] then false
    else if a == [] then true
    else a[0] < b[0] || (a[0] == b[0] && Less(a[1..], b[1..]))
  }

  /** The names agree up to some place, where a ends or has the smaller character. */
  lemma {:induction false} LessMeans(a: Name, b: Name)
    ensures Less(a, b) <==>
      exists k | 0 <= k <= |a| && k < |b| :: a[..k] == b[..k] && (k == |a| || a[k] < b[k])
  {
    if Less(a, b) {
      var k := LessAt(a, b);
    }
    forall k | 0 <= k <= |a| && k < |b| && a[..k] == b[..k] && (k == |a| || a[k] < b[k])
      ensures Less(a, b)
    {
      LessFrom(a, b, k);
    }
  }

  lemma {:induction false} LessAt(a: Name, b: Name) returns (k: nat)
    requires Less(a, b)
    ensures k <= |a| && k < |b| && a[..k] == b[..k] && (k == |a| || a[k] < b[k])
  {
    if a == [] || a[0] < b[0] {
      k := 0;
    } else {
      var j := LessAt(a[1..], b[1..]);
      k := j + 1;
      assert a[..k] == [a[0]] + a[1..][..j] && b[..k] == [b[0]] + b[1..][..j];
    }
  }

  lemma {:induction false} LessFrom(a: Name, b: Name, k: nat)
    requires k <= |a| && k < |b| && a[..k] == b[..k] && (k == |a| || a[k] < b[k])
    ensures Less(a, b)
    decreases k
  {
    if k > 0 {
      assert a[0] == a[..k][0] == b[..k][0] == b[0];
      assert a[1..][..k - 1] == a[..k][1..] == b[..k][1..] == b[1..][..k - 1];
      LessFrom(a[1..], b[1..], k - 1);
    }
  }

  lemma {:induction false} LessTotal(a: Name, b: Name)
    ensures a == b || Less(a, b) || Less(b, a)
  {
    if a != [] && b != [] {
      LessTotal(a[1..], b[1..]);
      assert a == [a[0]] + a[1..] && b == [b[0]] + b[1..];
    }
  }

  lemma {:induction false} LessAsym(a: Name, b: Name)
    requires Less(a, b)
    ensures a != b && !Less(b, a)
  {
    if a != [] && a[0] == b[0] { LessAsym(a[1..], b[1..]); }
  }

  lemma {:induction false} LessTrans(a: Name, b: Name, c: Name)
    requires Less(a, b) && Less(b, c)
    ensures Less(a, c)
  {
    if a != [] && a[0] == b[0] && b[0] == c[0] { LessTrans(a[1..], b[1..], c[1..]); }
  }

  /** Less is a strict total order, as a fact about all names. */
  lemma {:induction false} LessOrder()
    ensures forall a: Name, b: Name :: Less(a, b) ==> a != b && !Less(b, a)
    ensures forall a: Name, b: Name :: a == b || Less(a, b) || Less(b, a)
    ensures forall a: Name, b: Name, c: Name :: Less(a, b) && Less(b, c) ==> Less(a, c)
  {
    forall a: Name, b: Name | Less(a, b)
      ensures a != b && !Less(b, a)
    {
      LessAsym(a, b);
    }
    forall a: Name, b: Name
      ensures a == b || Less(a, b) || Less(b, a)
    {
      LessTotal(a, b);
    }
    forall a: Name, b: Name, c: Name | Less(a, b) && Less(b, c)
      ensures Less(a, c)
    {
      LessTrans(a, b, c);
    }
  }
}

/** AA-trees as values: what the pointer code of jsproperty.c and jsintern.c computes. Each
    node of type P keeps its identity through the rotations. */
module AATree {
  import opened NameOrder

  datatype Entry<D> = Entry(name: Name, data: D)

  datatype Tree<P, D> = Leaf | Node(p: P, e: Entry<D>, level: nat, l: Tree, r: Tree)

  function Level<P, D>(t: Tree<P, D>): nat {
    if t.Leaf? then 0 else t.level
  }

  /** The right child; the sentinel's is the sentinel. */
  function Right<P, D>(t: Tree<P, D>): Tree<P, D> {
    if t.Leaf? then Leaf else t.r
  }

  /** The level rules at the head of jsproperty.c. That a leaf has level one and that a
      higher node has two children follow. */
  predicate AA<P, D>(t: Tree<P, D>) {
    t.Node? ==>
      && t.level >= 1 && AA(t.l) && AA(t.r)
      && Level(t.l) == t.level - 1
      && t.level - 1 <= Level(t.r) <= t.level
      && Level(Right(t.r)) < t.level
  }

  predicate Horizontal<P, D>(t: Tree<P, D>) {
    t.Node? && Level(t.r) == t.level
  }

  ghost function Nodes<P, D>(t: Tree<P, D>): set<P> {
    if t.Leaf? then {} else Nodes(t.l) + {t.p} + Nodes(t.r)
  }

  /** No node occurs twice. */
  ghost predicate Unshared<P, D>(t: Tree<P, D>) {
    t.Node? ==> Unshared(t.l) && Unshared(t.r) && t.p !in Nodes(t.l) && t.p !in Nodes(t.r) && Nodes(t.l) !! Nodes(t.r)
  }

  /** The entries in order. */
  function Flat<P, D>(t: Tree<P, D>): seq<Entry<D>> {
    if t.Leaf? then [] else Flat(t.l) + [t.e] + Flat(t.r)
  }

  // ----- sorted lists of entries -----

  ghost predicate Sorted<D>(s: seq<Entry<D>>) {
    forall i, j | 0 <= i < j < |s| :: Less(s[i].name, s[j].name)
  }

  ghost predicate Below<D>(s: seq<Entry<D>>, n: Name) {
    forall i | 0 <= i < |s| :: Less(s[i].name, n)
  }

  ghost predicate Above<D>(s: seq<Entry<D>>, n: Name) {
    forall i | 0 <= i < |s| :: Less(n, s[i].name)
  }

  ghost predicate Has<D>(s: seq<Entry<D>>, n: Name) {
    exists i | 0 <= i < |s| :: s[i].name == n
  }

  /** s without the entries named n. */
  ghost function Without<D>(s: seq<Entry<D>>, n: Name): seq<Entry<D>> {
    if s == [] then []
    else if s[0].name == n then Without(s[1..], n)
    else [s[0]] + Without(s[1..], n)
  }

  lemma {:induction false} WithoutAppend<D>(s: seq<Entry<D>>, u: seq<Entry<D>>, n: Name)
    ensures Without(s + u, n) == Without(s, n) + Without(u, n)
  {
    if s == [] {
      assert s + u == u;
    } else {
      assert (s + u)[1..] == s[1..] + u;
      WithoutAppend(s[1..], u, n);
    }
  }

  lemma {:induction false} WithoutAbsent<D>(s: seq<Entry<D>>, n: Name)
    requires !Has(s, n)
    ensures Without(s, n) == s
  {
    if s != [] {
      assert s[0].name != n;
      assert forall i | 0 <= i < |s[1..]| :: s[1..][i] == s[i + 1];
      WithoutAbsent(s[1..], n);
    }
  }

  lemma {:induction false} WithoutOnce<D>(s: seq<Entry<D>>, n: Name)
    requires Sorted(s)
    ensures Sorted(Without(s, n)) && !Has(Without(s, n), n)
    ensures |Without(s, n)| == |s| - if Has(s, n) then 1 else 0
    ensures forall e | e in s && e.name != n :: e in Without(s, n)
    ensures forall e | e in Without(s, n) :: e in s
  {
    hide Less;
    if s != [] {
      assert s == [] + [s[0]] + s[1..];
      SortedParts([], s[0], s[1..]);
      WithoutOnce(s[1..], n);
      HasSide([], s[0], s[1..], n);
      var w := Without(s[1..], n);
      if s[0].name == n {
        NotHas(s[1..], n);
        WithoutAbsent(s[1..], n);
      } else {
        assert Above(w, s[0].name);
        assert [s[0]] + w == [] + [s[0]] + w;
        SortedParts([], s[0], w);
        HasSide([], s[0], w, n);
      }
    }
  }

  lemma {:induction false} SortedParts<D>(s: seq<Entry<D>>, e: Entry<D>, u: seq<Entry<D>>)
    ensures Sorted(s + [e] + u) <==> Sorted(s) && Sorted(u) && Below(s, e.name) && Above(u, e.name)
  {
    var w := s + [e] + u;
    LessOrder();
    assert forall i | 0 <= i < |s| :: w[i] == s[i];
    assert w[|s|] == e;
    assert forall i | 0 <= i < |u| :: w[|s| + 1 + i] == u[i];
    if Sorted(w) {
      forall i, j | 0 <= i < j < |u|
        ensures Less(u[i].name, u[j].name)
      {
        assert Less(w[|s| + 1 + i].name, w[|s| + 1 + j].name);
      }
      forall i | 0 <= i < |u|
        ensures Less(e.name, u[i].name)
      {
        assert Less(w[|s|].name, w[|s| + 1 + i].name);
      }
    }
    if Sorted(s) && Sorted(u) && Below(s, e.name) && Above(u, e.name) {
      forall i, j | 0 <= i < j < |w|
        ensures Less(w[i].name, w[j].name)
      {
        if j < |s| {
        } else if i < |s| && j > |s| {
          LessTrans(w[i].name, e.name, w[j].name);
        } else if i > |s| {
          assert w[i] == u[i - |s| - 1] && w[j] == u[j - |s| - 1];
        }
      }
    }
  }

  // ----- rotations -----

  /** `skew`: a left horizontal link becomes a right one. On the sentinel it does nothing. */
  function Skew<P, D>(t: Tree<P, D>): Tree<P, D> {
    if t.Node? && t.l.Node? && t.l.level == t.level then t.l.(r := t.(l := t.l.r)) else t
  }

  /** `split`: two right horizontal links become a higher node. The C code would raise the
      level of the sentinel if it were called on it. */
  function Split<P, D>(t: Tree<P, D>): (r: Tree<P, D>)
    requires t.Node? && t.level >= 1
    ensures r.Node?
  {
    if t.r.Node? && Level(t.r.r) == t.level then t.r.(l := t.(r := t.r.l), level := t.r.level + 1) else t
  }

  lemma {:induction false} SkewFlat<P, D>(t: Tree<P, D>)
    ensures Flat(Skew(t)) == Flat(t) && Nodes(Skew(t)) == Nodes(t) && (Unshared(t) ==> Unshared(Skew(t)))
  {
    if t.Node? && t.l.Node? && t.l.level == t.level {
      Rotated(t.l.l, t.l, t.l.r, t, t.r, Skew(t), t);
    }
  }

  lemma {:induction false} SplitFlat<P, D>(t: Tree<P, D>)
    requires t.Node? && t.level >= 1
    ensures Flat(Split(t)) == Flat(t) && Nodes(Split(t)) == Nodes(t) && (Unshared(t) ==> Unshared(Split(t)))
  {
    if t.r.Node? && Level(t.r.r) == t.level {
      Rotated(t.l, t, t.r.l, t.r, t.r.r, t, Split(t));
    }
  }

  /** a x (b y c) and (a x b) y c */
  lemma {:induction false} Rotated<P, D>(a: Tree<P, D>, x: Tree<P, D>, b: Tree<P, D>, y: Tree<P, D>, c: Tree<P, D>,
    t: Tree<P, D>, u: Tree<P, D>)
    requires x.Node? && y.Node? && t.Node? && t.r.Node? && u.Node? && u.l.Node?
    requires t.p == x.p && t.e == x.e && t.l == a && t.r.p == y.p && t.r.e == y.e && t.r.l == b && t.r.r == c
    requires u.p == y.p && u.e == y.e && u.r == c && u.l.p == x.p && u.l.e == x.e && u.l.l == a && u.l.r == b
    ensures Flat(t) == Flat(u) && Nodes(t) == Nodes(u) && (Unshared(t) <==> Unshared(u))
  {
    hide Flat, Unshared;
    FlatDef(t); FlatDef(t.r); FlatDef(u); FlatDef(u.l);
    assert Flat(a) + [x.e] + (Flat(b) + [y.e] + Flat(c)) == (Flat(a) + [x.e] + Flat(b)) + [y.e] + Flat(c);
  }

  lemma {:induction false} FlatDef<P, D>(t: Tree<P, D>)
    requires t.Node?
    ensures Flat(t) == Flat(t.l) + [t.e] + Flat(t.r)
    ensures Unshared(t) <==>
      Unshared(t.l) && Unshared(t.r) && t.p !in Nodes(t.l) && t.p !in Nodes(t.r) && Nodes(t.l) !! Nodes(t.r)
  {
  }

  // ----- insertion -----

  /** `insert`; p is the node that is used if the name is new. */
  function Insert<P, D>(t: Tree<P, D>, n: Name, p: P, d: D): (r: Tree<P, D>)
    requires AA(t)
    ensures AA(r) && r.Node? && Level(t) <= r.level <= Level(t) + 1
    ensures r.level > Level(t) > 0 ==> Horizontal(t)
    ensures r.level > Level(t) ==> !Horizontal(r)
  {
    if t.Leaf? then Node(p, Entry(n, d), 1, Leaf, Leaf)
    else if n == t.e.name then t
    else if Less(n, t.e.name) then
      var u := t.(l := Insert(t.l, n, p, d));
      LeftGrown(t, u);
      Split(Skew(u))
    else
      var u := t.(r := Insert(t.r, n, p, d));
      RightGrown(t, u);
      Split(Skew(u))
  }

  /** The left subtree has grown, possibly to a horizontal link. */
  lemma {:induction false} LeftGrown<P, D>(t: Tree<P, D>, u: Tree<P, D>)
    requires AA(t) && t.Node? && u.Node? && u == t.(l := u.l) && AA(u.l) && u.l.Node?
    requires Level(t.l) <= u.l.level <= Level(t.l) + 1 && (u.l.level > Level(t.l) ==> !Horizontal(u.l))
    ensures Skew(u).Node? && Skew(u).level >= 1
    ensures var r := Split(Skew(u));
      && AA(r) && t.level <= r.level <= t.level + 1
      && (r.level > t.level ==> Horizontal(t) && !Horizontal(r))
  {
  }

  /** The right subtree has grown. */
  lemma {:induction false} RightGrown<P, D>(t: Tree<P, D>, u: Tree<P, D>)
    requires AA(t) && t.Node? && u.Node? && u == t.(r := u.r) && AA(u.r) && u.r.Node?
    requires Level(t.r) <= u.r.level <= Level(t.r) + 1
    requires u.r.level > Level(t.r) > 0 ==> Horizontal(t.r)
    requires u.r.level > Level(t.r) ==> !Horizontal(u.r)
    ensures Skew(u).Node? && Skew(u).level >= 1
    ensures var r := Split(Skew(u));
      && AA(r) && t.level <= r.level <= t.level + 1
      && (r.level > t.level ==> Horizontal(t) && !Horizontal(r))
  {
  }

  // ----- deletion -----

  function Lower<P, D>(t: Tree<P, D>): Tree<P, D>
    requires t.Node? && t.level >= 1
  {
    t.(level := t.level - 1, r := if Level(t.r) > t.level - 1 then t.r.(level := t.level - 1) else t.r)
  }

  function SkewThree<P, D>(t: Tree<P, D>): Tree<P, D> {
    var a := Skew(t);
    if a.Leaf? then a
    else
      var b := Skew(a.r);
      a.(r := if b.Leaf? then b else b.(r := Skew(b.r)))
  }

  /** One child of t has lost a level, or none has. */
  predicate Fixable<P, D>(t: Tree<P, D>) {
    t.Node? ==>
      && t.level >= 1 && AA(t.l) && AA(t.r)
      && t.level - 2 <= Level(t.l) <= t.level - 1
      && t.level - 2 <= Level(t.r) <= t.level
      && (Level(t.l) == t.level - 1 || Level(t.r) >= t.level - 1)
      && Level(Right(t.r)) < t.level
  }

  /** The rebalancing at the end of `delete`. It never splits the sentinel. */
  function Fix<P, D>(t: Tree<P, D>): (r: Tree<P, D>)
    requires Fixable(t)
    ensures AA(r) && Level(t) - 1 <= Level(r) <= Level(t)
    ensures t.Node? && Level(r) == Level(t) > Level(t.r) ==> !Horizontal(r)
  {
    if t.Node? && (Level(t.l) < t.level - 1 || Level(t.r) < t.level - 1) then
      FixCases(t);
      var a := SkewThree(Lower(t));
      var b := Split(a);
      b.(r := Split(b.r))
    else t
  }

  lemma {:induction false} FixCases<P, D>(t: Tree<P, D>)
    requires Fixable(t) && t.Node? && (Level(t.l) < t.level - 1 || Level(t.r) < t.level - 1)
    ensures var a := SkewThree(Lower(t));
      && a.Node? && a.level >= 1 && Split(a).r.Node? && Split(a).r.level >= 1
      && var b := Split(a);
      && var r := b.(r := Split(b.r));
      && AA(r) && t.level - 1 <= r.level <= t.level
      && (r.level == t.level > Level(t.r) ==> !Horizontal(r))
  {
    if Level(t.r) < t.level - 1 {
      FixRightLow(t);
    } else if Level(t.r) == t.level {
      FixHorizontal(t);
    } else {
      FixLeftLow(t);
    }
  }

  ghost predicate Fixed<P, D>(t: Tree<P, D>)
    requires t.Node? && t.level >= 1
  {
    var a := SkewThree(Lower(t));
    && a.Node? && a.level >= 1 && Split(a).r.Node? && Split(a).r.level >= 1
    && var b := Split(a);
    && var r := b.(r := Split(b.r));
    && AA(r) && t.level - 1 <= r.level <= t.level
    && (r.level == t.level > Level(t.r) ==> !Horizontal(r))
  }

  lemma {:induction false} FixRightLow<P, D>(t: Tree<P, D>)
    requires Fixable(t) && t.Node? && Level(t.r) < t.level - 1
    ensures Fixed(t)
  {
    assert AA(t.l) && AA(t.r);
    if Level(t.l.r) == t.l.level { FixRightLong(t); } else { FixRightShort(t); }
  }

  lemma {:induction false} FixRightLong<P, D>(t: Tree<P, D>)
    requires Fixable(t) && t.Node? && Level(t.r) < t.level - 1 && AA(t.l) && t.l.r.Node? && t.l.r.level == t.l.level
    ensures Fixed(t)
  {
    var l, m := t.l, t.l.r;
    assert AA(l.l) && AA(m) && AA(m.l) && AA(m.r);
    assert SkewThree(Lower(t)) == l.(r := m.(r := Lower(t).(l := m.r)));
  }

  lemma {:induction false} FixRightShort<P, D>(t: Tree<P, D>)
    requires Fixable(t) && t.Node? && Level(t.r) < t.level - 1 && AA(t.l) && Level(t.l.r) < t.l.level
    ensures Fixed(t)
  {
    var l := t.l;
    assert AA(l.l) && AA(l.r);
    assert SkewThree(Lower(t)) == l.(r := Lower(t).(l := l.r));
  }

  lemma {:induction false} FixLeftLow<P, D>(t: Tree<P, D>)
    requires Fixable(t) && t.Node? && Level(t.l) < t.level - 1 && Level(t.r) == t.level - 1
    ensures Fixed(t)
  {
    var r := t.r;
    assert AA(r.l) && AA(r.r);
    assert SkewThree(Lower(t)) == Lower(t);
  }

  lemma {:induction false} FixHorizontal<P, D>(t: Tree<P, D>)
    requires Fixable(t) && t.Node? && Level(t.l) < t.level - 1 && Level(t.r) == t.level
    ensures Fixed(t)
  {
    var a, b := t.r.l, t.r.r;
    assert AA(a) && AA(b);
    if Level(a.r) == t.level - 1 { FixLong(t); } else { FixShort(t); }
  }

  lemma {:induction false} FixLong<P, D>(t: Tree<P, D>)
    requires Fixable(t) && t.Node? && Level(t.l) < t.level - 1 && Level(t.r) == t.level && AA(t.r.l) && AA(t.r.r)
    requires t.r.l.r.Node? && t.r.l.r.level == t.level - 1
    ensures Fixed(t)
  {
    var r, a, b, low := t.r, t.r.l, t.r.r, t.level - 1;
    var r1, c := r.(level := low), a.r;
    assert AA(a.l) && AA(c) && AA(c.l) && AA(c.r);
    assert SkewThree(Lower(t)) == t.(level := low, r := a.(r := c.(r := r1.(l := c.r))));
  }

  lemma {:induction false} FixShort<P, D>(t: Tree<P, D>)
    requires Fixable(t) && t.Node? && Level(t.l) < t.level - 1 && Level(t.r) == t.level && AA(t.r.l) && AA(t.r.r)
    requires Level(t.r.l.r) < t.level - 1
    ensures Fixed(t)
  {
    var r, a, b, low := t.r, t.r.l, t.r.r, t.level - 1;
    var r1 := r.(level := low);
    assert AA(a.l) && AA(a.r) && AA(b.l) && AA(b.r);
    assert SkewThree(Lower(t)) == t.(level := low, r := a.(r := r1.(l := a.r)));
  }

  function FirstEntry<P, D>(t: Tree<P, D>): Entry<D>
    requires t.Node?
  {
    if t.l.Leaf? then t.e else FirstEntry(t.l)
  }

  /** `delete`: a node with two children takes over its successor's entry, and the
      successor's node goes. By the level rules a node with a left child has a right one. */
  function Delete<P, D>(t: Tree<P, D>, n: Name): (r: Tree<P, D>)
    requires AA(t)
    ensures AA(r) && Level(t) - 1 <= Level(r) <= Level(t)
    ensures t.Node? && Level(r) == Level(t) && !Horizontal(t) ==> !Horizontal(r)
  {
    if t.Leaf? then t
    else if Less(n, t.e.name) then
      var u := t.(l := Delete(t.l, n));
      LeftShrunk(t, u);
      Fix(u)
    else if n != t.e.name then
      var u := t.(r := Delete(t.r, n));
      RightShrunk(t, u);
      Fix(u)
    else if t.l.Leaf? then
      Children(t);
      Fix(t.r)
    else
      Children(t);
      var e := FirstEntry(t.r);
      var u := t.(e := e, r := Delete(t.r, e.name));
      RightShrunk(t, u);
      Fix(u)
  }

  lemma {:induction false} Children<P, D>(t: Tree<P, D>)
    requires AA(t) && t.Node?
    ensures Fixable(t.r) && (t.l.Node? ==> t.r.Node?)
  {
    assert AA(t.l) && AA(t.r);
  }

  lemma {:induction false} LeftShrunk<P, D>(t: Tree<P, D>, u: Tree<P, D>)
    requires AA(t) && t.Node? && u.Node? && u == t.(l := u.l) && AA(u.l)
    requires Level(t.l) - 1 <= Level(u.l) <= Level(t.l)
    ensures Fixable(u)
  {
  }

  lemma {:induction false} RightShrunk<P, D>(t: Tree<P, D>, u: Tree<P, D>)
    requires AA(t) && t.Node? && u.Node? && u == t.(e := u.e, r := u.r) && AA(u.r)
    requires Level(t.r) - 1 <= Level(u.r) <= Level(t.r)
    requires t.r.Node? && Level(u.r) == Level(t.r) && !Horizontal(t.r) ==> !Horizontal(u.r)
    ensures Fixable(u)
  {
  }

  // ----- what insertion and deletion do to the entries -----

  lemma {:induction false} FixFlat<P, D>(t: Tree<P, D>)
    requires Fixable(t)
    ensures Flat(Fix(t)) == Flat(t) && Nodes(Fix(t)) == Nodes(t) && (Unshared(t) ==> Unshared(Fix(t)))
  {
    hide AA, Flat, Skew, Unshared;
    if t.Node? && (Level(t.l) < t.level - 1 || Level(t.r) < t.level - 1) {
      FixCases(t);
      LowerFlat(t);
      SkewThreeFlat(Lower(t));
      var a := SkewThree(Lower(t));
      var b := Split(a);
      SplitFlat(a);
      SplitFlat(b.r);
      ReplacedRight(b, Split(b.r));
    }
  }

  lemma {:induction false} LowerFlat<P, D>(t: Tree<P, D>)
    requires t.Node? && t.level >= 1
    ensures Flat(Lower(t)) == Flat(t) && Nodes(Lower(t)) == Nodes(t) && (Unshared(t) ==> Unshared(Lower(t)))
  {
    if Level(t.r) > t.level - 1 {
      var r := t.r.(level := t.level - 1);
      FlatDef(t.r);
      FlatDef(r);
    }
  }

  lemma {:induction false} ReplacedRight<P, D>(t: Tree<P, D>, r: Tree<P, D>)
    requires t.Node? && Flat(r) == Flat(t.r) && Nodes(r) == Nodes(t.r) && (Unshared(t.r) ==> Unshared(r))
    ensures Flat(t.(r := r)) == Flat(t) && Nodes(t.(r := r)) == Nodes(t) && (Unshared(t) ==> Unshared(t.(r := r)))
  {
    hide Flat, Unshared;
    FlatDef(t);
    FlatDef(t.(r := r));
  }

  lemma {:induction false} SkewThreeFlat<P, D>(t: Tree<P, D>)
    ensures Flat(SkewThree(t)) == Flat(t) && Nodes(SkewThree(t)) == Nodes(t) && (Unshared(t) ==> Unshared(SkewThree(t)))
  {
    hide Flat, Unshared, Skew;
    var a := Skew(t);
    SkewFlat(t);
    if a.Node? {
      var b := Skew(a.r);
      SkewFlat(a.r);
      if b.Node? {
        SkewFlat(b.r);
        ReplacedRight(b, Skew(b.r));
        ReplacedRight(a, b.(r := Skew(b.r)));
      } else {
        ReplacedRight(a, b);
      }
    }
  }

  lemma {:induction false} FirstFlat<P, D>(t: Tree<P, D>)
    requires t.Node?
    ensures Flat(t) != [] && Flat(t)[0] == FirstEntry(t)
  {
    if t.l.Node? { FirstFlat(t.l); }
  }

  lemma {:induction false} NotHas<D>(s: seq<Entry<D>>, n: Name)
    requires Below(s, n) || Above(s, n)
    ensures !Has(s, n)
  {
    LessOrder();
  }

  /** Deleting n removes the entry named n and leaves the others in order. */
  lemma {:induction false} DeleteFlat<P, D>(t: Tree<P, D>, n: Name)
    requires AA(t) && Sorted(Flat(t)) && Unshared(t)
    ensures Flat(Delete(t, n)) == Without(Flat(t), n)
    ensures Nodes(Delete(t, n)) <= Nodes(t) && Unshared(Delete(t, n))
    decreases t, 1
  {
    hide Unshared, Sorted, Fix, Delete;
    if t.Leaf? {
      LeafDef(t, n);
    } else {
      FlatDef(t);
      SortedParts(Flat(t.l), t.e, Flat(t.r));
      WithoutNode(Flat(t.l), t.e, Flat(t.r), n);
      if Less(n, t.e.name) {
        DeleteLeftFlat(t, n);
      } else if n != t.e.name {
        DeleteRightFlat(t, n);
      } else {
        DeleteRootFlat(t, n);
      }
    }
  }

  lemma {:induction false} LeafDef<P, D>(t: Tree<P, D>, n: Name)
    requires t.Leaf?
    ensures Delete(t, n) == t && Flat(t) == [] && Without(Flat(t), n) == [] && Unshared(t)
  {
  }

  /** Where n is looked for among s, e and u in order. */
  lemma {:induction false} WithoutNode<D>(s: seq<Entry<D>>, e: Entry<D>, u: seq<Entry<D>>, n: Name)
    requires Below(s, e.name) && Above(u, e.name)
    ensures Without(s + [e] + u, n) ==
      if Less(n, e.name) then Without(s, n) + [e] + u
      else if n != e.name then s + [e] + Without(u, n)
      else s + u
  {
    LessOrder();
    WithoutAppend(s + [e], u, n);
    WithoutAppend(s, [e], n);
    WithoutOne(e, n);
    if Less(n, e.name) || n == e.name {
      if n != e.name { AboveTrans(u, e.name, n); } else { NotHas(u, n); }
      WithoutAbsent(u, n);
    }
    if !Less(n, e.name) {
      if n != e.name { BelowTrans(s, e.name, n); } else { NotHas(s, n); }
      WithoutAbsent(s, n);
    }
  }

  lemma {:induction false} DeleteLeftFlat<P, D>(t: Tree<P, D>, n: Name)
    requires AA(t) && t.Node? && Less(n, t.e.name) && Sorted(Flat(t.l)) && Unshared(t)
    ensures Flat(Delete(t, n)) == Without(Flat(t.l), n) + [t.e] + Flat(t.r)
    ensures Nodes(Delete(t, n)) <= Nodes(t) && Unshared(Delete(t, n))
    decreases t, 0
  {
    hide Without, Fix, Sorted;
    LessOrder();
    DeleteFlat(t.l, n);
    var u := t.(l := Delete(t.l, n));
    LeftShrunk(t, u);
    FixFlat(u);
  }

  lemma {:induction false} DeleteRightFlat<P, D>(t: Tree<P, D>, n: Name)
    requires AA(t) && t.Node? && n != t.e.name && !Less(n, t.e.name)
    requires Sorted(Flat(t.r)) && Unshared(t)
    ensures Flat(Delete(t, n)) == Flat(t.l) + [t.e] + Without(Flat(t.r), n)
    ensures Nodes(Delete(t, n)) <= Nodes(t) && Unshared(Delete(t, n))
    decreases t, 0
  {
    hide Without, Fix, Sorted;
    LessOrder();
    DeleteFlat(t.r, n);
    var u := t.(r := Delete(t.r, n));
    RightShrunk(t, u);
    FixFlat(u);
  }

  lemma {:induction false} WithoutOne<D>(e: Entry<D>, n: Name)
    ensures Without([e], n) == if e.name == n then [] else [e]
  {
  }

  lemma {:induction false} AboveTrans<D>(s: seq<Entry<D>>, m: Name, n: Name)
    requires Above(s, m) && Less(n, m)
    ensures Above(s, n) && !Has(s, n)
  {
    LessOrder();
  }

  lemma {:induction false} BelowTrans<D>(s: seq<Entry<D>>, m: Name, n: Name)
    requires Below(s, m) && Less(m, n)
    ensures Below(s, n) && !Has(s, n)
  {
    LessOrder();
  }

  /** The node itself goes, or it takes over the first entry of its right subtree. */
  lemma {:induction false} DeleteRootFlat<P, D>(t: Tree<P, D>, n: Name)
    requires AA(t) && t.Node? && n == t.e.name && Sorted(Flat(t.r)) && Unshared(t)
    ensures Flat(Delete(t, n)) == Flat(t.l) + Flat(t.r)
    ensures Nodes(Delete(t, n)) <= Nodes(t) && Unshared(Delete(t, n))
    decreases t, 0
  {
    hide Without, Fix, Sorted;
    LessOrder();
    if t.l.Leaf? {
      FixFlat(t.r);
    } else {
      SuccessorFlat(t, n);
    }
  }

  lemma {:induction false} SuccessorFlat<P, D>(t: Tree<P, D>, n: Name)
    requires AA(t) && t.Node? && t.l.Node? && n == t.e.name && Sorted(Flat(t.r)) && Unshared(t)
    ensures Flat(Delete(t, n)) == Flat(t.l) + Flat(t.r)
    ensures Nodes(Delete(t, n)) <= Nodes(t) && Unshared(Delete(t, n))
    decreases t.r, 2
  {
    hide Without, Fix, Sorted, Flat, Unshared;
    LessOrder();
    var e := FirstEntry(t.r);
    FlatDef(t);
    FirstFlat(t.r);
    DeleteFlat(t.r, e.name);
    WithoutFirst(Flat(t.r));
    var u := t.(e := e, r := Delete(t.r, e.name));
    RightShrunk(t, u);
    FixFlat(u);
    FlatDef(u);
    assert Flat(t.l) + [e] + Flat(t.r)[1..] == Flat(t.l) + Flat(t.r);
  }

  lemma {:induction false} WithoutFirst<D>(s: seq<Entry<D>>)
    requires Sorted(s) && s != []
    ensures Without(s, s[0].name) == s[1..] && s == [s[0]] + s[1..]
  {
    LessOrder();
    assert Above(s[1..], s[0].name);
    hide Sorted;
    assert [] + [s[0]] + s[1..] == s;
    NotHas(s[1..], s[0].name);
    WithoutAbsent(s[1..], s[0].name);
  }

  // ----- insertion and the entries -----

  /** On a tree that obeys the rules skew and split do nothing. */
  lemma {:induction false} Balanced<P, D>(t: Tree<P, D>)
    requires AA(t) && t.Node?
    ensures Skew(t) == t && Split(t) == t
  {
  }

  lemma {:induction false} InsertOld<P, D>(t: Tree<P, D>, n: Name, p: P, d: D)
    requires AA(t) && Sorted(Flat(t)) && Has(Flat(t), n)
    ensures Insert(t, n, p, d) == t
  {
    LessOrder();
    SortedParts(Flat(t.l), t.e, Flat(t.r));
    if n != t.e.name {
      HasSide(Flat(t.l), t.e, Flat(t.r), n);
      if Less(n, t.e.name) { InsertOld(t.l, n, p, d); } else { InsertOld(t.r, n, p, d); }
      Balanced(t);
    }
  }

  lemma {:induction false} HasSide<D>(s: seq<Entry<D>>, e: Entry<D>, u: seq<Entry<D>>, n: Name)
    requires Below(s, e.name) && Above(u, e.name)
    ensures Has(s + [e] + u, n) <==> if Less(n, e.name) then Has(s, n) else n == e.name || Has(u, n)
  {
    LessOrder();
    var w := s + [e] + u;
    assert w[|s|] == e;
    if Less(n, e.name) { AboveTrans(u, e.name, n); } else if n != e.name { BelowTrans(s, e.name, n); }
    forall i | 0 <= i < |w|
      ensures w[i] == if i < |s| then s[i] else if i == |s| then e else u[i - |s| - 1]
    {
    }
    if i :| 0 <= i < |s| && s[i].name == n { assert w[i].name == n; }
    if i :| 0 <= i < |u| && u[i].name == n { assert w[|s| + 1 + i].name == n; }
  }

  /** A new name's entry is added in its place; the others stay as they are. */
  ghost predicate Added<D>(r: seq<Entry<D>>, s: seq<Entry<D>>, e: Entry<D>) {
    exists k | 0 <= k <= |s| :: r == s[..k] + [e] + s[k..] && Below(s[..k], e.name) && Above(s[k..], e.name)
  }

  lemma {:induction false} AddedMeans<D>(r: seq<Entry<D>>, s: seq<Entry<D>>, e: Entry<D>)
    requires Added(r, s, e) && Sorted(s)
    ensures Sorted(r) && e in r && Without(r, e.name) == s && |r| == |s| + 1
  {
    hide Less, Below, Above, Sorted, Without;
    var k :| 0 <= k <= |s| && r == s[..k] + [e] + s[k..] && Below(s[..k], e.name) && Above(s[k..], e.name);
    SortedCut(s, k);
    SortedParts(s[..k], e, s[k..]);
    assert r[k] == e;
    WithoutNode(s[..k], e, s[k..], e.name);
    LessIrreflexive(e.name);
    assert s[..k] + s[k..] == s;
  }

  lemma {:induction false} SortedCut<D>(s: seq<Entry<D>>, k: nat)
    requires Sorted(s) && k <= |s|
    ensures Sorted(s[..k]) && Sorted(s[k..])
  {
    hide Less;
    forall i, j | 0 <= i < j < |s[k..]|
      ensures Less(s[k..][i].name, s[k..][j].name)
    {
      assert Less(s[k + i].name, s[k + j].name);
    }
  }

  lemma {:induction false} LessIrreflexive(a: Name)
    ensures !Less(a, a)
  {
    if Less(a, a) { LessAsym(a, a); }
  }

  lemma {:induction false} AddedLeft<D>(r: seq<Entry<D>>, s: seq<Entry<D>>, e: Entry<D>, f: Entry<D>, u: seq<Entry<D>>)
    requires Added(r, s, e) && Less(e.name, f.name) && Above(u, f.name)
    ensures Added(r + [f] + u, s + [f] + u, e)
  {
    hide Less;
    AboveTrans(u, f.name, e.name);
    var k :| 0 <= k <= |s| && r == s[..k] + [e] + s[k..] && Below(s[..k], e.name) && Above(s[k..], e.name);
    var w := s + [f] + u;
    assert w[..k] == s[..k] && w[k..] == s[k..] + [f] + u;
    assert Above(w[k..], e.name);
    assert r + [f] + u == w[..k] + [e] + w[k..];
  }

  lemma {:induction false} AddedRight<D>(s: seq<Entry<D>>, f: Entry<D>, r: seq<Entry<D>>, u: seq<Entry<D>>, e: Entry<D>)
    requires Added(r, u, e) && Less(f.name, e.name) && Below(s, f.name)
    ensures Added(s + [f] + r, s + [f] + u, e)
  {
    hide Less, Below;
    var k :| 0 <= k <= |u| && r == u[..k] + [e] + u[k..] && Below(u[..k], e.name) && Above(u[k..], e.name);
    var w := s + [f] + u;
    var j := |s| + 1 + k;
    assert w[..j] == s + [f] + u[..k] && w[j..] == u[k..];
    BelowTrans(s, f.name, e.name);
    BelowParts(s, f, u[..k], e.name);
    Regrouped(s + [f], u[..k], e, u[k..]);
  }

  lemma {:induction false} BelowParts<D>(s: seq<Entry<D>>, f: Entry<D>, u: seq<Entry<D>>, n: Name)
    requires Below(s, n) && Less(f.name, n) && Below(u, n)
    ensures Below(s + [f] + u, n)
  {
  }

  lemma {:induction false} Regrouped<D>(s: seq<Entry<D>>, a: seq<Entry<D>>, e: Entry<D>, b: seq<Entry<D>>)
    ensures s + (a + [e] + b) == (s + a) + [e] + b
  {
  }

  lemma {:induction false} InsertNew<P, D>(t: Tree<P, D>, n: Name, p: P, d: D)
    requires AA(t) && Sorted(Flat(t)) && Unshared(t) && !Has(Flat(t), n) && p !in Nodes(t)
    ensures var r := Insert(t, n, p, d);
      Added(Flat(r), Flat(t), Entry(n, d)) && Nodes(r) == Nodes(t) + {p} && Unshared(r)
  {
    hide Added, Sorted;
    if t.Leaf? {
      AddedFirst(Entry(n, d));
    } else {
      LessOrder();
      SortedParts(Flat(t.l), t.e, Flat(t.r));
      HasSide(Flat(t.l), t.e, Flat(t.r), n);
      if Less(n, t.e.name) {
        InsertNew(t.l, n, p, d);
        var u := t.(l := Insert(t.l, n, p, d));
        AddedLeft(Flat(u.l), Flat(t.l), Entry(n, d), t.e, Flat(t.r));
        InsertFixed(t, u);
      } else {
        InsertNew(t.r, n, p, d);
        var u := t.(r := Insert(t.r, n, p, d));
        AddedRight(Flat(t.l), t.e, Flat(u.r), Flat(t.r), Entry(n, d));
        InsertFixed(t, u);
      }
    }
  }

  lemma {:induction false} AddedFirst<D>(e: Entry<D>)
    ensures Added([e], [], e)
  {
    var s: seq<Entry<D>> := [];
    assert s[..0] + [e] + s[0..] == [e];
  }

  lemma {:induction false} InsertFixed<P, D>(t: Tree<P, D>, u: Tree<P, D>)
    requires u.Node? && Skew(u).Node? && Skew(u).level >= 1
    ensures var r := Split(Skew(u)); Flat(r) == Flat(u) && Nodes(r) == Nodes(u) && (Unshared(u) ==> Unshared(r))
  {
    SkewFlat(u);
    SplitFlat(Skew(u));
  }

  /** Every node has a level above the sentinel's. */
  predicate Positive<P, D>(t: Tree<P, D>) {
    t.Node? ==> t.level >= 1 && Positive(t.l) && Positive(t.r)
  }

  lemma {:induction false} AAPositive<P, D>(t: Tree<P, D>)
    requires AA(t)
    ensures Positive(t)
  {
    if t.Node? { AAPositive(t.l); AAPositive(t.r); }
  }

  lemma {:induction false} SkewPositive<P, D>(t: Tree<P, D>)
    requires Positive(t)
    ensures Positive(Skew(t)) && (Skew(t).Node? <==> t.Node?)
  {
    if t.Node? && t.l.Node? { assert Positive(t.l.l) && Positive(t.l.r); }
  }

  lemma {:induction false} LowerPositive<P, D>(t: Tree<P, D>)
    requires Fixable(t) && t.Node? && t.level >= 2
    ensures Positive(Lower(t))
  {
    AAPositive(t.l);
    AAPositive(t.r);
  }

  // ----- size and height -----

  function Pow2(k: nat): nat {
    if k == 0 then 1 else 2 * Pow2(k - 1)
  }

  /** The longest way down, in nodes. */
  function Height<P, D>(t: Tree<P, D>): nat {
    if t.Leaf? then 0 else 1 + if Height(t.l) < Height(t.r) then Height(t.r) else Height(t.l)
  }

  /** A tree whose root has level L holds at least 2^L - 1 entries, and no way down it is
      longer than 2L. */
  lemma {:induction false} Bounds<P, D>(t: Tree<P, D>)
    requires AA(t)
    ensures |Flat(t)| >= Pow2(Level(t)) - 1
    ensures Height(t) <= 2 * Level(t)
    ensures t.Node? && !Horizontal(t) ==> Height(t) <= 2 * Level(t) - 1
  {
    if t.Node? {
      Bounds(t.l);
      Bounds(t.r);
      if t.r.Node? && Horizontal(t) { assert AA(t.r) && !Horizontal(t.r); }
    }
  }
}
