/** The property tables of jsproperty.c: AA-trees of linked nodes that are changed in place
    around one shared sentinel, whose links lead back to itself. */
module PropertyTable {
  import opened NameOrder
  import opened AATree

  class Property<D> {
    var name: Name
    var left: Property<D>
    var right: Property<D>
    var level: int
    var data: D

    /** The sentinel: level 0, its own left and right. */
    constructor Sentinel(d: D)
      ensures left == this && right == this && level == 0
    {
      name, left, right, level, data := "", this, this, 0, d;
    }

    /** `newproperty` */
    constructor (n: Name, d: D, sentinel: Property<D>)
      ensures name == n && left == sentinel && right == sentinel && level == 1 && data == d
    {
      name, left, right, level, data := n, sentinel, sentinel, 1, d;
    }
  }

  type PTree<D> = Tree<Property<D>, D>

  ghost predicate IsSentinel<D>(s: Property<D>)
    reads s
  {
    s.left == s && s.right == s && s.level == 0
  }

  /** The nodes below x are laid out as the tree t. */
  ghost predicate Linked<D>(x: Property<D>, s: Property<D>, t: PTree<D>)
    reads Nodes(t)
    decreases t
  {
    if t.Leaf? then x == s
    else
      && x == t.p && x != s && x.name == t.e.name && x.data == t.e.data && x.level == t.level
      && Linked(x.left, s, t.l) && Linked(x.right, s, t.r)
  }

  /** Linked, with no node shared and none of them the sentinel. */
  ghost predicate Represents<D>(x: Property<D>, s: Property<D>, t: PTree<D>)
    reads Nodes(t), s
  {
    IsSentinel(s) && s !in Nodes(t) && Unshared(t) && Linked(x, s, t)
  }

  lemma {:induction false} Unfold<D>(x: Property<D>, s: Property<D>, t: PTree<D>)
    requires Represents(x, s, t) && t.Node?
    ensures x == t.p && x != s && x.name == t.e.name && x.data == t.e.data && x.level == t.level
    ensures Represents(x.left, s, t.l) && Represents(x.right, s, t.r)
    ensures x !in Nodes(t.l) && x !in Nodes(t.r) && Nodes(t.l) !! Nodes(t.r)
      && Nodes(t) == Nodes(t.l) + {x} + Nodes(t.r)
  {
  }

  lemma {:induction false} Fold<D>(x: Property<D>, s: Property<D>, t: PTree<D>)
    requires t.Node? && x == t.p && x != s && x.name == t.e.name && x.data == t.e.data && x.level == t.level
    requires Represents(x.left, s, t.l) && Represents(x.right, s, t.r)
    requires x !in Nodes(t.l) && x !in Nodes(t.r) && Nodes(t.l) !! Nodes(t.r)
    ensures Represents(x, s, t)
  {
  }

  lemma {:induction false} LevelOf<D>(x: Property<D>, s: Property<D>, t: PTree<D>)
    requires Represents(x, s, t)
    ensures x.level == Level(t) && (t.Leaf? <==> x == s)
  {
  }

  /** `lookup`, counting the links it follows. */
  method Lookup<D>(root: Property<D>, s: Property<D>, name: Name, ghost t: PTree<D>)
    returns (node: Property?<D>, ghost steps: nat)
    requires Represents(root, s, t) && Sorted(Flat(t)) && AA(t)
    ensures node == null <==> !Has(Flat(t), name)
    ensures node != null ==> node in Nodes(t) && node.name == name && Entry(name, node.data) in Flat(t)
    ensures steps <= 2 * Level(t)
  {
    var x := root;
    ghost var u := t;
    steps := 0;
    Bounds(t);
    while x != s
      invariant Represents(x, s, u) && Sorted(Flat(u)) && AA(u)
      invariant Nodes(u) <= Nodes(t) && (Has(Flat(u), name) <==> Has(Flat(t), name))
      invariant forall e | e in Flat(u) :: e in Flat(t)
      invariant steps + Height(u) <= Height(t)
      decreases u
    {
      SortedParts(Flat(u.l), u.e, Flat(u.r));
      HasSide(Flat(u.l), u.e, Flat(u.r), name);
      LessOrder();
      if x.name == name {
        return x, steps;
      } else if Less(name, x.name) {
        x := x.left;
        u := u.l;
      } else {
        x := x.right;
        u := u.r;
      }
      steps := steps + 1;
    }
    return null, steps;
  }

  /** `skew`, also called on the sentinel, which it leaves as it is. */
  method SkewNode<D>(x: Property<D>, s: Property<D>, ghost t: PTree<D>) returns (r: Property<D>)
    requires Represents(x, s, t) && (t.Node? ==> t.level >= 1)
    modifies (if t.Leaf? then {s} else Nodes(t))`left, (if t.Leaf? then {s} else Nodes(t))`right
    ensures Represents(r, s, Skew(t)) && Nodes(Skew(t)) == Nodes(t)
  {
    SkewFlat(t);
    LevelOf(x, s, t);
    if t.Node? {
      Unfold(x, s, t);
      LevelOf(x.left, s, t.l);
      if t.l.Node? { Unfold(x.left, s, t.l); }
    }
    r := x;
    if x.left.level == x.level {
      var temp := r;
      r := r.left;
      temp.left := r.right;
      r.right := temp;
      if t.Node? {
        Fold(temp, s, Skew(t).r);
        Fold(r, s, Skew(t));
      }
    }
  }

  /** `split`, never called on the sentinel. */
  method SplitNode<D>(x: Property<D>, s: Property<D>, ghost t: PTree<D>) returns (r: Property<D>)
    requires Represents(x, s, t) && t.Node? && t.level >= 1
    modifies Nodes(t)`left, Nodes(t)`right, Nodes(t)`level
    ensures Represents(r, s, Split(t)) && Nodes(Split(t)) == Nodes(t)
  {
    SplitFlat(t);
    Unfold(x, s, t);
    LevelOf(x.right, s, t.r);
    if t.r.Node? {
      Unfold(x.right, s, t.r);
      LevelOf(x.right.right, s, t.r.r);
    }
    r := x;
    if r.right.right.level == r.level {
      var temp := r;
      r := r.right;
      temp.right := r.left;
      r.left := temp;
      r.level := r.level + 1;
      Fold(temp, s, Split(t).l);
      Fold(r, s, Split(t));
    }
  }

  /** The table of one object, as its `properties` and `count` fields hold it. */
  class PropertyMap<D> {
    const sentinel: Property<D>
    var properties: Property<D>
    var count: int
    ghost var tree: PTree<D>

    constructor (s: Property<D>)
      requires IsSentinel(s)
      ensures Valid() && Entries() == [] && sentinel == s
    {
      sentinel, properties, count, tree := s, s, 0, Leaf;
    }

    ghost predicate Valid()
      reads this, Nodes(tree), sentinel
    {
      Represents(properties, sentinel, tree) && AA(tree) && Sorted(Flat(tree)) && count == |Flat(tree)|
    }

    ghost function Entries(): seq<Entry<D>>
      reads this
    {
      Flat(tree)
    }

    /** `jsV_getownproperty` */
    method Get(name: Name) returns (ref: Property?<D>)
      requires Valid()
      ensures ref == null <==> !Has(Entries(), name)
      ensures ref != null ==> ref in Nodes(tree) && ref.name == name && Entry(name, ref.data) in Entries()
    {
      ghost var steps;
      ref, steps := Lookup(properties, sentinel, name, tree);
    }

    /** `jsV_setproperty` on an extensible object: a new property starts with data d. No other
        entry changes, and no entry at all if the name is there. */
    method Set(name: Name, d: D) returns (ref: Property<D>)
      requires Valid()
      modifies this, Nodes(tree)`left, Nodes(tree)`right, Nodes(tree)`level
      ensures Valid() && ref in Nodes(tree) && ref.name == name
      ensures Nodes(tree) == old(Nodes(tree)) + {ref} && fresh(Nodes(tree) - old(Nodes(tree)))
      ensures if Has(old(Entries()), name) then Entries() == old(Entries()) && count == old(count)
        else fresh(ref) && Added(Entries(), old(Entries()), Entry(name, d)) && count == old(count) + 1
    {
      hide Sorted, Less, Unshared, Linked, Flat, Insert, Has, Added;
      ghost var t := tree;
      var r;
      r, ref := InsertNode(this, properties, sentinel, tree, name, d);
      properties := r;
      tree := Insert(t, name, ref, d);
      assert ref in Nodes(tree);
      if Has(Flat(t), name) { InsertOld(t, name, ref, d); } else {
        InsertNew(t, name, ref, d);
        AddedMeans(Flat(tree), Flat(t), Entry(name, d));
      }
    }

    /** `jsV_delproperty` */
    method Remove(name: Name)
      requires Valid()
      modifies this, Nodes(tree), sentinel`left, sentinel`right
      ensures Valid() && Nodes(tree) <= old(Nodes(tree)) && Entries() == Without(old(Entries()), name)
      ensures count == old(count) - if Has(old(Entries()), name) then 1 else 0
    {
      ghost var t := tree;
      var r := DeleteNode(this, properties, sentinel, tree, name);
      properties := r;
      tree := Delete(t, name);
      DeleteFlat(t, name);
      WithoutOnce(Flat(t), name);
    }
  }

  /** `insert`: result is the node that carries the name, new or old. */
  method InsertNode<D>(obj: PropertyMap<D>, x: Property<D>, s: Property<D>, ghost t: PTree<D>, name: Name, d: D)
    returns (r: Property<D>, result: Property<D>)
    requires Represents(x, s, t) && AA(t) && Sorted(Flat(t))
    modifies Nodes(t)`left, Nodes(t)`right, Nodes(t)`level, obj`count
    ensures Inserted(r, result, s, t, name, d)
    ensures fresh(Nodes(Insert(t, name, result, d)) - Nodes(t))
    ensures obj.count == old(obj.count) + if Has(Flat(t), name) then 0 else 1
    decreases t, 1
  {
    hide Unshared, Sorted, AA, Flat, Insert, Inserted;
    LevelOf(x, s, t);
    if x != s {
      InsertSides(t, name);
      LessTotal(name, x.name);
      if Less(name, x.name) {
        r, result := InsertLeft(obj, x, s, t, name, d);
      } else if name != x.name {
        r, result := InsertRight(obj, x, s, t, name, d);
      } else {
        InsertedOld(x, s, t, d);
        return x, x;
      }
    } else {
      r := new Property(name, d, s);
      result := r;
      obj.count := obj.count + 1;
      InsertedNew(r, s, t, name, d);
    }
  }

  ghost predicate Inserted<D>(r: Property<D>, result: Property<D>, s: Property<D>, t: PTree<D>, name: Name, d: D)
    requires AA(t)
    reads Nodes(Insert(t, name, result, d)), s, result
  {
    var u := Insert(t, name, result, d);
    && Represents(r, s, u) && Nodes(u) == Nodes(t) + {result}
    && result.name == name && (result !in Nodes(t) <==> !Has(Flat(t), name))
  }

  lemma {:induction false} InsertedOld<D>(x: Property<D>, s: Property<D>, t: PTree<D>, d: D)
    requires Represents(x, s, t) && t.Node? && AA(t) && Sorted(Flat(t))
    ensures Inserted(x, x, s, t, x.name, d)
    ensures Insert(t, x.name, x, d) == t
  {
    InsertSides(t, x.name);
    LessOrder();
  }

  lemma {:induction false} InsertedNew<D>(x: Property<D>, s: Property<D>, t: PTree<D>, name: Name, d: D)
    requires t.Leaf? && IsSentinel(s) && x != s && x.name == name && x.left == x.right == s && x.level == 1
      && x.data == d
    ensures Inserted(x, x, s, t, name, d) && Nodes(Insert(t, name, x, d)) == {x}
    ensures !Has(Flat(t), name)
  {
  }

  lemma {:induction false} InsertStep<D>(t: PTree<D>, n: Name, p: Property<D>, d: D)
    requires AA(t) && t.Node? && n != t.e.name
    ensures AA(t.l) && AA(t.r)
    ensures var u := if Less(n, t.e.name) then t.(l := Insert(t.l, n, p, d)) else t.(r := Insert(t.r, n, p, d));
      Skew(u).Node? && Skew(u).level >= 1 && Insert(t, n, p, d) == Split(Skew(u))
  {
  }

  /** The end of `insert`: x's children are in place, t is what hangs from x now. */
  method Rebalance<D>(x: Property<D>, s: Property<D>, ghost t: PTree<D>) returns (r: Property<D>)
    requires t.Node? && x == t.p && x != s && x.name == t.e.name && x.data == t.e.data && x.level == t.level >= 1
    requires Represents(x.left, s, t.l) && Represents(x.right, s, t.r)
    requires x !in Nodes(t.l) && x !in Nodes(t.r) && Nodes(t.l) !! Nodes(t.r)
    requires Skew(t).Node? && Skew(t).level >= 1
    modifies Nodes(t)`left, Nodes(t)`right, Nodes(t)`level
    ensures Represents(r, s, Split(Skew(t))) && Nodes(Split(Skew(t))) == Nodes(t)
  {
    hide Skew, Split, Represents;
    Fold(x, s, t);
    r := SkewNode(x, s, t);
    r := SplitNode(r, s, Skew(t));
  }

  method InsertLeft<D>(obj: PropertyMap<D>, x: Property<D>, s: Property<D>, ghost t: PTree<D>, name: Name, d: D)
    returns (r: Property<D>, result: Property<D>)
    requires Represents(x, s, t) && AA(t) && Sorted(Flat(t)) && t.Node? && Less(name, x.name)
    modifies Nodes(t)`left, Nodes(t)`right, Nodes(t)`level, obj`count
    ensures Inserted(r, result, s, t, name, d)
    ensures fresh(Nodes(Insert(t, name, result, d)) - Nodes(t))
    ensures obj.count == old(obj.count) + if Has(Flat(t), name) then 0 else 1
    decreases t, 0
  {
    hide Skew, Split, Insert, Sorted, AA, Flat, Less, Unshared, Has, Horizontal, Linked;
    InsertSides(t, name);
    Unfold(x, s, t);
    LessAsym(name, x.name);
    assert allocated(Nodes(t.r));
    var l;
    l, result := InsertNode(obj, x.left, s, t.l, name, d);
    assert Represents(x.right, s, t.r) && x.level == t.level && x !in Nodes(Insert(t.l, name, result, d));
    x.left := l;
    ghost var u := t.(l := Insert(t.l, name, result, d));
    LeftGrown(t, u);
    InsertStep(t, name, result, d);
    r := Rebalance(x, s, u);
  }

  method InsertRight<D>(obj: PropertyMap<D>, x: Property<D>, s: Property<D>, ghost t: PTree<D>, name: Name, d: D)
    returns (r: Property<D>, result: Property<D>)
    requires Represents(x, s, t) && AA(t) && Sorted(Flat(t)) && t.Node? && Less(x.name, name)
    modifies Nodes(t)`left, Nodes(t)`right, Nodes(t)`level, obj`count
    ensures Inserted(r, result, s, t, name, d)
    ensures fresh(Nodes(Insert(t, name, result, d)) - Nodes(t))
    ensures obj.count == old(obj.count) + if Has(Flat(t), name) then 0 else 1
    decreases t, 0
  {
    hide Skew, Split, Insert, Sorted, AA, Flat, Less, Unshared, Has, Horizontal, Linked;
    InsertSides(t, name);
    Unfold(x, s, t);
    LessAsym(x.name, name);
    assert allocated(Nodes(t.l));
    var rr;
    rr, result := InsertNode(obj, x.right, s, t.r, name, d);
    assert Represents(x.left, s, t.l) && x.level == t.level && x !in Nodes(Insert(t.r, name, result, d));
    x.right := rr;
    ghost var u := t.(r := Insert(t.r, name, result, d));
    RightGrown(t, u);
    InsertStep(t, name, result, d);
    r := Rebalance(x, s, u);
  }

  lemma {:induction false} InsertSides<D>(t: PTree<D>, name: Name)
    requires AA(t) && Sorted(Flat(t)) && t.Node?
    ensures AA(t.l) && AA(t.r) && Sorted(Flat(t.l)) && Sorted(Flat(t.r)) && t.level >= 1
    ensures Has(Flat(t), name) <==>
      if Less(name, t.e.name) then Has(Flat(t.l), name) else name == t.e.name || Has(Flat(t.r), name)
  {
    LessOrder();
    SortedParts(Flat(t.l), t.e, Flat(t.r));
    HasSide(Flat(t.l), t.e, Flat(t.r), name);
  }

  /** The right child is rotated if its left link is horizontal. */
  method SkewRight<D>(x: Property<D>, s: Property<D>, ghost t: PTree<D>)
    requires Represents(x, s, t) && t.Node? && (t.r.Node? ==> t.r.level >= 1)
    modifies Nodes(t)`left, Nodes(t)`right, s`left, s`right
    ensures Represents(x, s, t.(r := Skew(t.r))) && Nodes(Skew(t.r)) == Nodes(t.r)
  {
    hide Skew, Unshared;
    Unfold(x, s, t);
    SkewFlat(t.r);
    assert allocated(Nodes(t.l));
    var r := SkewNode(x.right, s, t.r);
    x.right := r;
    Fold(x, s, t.(r := Skew(t.r)));
  }

  /** The same for the right child's right child; the right child may be the sentinel. */
  method SkewRightRight<D>(x: Property<D>, s: Property<D>, ghost t: PTree<D>)
    requires Represents(x, s, t) && t.Node? && (t.r.Node? && t.r.r.Node? ==> t.r.r.level >= 1)
    modifies Nodes(t)`left, Nodes(t)`right, s`left, s`right
    ensures Represents(x, s, if t.r.Node? then t.(r := t.r.(r := Skew(t.r.r))) else t)
    ensures t.r.Node? ==> Nodes(Skew(t.r.r)) == Nodes(t.r.r)
  {
    hide Skew, Unshared;
    Unfold(x, s, t);
    assert allocated(Nodes(t.l));
    if x.right != s {
      Unfold(x.right, s, t.r);
      SkewRight(x.right, s, t.r);
      Fold(x, s, t.(r := t.r.(r := Skew(t.r.r))));
    } else {
      var r := SkewNode(x.right.right, s, Leaf);
      x.right.right := r;
      Fold(x, s, t);
    }
  }

  /** The right child is split if two horizontal links follow it. */
  method SplitRight<D>(x: Property<D>, s: Property<D>, ghost t: PTree<D>)
    requires Represents(x, s, t) && t.Node? && t.r.Node? && t.r.level >= 1
    modifies Nodes(t)`left, Nodes(t)`right, Nodes(t)`level
    ensures Represents(x, s, t.(r := Split(t.r))) && Nodes(Split(t.r)) == Nodes(t.r)
  {
    hide Split, Unshared;
    Unfold(x, s, t);
    assert allocated(Nodes(t.l));
    var r := SplitNode(x.right, s, t.r);
    x.right := r;
    Fold(x, s, t.(r := Split(t.r)));
  }

  /** The node goes down a level, and takes its right child with it if that would be above it. */
  method LowerNode<D>(x: Property<D>, s: Property<D>, ghost t: PTree<D>)
    requires Represents(x, s, t) && t.Node? && t.level >= 1
    modifies Nodes(t)`level
    ensures Represents(x, s, Lower(t)) && Nodes(Lower(t)) == Nodes(t)
  {
    hide Unshared;
    LowerFlat(t);
    Unfold(x, s, t);
    LevelOf(x.right, s, t.r);
    if t.r.Node? { Unfold(x.right, s, t.r); }
    x.level := x.level - 1;
    if x.right.level > x.level {
      x.right.level := x.level;
      Fold(x.right, s, Lower(t).r);
    }
    Fold(x, s, Lower(t));
  }

  /** The rebalancing at the end of `delete`. */
  method FixNode<D>(x: Property<D>, s: Property<D>, ghost t: PTree<D>) returns (r: Property<D>)
    requires Represents(x, s, t) && Fixable(t)
    modifies Nodes(t)`left, Nodes(t)`right, Nodes(t)`level, s`left, s`right
    ensures Represents(r, s, Fix(t)) && Nodes(Fix(t)) == Nodes(t)
  {
    hide AA, Skew, Split, Lower, Unshared, Linked;
    FixFlat(t);
    r := x;
    if x != s {
      LevelOf(x, s, t);
      Unfold(x, s, t);
      LevelOf(x.left, s, t.l);
      LevelOf(x.right, s, t.r);
      if x.left.level < x.level - 1 || x.right.level < x.level - 1 {
        FixCases(t);
        LowerPositive(t);
        r := FixSkews(x, s, t);
        ghost var a := SkewThree(Lower(t));
        r := SplitNode(r, s, a);
        SplitRight(r, s, Split(a));
      }
    } else {
      LevelOf(x, s, t);
    }
  }

  method FixSkews<D>(x: Property<D>, s: Property<D>, ghost t: PTree<D>) returns (r: Property<D>)
    requires Represents(x, s, t) && t.Node? && t.level >= 1 && Positive(Lower(t))
    modifies Nodes(t)`left, Nodes(t)`right, Nodes(t)`level, s`left, s`right
    ensures Represents(r, s, SkewThree(Lower(t))) && Nodes(SkewThree(Lower(t))) == Nodes(t)
  {
    hide Skew, Lower, Unshared, Linked;
    LowerNode(x, s, t);
    ghost var low := Lower(t);
    SkewThreeFlat(low);
    SkewPositive(low);
    r := SkewNode(x, s, low);
    ghost var a := Skew(low);
    SkewPositive(a.r);
    SkewRight(r, s, a);
    SkewRightRight(r, s, a.(r := Skew(a.r)));
  }

  /** `delete`. A removed node leaves the tree; the others keep the sentinel as it was. */
  method DeleteNode<D>(obj: PropertyMap<D>, x: Property<D>, s: Property<D>, ghost t: PTree<D>, name: Name)
    returns (r: Property<D>)
    requires Represents(x, s, t) && AA(t) && Sorted(Flat(t))
    modifies Nodes(t), s`left, s`right, obj`count
    ensures Represents(r, s, Delete(t, name)) && Nodes(Delete(t, name)) <= Nodes(t)
    ensures obj.count == old(obj.count) - if Has(Flat(t), name) then 1 else 0
    decreases t, 2
  {
    hide Unshared, Sorted, AA, Flat, Delete, Fix;
    LevelOf(x, s, t);
    DeleteFlat(t, name);
    if x != s {
      InsertSides(t, name);
      LessTotal(name, x.name);
      if Less(name, x.name) {
        r := DeleteLeft(obj, x, s, t, name);
      } else if name != x.name {
        DeleteStep(t, name);
        LessAsym(x.name, name);
        r := DeleteRight(obj, x, s, t, name);
      } else {
        r := DeleteHere(obj, x, s, t);
      }
    } else {
      DeleteStep(t, name);
      r := x;
    }
  }

  lemma {:induction false} DeleteStep<D>(t: PTree<D>, n: Name)
    requires AA(t)
    ensures t.Leaf? ==> Delete(t, n) == t && Flat(t) == []
    ensures t.Node? && Less(n, t.e.name) ==>
      AA(t.l) && Fixable(t.(l := Delete(t.l, n))) && Delete(t, n) == Fix(t.(l := Delete(t.l, n)))
    ensures t.Node? && Less(t.e.name, n) ==>
      AA(t.r) && Fixable(t.(r := Delete(t.r, n))) && Delete(t, n) == Fix(t.(r := Delete(t.r, n)))
    ensures t.Node? && n == t.e.name && t.l.Leaf? ==> Fixable(t.r) && Delete(t, n) == Fix(t.r)
    ensures t.Node? && n == t.e.name && t.l.Node? ==>
      && t.r.Node? && AA(t.r)
      && var e := FirstEntry(t.r);
      Fixable(t.(e := e, r := Delete(t.r, e.name))) && Delete(t, n) == Fix(t.(e := e, r := Delete(t.r, e.name)))
  {
    if t.Node? {
      LessTotal(n, t.e.name);
      if Less(n, t.e.name) { LessAsym(n, t.e.name); LeftShrunk(t, t.(l := Delete(t.l, n))); }
      else if n != t.e.name { LessAsym(t.e.name, n); RightShrunk(t, t.(r := Delete(t.r, n))); }
      else {
        Children(t);
        LessIrreflexive(n);
        if t.l.Node? {
          RightShrunk(t, t.(e := FirstEntry(t.r), r := Delete(t.r, FirstEntry(t.r).name)));
        }
      }
    }
  }

  method DeleteLeft<D>(obj: PropertyMap<D>, x: Property<D>, s: Property<D>, ghost t: PTree<D>, name: Name)
    returns (r: Property<D>)
    requires Represents(x, s, t) && AA(t) && Sorted(Flat(t)) && t.Node? && Less(name, x.name)
    modifies Nodes(t), s`left, s`right, obj`count
    ensures Represents(r, s, Delete(t, name))
    ensures obj.count == old(obj.count) - if Has(Flat(t), name) then 1 else 0
    decreases t, 0
  {
    hide Unshared, Sorted, AA, Flat, Delete, Fix, Fixable, Has, Less;
    InsertSides(t, name);
    Unfold(x, s, t);
    assert allocated(Nodes(t.r));
    var l := DeleteNode(obj, x.left, s, t.l, name);
    x.left := l;
    DeleteStep(t, name);
    ghost var u := t.(l := Delete(t.l, name));
    Fold(x, s, u);
    r := FixNode(x, s, u);
  }

  method DeleteRight<D>(obj: PropertyMap<D>, x: Property<D>, s: Property<D>, ghost t: PTree<D>, name: Name)
    returns (r: Property<D>)
    requires Represents(x, s, t) && t.Node? && AA(t.r) && Sorted(Flat(t.r)) && Fixable(t.(r := Delete(t.r, name)))
    modifies Nodes(t), s`left, s`right, obj`count
    ensures Represents(r, s, Fix(t.(r := Delete(t.r, name))))
    ensures obj.count == old(obj.count) - if Has(Flat(t.r), name) then 1 else 0
    decreases t.r, 3
  {
    hide Unshared, Sorted, AA, Flat, Delete, Fix, Fixable, Has, Less;
    Unfold(x, s, t);
    assert allocated(Nodes(t.l));
    var rr := DeleteNode(obj, x.right, s, t.r, name);
    x.right := rr;
    ghost var u := t.(r := Delete(t.r, name));
    Fold(x, s, u);
    r := FixNode(x, s, u);
  }

  /** The node to delete is x: it goes, or it takes over its successor's entry and the
      successor's node goes. */
  method DeleteHere<D>(obj: PropertyMap<D>, x: Property<D>, s: Property<D>, ghost t: PTree<D>) returns (r: Property<D>)
    requires Represents(x, s, t) && AA(t) && Sorted(Flat(t)) && t.Node?
    modifies Nodes(t), s`left, s`right, obj`count
    ensures Represents(r, s, Delete(t, old(x.name)))
    ensures obj.count == old(obj.count) - 1
    decreases t, 1
  {
    hide Unshared, Sorted, AA, Flat, Delete, Fix, Fixable, Has, Less;
    Unfold(x, s, t);
    DeleteStep(t, x.name);
    LevelOf(x.left, s, t.l);
    LevelOf(x.right, s, t.r);
    if x.left == s {
      r := x.right;
      obj.count := obj.count - 1;
      r := FixNode(r, s, t.r);
    } else if x.right == s {
      assert false;
    } else {
      r := TakeOver(obj, x, s, t);
    }
  }

  method TakeOver<D>(obj: PropertyMap<D>, x: Property<D>, s: Property<D>, ghost t: PTree<D>) returns (r: Property<D>)
    requires Represents(x, s, t) && AA(t) && Sorted(Flat(t)) && t.Node? && t.l.Node?
    modifies Nodes(t), s`left, s`right, obj`count
    ensures Represents(r, s, Delete(t, old(x.name)))
    ensures obj.count == old(obj.count) - 1
    decreases t, 0
  {
    hide Unshared, Sorted, AA, Flat, Delete, Fix, Fixable, Has, Less;
    InsertSides(t, x.name);
    Unfold(x, s, t);
    DeleteStep(t, x.name);
    FirstFlat(t.r);
    HasAt(Flat(t.r), 0);
    assert allocated(Nodes(t.l)) && allocated(Nodes(t.r));
    var succ := Successor(x.right, s, t.r);
    x.name := succ.name;
    x.data := succ.data;
    Fold(x, s, t.(e := FirstEntry(t.r)));
    r := DeleteRight(obj, x, s, t.(e := FirstEntry(t.r)), succ.name);
  }

  lemma {:induction false} HasAt<D>(s: seq<Entry<D>>, k: nat)
    requires k < |s|
    ensures Has(s, s[k].name)
  {
  }

  /** The first node in order of a tree. */
  method Successor<D>(x: Property<D>, s: Property<D>, ghost t: PTree<D>) returns (succ: Property<D>)
    requires Represents(x, s, t) && t.Node?
    ensures Entry(succ.name, succ.data) == FirstEntry(t)
  {
    succ := x;
    ghost var u := t;
    while succ.left != s
      invariant Represents(succ, s, u) && u.Node? && FirstEntry(u) == FirstEntry(t)
      decreases u
    {
      LevelOf(succ.left, s, u.l);
      succ := succ.left;
      u := u.l;
    }
    LevelOf(succ.left, s, u.l);
  }
}
