/** The interned strings of jsintern.c: an AA-tree of the same form as a property table, with
    no value at its nodes. The address of a node stands for the address of its string. */
module StringTable {
  import opened NameOrder
  import opened AATree
  import opened PropertyTable

  /** Two nodes of one tree never carry the same name. */
  lemma {:induction false} OneNode(x: Property<()>, s: Property<()>, t: PTree<()>, p: Property<()>, q: Property<()>)
    requires Represents(x, s, t) && Sorted(Flat(t)) && p in Nodes(t) && q in Nodes(t) && p.name == q.name
    ensures p == q
  {
    hide Sorted, Flat, Less;
    Unfold(x, s, t);
    FlatDef(t);
    SortedParts(Flat(t.l), t.e, Flat(t.r));
    HasNode(t, x, s, p);
    HasNode(t, x, s, q);
    LessIrreflexive(x.name);
    if p in Nodes(t.l) && q in Nodes(t.l) {
      OneNode(x.left, s, t.l, p, q);
    } else if p in Nodes(t.r) && q in Nodes(t.r) {
      OneNode(x.right, s, t.r, p, q);
    }
  }

  /** A node's name is among the entries, on its own side of the root's. */
  lemma {:induction false} HasNode(t: PTree<()>, x: Property<()>, s: Property<()>, p: Property<()>)
    requires Represents(x, s, t) && Sorted(Flat(t)) && p in Nodes(t)
    ensures Has(Flat(t), p.name)
    ensures p in Nodes(t.l) ==> Less(p.name, x.name)
    ensures p in Nodes(t.r) ==> Less(x.name, p.name) && !Less(p.name, x.name)
  {
    hide Sorted, Flat, Less;
    Unfold(x, s, t);
    FlatDef(t);
    SortedParts(Flat(t.l), t.e, Flat(t.r));
    HasSide(Flat(t.l), t.e, Flat(t.r), p.name);
    if p in Nodes(t.l) {
      HasNode(t.l, x.left, s, p);
    } else if p in Nodes(t.r) {
      HasNode(t.r, x.right, s, p);
      var k :| 0 <= k < |Flat(t.r)| && Flat(t.r)[k].name == p.name;
      LessAsym(x.name, p.name);
    } else {
      assert Flat(t)[|Flat(t.l)|] == t.e;
    }
  }

  class Interner {
    const strings: PropertyMap<()>

    ghost predicate Valid()
      reads this, strings, Nodes(strings.tree), strings.sentinel
    {
      strings.Valid()
    }

    ghost function Known(): set<Property<()>>
      reads this, strings
    {
      Nodes(strings.tree)
    }

    constructor ()
      ensures Valid() && Known() == {}
    {
      var sentinel := new Property<()>.Sentinel(());
      strings := new PropertyMap(sentinel);
    }

    /** `js_intern`: the one node that carries the string s. What it returned before stays. */
    method Intern(s: Name) returns (result: Property<()>)
      requires Valid()
      modifies strings, Known()`left, Known()`right, Known()`level
      ensures Valid() && result.name == s && Known() == old(Known()) + {result} && fresh(Known() - old(Known()))
      ensures forall p | p in Known() && p.name == s :: p == result
    {
      result := strings.Set(s, ());
      forall p | p in Known() && p.name == s
        ensures p == result
      {
        OneNode(strings.properties, strings.sentinel, strings.tree, p, result);
      }
    }

    /** Over any sequence of calls, two calls return the same address exactly when they are
        given equal strings. */
    method InternAll(names: seq<Name>) returns (results: seq<Property<()>>)
      requires Valid()
      modifies strings, Known()`left, Known()`right, Known()`level
      ensures Valid() && |results| == |names|
      ensures forall i | 0 <= i < |names| :: results[i].name == names[i]
      ensures forall i, j | 0 <= i < |names| && 0 <= j < |names| :: results[i] == results[j] <==> names[i] == names[j]
    {
      results := [];
      for k := 0 to |names|
        invariant Valid() && |results| == k && old(Known()) <= Known() && fresh(Known() - old(Known()))
        invariant forall i | 0 <= i < k :: results[i] in Known() && results[i].name == names[i]
        invariant forall i, j | 0 <= i < k && 0 <= j < k :: results[i] == results[j] <==> names[i] == names[j]
      {
        var r := Intern(names[k]);
        results := results + [r];
      }
    }
  }
}
