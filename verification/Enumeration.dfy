/** For-in enumeration (jsproperty.c): the enumerable names of an object and of its prototypes,
    flattened into one list when the loop starts. */
module Enumeration {
  import opened NameOrder
  import opened AATree
  import opened PropertyTable
  import Grisu
  import NumberText

  /** A property's attribute bits and its value. */
  datatype Slot<V> = Slot(atts: bv3, value: V)

  const DONTENUM: bv3 := 2

  type Entries<V> = seq<Entry<Slot<V>>>

  predicate Enumerable<V>(e: Entry<Slot<V>>) {
    e.data.atts & DONTENUM == 0
  }

  /** Bit 1 of the attributes is DONTENUM; the others do not matter. */
  lemma {:induction false} EnumerableBits<V>(e: Entry<Slot<V>>)
    ensures Enumerable(e) <==> e.data.atts in [0, 1, 4, 5]
  {
  }

  /** Some entry of s is named n and enumerable. */
  ghost predicate Shows<V>(s: Entries<V>, n: Name) {
    exists e | e in s :: e.name == n && Enumerable(e)
  }

  ghost predicate ChainShows<V>(c: seq<Entries<V>>, n: Name) {
    exists s | s in c :: Shows(s, n)
  }

  /** The names that one object contributes, the names seen further up left out. */
  ghost function Own<V>(s: Entries<V>, seen: seq<Entries<V>>): seq<Name> {
    if s == [] then []
    else (if Enumerable(s[0]) && !ChainShows(seen, s[0].name) then [s[0].name] else []) + Own(s[1..], seen)
  }

  /** What a whole chain contributes, the object itself first. */
  ghost function Listed<V>(c: seq<Entries<V>>): seq<Name> {
    if c == [] then [] else Own(c[0], c[1..]) + Listed(c[1..])
  }

  lemma {:induction false} OwnAppend<V>(s: Entries<V>, u: Entries<V>, seen: seq<Entries<V>>)
    ensures Own(s + u, seen) == Own(s, seen) + Own(u, seen)
  {
    if s == [] {
      assert s + u == u;
    } else {
      assert (s + u)[1..] == s[1..] + u;
      OwnAppend(s[1..], u, seen);
    }
  }

  ghost predicate Ascending(ns: seq<Name>) {
    forall i, j | 0 <= i < j < |ns| :: Less(ns[i], ns[j])
  }

  /** The walk of one object's table is in ascending order, and lists exactly the enumerable
      names that no object above shows. */
  lemma {:induction false} OwnMeans<V>(s: Entries<V>, seen: seq<Entries<V>>)
    requires Sorted(s)
    ensures Ascending(Own(s, seen))
    ensures forall n :: n in Own(s, seen) <==> Shows(s, n) && !ChainShows(seen, n)
  {
    hide Less;
    if s != [] {
      assert s == [] + [s[0]] + s[1..];
      SortedParts([], s[0], s[1..]);
      OwnMeans(s[1..], seen);
      var w := Own(s[1..], seen);
      forall n
        ensures Shows(s, n) <==> (s[0].name == n && Enumerable(s[0])) || Shows(s[1..], n)
      {
      }
      forall n | n in w
        ensures Less(s[0].name, n)
      {
        assert Shows(s[1..], n);
      }
      LessIrreflexive(s[0].name);
    }
  }

  ghost predicate Distinct(ns: seq<Name>) {
    forall i, j | 0 <= i < j < |ns| :: ns[i] != ns[j]
  }

  lemma {:induction false} DistinctParts(a: seq<Name>, b: seq<Name>)
    requires Distinct(a) && Distinct(b) && forall n | n in a :: n !in b
    ensures Distinct(a + b)
  {
    forall i, j | 0 <= i < j < |a + b|
      ensures (a + b)[i] != (a + b)[j]
    {
      if i < |a| <= j { assert b[j - |a|] in b && a[i] in a; }
    }
  }

  ghost predicate AllSorted<V>(c: seq<Entries<V>>) {
    forall s | s in c :: Sorted(s)
  }

  /** Every name that is enumerable somewhere on the chain is listed, each exactly once: at the
      object furthest up that shows it. A name that is hidden lower down by a property that is
      not enumerable is listed all the same. */
  lemma {:induction false} ListedMeans<V>(c: seq<Entries<V>>)
    requires AllSorted(c)
    ensures Distinct(Listed(c))
    ensures forall n :: n in Listed(c) <==> ChainShows(c, n)
  {
    hide Less, Sorted, Shows, Ascending, Own, ChainShows;
    if c != [] {
      ListedMeans(c[1..]);
      OwnMeans(c[0], c[1..]);
      AscendingDistinct(Own(c[0], c[1..]));
      forall n
        ensures n in Listed(c) <==> ChainShows(c, n)
      {
        ShowsStep(c, n);
        assert Listed(c) == Own(c[0], c[1..]) + Listed(c[1..]);
      }
      DistinctParts(Own(c[0], c[1..]), Listed(c[1..]));
    } else {
      forall n
        ensures !ChainShows(c, n)
      {
        ShowsNone(n, c);
      }
    }
  }

  // ----- hidden names -----

  /** What for-in is for (section 12.6.4 of ECMA-262 5.1): the first object that has a property of
      that name decides whether it is seen. */
  ghost predicate Visible<V>(c: seq<Entries<V>>, n: Name) {
    c != [] && if Has(c[0], n) then Shows(c[0], n) else Visible(c[1..], n)
  }

  /** The first object that has the name does not show it, and one further up does. */
  ghost predicate Hidden<V>(c: seq<Entries<V>>, n: Name) {
    c != [] && if Has(c[0], n) then !Shows(c[0], n) && ChainShows(c[1..], n) else Hidden(c[1..], n)
  }

  /** A name is listed as it should be exactly if it is not hidden. */
  lemma {:induction false} ShownIfVisible<V>(c: seq<Entries<V>>, n: Name)
    ensures (ChainShows(c, n) <==> Visible(c, n)) <==> !Hidden(c, n)
    ensures Hidden(c, n) ==> ChainShows(c, n) && !Visible(c, n)
    ensures Visible(c, n) ==> ChainShows(c, n)
  {
    hide Shows, ChainShows, Has;
    if c == [] { ShowsNone(n, c); } else {
      ShowsStep(c, n);
      ShowsIt(c[0], n);
      ShownIfVisible(c[1..], n);
    }
  }

  /** The list has the name exactly if it is visible. */
  ghost predicate Right<V>(c: seq<Entries<V>>, n: Name) {
    n in Listed(c) <==> Visible(c, n)
  }

  /** The list is right for a name exactly if the name is not hidden, and for all names exactly if
      none is. It is never too short. */
  lemma {:induction false} ListedRight<V>(c: seq<Entries<V>>)
    requires AllSorted(c)
    ensures forall n :: Right(c, n) <==> !Hidden(c, n)
    ensures (forall n :: Right(c, n)) <==> (forall n :: !Hidden(c, n))
    ensures forall n :: Visible(c, n) ==> n in Listed(c)
  {
    hide Listed, ChainShows, Visible, Hidden, AllSorted, Distinct;
    ListedMeans(c);
    forall n
      ensures (Right(c, n) <==> !Hidden(c, n)) && (Visible(c, n) ==> n in Listed(c))
    {
      ShownIfVisible(c, n);
    }
  }

  /** An object whose property is not enumerable, and a prototype that has one of the same name
      which is: the name is listed. */
  lemma {:induction false} HiddenListed<V>(n: Name, v: V, w: V)
    ensures var c := [[Entry(n, Slot(DONTENUM, v))], [Entry(n, Slot(0, w))]];
      AllSorted(c) && Listed(c) == [n] && !Visible(c, n) && Hidden(c, n)
  {
    hide Own;
    var e, f := Entry(n, Slot(DONTENUM, v)), Entry(n, Slot(0, w));
    var c: seq<Entries<V>> := [[e], [f]];
    assert !Enumerable(e) && Enumerable(f);
    assert f in [f] && [f] in c[1..];
    assert Shows([f], n) && ChainShows(c[1..], n);
    assert [e][0].name == n && Has(c[0], n) && !Shows(c[0], n);
    OwnOne(e, c[1..]);
    OwnOne(f, []);
    assert Listed(c) == Own(c[0], c[1..]) + Listed(c[1..]);
    assert c[1..][1..] == [] && Listed<V>([]) == [];
    assert Listed(c[1..]) == Own([f], []) + [];
    ShowsNone<V>(n, []);
  }

  lemma {:induction false} AscendingDistinct(ns: seq<Name>)
    requires Ascending(ns)
    ensures Distinct(ns)
  {
    hide Less;
    forall i, j | 0 <= i < j < |ns|
      ensures ns[i] != ns[j]
    {
      LessIrreflexive(ns[i]);
    }
  }

  class Object<V> {
    const properties: PropertyMap<Slot<V>>
    var prototype: Object?<V>

    constructor (p: PropertyMap<Slot<V>>, proto: Object?<V>)
      ensures properties == p && prototype == proto
    {
      properties, prototype := p, proto;
    }
  }

  ghost function Maps<V>(os: seq<Object<V>>): set<object> {
    set o | o in os :: o.properties
  }

  ghost function Reach<V>(os: seq<Object<V>>): set<object>
    reads Maps(os)
  {
    if os == [] then {}
    else {os[0], os[0].properties, os[0].properties.sentinel} + Nodes(os[0].properties.tree) + Reach(os[1..])
  }

  /** The objects from obj up its prototypes are os, each with a sound table. */
  ghost predicate Chain<V>(obj: Object?<V>, os: seq<Object<V>>)
    reads Maps(os), Reach(os)
    decreases |os|
  {
    if os == [] then obj == null
    else obj == os[0] && os[0].properties.Valid() && Chain(os[0].prototype, os[1..])
  }

  ghost function Tables<V>(os: seq<Object<V>>): (c: seq<Entries<V>>)
    reads Maps(os)
  {
    if os == [] then [] else [os[0].properties.Entries()] + Tables(os[1..])
  }

  lemma {:induction false} TablesSorted<V>(obj: Object?<V>, os: seq<Object<V>>)
    requires Chain(obj, os)
    ensures AllSorted(Tables(os))
  {
    hide Less, Sorted;
    if os != [] { TablesSorted(os[0].prototype, os[1..]); }
  }

  /** `jsV_getenumproperty`, as a test */
  method HasEnumerable<V>(obj: Object<V>, name: Name, ghost os: seq<Object<V>>) returns (found: bool)
    requires Chain(obj, os)
    ensures found <==> ChainShows(Tables(os), name)
  {
    hide Shows, ChainShows;
    assert allocated(Maps(os)) && allocated(Reach(os));
    var o: Object? := obj;
    ghost var rest := os;
    while o != null
      invariant Chain(o, rest) && (ChainShows(Tables(os), name) <==> ChainShows(Tables(rest), name))
      decreases |rest|
    {
      assert allocated(Maps(rest)) && allocated(Reach(rest));
      var ref := o.properties.Get(name);
      assert Chain(o, rest);
      ShowsStep(Tables(rest), name);
      ShowsIt(o.properties.Entries(), name);
      if ref != null && ref.data.atts & DONTENUM == 0 {
        OneEntry(o.properties.Entries(), Entry(name, ref.data));
        return true;
      }
      if ref != null { OneEntry(o.properties.Entries(), Entry(name, ref.data)); }
      o := o.prototype;
      rest := rest[1..];
    }
    ShowsNone(name, Tables(rest));
    return false;
  }

  lemma {:induction false} ShowsNone<V>(n: Name, c: seq<Entries<V>>)
    requires c == []
    ensures !ChainShows(c, n)
  {
  }

  lemma {:induction false} ShowsStep<V>(c: seq<Entries<V>>, n: Name)
    requires c != []
    ensures ChainShows(c, n) <==> Shows(c[0], n) || ChainShows(c[1..], n)
  {
    hide Shows;
  }

  lemma {:induction false} ShowsIt<V>(s: Entries<V>, n: Name)
    ensures Shows(s, n) ==> Has(s, n)
  {
  }

  lemma {:induction false} OneEntry<V>(s: Entries<V>, e: Entry<Slot<V>>)
    requires Sorted(s) && e in s
    ensures Shows(s, e.name) <==> Enumerable(e)
  {
    hide Less;
    LessIrreflexive(e.name);
  }

  lemma {:induction false} OwnTree<V>(t: PTree<Slot<V>>, seen: seq<Entries<V>>)
    ensures Own(Flat(t), seen) == if t.Leaf? then [] else Own(Flat(t.l), seen) + Own([t.e], seen) + Own(Flat(t.r), seen)
  {
    if t.Node? {
      OwnAppend(Flat(t.l) + [t.e], Flat(t.r), seen);
      OwnAppend(Flat(t.l), [t.e], seen);
    }
  }

  /** What is enumerable above the object being walked is c. */
  ghost predicate Seen<V>(proto: Object?<V>, os: seq<Object<V>>, c: seq<Entries<V>>)
    reads Maps(os), Reach(os)
  {
    Chain(proto, os) && Tables(os) == c
  }

  /** `itwalk`. A walk of an object's own table alone has nothing seen: proto is null. */
  method Walk<V>(iter: seq<Name>, prop: Property<Slot<V>>, s: Property<Slot<V>>, ghost t: PTree<Slot<V>>,
      proto: Object?<V>, ghost os: seq<Object<V>>, ghost c: seq<Entries<V>>)
    returns (head: seq<Name>)
    requires Represents(prop, s, t) && t.Node? && Seen(proto, os, c)
    ensures head == Own(Flat(t), c) + iter
    decreases t
  {
    hide Own, ChainShows, Unshared, Flat, Linked, AA, Sorted, Chain, Tables, IsSentinel;
    assert allocated(Maps(os)) && allocated(Reach(os)) && allocated(Nodes(t));
    Unfold(prop, s, t);
    OwnTree(t, c);
    OwnTree(t.l, c);
    OwnTree(t.r, c);
    LevelOf(prop.left, s, t.l);
    LevelOf(prop.right, s, t.r);
    head := iter;
    if prop.right != s {
      head := Walk(head, prop.right, s, t.r, proto, os, c);
    }
    head := Visit(head, prop, proto, os, c);
    if prop.left != s {
      head := Walk(head, prop.left, s, t.l, proto, os, c);
    }
    Joined(Own(Flat(t.l), c), Own([t.e], c), Own(Flat(t.r), c), iter);
  }

  lemma {:induction false} Joined(a: seq<Name>, b: seq<Name>, c: seq<Name>, d: seq<Name>)
    ensures a + (b + (c + d)) == a + b + c + d
    ensures a == [] ==> b + (c + d) == a + b + c + d
    ensures c == [] ==> a + (b + d) == a + b + c + d
    ensures a == c == [] ==> b + d == a + b + c + d
  {
  }

  /** What `itwalk` does with the node itself. */
  method Visit<V>(iter: seq<Name>, prop: Property<Slot<V>>, proto: Object?<V>, ghost os: seq<Object<V>>,
    ghost c: seq<Entries<V>>)
    returns (head: seq<Name>)
    requires Seen(proto, os, c)
    ensures head == Own([Entry(prop.name, prop.data)], c) + iter
  {
    hide Own, ChainShows;
    head := iter;
    OwnOne(Entry(prop.name, prop.data), Tables(os));
    if prop.data.atts & DONTENUM == 0 {
      var seen := false;
      if proto != null {
        assert allocated(Maps(os)) && allocated(Reach(os));
        seen := HasEnumerable(proto, prop.name, os);
      } else {
        ChainNull(os);
        ShowsNone(prop.name, Tables(os));
      }
      if !seen { head := [prop.name] + head; }
    }
  }

  lemma {:induction false} ChainNull<V>(os: seq<Object<V>>)
    requires Chain(null, os)
    ensures os == []
  {
  }

  lemma {:induction false} OwnOne<V>(e: Entry<Slot<V>>, seen: seq<Entries<V>>)
    ensures Own([e], seen) == if Enumerable(e) && !ChainShows(seen, e.name) then [e.name] else []
    ensures Own([], seen) == []
  {
  }

  lemma {:induction false} ListedDef<V>(obj: Object<V>, os: seq<Object<V>>)
    requires Chain(obj, os)
    ensures Listed(Tables(os)) == Own(os[0].properties.Entries(), Tables(os[1..])) + Listed(Tables(os[1..]))
    ensures os[0].properties.tree.Leaf? ==> Own(os[0].properties.Entries(), Tables(os[1..])) == []
    ensures os[0].prototype == null ==> Listed(Tables(os[1..])) == []
  {
  }

  /** `itflatten` */
  method Flatten<V>(obj: Object<V>, ghost os: seq<Object<V>>) returns (iter: seq<Name>)
    requires Chain(obj, os)
    ensures iter == Listed(Tables(os))
    ensures Distinct(iter) && forall n :: n in iter <==> ChainShows(Tables(os), n)
    ensures forall n :: (n in iter <==> Visible(Tables(os), n)) <==> !Hidden(Tables(os), n)
    decreases |os|
  {
    hide Own, Distinct, ChainShows, Listed, Represents, Visible, Hidden;
    iter := [];
    assert allocated(Maps(os)) && allocated(Reach(os));
    assert allocated(Maps(os[1..])) && allocated(Reach(os[1..]));
    if obj.prototype != null {
      iter := Flatten(obj.prototype, os[1..]);
    }
    var properties := obj.properties;
    LevelOf(properties.properties, properties.sentinel, properties.tree);
    if properties.properties != properties.sentinel {
      iter := Walk(iter, properties.properties, properties.sentinel, properties.tree, obj.prototype, os[1..],
        Tables(os[1..]));
    }
    ListedDef(obj, os);
    TablesSorted(obj, os);
    ListedMeans(Tables(os));
    ListedRight(Tables(os));
  }

  /** The walk of one object's own table. */
  method OwnNames<V>(obj: Object<V>) returns (iter: seq<Name>)
    requires obj.properties.Valid()
    ensures Ascending(iter) && forall n :: n in iter <==> Shows(obj.properties.Entries(), n)
    ensures iter == Own(obj.properties.Entries(), [])
  {
    hide Own;
    iter := [];
    var properties := obj.properties;
    LevelOf(properties.properties, properties.sentinel, properties.tree);
    OwnTree(properties.tree, []);
    if properties.properties != properties.sentinel {
      iter := Walk(iter, properties.properties, properties.sentinel, properties.tree, null, [], []);
    }
    assert iter == Own(properties.Entries(), []);
    OwnMeans(obj.properties.Entries(), []);
  }

  // ----- string objects -----

  /** `js_itoa` of an index */
  function IndexName(k: nat): Name {
    if k == 0 then "0" else NumberText.DigitText(NumberText.DigitsOf(k))
  }

  lemma {:induction false} IndexNamesDiffer(j: nat, k: nat)
    requires IndexName(j) == IndexName(k)
    ensures j == k
  {
    IndexDigits(j);
    IndexDigits(k);
    var a, b := Digits(j), Digits(k);
    assert |a| == |NumberText.DigitText(a)| == |NumberText.DigitText(b)| == |b|;
    forall i | 0 <= i < |a|
      ensures a[i] == b[i]
    {
      assert NumberText.DigitText(a)[i] == NumberText.DigitText(b)[i];
    }
    assert a == b;
  }

  function Digits(k: nat): seq<NumberText.Digit> {
    if k == 0 then [0] else NumberText.DigitsOf(k)
  }

  lemma {:induction false} IndexDigits(k: nat)
    ensures IndexName(k) == NumberText.DigitText(Digits(k)) && Grisu.Number(Digits(k)) == k
  {
    if k == 0 {
      assert NumberText.DigitText([0]) == "0" && Grisu.Number([0]) == 0;
    } else {
      NumberText.DigitsOfNumber(k);
    }
  }

  predicate IsIndex(n: Name, length: nat) {
    exists k: nat | k < length :: n == IndexName(k)
  }

  /** The indices that no object of the chain shows as a name. */
  ghost function Indices<V>(c: seq<Entries<V>>, length: nat): seq<Name> {
    if length == 0 then []
    else
      var n := IndexName(length - 1);
      Indices(c, length - 1) + if ChainShows(c, n) then [] else [n]
  }

  lemma {:induction false} IndicesMean<V>(c: seq<Entries<V>>, length: nat)
    ensures Distinct(Indices(c, length))
    ensures forall n :: n in Indices(c, length) <==> IsIndex(n, length) && !ChainShows(c, n)
  {
    hide ChainShows, IndexName;
    if length > 0 {
      IndicesMean(c, length - 1);
      var x := IndexName(length - 1);
      forall n
        ensures IsIndex(n, length) <==> IsIndex(n, length - 1) || n == x
      {
      }
      if IsIndex(x, length - 1) {
        var k: nat :| k < length - 1 && x == IndexName(k);
        IndexNamesDiffer(k, length - 1);
      }
      DistinctParts(Indices(c, length - 1), if ChainShows(c, x) then [] else [x]);
    }
  }

  /** The names listed for a chain come in this order: those of the object before those of its
      prototype, each at the object furthest up that shows it, and of one object in ascending order. */
  lemma {:induction false} ListedOrder<V>(c: seq<Entries<V>>, i: nat, j: nat, a: nat, b: nat)
    requires AllSorted(c) && i < j < |Listed(c)| && LastShown(c, Listed(c)[i], a) && LastShown(c, Listed(c)[j], b)
    ensures a < b || (a == b && Less(Listed(c)[i], Listed(c)[j]))
  {
    hide Less, Sorted, Shows, Own, ChainShows, Listed, LastShown, Ascending;
    ListedStep(c);
    var own, rest := Own(c[0], c[1..]), Listed(c[1..]);
    OwnMeans(c[0], c[1..]);
    ListedMeans(c[1..]);
    if i < |own| { OwnLast(c, own[i], a); } else { RestLast(c, rest[i - |own|], a); }
    if j < |own| { OwnLast(c, own[j], b); } else { RestLast(c, rest[j - |own|], b); }
    if j < |own| {
      InOrder(own, i, j);
    } else if i >= |own| {
      ListedOrder(c[1..], i - |own|, j - |own|, a - 1, b - 1);
    }
  }

  lemma {:induction false} InOrder(ns: seq<Name>, i: nat, j: nat)
    requires Ascending(ns) && i < j < |ns|
    ensures Less(ns[i], ns[j])
  {
  }

  /** Object a of the chain shows n, and none further up does. */
  ghost predicate LastShown<V>(c: seq<Entries<V>>, n: Name, a: nat) {
    a < |c| && Shows(c[a], n) && !ChainShows(c[a + 1..], n)
  }

  lemma {:induction false} ListedStep<V>(c: seq<Entries<V>>)
    requires Listed(c) != [] && AllSorted(c)
    ensures c != [] && Listed(c) == Own(c[0], c[1..]) + Listed(c[1..]) && Sorted(c[0]) && AllSorted(c[1..])
  {
    hide Sorted, Own;
  }

  lemma {:induction false} OwnLast<V>(c: seq<Entries<V>>, n: Name, a: nat)
    requires c != [] && !ChainShows(c[1..], n) && LastShown(c, n, a)
    ensures a == 0
  {
    hide Shows;
  }

  lemma {:induction false} RestLast<V>(c: seq<Entries<V>>, n: Name, a: nat)
    requires c != [] && ChainShows(c[1..], n) && LastShown(c, n, a)
    ensures a > 0 && LastShown(c[1..], n, a - 1)
  {
    hide Shows;
    if a > 0 { assert c[a] == c[1..][a - 1] && c[a + 1..] == c[1..][a..]; }
  }

  /** The indices listed come in their order as numbers. */
  lemma {:induction false} IndicesOrder<V>(c: seq<Entries<V>>, length: nat, i: nat, j: nat)
    requires i < j < |Indices(c, length)|
    ensures exists k: nat, l: nat | k < l < length ::
      Indices(c, length)[i] == IndexName(k) && Indices(c, length)[j] == IndexName(l)
  {
    hide ChainShows, IndexName, IsIndex, Distinct;
    var n := length - 1;
    if j < |Indices(c, n)| {
      IndicesOrder(c, n, i, j);
    } else {
      IndicesMean(c, n);
      assert Indices(c, n)[i] in Indices(c, n);
      IndexThere(Indices(c, n)[i], n);
    }
  }

  lemma {:induction false} IndexThere(x: Name, n: nat)
    requires IsIndex(x, n)
    ensures exists k: nat | k < n :: x == IndexName(k)
  {
  }

  /** `jsV_newiterator`, where length is that of a string object and 0 for any other: the names of
      the object or of its chain, and behind them the indices that the chain does not show. */
  method NewIterator<V>(obj: Object<V>, ghost os: seq<Object<V>>, own: bool, length: nat) returns (iter: seq<Name>)
    requires Chain(obj, os)
    ensures Distinct(iter)
    ensures forall n :: n in iter <==>
      (if own then Shows(obj.properties.Entries(), n) else ChainShows(Tables(os), n))
      || (IsIndex(n, length) && !ChainShows(Tables(os), n))
    ensures iter == (if own then Own(obj.properties.Entries(), []) else Listed(Tables(os)))
      + Indices(Tables(os), length)
  {
    hide Shows, ChainShows, IndexName, Listed, Distinct, Hidden, Visible, IsIndex, Indices, Own;
    assert allocated(Maps(os)) && allocated(Reach(os));
    if own {
      iter := OwnNames(obj);
      AscendingDistinct(iter);
    } else {
      iter := Flatten(obj, os);
    }
    ghost var base := iter;
    var k := 0;
    assert base + [] == base;
    IndicesStep(Tables(os), 0);
    while k < length
      invariant 0 <= k <= length && iter == base + Indices(Tables(os), k)
    {
      var name := IndexText(k);
      var found := HasEnumerable(obj, name, os);
      IndicesStep(Tables(os), k);
      if !found { iter := iter + [name]; }
      k := k + 1;
    }
    IndicesMean(Tables(os), length);
    OwnIsShown(obj, os);
    DistinctParts(base, Indices(Tables(os), length));
  }

  lemma {:induction false} IndicesStep<V>(c: seq<Entries<V>>, k: nat)
    ensures Indices(c, 0) == []
    ensures Indices(c, k + 1) == Indices(c, k) + if ChainShows(c, IndexName(k)) then [] else [IndexName(k)]
  {
  }

  method IndexText(k: nat) returns (t: Name)
    ensures t == IndexName(k)
  {
    t := NumberText.IntText(k);
    assert "" + t == t;
  }

  lemma {:induction false} OwnIsShown<V>(obj: Object<V>, os: seq<Object<V>>)
    requires Chain(obj, os)
    ensures forall n :: Shows(obj.properties.Entries(), n) ==> ChainShows(Tables(os), n)
  {
    hide Shows, ChainShows;
    forall n
      ensures Shows(obj.properties.Entries(), n) ==> ChainShows(Tables(os), n)
    {
      ShowsStep(Tables(os), n);
    }
  }
}
