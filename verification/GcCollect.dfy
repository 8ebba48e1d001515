/** `js_gc`: mark from the roots, then sweep the four lists in place. */
module GcCollect {
  import opened GcHeap
  import opened GcMark

  // ----- lists threaded through gcnext -----

  ghost predicate Linked(head: Cell?, l: seq<Cell>)
    reads Elements(l)`gcnext
  {
    && head == (if l == [] then null else l[0])
    && (forall i {:trigger l[i].gcnext} | 0 <= i < |l| :: l[i].gcnext == if i + 1 < |l| then l[i + 1] else null)
    && (forall i, j | 0 <= i < j < |l| :: l[i] != l[j])
  }

  /** The members of l that belong to keep, in their old order. */
  ghost function Filter(l: seq<Cell>, keep: set<Cell>): (r: seq<Cell>)
    ensures |r| <= |l|
    ensures Elements(r) == Elements(l) * keep
  {
    if l == [] then []
    else
      var c := l[|l| - 1];
      assert l == l[..|l| - 1] + [c];
      var r := Filter(l[..|l| - 1], keep);
      assert Elements(l) == Elements(l[..|l| - 1]) + {c};
      assert c in keep ==> Elements(r + [c]) == Elements(r) + {c};
      if c in keep then r + [c] else r
  }

  ghost function Elements(l: seq<Cell>): set<Cell> {
    set c | c in l
  }

  lemma {:induction false} FilterSnoc(l: seq<Cell>, c: Cell, keep: set<Cell>)
    ensures Filter(l + [c], keep) == if c in keep then Filter(l, keep) + [c] else Filter(l, keep)
  {
    assert (l + [c])[..|l|] == l;
  }

  /** Unlink every cell that does not carry `mark`. `prev` is the cell whose gcnext the C
      pointer prevnext designates, or null when it designates the head. */
  method Sweep(head0: Cell?, mark: int, ghost l: seq<Cell>, ghost keep: set<Cell>)
    returns (head: Cell?, freed: nat, total: nat)
    requires Linked(head0, l) && forall c | c in l :: c in keep <==> c.gcmark == mark
    modifies Elements(l)`gcnext
    ensures Linked(head, Filter(l, keep)) && total == |l| && freed == |l| - |Filter(l, keep)|
  {
    hide Linked, Filter;
    head, freed, total := head0, 0, 0;
    var cur := head0;
    var prev: Cell? := null;
    ghost var done: seq<Cell>, rest: seq<Cell>, kept: seq<Cell> := [], l, [];
    Start(head0, l, keep);
    while cur != null
      invariant done + rest == l && total == |done|
      invariant kept == Filter(done, keep) && freed == total - |kept|
      invariant Linked(head, kept + rest)
      invariant cur == if rest == [] then null else rest[0]
      invariant prev == if kept == [] then null else kept[|kept| - 1]
      invariant prev != null ==> prev in l
      decreases |rest|
    {
      ghost var c: Cell := rest[0];
      FilterSnoc(done, c, keep);
      NextOf(head, kept, rest);
      Shift(done, rest);
      Shift(kept, rest);
      var next := cur.gcnext;
      if cur.gcmark != mark {
        head := Unlink(head, prev, next, kept, rest);
        freed := freed + 1;
      } else {
        prev := cur;
        kept := kept + [c];
      }
      done, rest := done + [c], rest[1..];
      total := total + 1;
      cur := next;
    }
    assert done == l && kept + rest == kept;
  }

  lemma {:induction false} Shift(l: seq<Cell>, rest: seq<Cell>)
    requires rest != []
    ensures l + rest == (l + [rest[0]]) + rest[1..] && rest[0] in l + rest
  {
    assert (l + rest)[|l|] == rest[0];
  }

  lemma {:induction false} Start(head: Cell?, l: seq<Cell>, keep: set<Cell>)
    requires Linked(head, l)
    ensures Filter([], keep) == [] && [] + l == l && head == if l == [] then null else l[0]
  {
  }

  lemma {:induction false} NextOf(head: Cell?, kept: seq<Cell>, rest: seq<Cell>)
    requires Linked(head, kept + rest) && rest != []
    ensures rest[0].gcnext == if |rest| > 1 then rest[1] else null
    ensures kept != [] ==> kept[|kept| - 1] != rest[0]
  {
    assert (kept + rest)[|kept|] == rest[0];
    if kept != [] { assert (kept + rest)[|kept| - 1] == kept[|kept| - 1]; }
  }

  /** Cut the first cell of rest out of the chain. */
  method Unlink(head0: Cell?, prev: Cell?, next: Cell?, ghost kept: seq<Cell>, ghost rest: seq<Cell>)
    returns (head: Cell?)
    requires Linked(head0, kept + rest) && rest != [] && next == if |rest| > 1 then rest[1] else null
    requires prev == if kept == [] then null else kept[|kept| - 1]
    modifies Opt(prev)`gcnext
    ensures Linked(head, kept + rest[1..])
  {
    ghost var chain := kept + rest;
    ghost var k := |kept|;
    ghost var r := kept + rest[1..];
    if prev == null { head := next; } else { head := head0; prev.gcnext := next; }
    forall i | 0 <= i < |r|
      ensures r[i] == chain[if i < k then i else i + 1]
    {
    }
    assert k > 0 ==> prev == chain[k - 1];
    assert next == if k + 1 < |chain| then chain[k + 1] else null;
  }
}
