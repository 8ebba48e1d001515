/** `count` (regexp.c): how many instructions a pattern is allowed, in C's 32-bit arithmetic, and
    when that is enough for the code that is emitted. */
module RegexpCount {
  import opened RegexpTree
  import opened RegexpProgram

  const INT_MAX := 0x7fff_ffff

  /** An int result, which wraps around. */
  function Int(k: int): (r: int)
    ensures -0x8000_0000 <= r <= INT_MAX
    ensures -0x8000_0000 <= k <= INT_MAX ==> r == k
  {
    (k + 0x8000_0000) % 0x1_0000_0000 - 0x8000_0000
  }

  /** `count`. None is the error exit. */
  function Count(node: Node): Option<int> {
    match node
    case Null => Some(0)
    case Cat(x, y) => Sum(Count(x), Count(y), 0)
    case Alt(x, y) => Sum(Count(x), Count(y), 2)
    case Rep(x, _, m, n) => Repeated(Count(x), m, n)
    case Par(_, x) => Sum(Count(x), Some(0), 2)
    case Pla(x) => Sum(Count(x), Some(0), 2)
    case Nla(x) => Sum(Count(x), Some(0), 2)
    case _ => Some(1)
  }

  function Sum(a: Option<int>, b: Option<int>, extra: nat): Option<int> {
    if a.None? || b.None? then None else Some(Int(Int(a.value + b.value) + extra))
  }

  function Repeated(c: Option<int>, m: nat, n: nat): Option<int> {
    if c.None? then None
    else
      var size :=
        if m == n then Int(c.value * m)
        else if n < REPINF then Int(Int(c.value * n) + (n - m))
        else Int(Int(c.value * (m + 1)) + 2);
      if size < 0 || size > MAXPROG then None else Some(size)
  }

  /** The checks that a pattern goes through before it is compiled. */
  predicate Checked(node: Node) {
    Count(node).Some? && 0 <= Int(6 + Count(node).value) <= MAXPROG
  }

  /** What `count` would be in numbers without end. */
  function Room(node: Node): nat {
    match node
    case Null => 0
    case Cat(x, y) => Room(x) + Room(y)
    case Alt(x, y) => Room(x) + Room(y) + 2
    case Rep(x, _, m, n) =>
      if m == n then Room(x) * m
      else if m <= n < REPINF then Room(x) * n + (n - m)
      else Room(x) * (m + 1) + 2
    case Par(_, x) => Room(x) + 2
    case Pla(x) => Room(x) + 2
    case Nla(x) => Room(x) + 2
    case _ => 1
  }

  /** One unfolding of Count and Room. */
  lemma {:induction false} CountDef(node: Node)
    ensures match node
      case Null => Count(node) == Some(0) && Room(node) == 0
      case Cat(x, y) => Count(node) == Sum(Count(x), Count(y), 0) && Room(node) == Room(x) + Room(y)
      case Alt(x, y) => Count(node) == Sum(Count(x), Count(y), 2) && Room(node) == Room(x) + Room(y) + 2
      case Rep(x, _, m, n) =>
        && Count(node) == Repeated(Count(x), m, n)
        && Room(node) ==
          if m == n then Room(x) * m
          else if m <= n < REPINF then Room(x) * n + (n - m)
          else Room(x) * (m + 1) + 2
      case Par(_, x) => Count(node) == Sum(Count(x), Some(0), 2) && Room(node) == Room(x) + 2
      case Pla(x) => Count(node) == Sum(Count(x), Some(0), 2) && Room(node) == Room(x) + 2
      case Nla(x) => Count(node) == Sum(Count(x), Some(0), 2) && Room(node) == Room(x) + 2
      case _ => Count(node) == Some(1) && Room(node) == 1
  {
  }

  // ----- wrapping around -----

  lemma {:induction false} IntTurns(k: int) returns (q: int)
    ensures Int(k) == k - 0x1_0000_0000 * q
  {
    q := (k + 0x8000_0000) / 0x1_0000_0000;
  }

  lemma {:induction false} IntSame(k: int, q: int)
    ensures Int(k + 0x1_0000_0000 * q) == Int(k)
  {
  }

  lemma {:induction false} IntAdd(a: int, b: int)
    ensures Int(Int(a) + b) == Int(a + b) && Int(a + Int(b)) == Int(a + b)
  {
    var q := IntTurns(a);
    IntSame(a + b, -q);
    var r := IntTurns(b);
    IntSame(a + b, -r);
  }

  lemma {:induction false} IntTimes(a: int, m: int)
    ensures Int(Int(a) * m) == Int(a * m)
  {
    var q := IntTurns(a);
    assert (a - 0x1_0000_0000 * q) * m == a * m + 0x1_0000_0000 * (-q * m);
    IntSame(a * m, -q * m);
  }

  lemma {:induction false} SumWraps(a: int, b: int, extra: nat)
    ensures Sum(Some(Int(a)), Some(Int(b)), extra) == Some(Int(a + b + extra))
  {
    IntAdd(a, Int(b));
    IntAdd(a, b);
    IntAdd(a + b, extra);
  }

  /** The count is right up to multiples of the word size, whatever has wrapped around. */
  lemma {:induction false} CountWraps(node: Node)
    requires Accepted(node) && Count(node).Some?
    ensures Count(node).value == Int(Room(node))
  {
    hide Int, Count, Room, Accepted, Expand;
    CountDef(node);
    ExpandDef(node);
    match node
    case Cat(x, y) =>
      CountWraps(x);
      CountWraps(y);
      SumWraps(Room(x), Room(y), 0);
    case Alt(x, y) =>
      CountWraps(x);
      CountWraps(y);
      SumWraps(Room(x), Room(y), 2);
    case Rep(x, _, m, n) =>
      CountWraps(x);
      RepeatWraps(Room(x), m, n);
    case Par(_, x) =>
      CountWraps(x);
      SumWraps(Room(x), 0, 2);
    case Pla(x) =>
      CountWraps(x);
      SumWraps(Room(x), 0, 2);
    case Nla(x) =>
      CountWraps(x);
      SumWraps(Room(x), 0, 2);
    case _ =>
  }

  lemma {:induction false} RepeatWraps(r: nat, m: nat, n: nat)
    requires m <= n
    ensures Int(Int(r) * m) == Int(r * m) && Int(Int(Int(r) * n) + (n - m)) == Int(r * n + (n - m))
    ensures Int(Int(Int(r) * (m + 1)) + 2) == Int(r * (m + 1) + 2)
  {
    hide Int;
    IntTimes(r, m);
    IntTimes(r, n);
    IntTimes(r, m + 1);
    IntAdd(r * n, n - m);
    IntAdd(r * (m + 1), 2);
  }

  // ----- sizes -----

  lemma {:induction false} CopiesSize(x: Re, count: nat)
    ensures Size(Copies(x, count)) == Size(x) * count
  {
    CopiesDef(x, count, [], 0);
    if count > 0 {
      hide Size, Copies;
      CopiesSize(x, count - 1);
      Distribute(Size(x), count - 1, count);
    }
  }

  lemma {:induction false} RepeatSize(x: Re, ng: bool, m: nat, n: nat)
    requires m <= n <= REPINF
    ensures Size(Repeat(x, ng, m, n))
         == if m == n then Size(x) * m
            else if n < REPINF then Size(x) * n + (n - m)
            else if m == 0 then Size(x) + 2
            else Size(x) * m + 1
  {
    hide Size, Copies;
    CodedDef(Repeat(x, ng, m, n), [], 0);
    CodedDef(Opt(x, ng), [], 0);
    CodedDef(Plus(x, ng), [], 0);
    CopiesSize(x, m);
    if m < n {
      CopiesSize(Opt(x, ng), n - m);
      Distribute(Size(x), m, n);
      if m > 0 {
        CopiesSize(x, m - 1);
        Distribute(Size(x), m - 1, m);
      }
    }
  }

  lemma Distribute(s: nat, m: nat, n: nat)
    requires m <= n
    ensures s * n == s * m + s * (n - m) && (s + 1) * (n - m) == s * (n - m) + (n - m)
  {
  }

  lemma MulMono(a: nat, b: nat, k: nat)
    requires a <= b
    ensures a * k <= b * k
  {
  }

  lemma {:induction false} RepeatCovered(x: Re, ng: bool, m: nat, n: nat, c: nat)
    requires m <= n <= REPINF && Size(x) <= c
    ensures Size(Repeat(x, ng, m, n))
         <= if m == n then c * m else if n < REPINF then c * n + (n - m) else c * (m + 1) + 2
  {
    hide Size, Repeat, Copies;
    RepeatSize(x, ng, m, n);
    MulMono(Size(x), c, m);
    MulMono(Size(x), c, n);
    Distribute(c, m, m + 1);
  }

  /** One unfolding of Copies and of its code. */
  lemma {:induction false} CopiesDef(x: Re, count: nat, prog: Prog, b: nat)
    ensures count == 0 ==> Size(Copies(x, count)) == 0 && (Coded(Copies(x, count), prog, b) <==> b <= |prog|)
    ensures count > 0 ==>
      && Size(Copies(x, count)) == Size(Copies(x, count - 1)) + Size(x)
      && (Coded(Copies(x, count), prog, b) <==>
        Coded(Copies(x, count - 1), prog, b) && Coded(x, prog, b + Size(Copies(x, count - 1))))
  {
    hide Size, Coded;
    CodedDef(Copies(x, count), prog, b);
  }

  /** One unfolding of Accepted and Expand. */
  lemma {:induction false} ExpandDef(node: Node)
    requires Accepted(node)
    ensures match node
      case Null => Expand(node) == Eps
      case Cat(x, y) => Accepted(x) && Accepted(y) && Expand(node) == Then(Expand(x), Expand(y))
      case Alt(x, y) => Accepted(x) && Accepted(y) && Expand(node) == Or(Expand(x), Expand(y))
      case Rep(x, ng, m, n) =>
        Accepted(x) && m < REPINF && m <= n <= REPINF && Expand(node) == Repeat(Expand(x), ng, m, n)
      case Assert(a) => Expand(node) == Test(a)
      case Par(k, x) => 0 < k < MAXSUB && Accepted(x) && Expand(node) == Group(k, Expand(x))
      case Pla(x) => Accepted(x) && Expand(node) == Look(true, Expand(x))
      case Nla(x) => Accepted(x) && Expand(node) == Look(false, Expand(x))
      case One(t) => Expand(node) == Rune1(t)
  {
  }

  /** The allowance in numbers without end covers the code. */
  lemma {:induction false} RoomCovers(node: Node)
    requires Accepted(node)
    ensures Size(Expand(node)) <= Room(node)
  {
    hide Size, Repeat, Expand;
    ExpandDef(node);
    CodedDef(Expand(node), [], 0);
    match node
    case Cat(x, y) => RoomCovers(x); RoomCovers(y);
    case Alt(x, y) => RoomCovers(x); RoomCovers(y);
    case Rep(x, ng, m, n) =>
      RoomCovers(x);
      RepeatCovered(Expand(x), ng, m, n, Room(x));
    case Par(_, x) => RoomCovers(x);
    case Pla(x) => RoomCovers(x);
    case Nla(x) => RoomCovers(x);
    case _ =>
  }

  /** Only loops behind at least one copy are given more than they need. */
  predicate Exact(node: Node) {
    match node
    case Cat(x, y) => Exact(x) && Exact(y)
    case Alt(x, y) => Exact(x) && Exact(y)
    case Rep(x, _, m, n) => n == 0 || (Exact(x) && (m == 0 || n < REPINF))
    case Par(_, x) => Exact(x)
    case Pla(x) => Exact(x)
    case Nla(x) => Exact(x)
    case _ => true
  }

  /** The allowance is exactly the size of the code if and only if there is no such loop that is
      compiled at all. */
  lemma {:induction false} RoomExact(node: Node)
    requires Accepted(node)
    ensures Room(node) == Size(Expand(node)) <==> Exact(node)
  {
    hide Size, Repeat, Expand;
    ExpandDef(node);
    CodedDef(Expand(node), [], 0);
    match node
    case Cat(x, y) => RoomCovers(x); RoomCovers(y); RoomExact(x); RoomExact(y);
    case Alt(x, y) => RoomCovers(x); RoomCovers(y); RoomExact(x); RoomExact(y);
    case Rep(x, ng, m, n) =>
      RoomCovers(x);
      RoomExact(x);
      RepeatSize(Expand(x), ng, m, n);
      RepExact(Size(Expand(x)), Room(x), m, n);
    case Par(_, x) => RoomCovers(x); RoomExact(x);
    case Pla(x) => RoomCovers(x); RoomExact(x);
    case Nla(x) => RoomCovers(x); RoomExact(x);
    case _ =>
  }

  lemma {:induction false} RepExact(size: nat, room: nat, m: nat, n: nat)
    requires size <= room
    ensures m == n ==> (room * m == size * m <==> m == 0 || room == size)
    ensures m < n ==> (room * n + (n - m) == size * n + (n - m) <==> room == size)
    ensures m == 0 ==> (room * (m + 1) + 2 == size + 2 <==> room == size)
    ensures room * (m + 1) + 2 > size * m + 1
  {
    TimesSame(size, room, m);
    TimesSame(size, room, n);
    Distribute(room, m, m + 1);
  }

  lemma {:induction false} TimesSame(a: nat, b: nat, n: nat)
    requires a <= b
    ensures a * n <= b * n && (b * n == a * n <==> n == 0 || a == b)
  {
    var d := b - a;
    TimesDifference(a, d, n);
    if d > 0 && n > 0 { TimesPositive(d, n); }
  }

  lemma {:induction false} TimesDifference(a: nat, d: nat, n: nat)
    ensures (a + d) * n == a * n + d * n && 0 <= d * n && (d == 0 ==> d * n == 0)
  {
  }

  lemma {:induction false} TimesPositive(d: nat, n: nat)
    requires d > 0 && n > 0
    ensures 0 < d * n
  {
  }

  /** Code that is not too long has not been counted wrong by much: each repeat was checked. */
  lemma {:induction false} RoomBounded(node: Node)
    requires Accepted(node) && Count(node).Some? && Size(Expand(node)) <= MAXPROG
    ensures Room(node) <= MAXPROG * Size(Expand(node))
    decreases node, 1
  {
    hide Size, Repeat, Expand, Int, Count, Room, Accepted;
    ExpandDef(node);
    CountDef(node);
    CodedDef(Expand(node), [], 0);
    match node
    case Cat(x, y) => RoomBounded(x); RoomBounded(y);
    case Alt(x, y) => RoomBounded(x); RoomBounded(y);
    case Rep(_, _, _, _) => RepBounded(node);
    case Par(_, x) => RoomBounded(x);
    case Pla(x) => RoomBounded(x);
    case Nla(x) => RoomBounded(x);
    case _ =>
  }

  lemma {:induction false} RepBounded(node: Node)
    requires node.Rep? && Accepted(node) && Count(node).Some? && Size(Expand(node)) <= MAXPROG
    ensures Room(node) <= MAXPROG * Size(Expand(node))
    decreases node, 0
  {
    hide Size, Repeat, Expand, Int, Count, Room, Accepted;
    var x, m, n := node.x, node.m, node.n;
    ExpandDef(node);
    CountDef(node);
    CountWraps(node);
    RepeatSize(Expand(x), node.ng, m, n);
    var s := Size(Expand(x));
    if n > 0 {
      Times(s, if m == n || n == REPINF then m else n);
      RoomBounded(x);
      RepeatBounded(Room(x), s, m, n);
    }
  }

  lemma Times(s: nat, k: nat)
    ensures k > 0 ==> s <= s * k
  {
  }

  lemma {:induction false} RepeatBounded(r: nat, s: nat, m: nat, n: nat)
    requires r <= MAXPROG * s && m <= n <= REPINF
    ensures m == n ==> r * m <= MAXPROG * (s * m)
    ensures m < n < REPINF ==> r * n + (n - m) <= MAXPROG * (s * n + (n - m))
    ensures 0 < m && s * m < MAXPROG ==> r * (m + 1) + 2 <= INT_MAX
  {
    MulMono(r, MAXPROG * s, m);
    MulMono(r, MAXPROG * s, n);
    MulMono(r, MAXPROG * s, m + 1);
    assert MAXPROG * s * m == MAXPROG * (s * m) && MAXPROG * s * n == MAXPROG * (s * n);
    if 0 < m {
      Times(s, m);
      assert MAXPROG * s * (m + 1) == MAXPROG * (s * m) + MAXPROG * s;
    }
  }

  /** When the code fits the buffer that was made for it: exactly if nothing has wrapped around,
      or in other words exactly if the code is no longer than a program may be. */
  lemma {:induction false} Overruns(node: Node)
    requires Accepted(node) && Checked(node)
    ensures 6 + Size(Expand(node)) <= Int(6 + Count(node).value) <==> 6 + Room(node) <= INT_MAX
    ensures 6 + Room(node) <= INT_MAX <==> 6 + Size(Expand(node)) <= MAXPROG
  {
    hide Size, Expand, Count, Room, Int;
    CountWraps(node);
    IntAdd(6, Room(node));
    RoomCovers(node);
    if 6 + Size(Expand(node)) <= MAXPROG { RoomBounded(node); }
  }

  // ----- a pattern that is counted wrong -----

  /** first, and k times x behind it */
  function Row(first: Node, x: Node, k: nat): Node {
    if k == 0 then first else Cat(Row(first, x, k - 1), x)
  }

  const LETTER: Node := One(Char(97))

  /** (?:a{254}){129} */
  const BLOCK: Node := Rep(Rep(LETTER, false, 254, 254), false, 129, 129)

  /** (?:...){254}, with 516 blocks and 2065 letters inside */
  function Overgrown(): Node {
    Rep(Row(Row(BLOCK, BLOCK, 515), LETTER, 2065), false, 254, 254)
  }

  /** Nodes that are counted right. */
  predicate Counted(x: Node, n: nat) {
    Accepted(x) && Count(x) == Some(n) && Size(Expand(x)) == n
  }

  lemma {:induction false} RowMeans(first: Node, x: Node, n: nat, a: nat, k: nat)
    requires Counted(first, n) && Counted(x, a) && n + k * a <= INT_MAX
    ensures Counted(Row(first, x, k), n + k * a)
  {
    hide Counted;
    if k > 0 {
      LessOne(k, a);
      RowMeans(first, x, n, a, k - 1);
      CatMeans(Row(first, x, k - 1), x, n + (k - 1) * a, a);
    }
  }

  lemma LessOne(k: nat, a: nat)
    requires k > 0
    ensures k * a == (k - 1) * a + a && 0 <= (k - 1) * a
  {
  }

  lemma {:induction false} CatMeans(x: Node, y: Node, a: nat, b: nat)
    requires Counted(x, a) && Counted(y, b) && a + b <= INT_MAX
    ensures Counted(Cat(x, y), a + b)
  {
    hide Accepted, Expand, Count, Size, Empty;
    AcceptedDef(Cat(x, y));
    CatParts(x, y);
  }

  lemma {:induction false} CatParts(x: Node, y: Node)
    requires Accepted(x) && Accepted(y) && Accepted(Cat(x, y))
    ensures Count(Cat(x, y)) == Sum(Count(x), Count(y), 0)
    ensures Size(Expand(Cat(x, y))) == Size(Expand(x)) + Size(Expand(y))
  {
    hide Accepted;
  }

  lemma {:induction false} AcceptedDef(node: Node)
    ensures match node
      case Cat(x, y) => Accepted(node) == (Accepted(x) && Accepted(y))
      case Rep(x, _, m, n) =>
        Accepted(node) == (Accepted(x) && m < REPINF && m <= n <= REPINF && (n == REPINF ==> !Empty(x)))
      case _ => true
  {
  }

  lemma {:induction false} RepMeans(x: Node, m: nat)
    requires Accepted(x) && Count(x).Some? && m < REPINF
    requires var n := Int(Count(x).value * m); 0 <= n <= MAXPROG
    ensures var r := Rep(x, false, m, m);
      Accepted(r) && Count(r) == Some(Int(Count(x).value * m)) && Size(Expand(r)) == Size(Expand(x)) * m
  {
    hide Int, Size, Copies, Accepted, Expand, Count;
    var r := Rep(x, false, m, m);
    AcceptedDef(r);
    ExpandDef(r);
    CountDef(r);
    RepeatSize(Expand(x), false, m, m);
  }

  lemma {:induction false} BlockMeans()
    ensures Counted(LETTER, 1) && Counted(BLOCK, 32766)
  {
    assert Accepted(LETTER) && Count(LETTER) == Some(1) && Size(Expand(LETTER)) == 1;
    hide Accepted, Count, Size, Expand;
    RepMeans(LETTER, 254);
    RepMeans(BLOCK.x, 129);
  }

  lemma {:induction false} RepWraps(x: Node, n: nat, m: nat, size: nat)
    requires Counted(x, n) && m < REPINF && size == n * m && 0 <= Int(size) <= MAXPROG
    ensures var r := Rep(x, false, m, m); Accepted(r) && Count(r) == Some(Int(size)) && Size(Expand(r)) == size
  {
    hide Accepted, Count, Size, Expand, Int;
    RepMeans(x, m);
  }

  /** Its count has wrapped around to 238, and both checks let it pass; it has more than four
      thousand million instructions. */
  lemma {:induction false} OvergrownPasses()
    ensures Accepted(Overgrown()) && Checked(Overgrown()) && Int(6 + Count(Overgrown()).value) == 244
    ensures Size(Expand(Overgrown())) == 4294967534
  {
    hide Accepted, Count, Size, Expand, Row, Counted, BLOCK, LETTER;
    BlockMeans();
    RowMeans(BLOCK, BLOCK, 32766, 32766, 515);
    RowMeans(Row(BLOCK, BLOCK, 515), LETTER, 16907256, 1, 2065);
    RepWraps(Row(Row(BLOCK, BLOCK, 515), LETTER, 2065), 16909321, 254, 4294967534);
  }
}
