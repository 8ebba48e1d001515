/** The grammar of patterns: which tree a sequence of tokens stands for, and what is wrong with one
    that stands for none. */
module RegexpGrammar {
  import opened RegexpTree

  /** Tokens, each at least one character long. The parser never sees a back-reference here. */
  datatype Token =
    | TEnd
    | TRune(t: RuneTest)
    | TOpen | TOpenNC | TOpenPla | TOpenNla | TClose
    | TBar | TStar | TPlus | TQuest
    | TCount(min: nat, max: nat)
    | TAssert(a: Assertion)

  /** What the lexer guarantees: counts below REPINF, an open upper bound being REPINF. */
  predicate Lexed(tokens: seq<Token>) {
    forall i | 0 <= i < |tokens| ::
      && tokens[i] != TEnd
      && (tokens[i].TCount? ==> tokens[i].min < REPINF && tokens[i].max <= REPINF)
  }

  datatype Error = BadQuantifier | EmptyLoop | TooManyCaptures | Unmatched | Syntax
  datatype Result = Ok(node: Node) | Die(error: Error)

  function At(ts: seq<Token>, i: nat): Token {
    if i < |ts| then ts[i] else TEnd
  }

  predicate Quantifier(t: Token) {
    t.TCount? || t.TStar? || t.TPlus? || t.TQuest?
  }

  predicate CatEnd(t: Token) {
    t.TEnd? || t.TBar? || t.TClose?
  }

  /** How often a quantifier asks for what is in front of it, at least and at most. */
  function Times(t: Token): (nat, nat)
    requires Quantifier(t)
  {
    match t
    case TStar => (0, REPINF)
    case TPlus => (1, REPINF)
    case TQuest => (0, 1)
    case TCount(min, max) => (min, max)
  }

  // ----- what tokens stand for -----

  /** The tokens from i to j are alternatives that stand for the node; groups inside are numbered
      from n on, and m is the number behind the last of them. */
  ghost predicate AltAt(ts: seq<Token>, i: nat, j: nat, n: nat, m: nat, node: Node)
    decreases if i <= j then j - i else 0, 4
  {
    CatAt(ts, i, j, n, m, node) ||
    (node.Alt? && exists k: nat, h: nat ::
       i <= k < j && At(ts, k) == TBar && AltAt(ts, i, k, n, h, node.x) && CatAt(ts, k + 1, j, h, m, node.y))
  }

  /** A sequence, or nothing. */
  ghost predicate CatAt(ts: seq<Token>, i: nat, j: nat, n: nat, m: nat, node: Node)
    decreases if i <= j then j - i else 0, 3
  {
    (node == Null && i == j && n == m) || SeqAt(ts, i, j, n, m, node)
  }

  ghost predicate SeqAt(ts: seq<Token>, i: nat, j: nat, n: nat, m: nat, node: Node)
    decreases if i <= j then j - i else 0, 2
  {
    RepAt(ts, i, j, n, m, node) ||
    (node.Cat? && exists k: nat, h: nat ::
       i < k < j && SeqAt(ts, i, k, n, h, node.x) && RepAt(ts, k, j, h, m, node.y))
  }

  /** An assertion, an atom that no quantifier follows, or an atom and its quantifier. */
  ghost predicate RepAt(ts: seq<Token>, i: nat, j: nat, n: nat, m: nat, node: Node)
    decreases if i <= j then j - i else 0, 1
  {
    || (At(ts, i).TAssert? && j == i + 1 && node == Assert(At(ts, i).a) && n == m)
    || (AtomAt(ts, i, j, n, m, node) && !Quantifier(At(ts, j)))
    || (node.Rep? && node.m <= node.n && (node.n == REPINF ==> !Empty(node.x)) && exists k: nat ::
          i < k < j && QuantAt(ts, k, j, node.ng, node.m, node.n) && AtomAt(ts, i, k, n, m, node.x))
  }

  /** A quantifier, and the question mark behind it that makes it not greedy. */
  predicate QuantAt(ts: seq<Token>, k: nat, j: nat, ng: bool, min: nat, max: nat) {
    && Quantifier(At(ts, k)) && Times(At(ts, k)) == (min, max)
    && (ng <==> At(ts, k + 1) == TQuest) && j == k + if ng then 2 else 1
  }

  ghost predicate AtomAt(ts: seq<Token>, i: nat, j: nat, n: nat, m: nat, node: Node)
    decreases if i <= j then j - i else 0, 0
  {
    i < j &&
    match At(ts, i)
    case TRune(t) => j == i + 1 && node == One(t) && n == m
    case TOpen => n < MAXSUB && node.Par? && node.k == n && GroupAt(ts, i + 1, j, n + 1, m, node.x)
    case TOpenNC => GroupAt(ts, i + 1, j, n, m, node)
    case TOpenPla => node.Pla? && GroupAt(ts, i + 1, j, n, m, node.x)
    case TOpenNla => node.Nla? && GroupAt(ts, i + 1, j, n, m, node.x)
    case _ => false
  }

  /** Alternatives and the parenthesis that closes them. */
  ghost predicate GroupAt(ts: seq<Token>, i: nat, j: nat, n: nat, m: nat, node: Node)
    decreases if i <= j then j - i else 0, 5
  {
    i < j && At(ts, j - 1) == TClose && AltAt(ts, i, j - 1, n, m, node)
  }

  /** All the tokens stand for the node. */
  ghost predicate Derives(ts: seq<Token>, node: Node) {
    exists m: nat :: AltAt(ts, 0, |ts|, 1, m, node)
  }

  // ----- what is wrong with them -----

  /** Reading alternatives from i on, with n the number of the next group, comes to the error. */
  ghost predicate AltDies(ts: seq<Token>, i: nat, n: nat, e: Error)
    decreases if i <= |ts| then |ts| - i else 0, 4
  {
    CatDies(ts, i, n, e) ||
    exists j: nat, m: nat, x: Node ::
      i <= j < |ts| && AltAt(ts, i, j, n, m, x) && ts[j] == TBar && CatDies(ts, j + 1, m, e)
  }

  ghost predicate CatDies(ts: seq<Token>, i: nat, n: nat, e: Error)
    decreases if i <= |ts| then |ts| - i else 0, 3
  {
    RepDies(ts, i, n, e) ||
    exists j: nat, m: nat, x: Node :: i < j <= |ts| && SeqAt(ts, i, j, n, m, x) && RepDies(ts, j, m, e)
  }

  /** A quantifier is wrong for its atom x, or the atom is. */
  ghost predicate RepDies(ts: seq<Token>, i: nat, n: nat, e: Error)
    decreases if i <= |ts| then |ts| - i else 0, 2
  {
    AtomDies(ts, i, n, e) ||
    exists j: nat, m: nat, x: Node :: AtomAt(ts, i, j, n, m, x) && QuantDies(At(ts, j), x, e)
  }

  predicate QuantDies(t: Token, x: Node, e: Error) {
    Quantifier(t) &&
      match e
      case BadQuantifier => Times(t).1 < Times(t).0
      case EmptyLoop => Times(t).0 <= Times(t).1 == REPINF && Empty(x)
      case _ => false
  }

  /** There is no atom here, or too many groups, or its group is wrong or never closed. */
  ghost predicate AtomDies(ts: seq<Token>, i: nat, n: nat, e: Error)
    decreases if i <= |ts| then |ts| - i else 0, 1
  {
    i < |ts| &&
      match ts[i]
      case TRune(_) => false
      case TOpen => if n >= MAXSUB then e == TooManyCaptures else GroupDies(ts, i + 1, n + 1, e)
      case TOpenNC => GroupDies(ts, i + 1, n, e)
      case TOpenPla => GroupDies(ts, i + 1, n, e)
      case TOpenNla => GroupDies(ts, i + 1, n, e)
      case TAssert(_) => false
      case t => !CatEnd(t) && e == Syntax
  }

  ghost predicate GroupDies(ts: seq<Token>, i: nat, n: nat, e: Error)
    decreases if i <= |ts| then |ts| - i else 0, 5
  {
    AltDies(ts, i, n, e) || (e == Unmatched && exists m: nat, x: Node :: AltAt(ts, i, |ts|, n, m, x))
  }

  /** The error in the whole: in some alternative, or a parenthesis that closes nothing. */
  ghost predicate Faulty(ts: seq<Token>, e: Error) {
    AltDies(ts, 0, 1, e) ||
    (e == Unmatched && exists j: nat, m: nat, x: Node :: AltAt(ts, 0, j, 1, m, x) && At(ts, j) == TClose)
  }

  // ----- reading from left to right -----

  datatype Step = Got(node: Node, pos: nat, nsub: nat) | Died(error: Error)

  function AtomF(ts: seq<Token>, i: nat, n: nat): (r: Step)
    requires i <= |ts|
    ensures r.Got? ==> i < r.pos <= |ts|
    decreases |ts| - i, 0
  {
    match At(ts, i)
    case TRune(t) => Got(One(t), i + 1, n)
    case TOpen =>
      if n >= MAXSUB then Died(TooManyCaptures)
      else
        (match GroupF(ts, i + 1, n + 1)
         case Died(e) => Died(e)
         case Got(x, j, m) => Got(Par(n, x), j, m))
    case TOpenNC => GroupF(ts, i + 1, n)
    case TOpenPla =>
      (match GroupF(ts, i + 1, n)
       case Died(e) => Died(e)
       case Got(x, j, m) => Got(Pla(x), j, m))
    case TOpenNla =>
      (match GroupF(ts, i + 1, n)
       case Died(e) => Died(e)
       case Got(x, j, m) => Got(Nla(x), j, m))
    case _ => Died(Syntax)
  }

  function GroupF(ts: seq<Token>, i: nat, n: nat): (r: Step)
    requires i <= |ts|
    ensures r.Got? ==> i < r.pos <= |ts|
    decreases |ts| - i, 5
  {
    match AltF(ts, i, n)
    case Died(e) => Died(e)
    case Got(x, j, m) => if At(ts, j) == TClose then Got(x, j + 1, m) else Died(Unmatched)
  }

  function RepF(ts: seq<Token>, i: nat, n: nat): (r: Step)
    requires i <= |ts|
    ensures r.Got? ==> i < r.pos <= |ts|
    decreases |ts| - i, 1
  {
    if At(ts, i).TAssert? then Got(Assert(At(ts, i).a), i + 1, n)
    else
      match AtomF(ts, i, n)
      case Died(e) => Died(e)
      case Got(x, j, m) => if Quantifier(At(ts, j)) then QuantF(ts, x, j, m) else Got(x, j, m)
  }

  function QuantF(ts: seq<Token>, x: Node, j: nat, m: nat): (r: Step)
    requires Quantifier(At(ts, j))
    ensures r.Got? ==> j < r.pos <= |ts|
  {
    var (min, max) := Times(At(ts, j));
    var ng := At(ts, j + 1) == TQuest;
    if max < min then Died(BadQuantifier)
    else if max == REPINF && Empty(x) then Died(EmptyLoop)
    else Got(Rep(x, ng, min, max), if ng then j + 2 else j + 1, m)
  }

  function CatF(ts: seq<Token>, i: nat, n: nat): (r: Step)
    requires i <= |ts|
    ensures r.Got? ==> i <= r.pos <= |ts|
    decreases |ts| - i, 3
  {
    if CatEnd(At(ts, i)) then Got(Null, i, n)
    else
      match RepF(ts, i, n)
      case Died(e) => Died(e)
      case Got(x, j, m) => SeqF(ts, x, j, m)
  }

  /** The rest of a sequence that starts with x. */
  function SeqF(ts: seq<Token>, x: Node, i: nat, n: nat): (r: Step)
    requires i <= |ts|
    ensures r.Got? ==> i <= r.pos <= |ts|
    decreases |ts| - i, 3
  {
    if CatEnd(At(ts, i)) then Got(x, i, n)
    else
      match RepF(ts, i, n)
      case Died(e) => Died(e)
      case Got(y, j, m) => SeqF(ts, Cat(x, y), j, m)
  }

  function AltF(ts: seq<Token>, i: nat, n: nat): (r: Step)
    requires i <= |ts|
    ensures r.Got? ==> i <= r.pos <= |ts|
    decreases |ts| - i, 4
  {
    match CatF(ts, i, n)
    case Died(e) => Died(e)
    case Got(x, j, m) => BarsF(ts, x, j, m)
  }

  /** The rest of alternatives that start with x. */
  function BarsF(ts: seq<Token>, x: Node, i: nat, n: nat): (r: Step)
    requires i <= |ts|
    ensures r.Got? ==> i <= r.pos <= |ts|
    decreases |ts| - i, 3
  {
    if At(ts, i) == TBar then
      match CatF(ts, i + 1, n)
      case Died(e) => Died(e)
      case Got(y, j, m) => BarsF(ts, Alt(x, y), j, m)
    else Got(x, i, n)
  }

  function ParseF(ts: seq<Token>): Result {
    match AltF(ts, 0, 1)
    case Died(e) => Die(e)
    case Got(x, j, _) =>
      if At(ts, j) == TClose then Die(Unmatched) else if At(ts, j) != TEnd then Die(Syntax) else Ok(x)
  }

  // ----- every derivation is read -----

  lemma {:induction false} AtomRead(ts: seq<Token>, i: nat, j: nat, n: nat, m: nat, node: Node)
    requires AtomAt(ts, i, j, n, m, node)
    ensures i < j <= |ts| && AtomF(ts, i, n) == Got(node, j, m)
    decreases if i <= j then j - i else 0, 0
  {
    hide GroupAt, GroupF;
    match At(ts, i)
    case TOpen => GroupRead(ts, i + 1, j, n + 1, m, node.x);
    case TOpenNC => GroupRead(ts, i + 1, j, n, m, node);
    case TOpenPla => GroupRead(ts, i + 1, j, n, m, node.x);
    case TOpenNla => GroupRead(ts, i + 1, j, n, m, node.x);
    case _ =>
  }

  lemma {:induction false} GroupRead(ts: seq<Token>, i: nat, j: nat, n: nat, m: nat, node: Node)
    requires i <= |ts| && GroupAt(ts, i, j, n, m, node)
    ensures i < j <= |ts| && GroupF(ts, i, n) == Got(node, j, m)
    decreases if i <= j then j - i else 0, 5
  {
    hide AltAt, AltF;
    AltRead(ts, i, j - 1, n, m, node);
  }

  lemma {:induction false} RepRead(ts: seq<Token>, i: nat, j: nat, n: nat, m: nat, node: Node)
    requires RepAt(ts, i, j, n, m, node)
    ensures i < j <= |ts| && RepF(ts, i, n) == Got(node, j, m)
    decreases if i <= j then j - i else 0, 1
  {
    hide AtomAt, AtomF;
    if AtomAt(ts, i, j, n, m, node) && !Quantifier(At(ts, j)) {
      AtomRead(ts, i, j, n, m, node);
      AtomStarts(ts, i, j, n, m, node);
    } else if k: nat :|
      i < k < j && node.Rep? && QuantAt(ts, k, j, node.ng, node.m, node.n) && AtomAt(ts, i, k, n, m, node.x) {
      AtomRead(ts, i, k, n, m, node.x);
      AtomStarts(ts, i, k, n, m, node.x);
    }
  }

  lemma {:induction false} AtomStarts(ts: seq<Token>, i: nat, j: nat, n: nat, m: nat, node: Node)
    requires AtomAt(ts, i, j, n, m, node)
    ensures !At(ts, i).TAssert? && !Quantifier(At(ts, i)) && !CatEnd(At(ts, i))
  {
    hide GroupAt;
  }

  /** What a repeat starts with. */
  lemma {:induction false} RepStarts(ts: seq<Token>, i: nat, j: nat, n: nat, m: nat, node: Node)
    requires RepAt(ts, i, j, n, m, node)
    ensures !Quantifier(At(ts, i)) && !CatEnd(At(ts, i)) && i < |ts|
  {
    hide AtomAt;
    if AtomAt(ts, i, j, n, m, node) && !Quantifier(At(ts, j)) {
      AtomStarts(ts, i, j, n, m, node);
    } else if k: nat :| i < k < j && node.Rep? && AtomAt(ts, i, k, n, m, node.x) {
      AtomStarts(ts, i, k, n, m, node.x);
    }
  }

  lemma {:induction false} SeqRead(ts: seq<Token>, i: nat, j: nat, n: nat, m: nat, node: Node)
    requires SeqAt(ts, i, j, n, m, node)
    ensures i < j <= |ts| && CatF(ts, i, n) == SeqF(ts, node, j, m)
    decreases if i <= j then j - i else 0, 2
  {
    hide RepAt, RepF;
    if RepAt(ts, i, j, n, m, node) {
      RepRead(ts, i, j, n, m, node);
      RepStarts(ts, i, j, n, m, node);
    } else {
      var k: nat, h: nat :| i < k < j && SeqAt(ts, i, k, n, h, node.x) && RepAt(ts, k, j, h, m, node.y);
      RepStarts(ts, k, j, h, m, node.y);
      SeqRead(ts, i, k, n, h, node.x);
      RepRead(ts, k, j, h, m, node.y);
    }
  }

  lemma {:induction false} CatRead(ts: seq<Token>, i: nat, j: nat, n: nat, m: nat, node: Node)
    requires i <= |ts| && CatAt(ts, i, j, n, m, node) && CatEnd(At(ts, j))
    ensures i <= j <= |ts| && CatF(ts, i, n) == Got(node, j, m)
    decreases if i <= j then j - i else 0, 3
  {
    hide SeqAt, RepF;
    if SeqAt(ts, i, j, n, m, node) { SeqRead(ts, i, j, n, m, node); }
  }

  lemma {:induction false} AltRead(ts: seq<Token>, i: nat, j: nat, n: nat, m: nat, node: Node)
    requires i <= |ts| && AltAt(ts, i, j, n, m, node) && CatEnd(At(ts, j))
    ensures i <= j <= |ts| && AltF(ts, i, n) == BarsF(ts, node, j, m)
    decreases if i <= j then j - i else 0, 4
  {
    hide CatAt, CatF;
    if CatAt(ts, i, j, n, m, node) {
      CatRead(ts, i, j, n, m, node);
    } else {
      var k: nat, h: nat :| i <= k < j && At(ts, k) == TBar && AltAt(ts, i, k, n, h, node.x)
        && CatAt(ts, k + 1, j, h, m, node.y);
      AltRead(ts, i, k, n, h, node.x);
      CatRead(ts, k + 1, j, h, m, node.y);
    }
  }

  // ----- what is read is a derivation -----

  lemma {:induction false} AtomSound(ts: seq<Token>, i: nat, n: nat)
    requires i <= |ts| && AtomF(ts, i, n).Got?
    ensures var r := AtomF(ts, i, n); AtomAt(ts, i, r.pos, n, r.nsub, r.node)
    decreases |ts| - i, 0
  {
    hide GroupAt, GroupF;
    if At(ts, i) == TOpen { GroupSound(ts, i + 1, n + 1); }
    if At(ts, i) in {TOpenNC, TOpenPla, TOpenNla} { GroupSound(ts, i + 1, n); }
  }

  lemma {:induction false} GroupSound(ts: seq<Token>, i: nat, n: nat)
    requires i <= |ts| && GroupF(ts, i, n).Got?
    ensures var r := GroupF(ts, i, n); GroupAt(ts, i, r.pos, n, r.nsub, r.node)
    decreases |ts| - i, 5
  {
    hide AltAt, AltF;
    AltSound(ts, i, n);
  }

  lemma {:induction false} RepSound(ts: seq<Token>, i: nat, n: nat)
    requires i <= |ts| && RepF(ts, i, n).Got?
    ensures var r := RepF(ts, i, n); RepAt(ts, i, r.pos, n, r.nsub, r.node)
    decreases |ts| - i, 1
  {
    hide AtomAt, AtomF;
    if !At(ts, i).TAssert? { AtomSound(ts, i, n); }
  }

  lemma {:induction false} SeqSound(ts: seq<Token>, i: nat, n: nat, x: Node, k: nat, h: nat)
    requires i < k <= |ts| && SeqAt(ts, i, k, n, h, x) && SeqF(ts, x, k, h).Got?
    ensures var r := SeqF(ts, x, k, h); SeqAt(ts, i, r.pos, n, r.nsub, r.node) && CatEnd(At(ts, r.pos))
    decreases |ts| - k, 3
  {
    hide RepAt, RepF;
    if !CatEnd(At(ts, k)) {
      RepSound(ts, k, h);
      var r := RepF(ts, k, h);
      SeqSound(ts, i, n, Cat(x, r.node), r.pos, r.nsub);
    }
  }

  lemma {:induction false} CatSound(ts: seq<Token>, i: nat, n: nat)
    requires i <= |ts| && CatF(ts, i, n).Got?
    ensures var r := CatF(ts, i, n); CatAt(ts, i, r.pos, n, r.nsub, r.node) && CatEnd(At(ts, r.pos))
    decreases |ts| - i, 3
  {
    hide RepAt, RepF, SeqF;
    if !CatEnd(At(ts, i)) {
      RepSound(ts, i, n);
      var r := RepF(ts, i, n);
      SeqSound(ts, i, n, r.node, r.pos, r.nsub);
    }
  }

  lemma {:induction false} BarsSound(ts: seq<Token>, i: nat, n: nat, x: Node, k: nat, h: nat)
    requires i <= k <= |ts| && AltAt(ts, i, k, n, h, x) && CatEnd(At(ts, k)) && BarsF(ts, x, k, h).Got?
    ensures var r := BarsF(ts, x, k, h);
      AltAt(ts, i, r.pos, n, r.nsub, r.node) && (At(ts, r.pos) == TEnd || At(ts, r.pos) == TClose)
    decreases |ts| - k, 3
  {
    hide CatAt, CatF;
    if At(ts, k) == TBar {
      CatSound(ts, k + 1, h);
      var r := CatF(ts, k + 1, h);
      BarsSound(ts, i, n, Alt(x, r.node), r.pos, r.nsub);
    }
  }

  lemma {:induction false} AltSound(ts: seq<Token>, i: nat, n: nat)
    requires i <= |ts| && AltF(ts, i, n).Got?
    ensures var r := AltF(ts, i, n);
      AltAt(ts, i, r.pos, n, r.nsub, r.node) && (At(ts, r.pos) == TEnd || At(ts, r.pos) == TClose)
    decreases |ts| - i, 4
  {
    hide CatAt, CatF, BarsF;
    CatSound(ts, i, n);
    var r := CatF(ts, i, n);
    BarsSound(ts, i, n, r.node, r.pos, r.nsub);
  }

  // ----- every fault is found -----

  lemma {:induction false} AtomDiesRead(ts: seq<Token>, i: nat, n: nat, e: Error)
    requires i <= |ts| && AtomDies(ts, i, n, e)
    ensures AtomF(ts, i, n) == Died(e) && !CatEnd(At(ts, i)) && !At(ts, i).TAssert?
    decreases |ts| - i, 1
  {
    hide GroupDies, GroupF;
    if At(ts, i) == TOpen && n < MAXSUB { GroupDiesRead(ts, i + 1, n + 1, e); }
    if At(ts, i) in {TOpenNC, TOpenPla, TOpenNla} { GroupDiesRead(ts, i + 1, n, e); }
  }

  lemma {:induction false} GroupDiesRead(ts: seq<Token>, i: nat, n: nat, e: Error)
    requires i <= |ts| && GroupDies(ts, i, n, e)
    ensures GroupF(ts, i, n) == Died(e)
    decreases |ts| - i, 5
  {
    hide AltDies, AltF, AltAt;
    if AltDies(ts, i, n, e) {
      AltDiesRead(ts, i, n, e);
    } else {
      var m: nat, x: Node :| AltAt(ts, i, |ts|, n, m, x);
      AltRead(ts, i, |ts|, n, m, x);
    }
  }

  lemma {:induction false} RepDiesRead(ts: seq<Token>, i: nat, n: nat, e: Error)
    requires i <= |ts| && RepDies(ts, i, n, e)
    ensures RepF(ts, i, n) == Died(e) && !CatEnd(At(ts, i))
    decreases |ts| - i, 2
  {
    hide AtomDies, AtomF, AtomAt;
    if AtomDies(ts, i, n, e) {
      AtomDiesRead(ts, i, n, e);
    } else {
      var j: nat, m: nat, x: Node :| AtomAt(ts, i, j, n, m, x) && QuantDies(At(ts, j), x, e);
      AtomRead(ts, i, j, n, m, x);
      AtomStarts(ts, i, j, n, m, x);
    }
  }

  lemma {:induction false} CatDiesRead(ts: seq<Token>, i: nat, n: nat, e: Error)
    requires i <= |ts| && CatDies(ts, i, n, e)
    ensures CatF(ts, i, n) == Died(e)
    decreases |ts| - i, 3
  {
    hide RepDies, RepF, SeqAt;
    if RepDies(ts, i, n, e) {
      RepDiesRead(ts, i, n, e);
    } else {
      var j: nat, m: nat, x: Node :| i < j <= |ts| && SeqAt(ts, i, j, n, m, x) && RepDies(ts, j, m, e);
      RepDiesRead(ts, j, m, e);
      SeqRead(ts, i, j, n, m, x);
    }
  }

  lemma {:induction false} AltDiesRead(ts: seq<Token>, i: nat, n: nat, e: Error)
    requires i <= |ts| && AltDies(ts, i, n, e)
    ensures AltF(ts, i, n) == Died(e)
    decreases |ts| - i, 4
  {
    hide CatDies, CatF, AltAt;
    if CatDies(ts, i, n, e) {
      CatDiesRead(ts, i, n, e);
    } else {
      var j: nat, m: nat, x: Node :| i <= j < |ts| && AltAt(ts, i, j, n, m, x) && ts[j] == TBar
        && CatDies(ts, j + 1, m, e);
      CatDiesRead(ts, j + 1, m, e);
      AltRead(ts, i, j, n, m, x);
    }
  }

  // ----- what is found is a fault -----

  lemma {:induction false} AtomDiesSound(ts: seq<Token>, i: nat, n: nat)
    requires Lexed(ts) && i <= |ts| && AtomF(ts, i, n).Died? && !CatEnd(At(ts, i)) && !At(ts, i).TAssert?
    ensures AtomDies(ts, i, n, AtomF(ts, i, n).error)
    decreases |ts| - i, 1
  {
    hide GroupDies, GroupF;
    if At(ts, i) == TOpen && n < MAXSUB { GroupDiesSound(ts, i + 1, n + 1); }
    if At(ts, i) in {TOpenNC, TOpenPla, TOpenNla} { GroupDiesSound(ts, i + 1, n); }
  }

  lemma {:induction false} GroupDiesSound(ts: seq<Token>, i: nat, n: nat)
    requires Lexed(ts) && i <= |ts| && GroupF(ts, i, n).Died?
    ensures GroupDies(ts, i, n, GroupF(ts, i, n).error)
    decreases |ts| - i, 5
  {
    hide AltDies, AltF, AltAt;
    if AltF(ts, i, n).Died? { AltDiesSound(ts, i, n); } else { AltSound(ts, i, n); }
  }

  lemma {:induction false} RepDiesSound(ts: seq<Token>, i: nat, n: nat)
    requires Lexed(ts) && i <= |ts| && RepF(ts, i, n).Died? && !CatEnd(At(ts, i))
    ensures RepDies(ts, i, n, RepF(ts, i, n).error)
    decreases |ts| - i, 2
  {
    hide AtomDies, AtomF, AtomAt;
    if AtomF(ts, i, n).Died? {
      AtomDiesSound(ts, i, n);
    } else {
      AtomSound(ts, i, n);
      var r := AtomF(ts, i, n);
      assert QuantDies(At(ts, r.pos), r.node, RepF(ts, i, n).error);
    }
  }

  lemma {:induction false} SeqDiesSound(ts: seq<Token>, i: nat, n: nat, x: Node, k: nat, h: nat)
    requires Lexed(ts) && i < k <= |ts| && SeqAt(ts, i, k, n, h, x) && SeqF(ts, x, k, h).Died?
    ensures CatDies(ts, i, n, SeqF(ts, x, k, h).error)
    decreases |ts| - k, 3
  {
    hide RepDies, RepF, RepAt;
    if RepF(ts, k, h).Died? {
      RepDiesSound(ts, k, h);
    } else {
      RepSound(ts, k, h);
      var r := RepF(ts, k, h);
      SeqDiesSound(ts, i, n, Cat(x, r.node), r.pos, r.nsub);
    }
  }

  lemma {:induction false} CatDiesSound(ts: seq<Token>, i: nat, n: nat)
    requires Lexed(ts) && i <= |ts| && CatF(ts, i, n).Died?
    ensures CatDies(ts, i, n, CatF(ts, i, n).error)
    decreases |ts| - i, 3
  {
    hide RepDies, RepF, RepAt, SeqF;
    if RepF(ts, i, n).Died? {
      RepDiesSound(ts, i, n);
    } else {
      RepSound(ts, i, n);
      var r := RepF(ts, i, n);
      SeqDiesSound(ts, i, n, r.node, r.pos, r.nsub);
    }
  }

  lemma {:induction false} BarsDiesSound(ts: seq<Token>, i: nat, n: nat, x: Node, k: nat, h: nat)
    requires Lexed(ts) && i <= k <= |ts| && AltAt(ts, i, k, n, h, x) && BarsF(ts, x, k, h).Died?
    ensures AltDies(ts, i, n, BarsF(ts, x, k, h).error)
    decreases |ts| - k, 3
  {
    hide CatDies, CatF, CatAt;
    if CatF(ts, k + 1, h).Died? {
      CatDiesSound(ts, k + 1, h);
    } else {
      CatSound(ts, k + 1, h);
      var r := CatF(ts, k + 1, h);
      BarsDiesSound(ts, i, n, Alt(x, r.node), r.pos, r.nsub);
    }
  }

  lemma {:induction false} AltDiesSound(ts: seq<Token>, i: nat, n: nat)
    requires Lexed(ts) && i <= |ts| && AltF(ts, i, n).Died?
    ensures AltDies(ts, i, n, AltF(ts, i, n).error)
    decreases |ts| - i, 4
  {
    hide CatDies, CatF, CatAt, BarsF;
    if CatF(ts, i, n).Died? {
      CatDiesSound(ts, i, n);
    } else {
      CatSound(ts, i, n);
      var r := CatF(ts, i, n);
      BarsDiesSound(ts, i, n, r.node, r.pos, r.nsub);
    }
  }

  // ----- the whole -----

  /** A tree is read from the tokens if and only if they stand for it. */
  lemma {:induction false} DerivesRead(ts: seq<Token>, node: Node)
    requires Lexed(ts)
    ensures ParseF(ts) == Ok(node) <==> Derives(ts, node)
  {
    hide AltAt, AltF, BarsF;
    if ParseF(ts) == Ok(node) { AltSound(ts, 0, 1); }
    if m: nat :| AltAt(ts, 0, |ts|, 1, m, node) {
      AltRead(ts, 0, |ts|, 1, m, node);
      BarsStop(ts, node, |ts|, m);
    }
  }

  lemma {:induction false} BarsStop(ts: seq<Token>, x: Node, i: nat, n: nat)
    requires i <= |ts| && At(ts, i) != TBar
    ensures BarsF(ts, x, i, n) == Got(x, i, n)
  {
  }

  /** An error is found if and only if it is there. */
  lemma {:induction false} FaultyRead(ts: seq<Token>, e: Error)
    requires Lexed(ts)
    ensures ParseF(ts) == Die(e) <==> Faulty(ts, e)
  {
    hide AltAt, AltF, BarsF, AltDies;
    if ParseF(ts).Die? {
      if AltF(ts, 0, 1).Died? { AltDiesSound(ts, 0, 1); } else { AltSound(ts, 0, 1); }
    }
    if AltDies(ts, 0, 1, e) { AltDiesRead(ts, 0, 1, e); }
    if j: nat, m: nat, x: Node :| AltAt(ts, 0, j, 1, m, x) && At(ts, j) == TClose {
      AltRead(ts, 0, j, 1, m, x);
      BarsStop(ts, x, j, m);
    }
  }

  /** No tokens stand for two trees, nor for one and an error. */
  lemma {:induction false} Unambiguous(ts: seq<Token>, x: Node, y: Node, e: Error, e1: Error)
    requires Lexed(ts)
    ensures Derives(ts, x) && Derives(ts, y) ==> x == y
    ensures !(Derives(ts, x) && Faulty(ts, e))
    ensures Faulty(ts, e) && Faulty(ts, e1) ==> e == e1
  {
    hide Derives, Faulty, ParseF;
    DerivesRead(ts, x);
    DerivesRead(ts, y);
    FaultyRead(ts, e);
    FaultyRead(ts, e1);
  }

  // ----- groups -----

  /** The capture numbers of a tree, in the order of their left parentheses. */
  ghost function Groups(node: Node): seq<nat> {
    match node
    case Cat(x, y) => Groups(x) + Groups(y)
    case Alt(x, y) => Groups(x) + Groups(y)
    case Rep(x, _, _, _) => Groups(x)
    case Par(k, x) => [k] + Groups(x)
    case Pla(x) => Groups(x)
    case Nla(x) => Groups(x)
    case _ => []
  }

  ghost function Range(a: nat, b: nat): (r: seq<nat>)
    requires a <= b
    ensures |r| == b - a && forall i | 0 <= i < |r| :: r[i] == a + i
  {
    seq(b - a, i => a + i)
  }

  /** The groups of the node are numbered n, n + 1 and so on, up to m. */
  ghost predicate Numbered(node: Node, n: nat, m: nat) {
    n <= m && Groups(node) == Range(n, m)
  }

  lemma {:induction false} RangeFront(a: nat, b: nat)
    requires a < b
    ensures Range(a, b) == [a] + Range(a + 1, b)
  {
  }

  lemma {:induction false} RangeSplit(a: nat, m: nat, b: nat)
    requires a <= m <= b
    ensures Range(a, b) == Range(a, m) + Range(m, b)
  {
  }

  /** What tokens stand for may be compiled, and its groups are numbered in order. */
  lemma {:induction false} AltAccepted(ts: seq<Token>, i: nat, j: nat, n: nat, m: nat, node: Node)
    requires Lexed(ts) && 0 < n <= MAXSUB && AltAt(ts, i, j, n, m, node)
    ensures Accepted(node) && Numbered(node, n, m) && m <= MAXSUB
    decreases if i <= j then j - i else 0, 4
  {
    hide CatAt;
    if CatAt(ts, i, j, n, m, node) {
      CatAccepted(ts, i, j, n, m, node);
    } else {
      var k: nat, h: nat :|
        i <= k < j && At(ts, k) == TBar && AltAt(ts, i, k, n, h, node.x) && CatAt(ts, k + 1, j, h, m, node.y);
      AltAccepted(ts, i, k, n, h, node.x);
      CatAccepted(ts, k + 1, j, h, m, node.y);
      RangeSplit(n, h, m);
    }
  }

  lemma {:induction false} CatAccepted(ts: seq<Token>, i: nat, j: nat, n: nat, m: nat, node: Node)
    requires Lexed(ts) && 0 < n <= MAXSUB && CatAt(ts, i, j, n, m, node)
    ensures Accepted(node) && Numbered(node, n, m) && m <= MAXSUB
    decreases if i <= j then j - i else 0, 3
  {
    hide SeqAt;
    if SeqAt(ts, i, j, n, m, node) { SeqAccepted(ts, i, j, n, m, node); }
  }

  lemma {:induction false} SeqAccepted(ts: seq<Token>, i: nat, j: nat, n: nat, m: nat, node: Node)
    requires Lexed(ts) && 0 < n <= MAXSUB && SeqAt(ts, i, j, n, m, node)
    ensures Accepted(node) && Numbered(node, n, m) && m <= MAXSUB
    decreases if i <= j then j - i else 0, 2
  {
    hide RepAt;
    if RepAt(ts, i, j, n, m, node) {
      RepAccepted(ts, i, j, n, m, node);
    } else {
      var k: nat, h: nat :| i < k < j && SeqAt(ts, i, k, n, h, node.x) && RepAt(ts, k, j, h, m, node.y);
      SeqAccepted(ts, i, k, n, h, node.x);
      RepAccepted(ts, k, j, h, m, node.y);
      RangeSplit(n, h, m);
    }
  }

  lemma {:induction false} RepAccepted(ts: seq<Token>, i: nat, j: nat, n: nat, m: nat, node: Node)
    requires Lexed(ts) && 0 < n <= MAXSUB && RepAt(ts, i, j, n, m, node)
    ensures Accepted(node) && Numbered(node, n, m) && m <= MAXSUB
    decreases if i <= j then j - i else 0, 1
  {
    hide AtomAt;
    if AtomAt(ts, i, j, n, m, node) {
      AtomAccepted(ts, i, j, n, m, node);
    } else if node.Rep? {
      var k: nat :| i < k < j && QuantAt(ts, k, j, node.ng, node.m, node.n) && AtomAt(ts, i, k, n, m, node.x);
      AtomAccepted(ts, i, k, n, m, node.x);
    }
  }

  lemma {:induction false} AtomAccepted(ts: seq<Token>, i: nat, j: nat, n: nat, m: nat, node: Node)
    requires Lexed(ts) && 0 < n <= MAXSUB && AtomAt(ts, i, j, n, m, node)
    ensures Accepted(node) && Numbered(node, n, m) && m <= MAXSUB
    decreases if i <= j then j - i else 0, 0
  {
    hide AltAt;
    match At(ts, i)
    case TOpen =>
      AltAccepted(ts, i + 1, j - 1, n + 1, m, node.x);
      RangeFront(n, m);
    case TOpenNC => AltAccepted(ts, i + 1, j - 1, n, m, node);
    case TOpenPla => AltAccepted(ts, i + 1, j - 1, n, m, node.x);
    case TOpenNla => AltAccepted(ts, i + 1, j - 1, n, m, node.x);
    case _ =>
  }

  // ----- writing a tree -----

  /** How tightly the forms of a node bind: alternatives, nothing, a sequence, a repeat, an atom. */
  function Level(node: Node): nat {
    match node
    case Alt(_, _) => 0
    case Null => 1
    case Cat(_, _) => 2
    case Rep(_, _, _, _) => 3
    case Assert(_) => 3
    case _ => 4
  }

  /** The tokens of a node where a form of that level is wanted. */
  function Write(node: Node, level: nat): seq<Token>
    decreases node, 1
  {
    if level <= Level(node) then Plainly(node) else [TOpenNC] + Plainly(node) + [TClose]
  }

  function Plainly(node: Node): seq<Token>
    decreases node, 0
  {
    match node
    case Null => []
    case Alt(x, y) => Write(x, 0) + [TBar] + Write(y, 1)
    case Cat(x, y) => Write(x, 2) + Write(y, 3)
    case Rep(x, ng, m, n) => Write(x, 4) + [TCount(m, n)] + if ng then [TQuest] else []
    case Assert(a) => [TAssert(a)]
    case One(t) => [TRune(t)]
    case Par(_, x) => [TOpen] + Write(x, 0) + [TClose]
    case Pla(x) => [TOpenPla] + Write(x, 0) + [TClose]
    case Nla(x) => [TOpenNla] + Write(x, 0) + [TClose]
  }

  lemma {:induction false} WriteLexed(node: Node, level: nat)
    requires Accepted(node)
    ensures Lexed(Plainly(node)) && Lexed(Write(node, level))
    decreases node, 1
  {
    hide Lexed, Plainly, Accepted;
    PlainlyLexed(node);
    LexedOne(TOpenNC);
    LexedOne(TClose);
    LexedJoin([TOpenNC], Plainly(node));
    LexedJoin([TOpenNC] + Plainly(node), [TClose]);
  }

  lemma {:induction false} PlainlyLexed(node: Node)
    requires Accepted(node)
    ensures Lexed(Plainly(node))
    decreases node, 0
  {
    hide Lexed, Write;
    match node
    case Null => LexedNone();
    case Alt(x, y) =>
      WriteLexed(x, 0);
      WriteLexed(y, 1);
      LexedOne(TBar);
      LexedJoin(Write(x, 0), [TBar]);
      LexedJoin(Write(x, 0) + [TBar], Write(y, 1));
    case Cat(x, y) =>
      WriteLexed(x, 2);
      WriteLexed(y, 3);
      LexedJoin(Write(x, 2), Write(y, 3));
    case Rep(x, ng, m, n) =>
      WriteLexed(x, 4);
      LexedOne(TCount(m, n));
      LexedOne(TQuest);
      LexedNone();
      LexedJoin(Write(x, 4), [TCount(m, n)]);
      LexedJoin(Write(x, 4) + [TCount(m, n)], if ng then [TQuest] else []);
    case Assert(a) => LexedOne(TAssert(a));
    case One(t) => LexedOne(TRune(t));
    case Par(_, x) => GroupLexed(TOpen, x);
    case Pla(x) => GroupLexed(TOpenPla, x);
    case Nla(x) => GroupLexed(TOpenNla, x);
  }

  lemma {:induction false} GroupLexed(open: Token, x: Node)
    requires Accepted(x) && open in [TOpen, TOpenPla, TOpenNla]
    ensures Lexed([open] + Write(x, 0) + [TClose])
    decreases x, 2
  {
    hide Lexed, Write, Accepted;
    WriteLexed(x, 0);
    LexedOne(open);
    LexedOne(TClose);
    LexedJoin([open], Write(x, 0));
    LexedJoin([open] + Write(x, 0), [TClose]);
  }

  lemma {:induction false} LexedNone()
    ensures Lexed([])
  {
  }

  lemma {:induction false} LexedOne(t: Token)
    requires t != TEnd && (t.TCount? ==> t.min < REPINF && t.max <= REPINF)
    ensures Lexed([t])
  {
  }

  lemma {:induction false} LexedJoin(a: seq<Token>, b: seq<Token>)
    ensures Lexed(a) && Lexed(b) ==> Lexed(a + b)
  {
  }

  lemma {:induction false} WriteStarts(node: Node, level: nat)
    requires 2 <= level
    ensures Write(node, level) != [] && !Quantifier(Write(node, level)[0])
    decreases node
  {
    if level <= Level(node) {
      match node
      case Cat(x, y) => WriteStarts(x, 2);
      case Rep(x, _, _, _) => WriteStarts(x, 4);
      case _ =>
    }
  }

  ghost predicate LevelAt(level: nat, ts: seq<Token>, i: nat, j: nat, n: nat, m: nat, node: Node) {
    match level
    case 0 => AltAt(ts, i, j, n, m, node)
    case 1 => CatAt(ts, i, j, n, m, node)
    case 2 => SeqAt(ts, i, j, n, m, node)
    case 3 => RepAt(ts, i, j, n, m, node)
    case _ => AtomAt(ts, i, j, n, m, node)
  }

  lemma {:induction false} Loosely(level: nat, want: nat, ts: seq<Token>, i: nat, j: nat, n: nat, m: nat, node: Node)
    requires LevelAt(level, ts, i, j, n, m, node) && want <= level <= 4
    requires want == 4 || !Quantifier(At(ts, j))
    ensures LevelAt(want, ts, i, j, n, m, node)
  {
    if want <= 3 {
      assert 3 <= level ==> RepAt(ts, i, j, n, m, node);
      assert want <= 2 && 2 <= level ==> SeqAt(ts, i, j, n, m, node);
      assert want <= 1 && 1 <= level ==> CatAt(ts, i, j, n, m, node);
    }
  }

  /** Tokens from i to j. */
  predicate Has(ts: seq<Token>, i: nat, j: nat, s: seq<Token>) {
    i <= j <= |ts| && ts[i..j] == s
  }

  lemma {:induction false} HasParts(ts: seq<Token>, i: nat, j: nat, s: seq<Token>, u: seq<Token>)
    requires Has(ts, i, j, s + u)
    ensures Has(ts, i, i + |s|, s) && Has(ts, i + |s|, j, u)
    ensures u != [] ==> At(ts, i + |s|) == u[0]
    ensures s != [] ==> At(ts, i) == s[0]
  {
    assert ts[i..j][..|s|] == s && ts[i..j][|s|..] == u;
    if u != [] { assert ts[i..j][|s|] == u[0]; }
    if s != [] { assert ts[i..j][0] == s[0]; }
  }

  /** A tree whose groups are numbered in order is what its tokens stand for. */
  lemma {:induction false} WriteDerives(node: Node, level: nat, ts: seq<Token>, i: nat, j: nat, n: nat, m: nat)
    requires Accepted(node) && Numbered(node, n, m) && m <= MAXSUB && level <= 4
    requires Has(ts, i, j, Write(node, level)) && (level == 4 || !Quantifier(At(ts, j)))
    ensures LevelAt(level, ts, i, j, n, m, node)
    decreases node, 2
  {
    hide AltAt, CatAt, SeqAt, RepAt, Plainly, Accepted;
    if level <= Level(node) {
      PlainlyDerives(node, ts, i, j, n, m);
      Loosely(Level(node), level, ts, i, j, n, m, node);
    } else {
      HasParts(ts, i, j, [TOpenNC] + Plainly(node), [TClose]);
      HasParts(ts, i, j - 1, [TOpenNC], Plainly(node));
      PlainlyDerives(node, ts, i + 1, j - 1, n, m);
      Loosely(Level(node), 0, ts, i + 1, j - 1, n, m, node);
      assert AtomAt(ts, i, j, n, m, node);
      Loosely(4, level, ts, i, j, n, m, node);
    }
  }

  lemma {:induction false} PlainlyDerives(node: Node, ts: seq<Token>, i: nat, j: nat, n: nat, m: nat)
    requires Accepted(node) && Numbered(node, n, m) && m <= MAXSUB
    requires Has(ts, i, j, Plainly(node)) && (Level(node) == 4 || !Quantifier(At(ts, j)))
    ensures LevelAt(Level(node), ts, i, j, n, m, node)
    decreases node, 1
  {
    hide Write;
    match node
    case Null =>
    case Alt(x, y) => AltDerives(node, ts, i, j, n, m);
    case Cat(x, y) => CatDerives(node, ts, i, j, n, m);
    case Rep(x, _, _, _) => RepDerives(node, ts, i, j, n, m);
    case Assert(_) => HasParts(ts, i, j, Plainly(node), []);
    case One(_) => HasParts(ts, i, j, Plainly(node), []);
    case Par(_, x) => GroupDerives(node, x, TOpen, n + 1, ts, i, j, n, m);
    case Pla(x) => GroupDerives(node, x, TOpenPla, n, ts, i, j, n, m);
    case Nla(x) => GroupDerives(node, x, TOpenNla, n, ts, i, j, n, m);
  }

  lemma {:induction false} AltDerives(node: Node, ts: seq<Token>, i: nat, j: nat, n: nat, m: nat)
    requires node.Alt? && Accepted(node) && Numbered(node, n, m) && m <= MAXSUB
    requires Has(ts, i, j, Plainly(node)) && !Quantifier(At(ts, j))
    ensures AltAt(ts, i, j, n, m, node)
    decreases node, 0
  {
    hide Write, CatAt, Groups, Accepted;
    var h := Halves(node.x, node.y, node, n, m);
    var k := i + |Write(node.x, 0)|;
    HasParts(ts, i, j, Write(node.x, 0) + [TBar], Write(node.y, 1));
    HasParts(ts, i, k + 1, Write(node.x, 0), [TBar]);
    WriteDerives(node.x, 0, ts, i, k, n, h);
    WriteDerives(node.y, 1, ts, k + 1, j, h, m);
  }

  lemma {:induction false} CatDerives(node: Node, ts: seq<Token>, i: nat, j: nat, n: nat, m: nat)
    requires node.Cat? && Accepted(node) && Numbered(node, n, m) && m <= MAXSUB
    requires Has(ts, i, j, Plainly(node)) && !Quantifier(At(ts, j))
    ensures SeqAt(ts, i, j, n, m, node)
    decreases node, 0
  {
    hide Write, RepAt, Groups, Accepted;
    var h := Halves(node.x, node.y, node, n, m);
    var k := i + |Write(node.x, 2)|;
    HasParts(ts, i, j, Write(node.x, 2), Write(node.y, 3));
    WriteStarts(node.x, 2);
    WriteStarts(node.y, 3);
    WriteDerives(node.x, 2, ts, i, k, n, h);
    WriteDerives(node.y, 3, ts, k, j, h, m);
  }

  /** The groups of the first part come before those of the second. */
  lemma {:induction false} Halves(x: Node, y: Node, node: Node, n: nat, m: nat) returns (h: nat)
    requires (node == Cat(x, y) || node == Alt(x, y)) && Accepted(node) && Numbered(node, n, m)
    ensures Accepted(x) && Accepted(y) && Numbered(x, n, h) && Numbered(y, h, m)
  {
    h := n + |Groups(x)|;
    RangeSplit(n, h, m);
    assert Groups(x) == Range(n, m)[..h - n] && Groups(y) == Range(n, m)[h - n..];
  }

  lemma {:induction false} RepDerives(node: Node, ts: seq<Token>, i: nat, j: nat, n: nat, m: nat)
    requires node.Rep? && Accepted(node) && Numbered(node, n, m) && m <= MAXSUB
    requires Has(ts, i, j, Plainly(node)) && !Quantifier(At(ts, j))
    ensures RepAt(ts, i, j, n, m, node)
    decreases node, 0
  {
    hide Write, AtomAt;
    var k := i + |Write(node.x, 4)|;
    var lazy := if node.ng then [TQuest] else [];
    HasParts(ts, i, j, Write(node.x, 4) + [TCount(node.m, node.n)], lazy);
    HasParts(ts, i, k + 1, Write(node.x, 4), [TCount(node.m, node.n)]);
    WriteStarts(node.x, 4);
    WriteDerives(node.x, 4, ts, i, k, n, m);
    assert QuantAt(ts, k, j, node.ng, node.m, node.n);
  }

  lemma {:induction false} GroupDerives(node: Node, x: Node, open: Token, n1: nat, ts: seq<Token>, i: nat, j: nat,
    n: nat, m: nat)
    requires Accepted(node) && Numbered(node, n, m) && m <= MAXSUB && Has(ts, i, j, Plainly(node))
    requires (node.Par? && x == node.x && open == TOpen && n1 == n + 1)
      || (node.Pla? && x == node.x && open == TOpenPla && n1 == n)
      || (node.Nla? && x == node.x && open == TOpenNla && n1 == n)
    ensures AtomAt(ts, i, j, n, m, node)
    decreases node, 0
  {
    hide Write, AltAt;
    var s := Write(x, 0);
    assert Plainly(node) == [open] + s + [TClose];
    HasParts(ts, i, j, [open] + s, [TClose]);
    HasParts(ts, i, j - 1, [open], s);
    if node.Par? { GroupsOfPar(node, n, m); }
    WriteDerives(x, 0, ts, i + 1, j - 1, n1, m);
  }

  lemma {:induction false} GroupsOfPar(node: Node, n: nat, m: nat)
    requires node.Par? && Numbered(node, n, m)
    ensures n < m && node.k == n && Numbered(node.x, n + 1, m)
  {
    var r := Range(n, m);
    assert |Groups(node)| >= 1 && r[0] == node.k;
    RangeFront(n, m);
    assert Groups(node.x) == r[1..];
  }

  /** Every tree that may be compiled, with its groups numbered in order, is read back from its
      tokens. */
  lemma {:induction false} WriteRead(node: Node, m: nat)
    requires Accepted(node) && Numbered(node, 1, m) && m <= MAXSUB
    ensures Lexed(Write(node, 0)) && ParseF(Write(node, 0)) == Ok(node)
  {
    hide AltAt, Write, ParseF, Accepted;
    var ts := Write(node, 0);
    WriteLexed(node, 0);
    assert ts[0..|ts|] == ts;
    WriteDerives(node, 0, ts, 0, |ts|, 1, m);
    DerivesRead(ts, node);
  }

  // ----- the simplest patterns -----

  /** A rune that no quantifier follows. */
  lemma {:induction false} RuneAt(ts: seq<Token>, i: nat, n: nat)
    requires At(ts, i).TRune? && !Quantifier(At(ts, i + 1))
    ensures var x := One(At(ts, i).t);
      && AtomAt(ts, i, i + 1, n, n, x) && RepAt(ts, i, i + 1, n, n, x) && SeqAt(ts, i, i + 1, n, n, x)
      && CatAt(ts, i, i + 1, n, n, x) && AltAt(ts, i, i + 1, n, n, x)
  {
    hide AtomAt;
    AtomOne(ts, i, n);
    assert RepAt(ts, i, i + 1, n, n, One(At(ts, i).t));
  }

  /** xy and x|y */
  lemma {:induction false} PairTrees(t: RuneTest, u: RuneTest)
    ensures Derives([TRune(t), TRune(u)], Cat(One(t), One(u)))
    ensures Derives([TRune(t), TBar, TRune(u)], Alt(One(t), One(u)))
  {
    hide AtomAt, RepAt;
    var xy := [TRune(t), TRune(u)];
    RuneAt(xy, 0, 1);
    RuneAt(xy, 1, 1);
    assert SeqAt(xy, 0, 2, 1, 1, Cat(One(t), One(u)));
    assert AltAt(xy, 0, 2, 1, 1, Cat(One(t), One(u)));
    var xoy := [TRune(t), TBar, TRune(u)];
    RuneAt(xoy, 0, 1);
    RuneAt(xoy, 2, 1);
    assert AltAt(xoy, 0, 3, 1, 1, Alt(One(t), One(u)));
  }

  /** x*, x+, x? and x{a,b}, greedy or not. */
  lemma {:induction false} RepTrees(t: RuneTest, ng: bool, a: nat, b: nat)
    ensures var lazy := if ng then [TQuest] else [];
      && Derives([TRune(t), TStar] + lazy, Rep(One(t), ng, 0, REPINF))
      && Derives([TRune(t), TPlus] + lazy, Rep(One(t), ng, 1, REPINF))
      && Derives([TRune(t), TQuest] + lazy, Rep(One(t), ng, 0, 1))
      && (a <= b ==> Derives([TRune(t), TCount(a, b)] + lazy, Rep(One(t), ng, a, b)))
  {
    RepTree(t, TStar, ng);
    RepTree(t, TPlus, ng);
    RepTree(t, TQuest, ng);
    if a <= b { RepTree(t, TCount(a, b), ng); }
  }

  lemma {:induction false} RepTree(t: RuneTest, q: Token, ng: bool)
    requires Quantifier(q) && Times(q).0 <= Times(q).1
    ensures Derives([TRune(t), q] + if ng then [TQuest] else [], Rep(One(t), ng, Times(q).0, Times(q).1))
  {
    hide AtomAt;
    var lazy := if ng then [TQuest] else [];
    var ts, node := [TRune(t), q] + lazy, Rep(One(t), ng, Times(q).0, Times(q).1);
    assert AtomAt(ts, 0, 1, 1, 1, One(t)) by { AtomOne(ts, 0, 1); }
    assert QuantAt(ts, 1, |ts|, ng, node.m, node.n);
    assert RepAt(ts, 0, |ts|, 1, 1, node);
    assert CatAt(ts, 0, |ts|, 1, 1, node);
    assert AltAt(ts, 0, |ts|, 1, 1, node);
  }

  lemma {:induction false} AtomOne(ts: seq<Token>, i: nat, n: nat)
    requires At(ts, i).TRune?
    ensures AtomAt(ts, i, i + 1, n, n, One(At(ts, i).t))
  {
  }

  /** (x), (?:x), (?=x) and (?!x) */
  lemma {:induction false} GroupTrees(t: RuneTest)
    ensures Derives([TOpen, TRune(t), TClose], Par(1, One(t)))
    ensures Derives([TOpenNC, TRune(t), TClose], One(t))
    ensures Derives([TOpenPla, TRune(t), TClose], Pla(One(t)))
    ensures Derives([TOpenNla, TRune(t), TClose], Nla(One(t)))
  {
    GroupTree(t, TOpen, Par(1, One(t)), 2);
    GroupTree(t, TOpenNC, One(t), 1);
    GroupTree(t, TOpenPla, Pla(One(t)), 1);
    GroupTree(t, TOpenNla, Nla(One(t)), 1);
  }

  lemma {:induction false} GroupTree(t: RuneTest, open: Token, node: Node, m: nat)
    requires (open == TOpen && node == Par(1, One(t)) && m == 2) || (open == TOpenNC && node == One(t) && m == 1)
      || (open == TOpenPla && node == Pla(One(t)) && m == 1) || (open == TOpenNla && node == Nla(One(t)) && m == 1)
    ensures Derives([open, TRune(t), TClose], node)
  {
    hide RepAt, SeqAt, CatAt, AltAt;
    var ts := [open, TRune(t), TClose];
    RuneAt(ts, 1, m);
    assert AtomAt(ts, 0, 3, 1, m, node);
    Loosely(4, 0, ts, 0, 3, 1, m, node);
  }

  /** What is wrong with *, (?:x, x), x{2,1} and (?:)*. */
  lemma {:induction false} Faults(t: RuneTest)
    ensures Faulty([TStar], Syntax)
    ensures Faulty([TOpenNC, TRune(t)], Unmatched)
    ensures Faulty([TRune(t), TClose], Unmatched)
    ensures Faulty([TRune(t), TCount(2, 1)], BadQuantifier)
    ensures Faulty([TOpenNC, TClose, TStar], EmptyLoop)
  {
    hide AltAt;
    RuneAt([TRune(t), TClose], 0, 1);
    NoAtom();
    NotClosed(t);
    BadCounts(t);
    EmptyLoops();
  }

  lemma {:induction false} NoAtom()
    ensures RepDies([TStar], 0, 1, Syntax) && AltDies([TStar], 0, 1, Syntax)
  {
    assert AtomDies([TStar], 0, 1, Syntax);
    assert CatDies([TStar], 0, 1, Syntax);
  }

  lemma {:induction false} NotClosed(t: RuneTest)
    ensures AltDies([TOpenNC, TRune(t)], 0, 1, Unmatched)
  {
    hide AltAt;
    var ts := [TOpenNC, TRune(t)];
    RuneAt(ts, 1, 1);
    assert GroupDies(ts, 1, 1, Unmatched);
    assert AtomDies(ts, 0, 1, Unmatched);
    assert RepDies(ts, 0, 1, Unmatched);
    assert CatDies(ts, 0, 1, Unmatched);
  }

  lemma {:induction false} BadCounts(t: RuneTest)
    ensures AltDies([TRune(t), TCount(2, 1)], 0, 1, BadQuantifier)
  {
    hide AtomAt;
    var ts := [TRune(t), TCount(2, 1)];
    AtomOne(ts, 0, 1);
    assert QuantDies(At(ts, 1), One(t), BadQuantifier);
    assert RepDies(ts, 0, 1, BadQuantifier);
    assert CatDies(ts, 0, 1, BadQuantifier);
  }

  lemma {:induction false} EmptyLoops()
    ensures AltDies([TOpenNC, TClose, TStar], 0, 1, EmptyLoop)
  {
    hide AltAt;
    var ts := [TOpenNC, TClose, TStar];
    Loosely(1, 0, ts, 1, 1, 1, 1, Null);
    assert AtomAt(ts, 0, 2, 1, 1, Null);
    assert QuantDies(At(ts, 2), Null, EmptyLoop);
    assert RepDies(ts, 0, 1, EmptyLoop);
    assert CatDies(ts, 0, 1, EmptyLoop);
  }
}
