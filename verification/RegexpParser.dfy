/** The recursive-descent parser of regexp.c, working on the tokens of the lexer, with the
    count of nodes it takes from a list of 2 * strlen(pattern) of them. */
module RegexpParser {
  import opened RegexpTree
  import opened RegexpGrammar

  /** Parser state: the tokens not yet accepted, nodes taken so far, captures numbered so far. */
  class CState {
    const source: seq<Token>
    var pos: nat
    var pend: nat
    var nsub: nat

    constructor (tokens: seq<Token>)
      requires Lexed(tokens)
      ensures Valid() && source == tokens && pos == 0 && pend == 0 && nsub == 1
    {
      source := tokens;
      pos, pend, nsub := 0, 0, 1;
    }

    ghost predicate Valid()
      reads this
    {
      Lexed(source) && pos <= |source| && 1 <= nsub <= MAXSUB
    }

    function Lookahead(): Token
      requires Valid()
      reads this
    {
      if pos < |source| then source[pos] else TEnd
    }

    method Accept(t: Token) returns (ok: bool)
      requires Valid() && t != TEnd
      modifies this`pos
      ensures Valid() && ok == (old(Lookahead()) == t) && pos == old(pos) + if ok then 1 else 0
    {
      ok := Lookahead() == t;
      if ok { pos := pos + 1; }
    }

    /** `newnode`: the list must not be exhausted. */
    method NewNode()
      requires pend < 2 * |source|
      modifies this`pend
      ensures pend == old(pend) + 1
    {
      pend := pend + 1;
    }

    /** A parse begun at pos0 with pend0 nodes took fewer than two nodes for each token. */
    ghost predicate Frugal(pos0: nat, pend0: nat)
      reads this
    {
      pos0 < pos && pend - pend0 < 2 * (pos - pos0)
    }

    /** The result r and the state are those that the step says. */
    ghost predicate Does(r: Result, step: Step)
      reads this
    {
      if r.Ok? then step == Got(r.node, pos, nsub) else step == Died(r.error)
    }

    /** `newrep` */
    method NewRep(atom: Node, ng: bool, min: nat, max: nat) returns (r: Result)
      requires pend < 2 * |source|
      modifies this`pend
      ensures pend == old(pend) + 1
      ensures r == if max == REPINF && Empty(atom) then Die(EmptyLoop) else Ok(Rep(atom, ng, min, max))
    {
      NewNode();
      if max == REPINF && Empty(atom) { return Die(EmptyLoop); }
      r := Ok(Rep(atom, ng, min, max));
    }

    /** The rest of a bracketed group: its body and the closing parenthesis. */
    method ParseGroup() returns (r: Result)
      requires Valid() && pend <= 2 * pos
      modifies this`pos, this`pend, this`nsub
      ensures Valid() && Does(r, GroupF(source, old(pos), old(nsub)))
      ensures r.Ok? ==> pos > old(pos) && pend - old(pend) <= 2 * (pos - old(pos)) - 2
      decreases |source| - pos, 4
    {
      hide AltF;
      r := ParseAlt();
      if r.Die? { return; }
      var closed := Accept(TClose);
      if !closed { return Die(Unmatched); }
    }

    method ParseAtom() returns (r: Result)
      requires Valid() && pend <= 2 * pos
      modifies this`pos, this`pend, this`nsub
      ensures Valid() && Does(r, AtomF(source, old(pos), old(nsub)))
      ensures r.Ok? ==> Frugal(old(pos), old(pend))
      decreases |source| - pos, 0
    {
      hide GroupF;
      match Lookahead() {
        case TRune(t) =>
          NewNode();
          pos := pos + 1;
          return Ok(One(t));
        case TOpen =>
          pos := pos + 1;
          NewNode();
          if nsub == MAXSUB { return Die(TooManyCaptures); }
          var k := nsub;
          nsub := nsub + 1;
          r := ParseGroup();
          if r.Ok? { r := Ok(Par(k, r.node)); }
        case TOpenNC =>
          pos := pos + 1;
          r := ParseGroup();
        case TOpenPla =>
          pos := pos + 1;
          NewNode();
          r := ParseGroup();
          if r.Ok? { r := Ok(Pla(r.node)); }
        case TOpenNla =>
          pos := pos + 1;
          NewNode();
          r := ParseGroup();
          if r.Ok? { r := Ok(Nla(r.node)); }
        case _ => return Die(Syntax);
      }
    }

    method ParseRep() returns (r: Result)
      requires Valid() && pend <= 2 * pos && pos < |source|
      modifies this`pos, this`pend, this`nsub
      ensures Valid() && Does(r, RepF(source, old(pos), old(nsub)))
      ensures r.Ok? ==> Frugal(old(pos), old(pend))
      decreases |source| - pos, 1
    {
      hide AtomF;
      if Lookahead().TAssert? {
        var a := Lookahead().a;
        pos := pos + 1;
        NewNode();
        return Ok(Assert(a));
      }
      r := ParseAtom();
      if r.Die? { return; }
      match Lookahead() {
        case TCount(min, max) =>
          pos := pos + 1;
          if max < min { return Die(BadQuantifier); }
          var ng := Accept(TQuest);
          r := NewRep(r.node, ng, min, max);
        case TStar =>
          pos := pos + 1;
          var ng := Accept(TQuest);
          r := NewRep(r.node, ng, 0, REPINF);
        case TPlus =>
          pos := pos + 1;
          var ng := Accept(TQuest);
          r := NewRep(r.node, ng, 1, REPINF);
        case TQuest =>
          pos := pos + 1;
          var ng := Accept(TQuest);
          r := NewRep(r.node, ng, 0, 1);
        case _ =>
      }
    }

    predicate AtCatEnd()
      requires Valid()
      reads this
    {
      Lookahead().TEnd? || Lookahead().TBar? || Lookahead().TClose?
    }

    method ParseCat() returns (r: Result)
      requires Valid() && pend <= 2 * pos
      modifies this`pos, this`pend, this`nsub
      ensures Valid() && Does(r, CatF(source, old(pos), old(nsub)))
      ensures r.Ok? ==> pos >= old(pos) && pend - old(pend) <= 2 * (pos - old(pos))
      decreases |source| - pos, 2
    {
      hide RepF;
      if AtCatEnd() { return Ok(Null); }
      ghost var pos0, pend0, whole := pos, pend, CatF(source, pos, nsub);
      r := ParseRep();
      while r.Ok? && !AtCatEnd()
        invariant Valid()
        invariant whole == if r.Ok? then SeqF(source, r.node, pos, nsub) else Died(r.error)
        invariant r.Ok? ==> Frugal(pos0, pend0)
        decreases r.Ok?, |source| - pos
      {
        var x := r.node;
        NewNode();
        r := ParseRep();
        if r.Ok? { r := Ok(Cat(x, r.node)); }
      }
    }

    method ParseAlt() returns (r: Result)
      requires Valid() && pend <= 2 * pos
      modifies this`pos, this`pend, this`nsub
      ensures Valid() && Does(r, AltF(source, old(pos), old(nsub)))
      ensures r.Ok? ==> pos >= old(pos) && pend - old(pend) <= 2 * (pos - old(pos))
      decreases |source| - pos, 3
    {
      hide CatF;
      ghost var pos0, pend0, whole := pos, pend, AltF(source, pos, nsub);
      r := ParseCat();
      while r.Ok? && Lookahead() == TBar
        invariant Valid()
        invariant whole == if r.Ok? then BarsF(source, r.node, pos, nsub) else Died(r.error)
        invariant r.Ok? ==> pos >= pos0 && pend - pend0 <= 2 * (pos - pos0)
        decreases r.Ok?, |source| - pos
      {
        pos := pos + 1;
        var x := r.node;
        NewNode();
        r := ParseCat();
        if r.Ok? { r := Ok(Alt(x, r.node)); }
      }
    }
  }

  /** The whole parse: the one tree that the tokens stand for, or the error in them. The tree may be
      compiled, and its groups are numbered in order. */
  method Parse(tokens: seq<Token>) returns (r: Result)
    requires Lexed(tokens)
    ensures r.Ok? <==> exists node :: Derives(tokens, node)
    ensures forall node :: r == Ok(node) <==> Derives(tokens, node)
    ensures forall e :: r == Die(e) <==> Faulty(tokens, e)
    ensures r.Ok? ==> Accepted(r.node) && exists n: nat :: n <= MAXSUB && Numbered(r.node, 1, n)
  {
    hide AltF, AltAt, Derives, Faulty;
    var g := new CState(tokens);
    r := g.ParseAlt();
    if r.Ok? {
      if g.Lookahead() == TClose { r := Die(Unmatched); } else if g.Lookahead() != TEnd { r := Die(Syntax); }
    }
    ParsedMeans(tokens, r);
  }

  lemma {:induction false} ParsedMeans(tokens: seq<Token>, r: Result)
    requires Lexed(tokens) && r == ParseF(tokens)
    ensures r.Ok? <==> exists node :: Derives(tokens, node)
    ensures forall node :: r == Ok(node) <==> Derives(tokens, node)
    ensures forall e :: r == Die(e) <==> Faulty(tokens, e)
    ensures r.Ok? ==> Accepted(r.node) && exists n: nat :: n <= MAXSUB && Numbered(r.node, 1, n)
  {
    hide AltAt, ParseF, Faulty;
    forall node
      ensures r == Ok(node) <==> Derives(tokens, node)
    {
      DerivesRead(tokens, node);
    }
    forall e
      ensures r == Die(e) <==> Faulty(tokens, e)
    {
      FaultyRead(tokens, e);
    }
    if r.Ok? {
      assert Derives(tokens, r.node);
      var m: nat :| AltAt(tokens, 0, |tokens|, 1, m, r.node);
      AltAccepted(tokens, 0, |tokens|, 1, m, r.node);
    }
  }
}
