/** Statements that jscompile.c does not compile to what they mean. A break that is itself labelled
    by the name it has should do nothing. If there is no other such label it is rejected. It goes
    to the start of the function if another label with that name is among those in front of it, and
    it leaves the enclosing statement if that has such a label as well. A for-in loop over a[b]
    stores into the wrong object. */
module JsFaults {
  import opened JsTree
  import opened JsMachine
  import opened JsMeaning
  import opened JsCode
  import opened JsTargets
  import opened JsExpressions
  import opened JsStatements
  import opened JsControl
  import opened JsLayout

  // ----- breaks -----

  function KindAt(p: Path, k: nat): Kind
    requires 0 < k <= Depth(p)
  {
    if Depth(p) == k then p.kind else KindAt(p.up, k)
  }

  /** The only breaks whose target is a label's own node: labelled, and naming one of the labels
      in front of the last. */
  lemma {:induction false} TargetIsLabel(p: Path, l: Option<Name>)
    requires 0 < BreakTarget(p, l)
    ensures KindAt(p, BreakTarget(p, l)).Labelled? <==> l.Some? && p.kind.Labelled? && MatchLabel(p.up, l.value)
  {
    if BreakTarget(p, l) < Depth(p) { TargetIsLabel(p.up, l); }
  }

  /** Where a break goes: to the start, if its target is a label, or else behind the target. */
  lemma {:induction false} TargetBehind(p: Path, d: seq<Dest>, end: nat, l: Option<Name>)
    requires |d| == Depth(p) && Laid(p, d, end) && 0 < BreakTarget(p, l)
    ensures var k := BreakTarget(p, l);
      && (KindAt(p, k).Labelled? ==> d[k - 1].brk == 0)
      && (!KindAt(p, k).Labelled? ==> end + Behind(KindAt(p, k)) <= d[k - 1].brk)
  {
    var n := |d| - 1;
    if BreakTarget(p, l) < Depth(p) {
      TargetBehind(p.up, d[..n], if p.kind.Labelled? then end else d[n].brk, l);
    }
  }

  /** Nothing is left to be taken off between the two. */
  lemma {:induction false} BehindTransparent(p: Path, d: seq<Dest>, end: nat, l: Option<Name>)
    requires |d| == Depth(p) && Laid(p, d, end) && 0 < BreakTarget(p, l)
    ensures var k := BreakTarget(p, l); !KindAt(p, k).Labelled? && d[k - 1].brk == end ==> Transparent(p, k)
  {
    var n := |d| - 1;
    var end1 := if p.kind.Labelled? then end else d[n].brk;
    if BreakTarget(p, l) < Depth(p) {
      TargetBehind(p.up, d[..n], end1, l);
      BehindTransparent(p.up, d[..n], end1, l);
    }
  }

  /** Evaluation says where a break should arrive. It does exactly if it does not name a label of
      its own, or is the last code of the statement that it jumps behind. */
  lemma {:induction false} BreakArrives(f: Fn, c: Ctx, x: Part, t: State) returns (n: nat)
    requires Placed(f, c.names, x) && x.s.Break? && StmReady(c, x.p, x.d, t) && t.pc == x.a
    ensures
      var k := BreakTarget(x.p, x.s.l);
      var r := Broke(x.s.l, MemOf(t));
      && 0 < k && Run(f, c.lib, t, n) == Land(Unwind(ByBreak, x.p, k, RegsOf(t)), x.d[k - 1].brk, MemOf(t))
      && (Run(f, c.lib, t, n) == Arrives(t, x.p, x.d, EndOf(x), r) <==> Sane(x.s, x.p, x.d, x.a))
      && (Sane(x.s, x.p, x.d, x.a) <==>
            (x.s.l.Some? && MatchLabel(x.p, x.s.l.value) ==> x.d[k - 1].brk == EndOf(x)))
  {
    hide Is, Decode, Run, CodedS, SizeS, Sane, Fits, Unwind, CodedExit, SizeExit, BreakTarget, MatchLabel, Laid;
    hide Transparent;
    var p, d := x.p, x.d;
    CodedSDef(f, c.names, x.s, p, d, t.pc);
    SaneDef(x.s, p, d, t.pc);
    var k := BreakTarget(p, x.s.l);
    n := ExitRuns(f, c.lib, ByBreak, p, k, RegsOf(t), None, t.pc, MemOf(t));
    var q := t.pc + SizeExit(ByBreak, p, k);
    Runs1(f, c.lib, Land(Unwind(ByBreak, p, k, RegsOf(t)), q, MemOf(t)), Jump(d[k - 1].brk), q + 2);
    RunAdd(f, c.lib, t, n, 1);
    n := n + 1;
    TargetBehind(p, d, EndOf(x), x.s.l);
    BehindTransparent(p, d, EndOf(x), x.s.l);
    if Transparent(p, k) { TransparentLeaves(p, k, RegsOf(t)); }
  }

  /** The same of every break in a compiled body. */
  lemma {:induction false} BreaksArrive(f: Fn, c: Ctx, body: Stms, x: Part, t: State) returns (n: nat)
    requires CodedBody(f, c.names, body, 0) && PartOf(x, body) && x.s.Break?
    requires StmReady(c, x.p, x.d, t) && t.pc == x.a
    ensures
      var k := BreakTarget(x.p, x.s.l);
      var r := Broke(x.s.l, MemOf(t));
      && 0 < k && Run(f, c.lib, t, n) == Land(Unwind(ByBreak, x.p, k, RegsOf(t)), x.d[k - 1].brk, MemOf(t))
      && (Run(f, c.lib, t, n) == Arrives(t, x.p, x.d, EndOf(x), r) <==> Sane(x.s, x.p, x.d, x.a))
      && (Sane(x.s, x.p, x.d, x.a) <==>
            (x.s.l.Some? && MatchLabel(x.p, x.s.l.value) ==> x.d[k - 1].brk == EndOf(x)))
  {
    hide Run, CodedList, Placed, Sane, PartOf, Arrives, Unwind;
    PartsPlaced(f, c.names, body, x);
    n := BreakArrives(f, c, x, t);
  }

  // ----- a break to the start -----

  /** a: b: break a; */
  const STUCK: Stms := Stms(Label("a", Label("b", Break(Some("a")))), NoStms)

  lemma {:induction false} StuckMeans(c: Ctx, scope: Scope, m: Mem, fuel: nat)
    ensures ExecList(c, STUCK, scope, m, fuel) == Normal(m)
  {
    hide Exec;
    var none: set<Name> := {};
    var s := STUCK.head;
    ExecDef(c, s, none, scope, m, fuel);
    ExecDef(c, s.s, none + {"a"}, scope, m, fuel);
    ExecDef(c, s.s.s, none + {"a"} + {"b"}, scope, m, fuel);
    assert ExecList(c, STUCK.tail, scope, m, fuel) == Normal(m);
  }

  lemma {:induction false} StuckNotSane()
    ensures !SaneList(STUCK, Function, [], 0)
  {
    hide Sane, SizeS;
    var p1 := Inside(Labelled("a"), Function);
    SaneDef(STUCK.head, Function, [], 0);
    SaneDef(STUCK.head.s, p1, [] + [Dest(0, 0)], 0);
    SaneDef(STUCK.head.s.s, Inside(Labelled("b"), p1), [] + [Dest(0, 0)] + [Dest(0, 0)], 0);
  }

  /** It should end at once. Compiled, it jumps to its own start for ever. */
  lemma {:induction false} StuckForever(f: Fn, c: Ctx, t: State, n: nat)
    requires Ready(c, t) && t.pc == 0 && CodedBody(f, c.names, STUCK, 0)
    ensures ExecList(c, STUCK, t.scope, MemOf(t), n) == Normal(MemOf(t))
    ensures Run(f, c.lib, t, n) == t && !SaneList(STUCK, Function, [], 0)
    decreases n
  {
    hide Is, Decode, Run, CodedS, SizeS, Exec, SaneList;
    StuckNotSane();
    StuckMeans(c, t.scope, MemOf(t), n);
    StuckCode(f, c.names);
    Runs1(f, c.lib, t, Jump(0), 2);
    if n == 0 { Run0(f, c.lib, t); } else {
      RunAdd(f, c.lib, t, 1, n - 1);
      StuckForever(f, c, t, n - 1);
    }
  }

  lemma {:induction false} StuckCode(f: Fn, ns: Names)
    requires CodedBody(f, ns, STUCK, 0)
    ensures Is(f, 0, Jump(0), 2)
  {
    hide Is, CodedS, SizeS;
    var p1 := Inside(Labelled("a"), Function);
    var p2 := Inside(Labelled("b"), p1);
    CodedSDef(f, ns, STUCK.head, Function, [], 0);
    CodedSDef(f, ns, STUCK.head.s, p1, [] + [Dest(0, 0)], 0);
    CodedSDef(f, ns, STUCK.head.s.s, p2, [] + [Dest(0, 0)] + [Dest(0, 0)], 0);
  }

  // ----- a break out of an outer statement -----

  /** a: while (true) { a: break a; } */
  const TWICE: Stm := Label("a", While(TrueLit, Block(Stms(Label("a", Break(Some("a"))), NoStms))))
  const TWICE_BODY: Stms := Stms(TWICE, NoStms)

  /** The break ends only the statement inside the loop. */
  lemma {:induction false} TwiceMeans(c: Ctx, scope: Scope, m: Mem, fuel: nat)
    ensures ExecList(c, TWICE_BODY, scope, m, fuel).Timeout?
  {
    hide Exec, ExecLoop;
    var none: set<Name> := {};
    ExecDef(c, TWICE, none, scope, m, fuel);
    ExecDef(c, TWICE.s, none + {"a"}, scope, m, fuel);
    TwiceRounds(c, none + {"a"}, scope, m, fuel);
  }

  lemma {:induction false} TwiceRounds(c: Ctx, labels: set<Name>, scope: Scope, m: Mem, fuel: nat)
    ensures ExecLoop(c, Some(TrueLit), None, TWICE.s.s, labels, scope, m, fuel).Timeout?
    decreases fuel
  {
    hide Exec;
    var none: set<Name> := {};
    var b := TWICE.s.s.body.head;
    ExecDef(c, TWICE.s.s, none, scope, m, fuel);
    ExecDef(c, b, none, scope, m, fuel);
    ExecDef(c, b.s, none + {"a"}, scope, m, fuel);
    assert ExecList(c, NoStms, scope, m, fuel) == Normal(m);
    assert ExecList(c, TWICE.s.s.body, scope, m, fuel) == Normal(m);
    if fuel > 0 { TwiceRounds(c, labels, scope, m, fuel - 1); }
  }

  lemma {:induction false} TwiceCode(f: Fn, ns: Names)
    requires CodedBody(f, ns, TWICE_BODY, 0)
    ensures Is(f, 0, Push(Boolean(true)), 1) && Is(f, 1, JFalse(7), 3) && Is(f, 3, Jump(7), 5)
    ensures Is(f, 7, Push(Undefined), 8) && Is(f, 8, Ret, 9)
  {
    hide Is, CodedS, SizeS, Coded, SizeE;
    var p1 := Inside(Labelled("a"), Function);
    var p2 := Inside(Loop, p1);
    var d1 := [] + [Dest(0, 0)];
    TwiceInner(f, ns, p2, d1 + [Dest(7, 0)]);
    CodedDef(f, ns, TrueLit, 0);
    CodedSDef(f, ns, TWICE, Function, [], 0);
    CodedSDef(f, ns, TWICE.s, p1, d1, 0);
  }

  /** The body of the loop, when its end is 7. */
  lemma {:induction false} TwiceInner(f: Fn, ns: Names, p: Path, d: seq<Dest>)
    requires p == Inside(Loop, Inside(Labelled("a"), Function)) && d == [Dest(0, 0), Dest(7, 0)]
    ensures SizeS(TWICE.s.s, p) == 2 && (CodedS(f, ns, TWICE.s.s, p, d, 3) ==> Is(f, 3, Jump(7), 5))
  {
    hide Is, CodedS, SizeS, BreakTarget;
    var b := TWICE.s.s.body.head;
    var p1 := Inside(Plain, p);
    var d1 := d + [Dest(5, 0)];
    TwiceBreak(f, ns, Inside(Labelled("a"), p1), d1 + [Dest(0, 0)]);
    CodedSDef(f, ns, TWICE.s.s, p, d, 3);
    CodedSDef(f, ns, b, p1, d1, 3);
  }

  lemma {:induction false} TwiceBreak(f: Fn, ns: Names, p: Path, d: seq<Dest>)
    requires p == Inside(Labelled("a"), Inside(Plain, Inside(Loop, Inside(Labelled("a"), Function))))
    requires |d| == 4 && d[1] == Dest(7, 0)
    ensures SizeS(Break(Some("a")), p) == 2 && (CodedS(f, ns, Break(Some("a")), p, d, 3) ==> Is(f, 3, Jump(7), 5))
  {
    hide Is;
    assert BreakTarget(p, Some("a")) == 2;
    CodedSDef(f, ns, Break(Some("a")), p, d, 3);
  }

  /** It should go round for ever. Compiled, it leaves the loop and the function. */
  lemma {:induction false} TwiceEnds(f: Fn, c: Ctx, t: State, fuel: nat)
    requires Ready(c, t) && t.pc == 0 && CodedBody(f, c.names, TWICE_BODY, 0)
    ensures ExecList(c, TWICE_BODY, t.scope, MemOf(t), fuel).Timeout?
    ensures Run(f, c.lib, t, 5) == Returned(Undefined, t.scope, t.tries, t.w)
  {
    hide Is, Decode, Run, CodedS, SizeS, Exec;
    TwiceMeans(c, t.scope, MemOf(t), fuel);
    TwiceCode(f, c.names);
    Runs1(f, c.lib, t, Push(Boolean(true)), 1);
    Runs1(f, c.lib, t.(pc := 1, ops := On(Boolean(true), t.ops)), JFalse(7), 3);
    Runs1(f, c.lib, t.(pc := 3), Jump(7), 5);
    Runs1(f, c.lib, t.(pc := 7), Push(Undefined), 8);
    Runs1(f, c.lib, t.(pc := 8, ops := On(Undefined, t.ops)), Ret, 9);
    RunAdd(f, c.lib, t, 1, 1);
    RunAdd(f, c.lib, t, 2, 1);
    RunAdd(f, c.lib, t, 3, 1);
    RunAdd(f, c.lib, t, 4, 1);
  }

  // ----- the value of an assignment -----

  /** What the store r of v should give (section 11.13.1 of ECMA-262 5.1): v. */
  function Storing(r: Out<Value>, v: Value): Out<Value> {
    if r.Val? then r.(v := v) else r
  }

  /** The store gives back the value that was to be stored, if it does not fail. A local variable
      always does. */
  ghost predicate GivesBack(c: Ctx, r: Ref, v: Value, scope: Scope, m: Mem) {
    match r
    case VarRef(x) => Slot(c.names, x).Some? || Same(c.lib.prim(SetVar(x), On(v, Bottom), scope, m.w), v)
    case PropRef(o, k) => Same(c.lib.prim(SetProp, On(v, On(k, On(o, Bottom))), scope, m.w), v)
    case MemberRef(o, x) => Same(c.lib.prim(SetMember(x), On(v, On(o, Bottom)), scope, m.w), v)
  }

  ghost predicate Same(r: Res<Value>, v: Value) {
    r.Ok? ==> r.val == v
  }

  /** What an assignment should do: evaluate the place, then the value, then store, and give the
      value that was stored. */
  function AssignMeant(c: Ctx, e: Exp, scope: Scope, m: Mem): Out<Value>
    requires e.Assign?
  {
    match EvalRef(c, e.a, scope, m)
    case Exc(x, m1) => Exc(x, m1)
    case Val(r, m1) =>
      match Eval(c, e.b, scope, m1)
      case Exc(x, m2) => Exc(x, m2)
      case Val(v, m2) => Storing(Put(c, r, v, scope, m2), v)
  }

  lemma {:induction false} PutGives(c: Ctx, r: Ref, v: Value, scope: Scope, m: Mem)
    ensures Put(c, r, v, scope, m) == Storing(Put(c, r, v, scope, m), v) <==> GivesBack(c, r, v, scope, m)
  {
  }

  /** It does exactly if the store gives back its operand. */
  lemma {:induction false} AssignGives(c: Ctx, e: Exp, scope: Scope, m: Mem)
    requires e.Assign?
    ensures Eval(c, e, scope, m) == AssignMeant(c, e, scope, m) <==>
      var r := EvalRef(c, e.a, scope, m);
      r.Val? ==>
        var v := Eval(c, e.b, scope, r.m);
        v.Val? ==> GivesBack(c, r.v, v.v, scope, v.m)
  {
    hide Eval, EvalRef, Put, GivesBack;
    EvalDef(c, e, scope, m);
    var r := EvalRef(c, e.a, scope, m);
    if r.Val? {
      var v := Eval(c, e.b, scope, r.m);
      if v.Val? { PutGives(c, r.v, v.v, scope, v.m); }
    }
  }

  /** function (a, o) { return a.length = o; } */
  const RESIZE: Stms := Stms(Return(Some(Assign(Member(Ident("a"), "length"), Ident("o")))), NoStms)
  const RESIZE_NAMES: Names := Names(["a", "o"], true)

  /** When a is an array, the store converts o in its place on the stack. Called with the object
      `{valueOf: function () { return 3; }}` the function returns 3, not the object. */
  lemma {:induction false} ResizeReturns(f: Fn, c: Ctx, t: State, p: Value, w: World) returns (n: nat)
    requires Ready(c, t) && c.names == RESIZE_NAMES && CodedBody(f, c.names, RESIZE, t.pc)
    requires c.lib.prim(SetMember("length"), On(t.frame[2], On(t.frame[1], Bottom)), t.scope, t.w) == Ok(p, w)
    ensures Run(f, c.lib, t, n) == Returned(p, t.scope, t.tries, w)
  {
    hide Is, Decode, Run, CodedBody, Exec, Eval, SaneList, FindLocal;
    ResizeSane(t.pc);
    n := BodyRuns(f, c, RESIZE, t, 0);
    ResizeMeans(c, t, p, w);
  }

  lemma {:induction false} ResizeSane(a: nat)
    ensures SaneList(RESIZE, Function, [], a)
  {
  }

  lemma {:induction false} ResizeSlots()
    ensures FindLocal(["a", "o"], "a") == Some(1) && FindLocal(["a", "o"], "o") == Some(2)
  {
    assert ["a", "o"][..1] == ["a"];
  }

  lemma {:induction false} ResizeMeans(c: Ctx, t: State, p: Value, w: World)
    requires t.Running? && |t.frame| == 3 && c.names == RESIZE_NAMES
    requires c.lib.prim(SetMember("length"), On(t.frame[2], On(t.frame[1], Bottom)), t.scope, t.w) == Ok(p, w)
    ensures ExecList(c, RESIZE, t.scope, MemOf(t), 0) == Gave(p, Mem(t.frame, w))
  {
    hide Exec, Eval;
    var none: set<Name> := {};
    ResizeValue(c, t, p, w);
    ExecDef(c, RESIZE.head, none, t.scope, MemOf(t), 0);
  }

  lemma {:induction false} ResizeValue(c: Ctx, t: State, p: Value, w: World)
    requires t.Running? && |t.frame| == 3 && c.names == RESIZE_NAMES
    requires c.lib.prim(SetMember("length"), On(t.frame[2], On(t.frame[1], Bottom)), t.scope, t.w) == Ok(p, w)
    ensures Eval(c, RESIZE.head.r.value, t.scope, MemOf(t)) == Val(p, Mem(t.frame, w))
  {
    hide Eval, FindLocal;
    var e := RESIZE.head.r.value;
    ResizeSlots();
    EvalDef(c, e, t.scope, MemOf(t));
    EvalDef(c, e.a.a, t.scope, MemOf(t));
    EvalDef(c, e.b, t.scope, MemOf(t));
  }

  // ----- for-in over an indexed place -----

  /** What `cassignforin` really does for an indexed place a[b]: with the name x it is the
      assignment b[x] = a. */
  lemma {:induction false} ForInIndexed(f: Fn, c: Ctx, e: Exp, t: State, t1: State, x: Name) returns (n: nat)
    requires Ready(c, t) && e.Index? && Pushed(t, t1, On(Str(x), Bottom)) && CodedForAssign(f, c.names, e, t1.pc)
    ensures var r := EvalPair(c, e, t.scope, MemOf(t1));
      var r1 := if r.Val? then Put(c, PropRef(r.v.1, Str(x)), r.v.0, t.scope, r.m) else Exc(r.exc, r.m);
      Run(f, c.lib, t1, n) == Ends(t, t1.pc + SizeForAssign(e), Dropped(r1)) && |r1.m.frame| == |t.frame|
  {
    hide Is, Decode, Run, Eval, Coded, SizeE;
    Overs(t.ops);
    PushedMeans(c, t, t1, On(Str(x), Bottom));
    Overs(t1.ops);
    var r := EvalPair(c, e, t.scope, MemOf(t1));
    n := PairRuns(f, c, e, t1);
    if r.Val? {
      var q := t1.pc + SizeRef(e);
      Runs1(f, c.lib, Pushing(t1, q, On(r.v.1, On(r.v.0, Bottom)), r.m), Rot3, q + 1);
      RunAdd(f, c.lib, t1, n, 1);
      var vs := On(r.v.0, On(Str(x), On(r.v.1, Bottom)));
      var t2 := Pushing(t, q + 1, vs, r.m);
      Operate(f, c, t, t2, SetProp, vs, q + 2);
      RunAdd(f, c.lib, t1, n + 1, 1);
      n := n + 2;
      var r1 := Put(c, PropRef(r.v.1, Str(x)), r.v.0, t.scope, r.m);
      if r1.Val? {
        Runs1(f, c.lib, Pushing(t, q + 2, On(r1.v, Bottom), r1.m), Pop, q + 3);
        RunAdd(f, c.lib, t1, n, 1);
        n := n + 1;
      }
    }
  }

  /** So the compiled assignment is the one that is meant exactly when the library makes the
      same of both stores. */
  lemma {:induction false} ForInIndexedMeant(f: Fn, c: Ctx, e: Exp, t: State, t1: State, x: Name) returns (n: nat)
    requires Ready(c, t) && e.Index? && Pushed(t, t1, On(Str(x), Bottom)) && CodedForAssign(f, c.names, e, t1.pc)
    ensures var meant := Ends(t, t1.pc + SizeForAssign(e), Dropped(PutName(c, e, x, t.scope, MemOf(t1))));
      var r := EvalPair(c, e, t.scope, MemOf(t1));
      Run(f, c.lib, t1, n) == meant <==>
        (r.Val? ==> SameStore(c.lib.prim(SetProp, On(r.v.0, On(Str(x), On(r.v.1, Bottom))), t.scope, r.m.w),
                              c.lib.prim(SetProp, On(Str(x), On(r.v.1, On(r.v.0, Bottom))), t.scope, r.m.w)))
  {
    hide Is, Decode, Run, Eval, Coded, SizeE, CodedForAssign;
    n := ForInIndexed(f, c, e, t, t1, x);
  }

  /** The same effect, or the same exception; the value is dropped. */
  ghost predicate SameStore(r: Res<Value>, q: Res<Value>) {
    r.Ok? == q.Ok? && r.w == q.w && (r.Err? ==> r == q)
  }
}
