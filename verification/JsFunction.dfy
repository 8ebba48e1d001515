/** Whole functions: what comes out of the compiler, and what the machine makes of it. */
module JsFunction {
  import opened JsTree
  import opened JsMachine
  import opened JsMeaning
  import opened JsCode
  import opened JsTargets
  import opened JsExpressions
  import opened JsStatements
  import opened JsControl
  import opened JsGrowth
  import opened JsAccepted
  import opened JsCompiler
  import opened JsRejected
  import opened JsDepths
  import opened JsBalanceStm
  import JsVm

  /** TooLarge: an operand does not fit in a js_Instruction. */
  datatype Result = Compiled(f: Fn) | SyntaxError | TooLarge

  ghost predicate TooWide(f: Fn) {
    exists p :: 0 <= p < |f.code| && Big(f.code[p])
  }

  /** The end of `cfunbody`. Every jump has been patched when it returns. */
  method CompileBody(names: Names, body: Stms) returns (r: Result)
    ensures r.Compiled? ==> CodedBody(r.f, names, body, 0) && !TooWide(r.f)
    ensures r.SyntaxError? <==> !AcceptedList(body, Function)
    ensures r.TooLarge? ==> exists f: Fn :: CodedBody(f, names, body, 0) && TooWide(f)
  {
    hide Is, Decode, Extends, Grows, CodedList, SizeList, AcceptedList, Simple;
    var c := new Compiler(names);
    assert JumpsOk(c.view, c.jumps, Function, []);
    var o := c.StatementList(body, Function, []);
    if o.Fail? { return SyntaxError; }
    ghost var f := c.Final();
    ValueCodes();
    LeaveCodes();
    c.Emit(OpUndef);
    ghost var g := c.Final();
    c.Emit(OpReturn);
    ghost var l := c.Final();
    Follows(g, l);
    Then(f, g, l);
    ListUp(f, l, names, body, Function, [], 0);
    Stands(g, l, SizeList(body, Function), Push(Undefined), SizeList(body, Function) + 1);
    assert c.open == {};
    assert c.code == c.view;
    ListOfAccepted(l, names, body, Function, [], 0);
    if c.overflow {
      assert TooWide(l);
      return TooLarge;
    }
    return Compiled(Fn(c.code, c.numtab, c.strtab, c.funtab));
  }

  /** The state in which a call starts. */
  function Started(frame: seq<Value>, scope: Scope, w: World): State {
    Running(0, frame, Bottom, scope, NoTries, w)
  }

  /** The compiler and the machine together: a call of a compiled body stops exactly if its
      evaluation ends, with the same value or exception in the same world. */
  lemma {:induction false} CallMeans(f: Fn, c: Ctx, body: Stms, frame: seq<Value>, scope: Scope, w: World, fuel: nat)
    requires Negates(c.lib) && |frame| == FrameSize(c.names) && SaneList(body, Function, [], 0)
      && CodedBody(f, c.names, body, 0)
    ensures var t := Started(frame, scope, w);
      var r := ExecList(c, body, scope, Mem(frame, w), fuel);
      && (r.Timeout? ==> Run(f, c.lib, t, fuel).Running?)
      && (!r.Timeout? ==> exists n :: Run(f, c.lib, t, n) == Outcome(t, r))
      && (!Run(f, c.lib, t, fuel).Running? ==>
            var q := ExecList(c, body, scope, Mem(frame, w), fuel + 1);
            !q.Timeout? && Run(f, c.lib, t, fuel) == Outcome(t, q))
  {
    hide Is, Decode, Run, SaneList, CodedBody, ExecList;
    var t := Started(frame, scope, w);
    var n := BodyRuns(f, c, body, t, fuel);
    if !Run(f, c.lib, t, fuel).Running? {
      BodyEnds(f, c, body, t, fuel);
      if ExecList(c, body, scope, Mem(frame, w), fuel).Timeout? { Stopped(f, c.lib, t, fuel, n); }
    }
  }

  /** Compiled code never takes more off a stack than is there. */
  lemma {:induction false} NeverWrong(f: Fn, c: Ctx, body: Stms, frame: seq<Value>, scope: Scope, w: World, n: nat)
    requires |frame| == FrameSize(c.names) && GroundedList(body, Function) && CodedBody(f, c.names, body, 0)
    ensures Run(f, c.lib, Started(frame, scope, w), n) != Wrong
  {
    hide Run, GroundedList, CodedBody;
    var k := Code(f, FrameSize(c.names));
    var m := BodyBalanced(k, c.names, body);
    CallMeasured(k, m, SizeList(body, Function) + 2, c.lib, Started(frame, scope, w), n);
  }

  /** A function body, compiled and run for a number of rounds on a stack that holds its frame
      from bot on: what it has returned or thrown is what evaluation gives, and if it is still
      running then evaluation with less fuel than that is not done. */
  method CallBody(c: Ctx, body: Stms, stack: seq<Value>, bot: nat, scope: Scope, w: World, steps: nat)
    returns (r: Result, ended: Option<State>)
    requires Negates(c.lib) && |stack| == bot + FrameSize(c.names) && SaneList(body, Function, [], 0)
    ensures !r.Compiled? ==> ended == None
    ensures r.Compiled? && ended.Some? ==>
      var q := ExecList(c, body, scope, Mem(stack[bot..], w), steps + 1);
      !q.Timeout? && ended.value == Outcome(Started(stack[bot..], scope, w), q)
    ensures r.Compiled? && ended.None? ==> Run(r.f, c.lib, Started(stack[bot..], scope, w), steps).Running?
  {
    hide Is, Decode, Run, SaneList, CodedBody, ExecList;
    ended := None;
    r := CompileBody(c.names, body);
    if r.Compiled? {
      var vm := new JsVm.Vm(r.f, c.lib, stack, bot, scope, w);
      SaneListGrounded(body, Function, [], 0);
      NeverWrong(r.f, c, body, stack[bot..], scope, w, steps);
      vm.Execute(steps);
      ended := vm.ended;
      CallMeans(r.f, c, body, stack[bot..], scope, w, steps);
    }
  }
}
