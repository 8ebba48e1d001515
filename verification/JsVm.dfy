/** The loop of `jsR_run` on the machine's own data: one stack for frames and operands, TOP and
    BOT, the scope chain and the buffer of saved states. */
module JsVm {
  import opened JsTree
  import opened JsMachine

  /** A stretch of the stack, its end first. */
  function OpsOf(s: seq<Value>): Ops {
    if s == [] then Bottom else On(s[|s| - 1], OpsOf(s[..|s| - 1]))
  }

  lemma {:induction false} OpsOfHeight(s: seq<Value>)
    ensures Height(OpsOf(s)) == |s|
  {
    if s != [] { OpsOfHeight(s[..|s| - 1]); }
  }

  lemma {:induction false} OpsOfParts(s: seq<Value>, k: nat)
    requires k <= |s|
    ensures Height(OpsOf(s)) == |s| && Cut(OpsOf(s), k) == OpsOf(s[..k])
    ensures Top(OpsOf(s), |s| - k) == OpsOf(s[k..])
    decreases |s|
  {
    OpsOfHeight(s);
    var n := |s| - 1;
    if k <= n {
      OpsOfParts(s[..n], k);
      assert s[..n][..k] == s[..k] && s[..n][k..] == s[k..][..n - k];
      assert s[k..][n - k] == s[n];
    } else {
      assert s[..k] == s && s[k..] == [];
    }
  }

  lemma {:induction false} OpsOfPush(s: seq<Value>, v: Value)
    ensures OpsOf(s + [v]) == On(v, OpsOf(s))
  {
    assert (s + [v])[..|s|] == s;
  }

  lemma {:induction false} OpsOfLast(s: seq<Value>, m: nat)
    requires m <= |s| && m <= 4
    ensures var n := |s|;
      && (m >= 1 ==> OpsOf(s) == On(s[n - 1], OpsOf(s[..n - 1])))
      && (m >= 2 ==> OpsOf(s[..n - 1]) == On(s[n - 2], OpsOf(s[..n - 2])))
      && (m >= 3 ==> OpsOf(s[..n - 2]) == On(s[n - 3], OpsOf(s[..n - 3])))
      && (m >= 4 ==> OpsOf(s[..n - 3]) == On(s[n - 4], OpsOf(s[..n - 4])))
  {
    var n := |s|;
    assert m >= 2 ==> s[..n - 1][..n - 2] == s[..n - 2];
    assert m >= 3 ==> s[..n - 2][..n - 3] == s[..n - 3];
    assert m >= 4 ==> s[..n - 3][..n - 4] == s[..n - 4];
  }

  lemma {:induction false} OpsOfAppend(s: seq<Value>, vs: seq<Value>)
    requires |vs| <= 4
    ensures OpsOf(s + vs) == match |vs| {
        case 0 => OpsOf(s)
        case 1 => On(vs[0], OpsOf(s))
        case 2 => On(vs[1], On(vs[0], OpsOf(s)))
        case 3 => On(vs[2], On(vs[1], On(vs[0], OpsOf(s))))
        case _ => On(vs[3], On(vs[2], On(vs[1], On(vs[0], OpsOf(s)))))
      }
  {
    if |vs| == 0 {
      assert s + vs == s;
    } else {
      var n := |vs| - 1;
      assert (s + vs)[..|s| + n] == s + vs[..n];
      OpsOfAppend(s, vs[..n]);
    }
  }

  /** One entry of J->trybuf; top is an index into the whole stack. */
  datatype TryEntry = TryEntry(scope: Scope, top: nat, pc: nat)

  function TriesOf(buf: seq<TryEntry>, base: nat): Tries {
    if buf == [] then NoTries
    else
      var e := buf[|buf| - 1];
      Tries(Handler(e.scope, if e.top < base then 0 else e.top - base, e.pc), TriesOf(buf[..|buf| - 1], base))
  }

  /** TOP is set back to an earlier value and the exception is pushed. */
  lemma {:induction false} Unwound(s: seq<Value>, bot: nat, base: nat, top: nat, v: Value)
    requires bot < base <= top <= |s|
    ensures var u := s[..top] + [v];
      Height(OpsOf(s[base..])) == |s| - base && OpsOf(u[base..]) == On(v, Cut(OpsOf(s[base..]), top - base))
      && u[bot..base] == s[bot..base] && u[..bot] == s[..bot]
  {
    OpsOfParts(s[base..], top - base);
    assert s[..top][base..] == s[base..][..top - base];
    OpsOfPush(s[..top][base..], v);
    assert (s[..top] + [v])[base..] == s[..top][base..] + [v];
    assert (s[..top] + [v])[bot..base] == s[bot..base];
  }

  class Vm {
    const f: Fn
    const lib: Lib
    /** BOT, and where the operands start. */
    const bot: nat
    const base: nat
    var pc: nat
    var stack: seq<Value>
    var scope: Scope
    var trybuf: seq<TryEntry>
    var w: World
    /** How the loop was left, if it was. */
    var ended: Option<State>

    ghost predicate Valid()
      reads this
    {
      && bot < base <= |stack| && (forall e | e in trybuf :: base <= e.top)
      && (ended.Some? ==> !ended.value.Running?)
    }

    /** The state with other operands. */
    ghost function With(next: nat, ops: Ops, w1: World): (t: State)
      requires Valid()
      reads this
      ensures t.Running?
    {
      Running(next, stack[bot..base], ops, scope, TriesOf(trybuf, base), w1)
    }

    ghost function Now(): (t: State)
      requires Valid()
      reads this
      ensures t.Running?
    {
      With(pc, OpsOf(stack[base..]), w)
    }

    /** The state of the machine that this one implements. */
    ghost function Abs(): State
      requires Valid()
      reads this
    {
      if ended.Some? then ended.value else Now()
    }

    /** A call on the stack: `this` and the locals from bot on, nothing above them. */
    constructor (f0: Fn, lib0: Lib, stack0: seq<Value>, bot0: nat, scope0: Scope, w0: World)
      requires bot0 < |stack0|
      ensures Valid() && Abs() == Running(0, stack0[bot0..], Bottom, scope0, NoTries, w0)
      ensures f == f0 && lib == lib0 && bot == bot0 && base == |stack0| && ended == None
    {
      f, lib, bot, base := f0, lib0, bot0, |stack0|;
      pc, stack, scope, trybuf, w, ended := 0, stack0, scope0, [], w0, None;
    }

    /** Below the frame nothing changes. */
    ghost predicate Same(s: seq<Value>)
      reads this
    {
      bot <= |stack| && bot <= |s| && stack[..bot] == s[..bot]
    }

    /** The operands become what is left of them below k, and then vs. */
    method Replace(k: nat, vs: seq<Value>, next: nat)
      requires Valid() && ended.None? && k <= |stack| - base
      modifies this`stack, this`pc
      ensures Valid() && Same(old(stack)) && pc == next && stack[bot..base] == old(stack[bot..base])
      ensures stack[base..] == old(stack[base..])[..k] + vs
    {
      stack := stack[..base + k] + vs;
      pc := next;
    }

    /** `js_throw` */
    method Throw(v: Value)
      requires Valid() && ended.None? && Throwing(Now(), v, w) != Wrong
      modifies this
      ensures Valid() && Same(old(stack)) && Abs() == Throwing(old(Now()), v, old(w))
    {
      if trybuf == [] {
        ended := Some(Thrown(v, w));
      } else {
        var e := trybuf[|trybuf| - 1];
        OpsOfHeight(stack[base..]);
        Unwound(stack, bot, base, e.top, v);
        trybuf := trybuf[..|trybuf| - 1];
        scope, stack, pc := e.scope, stack[..e.top] + [v], e.pc;
      }
    }

    /** POP, DUP, DUP2 and the rotations. */
    method Shuffled(i: Instr, next: nat)
      requires Valid() && ended.None? && Shuffle(i, OpsOf(stack[base..])).Some?
      modifies this
      ensures Valid() && Same(old(stack))
      ensures Abs() == old(With(next, Shuffle(i, OpsOf(stack[base..])).value, w))
    {
      hide Shuffle, OpsOf;
      var s := stack[base..];
      var n := |s|;
      Enough(i, s);
      var k, vs := n, [];
      match i {
        case Pop => k := n - 1;
        case Dup => vs := [s[n - 1]];
        case Dup2 => vs := [s[n - 2], s[n - 1]];
        case Rot2 => k, vs := n - 2, [s[n - 1], s[n - 2]];
        case Rot3 => k, vs := n - 3, [s[n - 1], s[n - 3], s[n - 2]];
        case Rot4 => k, vs := n - 4, [s[n - 1], s[n - 4], s[n - 3], s[n - 2]];
      }
      Rearranged(i, s, k, vs);
      Replace(k, vs, next);
    }

    static lemma {:induction false} Enough(i: Instr, s: seq<Value>)
      requires Shuffle(i, OpsOf(s)).Some?
      ensures i.Pop? || i.Dup? || i.Dup2? || i.Rot2? || i.Rot3? || i.Rot4?
      ensures |s| >= if i.Pop? || i.Dup? then 1 else if i.Dup2? || i.Rot2? then 2 else if i.Rot3? then 3 else 4
    {
      hide OpsOf;
      OpsOfHeight(s);
      Heights(OpsOf(s));
    }

    /** The operands above the k lowest are replaced by vs. */
    static lemma {:induction false} Rearranged(i: Instr, s: seq<Value>, k: nat, vs: seq<Value>)
      requires Shuffle(i, OpsOf(s)).Some?
      requires var n := |s|;
        match i
        case Pop => 1 <= n && k == n - 1 && vs == []
        case Dup => 1 <= n && k == n && vs == [s[n - 1]]
        case Dup2 => 2 <= n && k == n && vs == [s[n - 2], s[n - 1]]
        case Rot2 => 2 <= n && k == n - 2 && vs == [s[n - 1], s[n - 2]]
        case Rot3 => 3 <= n && k == n - 3 && vs == [s[n - 1], s[n - 3], s[n - 2]]
        case Rot4 => 4 <= n && k == n - 4 && vs == [s[n - 1], s[n - 4], s[n - 3], s[n - 2]]
        case _ => false
      ensures OpsOf(s[..k] + vs) == Shuffle(i, OpsOf(s)).value
    {
      hide OpsOf;
      var n := |s|;
      OpsOfLast(s, if n < 4 then n else 4);
      OpsOfAppend(s[..k], vs);
      assert s[..n] == s;
    }

    method PushValue(v: Value, next: nat)
      requires Valid() && ended.None?
      modifies this
      ensures Valid() && Same(old(stack)) && Abs() == old(With(next, On(v, OpsOf(stack[base..])), w))
    {
      var s := stack[base..];
      OpsOfPush(s, v);
      assert s[..|s|] == s;
      Replace(|s|, [v], next);
    }

    /** The result of an operation takes the place of its n operands. */
    method Return(n: nat, r: Res<Value>, next: nat)
      requires Valid() && ended.None? && n <= |stack| - base
      requires Result(Now(), r, OpsOf(stack[base..|stack| - n]), next) != Wrong
      modifies this
      ensures Valid() && Same(old(stack))
      ensures Abs() == Result(old(Now()), r, OpsOf(old(stack[base..|stack| - n])), next)
    {
      hide Throwing;
      match r
      case Ok(v, w1) =>
        var k := |stack| - base - n;
        assert stack[base..][..k] == stack[base..|stack| - n];
        OpsOfPush(stack[base..][..k], v);
        Replace(k, [v], next);
        w := w1;
      case Err(v, w1) =>
        WorldOnly(v, w1);
        w := w1;
        Throw(v);
    }

    lemma {:induction false} WorldOnly(v: Value, w1: World)
      requires Valid() && ended.None?
      ensures Throwing(Now(), v, w1) == Throwing(With(pc, OpsOf(stack[base..]), w1), v, w1)
    {
    }

    /** Operations on the topmost values. */
    method Operation(p: Prim, n: nat, next: nat)
      requires Valid() && ended.None? && n <= |stack| - base && Does(lib, Do1(p, n), next, Now()) != Wrong
      modifies this
      ensures Valid() && Same(old(stack))
      ensures Abs() == Does(lib, Do1(p, n), next, old(Now()))
    {
      hide Throwing, Shuffle;
      var s := stack[base..];
      var k := |s| - n;
      OpsOfParts(s, k);
      assert stack[base..|stack| - n] == s[..k];
      var r := lib.prim(p, OpsOf(s[k..]), scope, w);
      Return(n, r, next);
    }

    /** The operations that leave something other than their value. */
    method InitProperty(p: Prim, next: nat)
      requires Valid() && ended.None? && Does(lib, Init3(p), next, Now()) != Wrong
      modifies this
      ensures Valid() && Same(old(stack)) && Abs() == Does(lib, Init3(p), next, old(Now()))
    {
      hide Throwing, Does, OpsOf;
      InitDoes(p, next);
      var s := stack[base..];
      var n := |s|;
      match lib.prim(p, OpsOf(s[n - 3..]), scope, w)
      case Ok(_, w1) => Leave(n - 2, [], next, w1);
      case Err(v, w1) => ThrowIn(v, w1);
    }

    lemma {:induction false} InitDoes(p: Prim, next: nat)
      requires Valid() && ended.None? && Does(lib, Init3(p), next, Now()) != Wrong
      ensures |stack| - base >= 3
      ensures
        var s := stack[base..];
        Does(lib, Init3(p), next, Now()) == match lib.prim(p, OpsOf(s[|s| - 3..]), scope, w) {
          case Ok(_, w1) => With(next, OpsOf(s[..|s| - 2]), w1)
          case Err(v, w1) => Throwing(Now(), v, w1)
        }
    {
      hide Throwing, Shuffle;
      var s := stack[base..];
      OpsOfHeight(s);
      OpsOfLast(s, 2);
      OpsOfParts(s, |s| - 3);
    }

    method Increment(inc: bool, post: bool, next: nat)
      requires Valid() && ended.None? && Does(lib, Bump(inc, post), next, Now()) != Wrong
      modifies this
      ensures Valid() && Same(old(stack)) && Abs() == Does(lib, Bump(inc, post), next, old(Now()))
    {
      hide Throwing, Shuffle, Result;
      var s := stack[base..];
      var n := |s|;
      OpsOfHeight(s);
      OpsOfLast(s, 1);
      match lib.number(s[n - 1], w)
      case Ok(x, w1) =>
        var y := Num(lib.bump(inc, x));
        Leave(n - 1, if post then [y, Num(x)] else [y], next, w1);
      case Err(v, w1) => ThrowIn(v, w1);
    }

    method NextName(next: nat)
      requires Valid() && ended.None? && Does(lib, Next, next, Now()) != Wrong
      modifies this
      ensures Valid() && Same(old(stack)) && Abs() == Does(lib, Next, next, old(Now()))
    {
      hide Throwing, Shuffle, Result;
      var s := stack[base..];
      var n := |s|;
      OpsOfHeight(s);
      OpsOfLast(s, 1);
      assert s[..n] == s;
      match lib.next(s[n - 1], w)
      case Ok(None, w1) => Leave(n - 1, [Boolean(false)], next, w1);
      case Ok(Some(x), w1) => Leave(n, [Str(x), Boolean(true)], next, w1);
      case Err(v, w1) => ThrowIn(v, w1);
    }

    method EnterScope(i: Instr, next: nat)
      requires Valid() && ended.None? && (i.Catch? || i.EnterWith?) && Does(lib, i, next, Now()) != Wrong
      modifies this
      ensures Valid() && Same(old(stack)) && Abs() == Does(lib, i, next, old(Now()))
    {
      hide Throwing, Shuffle, Result;
      var s := stack[base..];
      var n := |s|;
      OpsOfHeight(s);
      OpsOfLast(s, 1);
      match lib.prim(if i.Catch? then CatchScope(i.x) else WithScope, On(s[n - 1], Bottom), scope, w)
      case Ok(v, w1) =>
        Leave(n - 1, [], next, w1);
        scope := Inner(v, scope);
      case Err(v, w1) => ThrowIn(v, w1);
    }

    method Leave(k: nat, vs: seq<Value>, next: nat, w1: World)
      requires Valid() && ended.None? && k <= |stack| - base && |vs| <= 4
      modifies this`stack, this`pc, this`w
      ensures Valid() && Same(old(stack))
      ensures Now() == old(With(next, OpsOf(stack[base..][..k] + vs), w1))
      ensures OpsOf(old(stack[base..])[..k] + vs) == match |vs| {
          case 0 => OpsOf(old(stack[base..])[..k])
          case 1 => On(vs[0], OpsOf(old(stack[base..])[..k]))
          case 2 => On(vs[1], On(vs[0], OpsOf(old(stack[base..])[..k])))
          case 3 => On(vs[2], On(vs[1], On(vs[0], OpsOf(old(stack[base..])[..k]))))
          case _ => On(vs[3], On(vs[2], On(vs[1], On(vs[0], OpsOf(old(stack[base..])[..k])))))
        }
    {
      OpsOfAppend(stack[base..][..k], vs);
      Replace(k, vs, next);
      w := w1;
    }

    method ThrowIn(v: Value, w1: World)
      requires Valid() && ended.None? && Throwing(Now(), v, w1) != Wrong
      modifies this
      ensures Valid() && Same(old(stack)) && Abs() == Throwing(old(Now()), v, w1)
    {
      WorldOnly(v, w1);
      w := w1;
      Throw(v);
    }

    method Branch(i: Instr, next: nat)
      requires Valid() && ended.None? && (i.Jump? || i.JTrue? || i.JFalse? || i.JCase?)
        && Does(lib, i, next, Now()) != Wrong
      modifies this
      ensures Valid() && Same(old(stack)) && Abs() == Does(lib, i, next, old(Now()))
    {
      var s := stack[base..];
      var n := |s|;
      OpsOfHeight(s);
      Heights(OpsOf(s));
      OpsOfLast(s, if n < 2 then n else 2);
      if i.Jump? {
        pc := i.t;
      } else if i.JCase? {
        var b := StrictEq(s[n - 2], s[n - 1]);
        Leave(if b then n - 2 else n - 1, [], if b then i.t else next, w);
      } else {
        var b := Truth(s[n - 1]) == i.JTrue?;
        Leave(n - 1, [], if b then i.t else next, w);
      }
    }

    method Local(i: Instr, next: nat)
      requires Valid() && ended.None? && (i.LoadThis? || i.GetLocal? || i.SetLocal? || i.Push?)
        && Does(lib, i, next, Now()) != Wrong
      modifies this
      ensures Valid() && Same(old(stack)) && Abs() == Does(lib, i, next, old(Now()))
    {
      var s := stack[base..];
      var n := |s|;
      OpsOfHeight(s);
      OpsOfLast(s, if n < 1 then n else 1);
      match i {
        case Push(v) => PushValue(v, next);
        case LoadThis => PushValue(lib.self(stack[bot]), next);
        case GetLocal(k) => PushValue(stack[bot + k], next);
        case SetLocal(k) =>
          var stack1 := stack[bot + k := stack[|stack| - 1]];
          assert stack1[base..] == s && stack1[bot..base] == stack[bot..base][k := s[n - 1]];
          stack, pc := stack1, next;
      }
    }

    method Handlers(i: Instr, next: nat)
      requires Valid() && ended.None? && (i.TryTo? || i.EndTry?) && Does(lib, i, next, Now()) != Wrong
      modifies this`trybuf, this`pc
      ensures Valid() && Abs() == Does(lib, i, next, old(Now()))
    {
      OpsOfHeight(stack[base..]);
      if i.TryTo? {
        trybuf := trybuf + [TryEntry(scope, |stack|, next)];
        assert trybuf[..|trybuf| - 1] == old(trybuf);
        pc := i.t;
      } else {
        trybuf := trybuf[..|trybuf| - 1];
        pc := next;
      }
    }

    /** The end of a scope, and the way out. */
    method Control(i: Instr, next: nat)
      requires Valid() && ended.None? && (i.LeaveScope? || i.Trap? || i.Ret?) && Does(lib, i, next, Now()) != Wrong
      modifies this`scope, this`pc, this`ended
      ensures Valid() && Abs() == Does(lib, i, next, old(Now()))
    {
      if i.LeaveScope? {
        scope := scope.outer;
        pc := next;
      } else if i.Trap? {
        pc := next;
      } else {
        OpsOfHeight(stack[base..]);
        OpsOfLast(stack[base..], 1);
        ended := Some(Returned(stack[|stack| - 1], scope, TriesOf(trybuf, base), w));
      }
    }

    /** One round. */
    method Round()
      requires Valid() && ended.None? && Step(f, lib, Now()) != Wrong
      modifies this
      ensures Valid() && Same(old(stack)) && Abs() == Step(f, lib, old(Now()))
    {
      hide Decode;
      var d := Decode(f, pc);
      OpsOfHeight(stack[base..]);
      match d.i {
        case Do1(p, n) => Operation(p, n, d.next);
        case Init3(p) => InitProperty(p, d.next);
        case Bump(inc, post) => Increment(inc, post, d.next);
        case Next => NextName(d.next);
        case Catch(_) => EnterScope(d.i, d.next);
        case EnterWith => EnterScope(d.i, d.next);
        case Pop => Shuffled(d.i, d.next);
        case Dup => Shuffled(d.i, d.next);
        case Dup2 => Shuffled(d.i, d.next);
        case Rot2 => Shuffled(d.i, d.next);
        case Rot3 => Shuffled(d.i, d.next);
        case Rot4 => Shuffled(d.i, d.next);
        case Push(_) => Local(d.i, d.next);
        case LoadThis => Local(d.i, d.next);
        case GetLocal(_) => Local(d.i, d.next);
        case SetLocal(_) => Local(d.i, d.next);
        case Jump(_) => Branch(d.i, d.next);
        case JTrue(_) => Branch(d.i, d.next);
        case JFalse(_) => Branch(d.i, d.next);
        case JCase(_) => Branch(d.i, d.next);
        case TryTo(_) => Handlers(d.i, d.next);
        case EndTry => Handlers(d.i, d.next);
        case Raise =>
          OpsOfLast(stack[base..], 1);
          Throw(stack[|stack| - 1]);
        case _ => Control(d.i, d.next);
      }
    }

    /** `jsR_run`, for a number of rounds. */
    method Execute(steps: nat)
      requires Valid() && Run(f, lib, Abs(), steps) != Wrong
      modifies this
      ensures Valid() && Same(old(stack)) && Abs() == Run(f, lib, old(Abs()), steps)
    {
      hide Step, Now;
      ghost var t := Abs();
      var k := 0;
      while k < steps && ended.None?
        invariant k <= steps && Valid() && Same(old(stack)) && Abs() == Run(f, lib, t, k)
      {
        RunsOn(f, lib, t, k, steps);
        Round();
        k := k + 1;
      }
      if k < steps {
        Stopped(f, lib, t, k, steps);
      }
    }
  }
}
