/** The marking procedures of jsgc.c. They set the mark of a cell before they follow its
    references, so `grey` is the set of cells whose references are still being followed. */
module GcMark {
  import opened GcHeap

  ghost function Unmarked(U: set<Cell>, mark: int): set<Cell>
    reads U`gcmark
  {
    set c | c in U && c.gcmark != mark
  }

  ghost predicate AllMarked(s: set<Cell>, mark: int)
    reads s`gcmark
  {
    forall c | c in s :: c.gcmark == mark
  }

  /** A marked cell of U that is not grey has all its references marked. */
  ghost predicate Black(U: set<Cell>, mark: int, grey: set<Cell>)
    requires Closed(U)
    reads U`gcmark, U`body
  {
    forall c | c in U && c.gcmark == mark && c !in grey :: AllMarked(Refs(c.kind, c.body), mark)
  }

  /** Marks of U only ever change to `mark`. */
  twostate predicate Grew(U: set<Cell>, mark: int)
    reads U`gcmark
  {
    forall c | c in U :: c.gcmark == mark || c.gcmark == old(c.gcmark)
  }

  /** The unmarked cells only become fewer. */
  twostate predicate Shrunk(U: set<Cell>, mark: int)
    reads U`gcmark
  {
    Unmarked(U, mark) <= old(Unmarked(U, mark))
  }

  /** A call on a cell that is marked already counts for more than one that marks it. */
  ghost function Revisit(c: Cell, mark: int): nat
    reads c`gcmark
  {
    if c.gcmark == mark then 1 else 0
  }

  method MarkRef(mark: int, c: Cell?, ghost U: set<Cell>, ghost grey: set<Cell>)
    requires Closed(U) && Opt(c) <= U && IsObj(c) && Black(U, mark, grey)
    modifies U`gcmark
    ensures Black(U, mark, grey) && Grew(U, mark) && Shrunk(U, mark) && AllMarked(Opt(c), mark)
    decreases Unmarked(U, mark), 0, 3, Leaf
  {
    if c != null && c.gcmark != mark {
      MarkObject(mark, c, U, grey);
    }
  }

  method MarkValue(mark: int, v: Value, ghost U: set<Cell>, ghost grey: set<Cell>)
    requires Closed(U) && ValueRefs(v) <= U && ValueTyped(v) && Black(U, mark, grey)
    modifies U`gcmark
    ensures Black(U, mark, grey) && Grew(U, mark) && Shrunk(U, mark) && AllMarked(ValueRefs(v), mark)
    decreases Unmarked(U, mark), 0, 4, Leaf
  {
    match v
    case MemStr(s) => s.gcmark := mark;
    case Ref(o) => MarkRef(mark, o, U, grey);
    case Plain =>
  }

  /** `jsG_markproperty` */
  method MarkProperty(mark: int, t: Tree, ghost U: set<Cell>, ghost grey: set<Cell>)
    requires Closed(U) && TreeRefs(t) <= U && TreeTyped(t) && Black(U, mark, grey)
    modifies U`gcmark
    ensures Black(U, mark, grey) && Grew(U, mark) && Shrunk(U, mark) && AllMarked(TreeRefs(t), mark)
    decreases Unmarked(U, mark), 1, 0, t
  {
    hide Closed, Black, Unmarked;
    match t
    case Leaf =>
    case Node(l, r, v, g, s) =>
      MarkProperty(mark, l, U, grey);
      MarkProperty(mark, r, U, grey);
      hide TreeTyped, ValueTyped, IsObj;
      MarkValue(mark, v, U, grey);
      MarkRef(mark, g, U, grey);
      MarkRef(mark, s, U, grey);
  }

  lemma {:induction false} ObjParts(U: set<Cell>, obj: Cell)
    requires Closed(U) && obj in U && obj.kind.ObjKind?
    ensures obj.body.Obj?
    ensures var b := obj.body;
      && TreeRefs(b.properties) <= U && TreeTyped(b.properties) && Opt(b.prototype) <= U && IsObj(b.prototype)
      && (obj.kind.cls == IteratorClass ==>
        b.target != null && b.target in U && b.target.kind.ObjKind? && b.target.kind.cls != IteratorClass)
      && (HasCode(obj.kind.cls) ==> Opt(b.scope) <= U && IsEnv(b.scope) && Opt(b.code) <= U && IsFun(b.code))
  {
  }

  lemma {:induction false} ObjDone(U: set<Cell>, mark: int, grey: set<Cell>, obj: Cell)
    requires Closed(U) && obj in U && obj.kind.ObjKind? && obj.body.Obj? && Black(U, mark, grey + {obj})
    requires var b := obj.body;
      && AllMarked(TreeRefs(b.properties), mark) && AllMarked(Opt(b.prototype), mark)
      && (obj.kind.cls == IteratorClass ==> AllMarked(Opt(b.target), mark))
      && (HasCode(obj.kind.cls) ==> AllMarked(Opt(b.scope), mark) && AllMarked(Opt(b.code), mark))
    ensures Black(U, mark, grey)
  {
  }

  /** Marking one cell keeps the rest black while that cell is grey. */
  method SetMark(mark: int, c: Cell, ghost U: set<Cell>, ghost grey: set<Cell>)
    requires Closed(U) && c in U && Black(U, mark, grey)
    modifies c`gcmark
    ensures c.gcmark == mark && Black(U, mark, grey + {c}) && Grew(U, mark) && Shrunk(U, mark)
    ensures old(c.gcmark) != mark ==> Unmarked(U, mark) < old(Unmarked(U, mark))
  {
    ghost var left := Unmarked(U, mark);
    c.gcmark := mark;
    assert Unmarked(U, mark) <= left - {c};
  }

  /** `jsG_markobject`: also called on marked objects, for roots and iterator targets. */
  method MarkObject(mark: int, obj: Cell, ghost U: set<Cell>, ghost grey: set<Cell>)
    requires Closed(U) && obj in U && obj.kind.ObjKind? && Black(U, mark, grey)
    modifies U`gcmark
    ensures Black(U, mark, grey) && Grew(U, mark) && Shrunk(U, mark) && obj.gcmark == mark
    decreases Unmarked(U, mark), Revisit(obj, mark), if obj.kind.cls == IteratorClass then 2 else 1, Leaf
  {
    hide Refs, BodyTyped, TreeTyped, TreeRefs, Closed, Black, Unmarked, IsObj;
    ObjParts(U, obj);
    SetMark(mark, obj, U, grey);
    ghost var busy := grey + {obj};
    MarkProperty(mark, obj.body.properties, U, busy);
    MarkRef(mark, obj.body.prototype, U, busy);
    if obj.kind.cls == IteratorClass {
      MarkObject(mark, obj.body.target, U, busy);
    }
    if HasCode(obj.kind.cls) {
      MarkScope(mark, obj.body.scope, U, busy);
      MarkCode(mark, obj.body.code, U, busy);
    }
    ObjDone(U, mark, grey, obj);
  }

  method MarkScope(mark: int, c: Cell?, ghost U: set<Cell>, ghost grey: set<Cell>)
    requires Closed(U) && Opt(c) <= U && IsEnv(c) && Black(U, mark, grey)
    modifies U`gcmark
    ensures Black(U, mark, grey) && Grew(U, mark) && Shrunk(U, mark) && AllMarked(Opt(c), mark)
    decreases Unmarked(U, mark), 0, 3, Leaf
  {
    if c != null && c.gcmark != mark {
      MarkEnvironment(mark, c, U, grey);
    }
  }

  method MarkCode(mark: int, c: Cell?, ghost U: set<Cell>, ghost grey: set<Cell>)
    requires Closed(U) && Opt(c) <= U && IsFun(c) && Black(U, mark, grey)
    modifies U`gcmark
    ensures Black(U, mark, grey) && Grew(U, mark) && Shrunk(U, mark) && AllMarked(Opt(c), mark)
    decreases Unmarked(U, mark), 0, 3, Leaf
  {
    if c != null && c.gcmark != mark {
      MarkFunction(mark, c, U, grey);
    }
  }

  /** A cell whose references are all marked need no longer be grey. */
  lemma {:induction false} Finished(U: set<Cell>, mark: int, grey: set<Cell>, c: Cell)
    requires Closed(U) && c in U && Black(U, mark, grey + {c}) && AllMarked(Refs(c.kind, c.body), mark)
    ensures Black(U, mark, grey)
  {
  }

  /** `jsG_markfunction` */
  method MarkFunction(mark: int, fun: Cell, ghost U: set<Cell>, ghost grey: set<Cell>)
    requires Closed(U) && fun in U && fun.kind.FunKind? && fun.gcmark != mark && Black(U, mark, grey)
    modifies U`gcmark
    ensures Black(U, mark, grey) && Grew(U, mark) && Shrunk(U, mark) && fun.gcmark == mark
    decreases Unmarked(U, mark), 0, 0, Leaf
  {
    assert Refs(fun.kind, fun.body) <= U && BodyTyped(fun.kind, fun.body);
    hide Closed, Black, Unmarked;
    SetMark(mark, fun, U, grey);
    ghost var left := Unmarked(U, mark);
    var i := 0;
    while i < |fun.body.funtab|
      invariant 0 <= i <= |fun.body.funtab|
      invariant Black(U, mark, grey + {fun}) && Grew(U, mark) && Unmarked(U, mark) <= left && fun.gcmark == mark
      invariant forall j | 0 <= j < i :: fun.body.funtab[j].gcmark == mark
    {
      var f := fun.body.funtab[i];
      if f.gcmark != mark {
        MarkFunction(mark, f, U, grey + {fun});
      }
      i := i + 1;
    }
    Finished(U, mark, grey, fun);
  }

  lemma {:induction false} EnvParts(U: set<Cell>, env: Cell)
    requires Closed(U) && env in U && env.kind.EnvKind?
    ensures env.body.Env? && env.body.variables in U && env.body.variables.kind.ObjKind?
    ensures Opt(env.body.outer) <= U && IsEnv(env.body.outer)
  {
    assert BodyTyped(env.kind, env.body);
  }

  lemma {:induction false} FinishedEnv(U: set<Cell>, mark: int, grey: set<Cell>, env: Cell)
    requires Closed(U) && env in U && env.body.Env? && Black(U, mark, grey + {env})
    requires env.body.variables.gcmark == mark && AllMarked(Opt(env.body.outer), mark)
    ensures Black(U, mark, grey)
  {
  }

  /** `jsG_markenvironment`: up the chain of outer scopes until one is marked already. */
  method MarkEnvironment(mark: int, env0: Cell, ghost U: set<Cell>, ghost grey: set<Cell>)
    requires Closed(U) && env0 in U && env0.kind.EnvKind? && Black(U, mark, grey)
    modifies U`gcmark
    ensures Black(U, mark, grey) && Grew(U, mark) && Shrunk(U, mark) && env0.gcmark == mark
    decreases Unmarked(U, mark), Revisit(env0, mark), 1, Leaf
  {
    hide Black, Unmarked, Closed, Refs, BodyTyped;
    var env := env0;
    ghost var last: Cell? := null; // the scope below env; env is the one reference of it not marked yet
    while true
      invariant env in U && env.kind.EnvKind? && Grew(U, mark) && Shrunk(U, mark)
      invariant last == null ==> env == env0 && Black(U, mark, grey)
      invariant last == null ==>
        Unmarked(U, mark) == old(Unmarked(U, mark)) && Revisit(env, mark) == old(Revisit(env0, mark))
      invariant last != null ==>
        && last in U && last.body.Env? && last.body.outer == env && last.body.variables.gcmark == mark
        && Black(U, mark, grey + {last}) && env.gcmark != mark && env0.gcmark == mark
      decreases Unmarked(U, mark), Revisit(env, mark)
    {
      EnvOne(mark, env, U, grey, last);
      last := env;
      EnvParts(U, env);
      if env.body.outer == null || env.body.outer.gcmark == mark { break; }
      env := env.body.outer;
    }
    FinishedEnv(U, mark, grey, last);
  }

  /** One turn of that loop: when env is marked, the scope below it is finished. */
  method EnvOne(mark: int, env: Cell, ghost U: set<Cell>, ghost grey: set<Cell>, ghost last: Cell?)
    requires Closed(U) && env in U && env.kind.EnvKind?
    requires last == null ==> Black(U, mark, grey)
    requires last != null ==>
      && last in U && last.body.Env? && last.body.outer == env && last.body.variables.gcmark == mark
      && Black(U, mark, grey + {last})
    modifies U`gcmark
    ensures Black(U, mark, grey + {env}) && Grew(U, mark) && Shrunk(U, mark)
    ensures env.gcmark == mark && env.body.Env? && env.body.variables.gcmark == mark
    ensures old(env.gcmark) != mark ==> Unmarked(U, mark) < old(Unmarked(U, mark))
    decreases Unmarked(U, mark), Revisit(env, mark), 0, Leaf
  {
    EnvParts(U, env);
    ghost var rest := if last == null then grey else grey + {last};
    hide Black, Unmarked, Closed, Refs, BodyTyped;
    SetMark(mark, env, U, rest);
    MarkRef(mark, env.body.variables, U, rest + {env});
    if last != null {
      assert rest + {env} == (grey + {env}) + {last};
      FinishedEnv(U, mark, grey + {env}, last);
    }
  }
}
