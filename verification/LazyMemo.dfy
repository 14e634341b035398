/** How often the operand of a lazy parameter is evaluated: once for each use if the parameter is
    lazy; within one evaluation for all uses if it is lazy-memo, whatever the program assigns and
    defines meanwhile. */
module LazyMemo {
  import opened LazyInterp
  import opened LazySyntax
  import opened Scheme

  // ----- the evaluations of one thunk in a run -----

  /** The values delivered by the evaluations of thunk t, in the order in which they end. */
  function Evals(e: Exp, env: Env, st: State, fuel: nat, t: nat): seq<V>
    decreases fuel, Size(e), 0
  {
    match e
    case Assign(_, rhs) => Evals(rhs, env, st, fuel, t)
    case Define(_, rhs) => Evals(rhs, env, st, fuel, t)
    case If(p, c, a) =>
      var (r, st1) := ActualValue(p, env, st, fuel);
      EvalsValue(p, env, st, fuel, t) +
      (if !r.Ok? then [] else if True(r.value) then Evals(c, env, st1, fuel, t) else Evals(a, env, st1, fuel, t))
    case Begin(b) => EvalsBody(b, env, st, fuel, t)
    case Cond(cs) => Evals(CondToIf(cs), env, st, fuel, t)
    case App(f, es) =>
      var (r, st1) := ActualValue(f, env, st, fuel);
      EvalsValue(f, env, st, fuel, t) + (if r.Ok? then EvalsCall(r.value, es, env, st1, fuel, t) else [])
    case _ => []
  }

  function EvalsValue(e: Exp, env: Env, st: State, fuel: nat, t: nat): seq<V>
    decreases fuel, Size(e), 1
  {
    var (r, st1) := Eval(e, env, st, fuel);
    Evals(e, env, st, fuel, t) + (if r.Ok? then EvalsForce(r.value, st1, fuel, t) else [])
  }

  function EvalsForce(v: V, st: State, fuel: nat, t: nat): seq<V>
    decreases fuel, 0, 0
  {
    if !(v.Obj? && v.c.ThunkRef? && v.c.t < |st.thunks|) || st.thunks[v.c.t].EvaluatedThunk? || fuel == 0 then []
    else
      var c := st.thunks[v.c.t];
      var r := ActualValue(c.exp, c.env, st, fuel - 1).0;
      EvalsValue(c.exp, c.env, st, fuel - 1, t) + (if v.c.t == t && r.Ok? then [r.value] else [])
  }

  function EvalsBody(b: Body, env: Env, st: State, fuel: nat, t: nat): seq<V>
    decreases fuel, BodySize(b), 0
  {
    match b
    case Last(e) => Evals(e, env, st, fuel, t)
    case More(e, rest) =>
      var (r, st1) := Eval(e, env, st, fuel);
      Evals(e, env, st, fuel, t) + (if r.Ok? then EvalsBody(rest, env, st1, fuel, t) else [])
  }

  function EvalsCall(p: V, es: List<Exp>, env: Env, st: State, fuel: nat, t: nat): seq<V>
    decreases fuel, ListSize(es), 2
  {
    match p
    case Primitive(_) => EvalsValues(es, env, st, fuel, t)
    case Obj(Proc(ps, b, penv)) =>
      var (rs, st1) := ListOfProcedureArgs(ps, es, env, st, fuel);
      EvalsArgs(ps, es, env, st, fuel, t) +
      (if !rs.Ok? || fuel == 0 || !Extend(StripParameters(ps), rs.value, st1.frames).Ok? then []
       else
         var frames := Extend(StripParameters(ps), rs.value, st1.frames).value;
         EvalsBody(b, Cons(|st1.frames|, penv), st1.(frames := frames), fuel - 1, t))
    case _ => []
  }

  function EvalsValues(es: List<Exp>, env: Env, st: State, fuel: nat, t: nat): seq<V>
    decreases fuel, ListSize(es), 0
  {
    match es
    case Nil => []
    case Cons(e, rest) =>
      var (r, st1) := ActualValue(e, env, st, fuel);
      EvalsValue(e, env, st, fuel, t) + (if r.Ok? then EvalsValues(rest, env, st1, fuel, t) else [])
  }

  function EvalsArgs(ps: List<Param>, es: List<Exp>, env: Env, st: State, fuel: nat, t: nat): seq<V>
    decreases fuel, ListSize(es), 1
  {
    match es
    case Nil => []
    case Cons(e, rest) =>
      if ps.Nil? then [] else
        var (r, st1) := ProcedureArg(ps.head.mode, e, env, st, fuel);
        (if ps.head.mode.Strict? then EvalsValue(e, env, st, fuel, t) else []) +
        (if r.Ok? then EvalsArgs(ps.tail, rest, env, st1, fuel, t) else [])
  }

  // ----- at most one of them is not inside another -----

  /** All of log lies in one evaluation of e in env, the value of which is its last entry unless
      that evaluation failed. */
  ghost predicate InOne(log: seq<V>, e: Exp, env: Env, t: nat) {
    exists at: State, f: nat {:trigger EvalsValue(e, env, at, f, t)} ::
      var inner := EvalsValue(e, env, at, f, t);
      log == inner || (|log| > 0 && log == inner + [log[|log| - 1]])
  }

  /** What a run does to thunk t: an evaluated one is not evaluated again; a memoised one ends with
      the value delivered last, and is evaluated again only inside its own evaluation; one that is
      not memoised stays as it is. */
  ghost predicate Evaluated(log: seq<V>, st: State, st': State, t: nat) {
    && t < |st.thunks| <= |st'.thunks|
    && match st.thunks[t]
       case EvaluatedThunk(_) => log == [] && st'.thunks[t] == st.thunks[t]
       case MemoizedThunk(e, env) =>
         && st'.thunks[t] == (if log == [] then st.thunks[t] else EvaluatedThunk(log[|log| - 1]))
         && (log == [] || InOne(log, e, env, t))
       case Thunk(_, _) => st'.thunks[t] == st.thunks[t]
  }

  lemma {:induction false} EvaluatedTwice(l1: seq<V>, l2: seq<V>, st: State, st1: State, st2: State, t: nat)
    requires Evaluated(l1, st, st1, t) && Evaluated(l2, st1, st2, t)
    ensures Evaluated(l1 + l2, st, st2, t)
  {
    if l1 == [] { assert l1 + l2 == l2; }
    if l2 == [] { assert l1 + l2 == l1; }
  }

  lemma {:induction false} Untouched(st: State, st': State, t: nat)
    requires t < |st.thunks| <= |st'.thunks| && st'.thunks[t] == st.thunks[t]
    ensures Evaluated([], st, st', t)
  {
  }

  /** Whatever a program does, assignments and definitions included. */
  lemma {:induction false} EvalEvaluates(e: Exp, env: Env, st: State, fuel: nat, t: nat)
    requires t < |st.thunks|
    ensures Evaluated(Evals(e, env, st, fuel, t), st, Eval(e, env, st, fuel).1, t)
    decreases fuel, Size(e), 0
  {
    match e
    case Assign(_, rhs) => EvalEvaluates(rhs, env, st, fuel, t);
    case Define(_, rhs) => EvalEvaluates(rhs, env, st, fuel, t);
    case If(p, c, a) =>
      ValueEvaluates(p, env, st, fuel, t);
      var (r, st1) := ActualValue(p, env, st, fuel);
      if r.Ok? {
        var next := if True(r.value) then c else a;
        EvalEvaluates(next, env, st1, fuel, t);
        EvaluatedTwice(EvalsValue(p, env, st, fuel, t), Evals(next, env, st1, fuel, t), st, st1,
          Eval(next, env, st1, fuel).1, t);
      }
    case Begin(b) => BodyEvaluates(b, env, st, fuel, t);
    case Cond(cs) => EvalEvaluates(CondToIf(cs), env, st, fuel, t);
    case App(f, es) =>
      ValueEvaluates(f, env, st, fuel, t);
      var (r, st1) := ActualValue(f, env, st, fuel);
      if r.Ok? {
        CallEvaluates(r.value, es, env, st1, fuel, t);
        EvaluatedTwice(EvalsValue(f, env, st, fuel, t), EvalsCall(r.value, es, env, st1, fuel, t), st, st1,
          Apply(r.value, es, env, st1, fuel).1, t);
      }
    case _ => Untouched(st, st, t);
  }

  lemma {:induction false} ValueEvaluates(e: Exp, env: Env, st: State, fuel: nat, t: nat)
    requires t < |st.thunks|
    ensures Evaluated(EvalsValue(e, env, st, fuel, t), st, ActualValue(e, env, st, fuel).1, t)
    decreases fuel, Size(e), 1
  {
    EvalEvaluates(e, env, st, fuel, t);
    var (r, st1) := Eval(e, env, st, fuel);
    if r.Ok? {
      ForceEvaluates(r.value, st1, fuel, t);
      EvaluatedTwice(Evals(e, env, st, fuel, t), EvalsForce(r.value, st1, fuel, t), st, st1,
        ForceIt(r.value, st1, fuel).1, t);
    }
  }

  lemma {:induction false} ForceEvaluates(v: V, st: State, fuel: nat, t: nat)
    requires t < |st.thunks|
    ensures Evaluated(EvalsForce(v, st, fuel, t), st, ForceIt(v, st, fuel).1, t)
    decreases fuel, 0, 0
  {
    if v.Obj? && v.c.ThunkRef? && v.c.t < |st.thunks| && !st.thunks[v.c.t].EvaluatedThunk? && fuel > 0 {
      var c := st.thunks[v.c.t];
      ValueEvaluates(c.exp, c.env, st, fuel - 1, t);
      var inner := EvalsValue(c.exp, c.env, st, fuel - 1, t);
      var r := ActualValue(c.exp, c.env, st, fuel - 1).0;
      if v.c.t == t && r.Ok? {
        var log := inner + [r.value];
        assert log == inner + [log[|log| - 1]];
      }
    } else {
      Untouched(st, st, t);
    }
  }

  lemma {:induction false} BodyEvaluates(b: Body, env: Env, st: State, fuel: nat, t: nat)
    requires t < |st.thunks|
    ensures Evaluated(EvalsBody(b, env, st, fuel, t), st, EvalSequence(b, env, st, fuel).1, t)
    decreases fuel, BodySize(b), 0
  {
    EvalEvaluates(b.exp, env, st, fuel, t);
    var (r, st1) := Eval(b.exp, env, st, fuel);
    if b.More? && r.Ok? {
      BodyEvaluates(b.rest, env, st1, fuel, t);
      EvaluatedTwice(Evals(b.exp, env, st, fuel, t), EvalsBody(b.rest, env, st1, fuel, t), st, st1,
        EvalSequence(b.rest, env, st1, fuel).1, t);
    }
  }

  lemma {:induction false} CallEvaluates(p: V, es: List<Exp>, env: Env, st: State, fuel: nat, t: nat)
    requires t < |st.thunks|
    ensures Evaluated(EvalsCall(p, es, env, st, fuel, t), st, Apply(p, es, env, st, fuel).1, t)
    decreases fuel, ListSize(es), 2
  {
    match p
    case Primitive(_) => ValuesEvaluate(es, env, st, fuel, t);
    case Obj(Proc(ps, b, penv)) =>
      ArgsEvaluate(ps, es, env, st, fuel, t);
      var (rs, st1) := ListOfProcedureArgs(ps, es, env, st, fuel);
      if rs.Ok? && fuel > 0 && Extend(StripParameters(ps), rs.value, st1.frames).Ok? {
        var st2 := st1.(frames := Extend(StripParameters(ps), rs.value, st1.frames).value);
        EnteredEvaluates(b, Cons(|st1.frames|, penv), st, st1, st2, fuel - 1, EvalsArgs(ps, es, env, st, fuel, t), t);
      }
    case _ => Untouched(st, st, t);
  }

  /** A body, after operands whose evaluations are known. */
  lemma {:induction false} EnteredEvaluates(b: Body, inner: Env, st: State, st1: State, st2: State, fuel: nat,
                                            log: seq<V>, t: nat)
    requires t < |st.thunks| && Evaluated(log, st, st1, t) && st2.thunks == st1.thunks
    ensures Evaluated(log + EvalsBody(b, inner, st2, fuel, t), st, EvalSequence(b, inner, st2, fuel).1, t)
    decreases fuel, BodySize(b), 1
  {
    BodyEvaluates(b, inner, st2, fuel, t);
    assert Evaluated(EvalsBody(b, inner, st2, fuel, t), st1, EvalSequence(b, inner, st2, fuel).1, t);
    EvaluatedTwice(log, EvalsBody(b, inner, st2, fuel, t), st, st1, EvalSequence(b, inner, st2, fuel).1, t);
  }

  lemma {:induction false} ValuesEvaluate(es: List<Exp>, env: Env, st: State, fuel: nat, t: nat)
    requires t < |st.thunks|
    ensures Evaluated(EvalsValues(es, env, st, fuel, t), st, ListOfArgValues(es, env, st, fuel).1, t)
    decreases fuel, ListSize(es), 0
  {
    if es.Nil? {
      Untouched(st, st, t);
    } else {
      ValueEvaluates(es.head, env, st, fuel, t);
      var (r, st1) := ActualValue(es.head, env, st, fuel);
      if r.Ok? {
        ValuesEvaluate(es.tail, env, st1, fuel, t);
        EvaluatedTwice(EvalsValue(es.head, env, st, fuel, t), EvalsValues(es.tail, env, st1, fuel, t), st, st1,
          ListOfArgValues(es.tail, env, st1, fuel).1, t);
      }
    }
  }

  lemma {:induction false} ArgsEvaluate(ps: List<Param>, es: List<Exp>, env: Env, st: State, fuel: nat, t: nat)
    requires t < |st.thunks|
    ensures Evaluated(EvalsArgs(ps, es, env, st, fuel, t), st, ListOfProcedureArgs(ps, es, env, st, fuel).1, t)
    decreases fuel, ListSize(es), 1
  {
    if es.Nil? || ps.Nil? {
      Untouched(st, st, t);
    } else {
      var (r, st1) := ProcedureArg(ps.head.mode, es.head, env, st, fuel);
      if ps.head.mode.Strict? { ValueEvaluates(es.head, env, st, fuel, t); } else { Untouched(st, st1, t); }
      var first := if ps.head.mode.Strict? then EvalsValue(es.head, env, st, fuel, t) else [];
      if r.Ok? {
        ArgsEvaluate(ps.tail, es.tail, env, st1, fuel, t);
        EvaluatedTwice(first, EvalsArgs(ps.tail, es.tail, env, st1, fuel, t), st, st1,
          ListOfProcedureArgs(ps.tail, es.tail, env, st1, fuel).1, t);
      }
    }
  }
}
