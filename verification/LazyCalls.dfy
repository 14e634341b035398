/** What the mode of a parameter in a lambda expression means for its operand: strict operands are
    evaluated before the body, lazy ones at every use, lazy-memo ones once for all uses. */
module LazyCalls {
  import opened LazyInterp
  import opened LazyMemo
  import opened LazyReach
  import opened LazySyntax
  import opened Scheme
  import E = EnvironmentLaws
  import P = LazyPrograms

  // ----- what exists refers to nothing that comes later -----

  ghost predicate Later(st: State, hid: Hidden) {
    (forall a :: a in hid.frames ==> a >= |st.frames|) && (forall t :: t in hid.thunks ==> t >= |st.thunks|)
  }

  lemma {:induction false} HideEnv(env: Env, st: State, st': State, hid: Hidden)
    requires AwayEnv(env, st, NOTHING) && Longer(st, st') && Later(st, hid)
    ensures AwayEnv(env, st', hid)
  {
    if env.Cons? { HideEnv(env.tail, st, st', hid); }
  }

  lemma {:induction false} HideValue(v: V, st: State, st': State, hid: Hidden)
    requires Away(v, st, NOTHING) && Longer(st, st') && Later(st, hid)
    ensures Away(v, st', hid)
  {
    match v
    case Pair(a, d) => HideValue(a, st, st', hid); HideValue(d, st, st', hid);
    case Obj(Proc(_, _, env)) => HideEnv(env, st, st', hid);
    case _ =>
  }

  lemma {:induction false} HideFrame(frame: Frame<Object>, st: State, st': State, hid: Hidden)
    requires AwayFrame(frame, st, NOTHING) && Longer(st, st') && Later(st, hid)
    ensures AwayFrame(frame, st', hid)
  {
    if frame.Cons? { HideValue(frame.head.value, st, st', hid); HideFrame(frame.tail, st, st', hid); }
  }

  lemma {:induction false} HideCell(c: Cell, st: State, st': State, hid: Hidden)
    requires AwayCell(c, st, NOTHING) && Longer(st, st') && Later(st, hid)
    ensures AwayCell(c, st', hid)
  {
    match c
    case EvaluatedThunk(v) => HideValue(v, st, st', hid);
    case _ => HideEnv(c.env, st, st', hid);
  }

  /** A new thunk is hidden from everything. */
  lemma {:induction false} NewThunkHidden(st: State, c: Cell)
    requires AwayState(st, NOTHING)
    ensures AwayState(st.(thunks := st.thunks + [c]), Hidden({}, {|st.thunks|}))
  {
    var st', hid := st.(thunks := st.thunks + [c]), Hidden({}, {|st.thunks|});
    forall a | 0 <= a < |st'.frames| && a !in hid.frames ensures AwayFrame(st'.frames[a], st', hid) {
      assert a !in NOTHING.frames;
      HideFrame(st.frames[a], st, st', hid);
    }
    forall t | 0 <= t < |st'.thunks| && t !in hid.thunks ensures AwayCell(st'.thunks[t], st', hid) {
      assert t < |st.thunks| && t !in NOTHING.thunks;
      HideCell(st.thunks[t], st, st', hid);
    }
  }

  // ----- operands -----

  /** v is what the mode asks for: a new cell that holds the operand, not evaluated and out of reach
      for everything in the store; or the value of the operand. */
  ghost predicate Holds(v: V, m: Mode, e: Exp, env: Env, st: State, st': State, fuel: nat) {
    match m
    case Strict => exists at: State {:trigger ActualValue(e, env, at, fuel)} :: ActualValue(e, env, at, fuel).0 == Ok(v)
    case _ =>
      && v.Obj? && v.c.ThunkRef? && |st.thunks| <= v.c.t < |st'.thunks|
      && st'.thunks[v.c.t] == (if m.Lazy? then Thunk(e, env) else MemoizedThunk(e, env))
      && AwayState(st', Hidden({}, {v.c.t}))
  }

  lemma {:induction false} FirstHolds(p: Param, ps: List<Param>, e: Exp, es: List<Exp>, env: Env, st: State, fuel: nat)
    requires AwayState(st, NOTHING) && AwayEnv(env, st, NOTHING)
    requires ListOfProcedureArgs(Cons(p, ps), Cons(e, es), env, st, fuel).0.Ok?
    ensures var (rs, st') := ListOfProcedureArgs(Cons(p, ps), Cons(e, es), env, st, fuel);
            rs.value.Cons? && Holds(rs.value.head, p.mode, e, env, st, st', fuel)
  {
    var st' := ListOfProcedureArgs(Cons(p, ps), Cons(e, es), env, st, fuel).1;
    if p.mode.Strict? {
      assert ActualValue(e, env, st, fuel).0.Ok?;
    } else {
      var t := |st.thunks|;
      var c := if p.mode.Lazy? then Thunk(e, env) else MemoizedThunk(e, env);
      var st1 := st.(thunks := st.thunks + [c]);
      NewThunkHidden(st, c);
      HideEnv(env, st, st1, Hidden({}, {t}));
      ArgsStay(ps, es, env, st1, fuel, t, Hidden({}, {t}));
      ArgsEvaluate(ps, es, env, st1, fuel, t);
      assert ListOfProcedureArgs(Cons(p, ps), Cons(e, es), env, st, fuel)
          == (ConsResult(Obj(ThunkRef(t)), ListOfProcedureArgs(ps, es, env, st1, fuel).0), st');
    }
  }

  lemma {:induction false} HoldsBefore(v: V, m: Mode, e: Exp, env: Env, st: State, st1: State, st': State, fuel: nat)
    requires Holds(v, m, e, env, st1, st', fuel) && Longer(st, st1)
    ensures Holds(v, m, e, env, st, st', fuel)
  {
  }

  lemma {:induction false} ArgHolds(ps: List<Param>, es: List<Exp>, env: Env, st: State, fuel: nat, i: nat)
    requires AwayState(st, NOTHING) && AwayEnv(env, st, NOTHING) && i < Length(es)
    requires ListOfProcedureArgs(ps, es, env, st, fuel).0.Ok?
    ensures var (rs, st') := ListOfProcedureArgs(ps, es, env, st, fuel);
            && Length(rs.value) == Length(es) <= Length(ps)
            && Holds(Nth(rs.value, i), Nth(ps, i).mode, Nth(es, i), env, st, st', fuel)
    decreases es
  {
    var m, e := ps.head.mode, es.head;
    var (r, st1) := ProcedureArg(m, e, env, st, fuel);
    ArgStays(m, e, env, st, fuel, 0, NOTHING);
    GrowEnv(env, st, st1, NOTHING);
    var (rs, st') := ListOfProcedureArgs(ps, es, env, st, fuel);
    var rest := ListOfProcedureArgs(ps.tail, es.tail, env, st1, fuel);
    assert rest.0.Ok? && rs.value == Cons(r.value, rest.0.value) && st' == rest.1;
    if es.tail.Cons? { ArgHolds(ps.tail, es.tail, env, st1, fuel, if i > 0 then i - 1 else 0); }
    if i == 0 {
      FirstHolds(ps.head, ps.tail, e, es.tail, env, st, fuel);
    } else {
      HoldsBefore(Nth(rs.value, i), Nth(ps, i).mode, Nth(es, i), env, st, st1, st', fuel);
    }
  }

  // ----- calls -----

  lemma {:induction false} StripNth(ps: List<Param>, i: nat)
    requires i < Length(ps)
    ensures Length(StripParameters(ps)) == Length(ps) && Nth(StripParameters(ps), i) == Nth(ps, i).name
  {
    if ps.tail.Cons? { StripNth(ps.tail, if i > 0 then i - 1 else 0); }
  }

  /** The new frame binds the i-th parameter to what its mode asks for, and everything else in the
      store is out of reach of it. */
  ghost predicate Bound(p: Param, e: Exp, env: Env, st: State, inside: State, i: nat, fuel: nat) {
    && |st.frames| < |inside.frames| && |st.thunks| <= |inside.thunks|
    && var a := |inside.frames| - 1; var frame := inside.frames[a];
    && i < Length(frame) && Nth(frame, i).name == p.name && Holds(Nth(frame, i).value, p.mode, e, env, st,
         inside.(frames := inside.frames[..a]), fuel)
    && (!p.mode.Strict? ==> AwayState(inside, Hidden({a}, {Nth(frame, i).value.c.t})))
  }

  /** A call with as many operands as parameters runs the body in such a state, or does not answer. */
  lemma {:induction false} CallBinds(ps: List<Param>, b: Body, penv: Env, es: List<Exp>, env: Env, st: State, fuel: nat,
                                     i: nat)
    returns (entered: bool, inside: State)
    requires AwayState(st, NOTHING) && AwayEnv(env, st, NOTHING) && i < Length(es)
    ensures !entered ==> !Apply(Obj(Proc(ps, b, penv)), es, env, st, fuel).0.Ok?
    ensures entered ==>
              && fuel > 0 && Length(ps) == Length(es) && Bound(Nth(ps, i), Nth(es, i), env, st, inside, i, fuel)
              && Apply(Obj(Proc(ps, b, penv)), es, env, st, fuel)
                 == EvalSequence(b, Cons(|inside.frames| - 1, penv), inside, fuel - 1)
  {
    var (rs, st1) := ListOfProcedureArgs(ps, es, env, st, fuel);
    entered, inside := false, st1;
    if rs.Ok? && fuel > 0 {
      var xs := StripParameters(ps);
      ArgsStay(ps, es, env, st, fuel, 0, NOTHING);
      ArgHolds(ps, es, env, st, fuel, i);
      StripNth(ps, i);
      if Length(ps) == Length(es) {
        entered, inside := true, st1.(frames := st1.frames + [Zip(xs, rs.value)]);
        E.ZipNth(xs, rs.value);
        var a := |st1.frames|;
        assert inside.(frames := inside.frames[..a]) == st1;
        if !Nth(ps, i).mode.Strict? { EntryAway(st1, Zip(xs, rs.value), Nth(rs.value, i).c.t); }
      }
    }
  }

  lemma {:induction false} EntryAway(st: State, frame: Frame<Object>, t: nat)
    requires AwayState(st, Hidden({}, {t}))
    ensures AwayState(st.(frames := st.frames + [frame]), Hidden({|st.frames|}, {t}))
  {
    var st', hid, hid' := st.(frames := st.frames + [frame]), Hidden({}, {t}), Hidden({|st.frames|}, {t});
    forall a | 0 <= a < |st'.frames| && a !in hid'.frames ensures AwayFrame(st'.frames[a], st', hid') {
      assert a !in hid.frames;
      OneMoreFrame(st.frames[a], st, st', t);
    }
    forall u | 0 <= u < |st'.thunks| && u !in hid'.thunks ensures AwayCell(st'.thunks[u], st', hid') {
      assert u !in hid.thunks;
      var c := st.thunks[u];
      if c.EvaluatedThunk? { OneMoreValue(c.value, st, st', t); } else { OneMoreEnv(c.env, st, st', t); }
    }
  }

  lemma {:induction false} OneMoreEnv(env: Env, st: State, st': State, t: nat)
    requires AwayEnv(env, st, Hidden({}, {t})) && Longer(st, st')
    ensures AwayEnv(env, st', Hidden({|st.frames|}, {t}))
  {
    if env.Cons? { OneMoreEnv(env.tail, st, st', t); }
  }

  lemma {:induction false} OneMoreValue(v: V, st: State, st': State, t: nat)
    requires Away(v, st, Hidden({}, {t})) && Longer(st, st')
    ensures Away(v, st', Hidden({|st.frames|}, {t}))
  {
    match v
    case Pair(a, d) => OneMoreValue(a, st, st', t); OneMoreValue(d, st, st', t);
    case Obj(Proc(_, _, env)) => OneMoreEnv(env, st, st', t);
    case _ =>
  }

  lemma {:induction false} OneMoreFrame(frame: Frame<Object>, st: State, st': State, t: nat)
    requires AwayFrame(frame, st, Hidden({}, {t})) && Longer(st, st')
    ensures AwayFrame(frame, st', Hidden({|st.frames|}, {t}))
  {
    if frame.Cons? { OneMoreValue(frame.head.value, st, st', t); OneMoreFrame(frame.tail, st, st', t); }
  }

  // ----- what the modes mean -----

  /** A lazy-memo operand: all its evaluations while the body runs, whatever is assigned and defined,
      lie inside one, and the cell keeps the value that one delivers. Where nothing has been assigned
      yet it is evaluated exactly once. */
  lemma {:induction false} MemoParameter(ps: List<Param>, b: Body, penv: Env, es: List<Exp>, env: Env, st: State,
                                         fuel: nat, i: nat)
    returns (entered: bool, inside: State, t: nat)
    requires AwayState(st, NOTHING) && AwayEnv(env, st, NOTHING)
    requires i < Length(es) && i < Length(ps) && Nth(ps, i).mode.LazyMemo?
    ensures !entered ==> !Apply(Obj(Proc(ps, b, penv)), es, env, st, fuel).0.Ok?
    ensures entered ==>
              var a := |inside.frames| - 1; var e := Nth(es, i);
              && a >= 0 && i < Length(inside.frames[a]) && fuel > 0 && t < |inside.thunks|
              && Nth(inside.frames[a], i) == Binding(Nth(ps, i).name, Obj(ThunkRef(t)))
              && Apply(Obj(Proc(ps, b, penv)), es, env, st, fuel) == EvalSequence(b, Cons(a, penv), inside, fuel - 1)
              && var st' := Apply(Obj(Proc(ps, b, penv)), es, env, st, fuel).1;
                 var log := EvalsBody(b, Cons(a, penv), inside, fuel - 1, t);
                 && t < |st'.thunks| && (log == [] || InOne(log, e, env, t))
                 && st'.thunks[t] == if log == [] then MemoizedThunk(e, env) else EvaluatedThunk(log[|log| - 1])
    ensures entered ==>
              forall f: nat {:trigger ForceIt(Obj(ThunkRef(t)), inside, f)} ::
                var r := ForceIt(Obj(ThunkRef(t)), inside, f).0;
                r.Ok? ==>
                  && f > 0 && ActualValue(Nth(es, i), env, inside, f - 1).0 == r
                  && EvalsForce(Obj(ThunkRef(t)), inside, f, t) == [r.value]
  {
    t := 0;
    entered, inside := CallBinds(ps, b, penv, es, env, st, fuel, i);
    if entered {
      var a := |inside.frames| - 1;
      t := Nth(inside.frames[a], i).value.c.t;
      BodyEvaluates(b, Cons(a, penv), inside, fuel - 1, t);
      var hid := Hidden({a}, {t});
      HideEnv(env, st, inside, hid);
      forall f: nat | ForceIt(Obj(ThunkRef(t)), inside, f).0.Ok?
        ensures f > 0 && ActualValue(Nth(es, i), env, inside, f - 1).0 == ForceIt(Obj(ThunkRef(t)), inside, f).0
        ensures EvalsForce(Obj(ThunkRef(t)), inside, f, t) == [ForceIt(Obj(ThunkRef(t)), inside, f).0.value]
      {
        ValueStays(Nth(es, i), env, inside, f - 1, t, hid);
      }
    }
  }

  /** Once it has a value, it answers that value after any run, and its operand is never evaluated again. */
  lemma {:induction false} MemoKept(t: nat, w: V, st: State, e: Exp, env: Env, more: nat, again: nat)
    requires t < |st.thunks| && st.thunks[t] == EvaluatedThunk(w)
    ensures var st' := Eval(e, env, st, more).1;
            && Evals(e, env, st, more, t) == [] && EvalsForce(Obj(ThunkRef(t)), st', again, t) == []
            && ForceIt(Obj(ThunkRef(t)), st', again) == (Ok(w), st')
  {
    EvalEvaluates(e, env, st, more, t);
  }

  /** A lazy operand stays an operand while the body runs, and every force evaluates it, in the store
      of that moment. */
  lemma {:induction false} LazyParameter(ps: List<Param>, b: Body, penv: Env, es: List<Exp>, env: Env, st: State,
                                         fuel: nat, i: nat)
    returns (entered: bool, inside: State, t: nat)
    requires AwayState(st, NOTHING) && AwayEnv(env, st, NOTHING)
    requires i < Length(es) && i < Length(ps) && Nth(ps, i).mode.Lazy?
    ensures !entered ==> !Apply(Obj(Proc(ps, b, penv)), es, env, st, fuel).0.Ok?
    ensures entered ==>
              var a := |inside.frames| - 1; var e := Nth(es, i);
              && a >= 0 && i < Length(inside.frames[a]) && fuel > 0 && t < |inside.thunks|
              && Nth(inside.frames[a], i) == Binding(Nth(ps, i).name, Obj(ThunkRef(t)))
              && Apply(Obj(Proc(ps, b, penv)), es, env, st, fuel) == EvalSequence(b, Cons(a, penv), inside, fuel - 1)
              && var st' := Apply(Obj(Proc(ps, b, penv)), es, env, st, fuel).1;
                 t < |st'.thunks| && inside.thunks[t] == st'.thunks[t] == Thunk(e, env)
  {
    t := 0;
    entered, inside := CallBinds(ps, b, penv, es, env, st, fuel, i);
    if entered {
      var a := |inside.frames| - 1;
      t := Nth(inside.frames[a], i).value.c.t;
      BodyEvaluates(b, Cons(a, penv), inside, fuel - 1, t);
    }
  }

  lemma {:induction false} LazyForcesAgain(t: nat, e0: Exp, env0: Env, st: State, e: Exp, env: Env, more: nat, f: nat)
    requires t < |st.thunks| && st.thunks[t] == Thunk(e0, env0) && f > 0
    ensures var st' := Eval(e, env, st, more).1; var r := ActualValue(e0, env0, st', f - 1).0;
            && ForceIt(Obj(ThunkRef(t)), st', f) == ActualValue(e0, env0, st', f - 1)
            && (r.Ok? ==> EvalsForce(Obj(ThunkRef(t)), st', f, t)
                          == EvalsValue(e0, env0, st', f - 1, t) + [r.value])
  {
    EvalEvaluates(e, env, st, more, t);
  }

  /** A strict operand is evaluated before the body: the parameter holds its value. */
  lemma {:induction false} StrictParameter(ps: List<Param>, b: Body, penv: Env, es: List<Exp>, env: Env, st: State,
                                           fuel: nat, i: nat)
    returns (entered: bool, inside: State, at: State)
    requires AwayState(st, NOTHING) && AwayEnv(env, st, NOTHING)
    requires i < Length(es) && i < Length(ps) && Nth(ps, i).mode.Strict?
    ensures !entered ==> !Apply(Obj(Proc(ps, b, penv)), es, env, st, fuel).0.Ok?
    ensures entered ==>
              var a := |inside.frames| - 1;
              && a >= 0 && i < Length(inside.frames[a]) && fuel > 0 && ActualValue(Nth(es, i), env, at, fuel).0.Ok?
              && Nth(inside.frames[a], i)
                 == Binding(Nth(ps, i).name, ActualValue(Nth(es, i), env, at, fuel).0.value)
              && Apply(Obj(Proc(ps, b, penv)), es, env, st, fuel) == EvalSequence(b, Cons(a, penv), inside, fuel - 1)
  {
    at := st;
    entered, inside := CallBinds(ps, b, penv, es, env, st, fuel, i);
    if entered {
      var v := Nth(inside.frames[|inside.frames| - 1], i).value;
      at :| ActualValue(Nth(es, i), env, at, fuel).0 == Ok(v);
    }
  }

  /** Nothing refers to what does not exist when a program starts; and no run changes that. */
  lemma {:induction false} StartAway()
    ensures AwayState(P.Load(Nil), NOTHING) && AwayEnv(P.TOP, P.Load(Nil), NOTHING)
  {
    assert AwayFrame(GlobalFrame(), P.Load(Nil), NOTHING);
  }

  lemma {:induction false} RunStaysAway(e: Exp, env: Env, st: State, fuel: nat)
    requires AwayState(st, NOTHING) && AwayEnv(env, st, NOTHING)
    ensures var (r, st') := Eval(e, env, st, fuel);
            AwayState(st', NOTHING) && AwayEnv(env, st', NOTHING) && (r.Ok? ==> Away(r.value, st', NOTHING))
  {
    EvalStays(e, env, st, fuel, 0, NOTHING);
    GrowEnv(env, st, Eval(e, env, st, fuel).1, NOTHING);
  }
}
