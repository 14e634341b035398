/** What a run of the evaluator with lazy parameters cannot reach: cells that nothing outside some
    hidden frames and thunks refers to stay as they are, and are not evaluated. */
module LazyReach {
  import opened LazyInterp
  import opened LazyMemo
  import opened LazySyntax
  import opened Scheme

  /** Frames and thunks that are not to be reached. */
  datatype Hidden = Hidden(frames: set<nat>, thunks: set<nat>)

  const NOTHING: Hidden := Hidden({}, {})

  predicate AwayEnv(env: Env, st: State, hid: Hidden) {
    match env
    case Nil => true
    case Cons(a, rest) => a < |st.frames| && a !in hid.frames && AwayEnv(rest, st, hid)
  }

  /** v refers to frames and thunks that exist, and to no hidden one. */
  predicate Away(v: V, st: State, hid: Hidden) {
    match v
    case Pair(a, d) => Away(a, st, hid) && Away(d, st, hid)
    case Obj(Proc(_, _, env)) => AwayEnv(env, st, hid)
    case Obj(ThunkRef(t)) => t < |st.thunks| && t !in hid.thunks
    case _ => true
  }

  predicate AwayList(vs: List<V>, st: State, hid: Hidden) {
    match vs
    case Nil => true
    case Cons(v, rest) => Away(v, st, hid) && AwayList(rest, st, hid)
  }

  predicate AwayFrame(frame: Frame<Object>, st: State, hid: Hidden) {
    match frame
    case Nil => true
    case Cons(b, rest) => Away(b.value, st, hid) && AwayFrame(rest, st, hid)
  }

  predicate AwayCell(c: Cell, st: State, hid: Hidden) {
    match c
    case EvaluatedThunk(v) => Away(v, st, hid)
    case _ => AwayEnv(c.env, st, hid)
  }

  /** Only what is hidden refers to what is hidden. */
  ghost predicate AwayState(st: State, hid: Hidden) {
    && (forall a :: a in hid.frames ==> a < |st.frames|) && (forall t :: t in hid.thunks ==> t < |st.thunks|)
    && (forall a :: 0 <= a < |st.frames| && a !in hid.frames ==> AwayFrame(st.frames[a], st, hid))
    && (forall t :: 0 <= t < |st.thunks| && t !in hid.thunks ==> AwayCell(st.thunks[t], st, hid))
  }

  predicate Longer(st: State, st': State) { |st.frames| <= |st'.frames| && |st.thunks| <= |st'.thunks| }

  // ----- more cells -----

  lemma {:induction false} GrowEnv(env: Env, st: State, st': State, hid: Hidden)
    requires AwayEnv(env, st, hid) && Longer(st, st')
    ensures AwayEnv(env, st', hid)
  {
    if env.Cons? { GrowEnv(env.tail, st, st', hid); }
  }

  lemma {:induction false} GrowValue(v: V, st: State, st': State, hid: Hidden)
    requires Away(v, st, hid) && Longer(st, st')
    ensures Away(v, st', hid)
  {
    match v
    case Pair(a, d) => GrowValue(a, st, st', hid); GrowValue(d, st, st', hid);
    case Obj(Proc(_, _, env)) => GrowEnv(env, st, st', hid);
    case _ =>
  }

  lemma {:induction false} GrowFrame(frame: Frame<Object>, st: State, st': State, hid: Hidden)
    requires AwayFrame(frame, st, hid) && Longer(st, st')
    ensures AwayFrame(frame, st', hid)
  {
    if frame.Cons? { GrowValue(frame.head.value, st, st', hid); GrowFrame(frame.tail, st, st', hid); }
  }

  lemma {:induction false} GrowCell(c: Cell, st: State, st': State, hid: Hidden)
    requires AwayCell(c, st, hid) && Longer(st, st')
    ensures AwayCell(c, st', hid)
  {
    match c
    case EvaluatedThunk(v) => GrowValue(v, st, st', hid);
    case _ => GrowEnv(c.env, st, st', hid);
  }

  /** One frame is written or added. */
  lemma {:induction false} FramesAway(st: State, st': State, f: nat, hid: Hidden)
    requires AwayState(st, hid) && Longer(st, st') && st'.thunks == st.thunks
    requires f < |st'.frames| && |st'.frames| <= |st.frames| + 1 && AwayFrame(st'.frames[f], st', hid)
    requires forall a :: 0 <= a < |st'.frames| && a != f ==> a < |st.frames| && st'.frames[a] == st.frames[a]
    ensures AwayState(st', hid)
  {
    forall a | 0 <= a < |st'.frames| && a !in hid.frames ensures AwayFrame(st'.frames[a], st', hid) {
      var frame := st'.frames[a];
      if a != f { GrowFrame(frame, st, st', hid); }
    }
    forall t | 0 <= t < |st'.thunks| && t !in hid.thunks ensures AwayCell(st'.thunks[t], st', hid) {
      GrowCell(st.thunks[t], st, st', hid);
    }
  }

  /** One thunk is written or added. */
  lemma {:induction false} ThunksAway(st: State, st': State, u: nat, hid: Hidden)
    requires AwayState(st, hid) && Longer(st, st') && st'.frames == st.frames
    requires u < |st'.thunks| && AwayCell(st'.thunks[u], st', hid)
    requires forall t :: 0 <= t < |st'.thunks| && t != u ==> t < |st.thunks| && st'.thunks[t] == st.thunks[t]
    ensures AwayState(st', hid)
  {
    forall a | 0 <= a < |st'.frames| && a !in hid.frames ensures AwayFrame(st'.frames[a], st', hid) {
      GrowFrame(st.frames[a], st, st', hid);
    }
    forall t | 0 <= t < |st'.thunks| && t !in hid.thunks ensures AwayCell(st'.thunks[t], st', hid) {
      var c := st'.thunks[t];
      if t != u { GrowCell(c, st, st', hid); }
    }
  }

  // ----- environments and primitive procedures -----

  lemma {:induction false} ScanAway(x: Name, frame: Frame<Object>, st: State, hid: Hidden)
    requires AwayFrame(frame, st, hid)
    ensures Scan(x, frame).Found? ==> Away(Scan(x, frame).value, st, hid)
  {
    if frame.Cons? { ScanAway(x, frame.tail, st, hid); }
  }

  lemma {:induction false} LookupAway(x: Name, env: Env, st: State, hid: Hidden)
    requires AwayState(st, hid) && AwayEnv(env, st, hid)
    ensures Lookup(x, env, st.frames).Ok? ==> Away(Lookup(x, env, st.frames).value, st, hid)
  {
    if env.Cons? {
      ScanAway(x, st.frames[env.head], st, hid);
      LookupAway(x, env.tail, st, hid);
    }
  }

  lemma {:induction false} SetInFrameAway(x: Name, v: V, frame: Frame<Object>, st: State, hid: Hidden)
    requires AwayFrame(frame, st, hid) && Away(v, st, hid)
    ensures AwayFrame(SetInFrame(x, v, frame), st, hid)
  {
    if frame.Cons? { SetInFrameAway(x, v, frame.tail, st, hid); }
  }

  lemma {:induction false} WriteAway(f: nat, frame: Frame<Object>, st: State, hid: Hidden)
    requires AwayState(st, hid) && f < |st.frames| && AwayFrame(frame, st, hid)
    ensures AwayState(st.(frames := st.frames[f := frame]), hid)
  {
    var st' := st.(frames := st.frames[f := frame]);
    GrowFrame(frame, st, st', hid);
    FramesAway(st, st', f, hid);
  }

  lemma {:induction false} SetAway(x: Name, v: V, env: Env, st: State, hid: Hidden)
    requires AwayState(st, hid) && AwayEnv(env, st, hid) && Away(v, st, hid)
    ensures var r := SetVariable(x, v, env, st.frames); r.Ok? ==> AwayState(st.(frames := r.value), hid)
  {
    if env.Cons? {
      if Scan(x, FrameAt(st.frames, env.head)).Missing? {
        SetAway(x, v, env.tail, st, hid);
      } else {
        SetInFrameAway(x, v, st.frames[env.head], st, hid);
        WriteAway(env.head, SetInFrame(x, v, st.frames[env.head]), st, hid);
      }
    }
  }

  lemma {:induction false} DefineAway(x: Name, v: V, env: Env, st: State, hid: Hidden)
    requires AwayState(st, hid) && AwayEnv(env, st, hid) && Away(v, st, hid)
    ensures AwayState(st.(frames := DefineVariable(x, v, env, st.frames)), hid)
  {
    if env.Cons? {
      SetInFrameAway(x, v, st.frames[env.head], st, hid);
      WriteAway(env.head, DefineInFrame(x, v, st.frames[env.head]), st, hid);
    }
  }

  lemma {:induction false} DatumAway(d: Datum, st: State, hid: Hidden)
    ensures Away(FromDatum(d), st, hid)
  {
    match d
    case DPair(a, b) => DatumAway(a, st, hid); DatumAway(b, st, hid);
    case _ =>
  }

  lemma {:induction false} ListAway(vs: List<V>, st: State, hid: Hidden)
    requires AwayList(vs, st, hid)
    ensures Away(ToSchemeList(vs), st, hid)
  {
    if vs.Cons? { ListAway(vs.tail, st, hid); }
  }

  lemma {:induction false} PrimitiveAway(op: Prim, vs: List<V>, st: State, hid: Hidden)
    requires AwayList(vs, st, hid) && ApplyPrimitive(op, vs).Ok?
    ensures Away(ApplyPrimitive(op, vs).value, st, hid)
  {
    if op.MakeList? { ListAway(vs, st, hid); }
  }

  lemma {:induction false} ZipAway(xs: List<Name>, vs: List<V>, st: State, hid: Hidden)
    requires AwayList(vs, st, hid)
    ensures AwayFrame(Zip(xs, vs), st, hid)
  {
    if xs.Cons? && vs.Cons? { ZipAway(xs.tail, vs.tail, st, hid); }
  }

  lemma {:induction false} NewFrameAway(frame: Frame<Object>, st: State, hid: Hidden)
    requires AwayState(st, hid) && AwayFrame(frame, st, hid)
    ensures AwayState(st.(frames := st.frames + [frame]), hid) && |st.frames| !in hid.frames
  {
    var st' := st.(frames := st.frames + [frame]);
    GrowFrame(frame, st, st', hid);
    FramesAway(st, st', |st.frames|, hid);
  }

  lemma {:induction false} NewThunkAway(c: Cell, st: State, hid: Hidden)
    requires AwayState(st, hid) && AwayCell(c, st, hid)
    ensures AwayState(st.(thunks := st.thunks + [c]), hid) && |st.thunks| !in hid.thunks
  {
    var st' := st.(thunks := st.thunks + [c]);
    GrowCell(c, st, st', hid);
    ThunksAway(st, st', |st.thunks|, hid);
  }

  // ----- evaluation -----

  /** The run reaches nothing hidden, and so does not evaluate t if it is. */
  ghost predicate Stays(r: Result<V>, st: State, st': State, log: seq<V>, t: nat, hid: Hidden) {
    && Longer(st, st') && AwayState(st', hid) && (r.Ok? ==> Away(r.value, st', hid))
    && (t in hid.thunks ==> log == [])
  }

  ghost predicate ListStays(rs: Result<List<V>>, st: State, st': State, log: seq<V>, t: nat, hid: Hidden) {
    && Longer(st, st') && AwayState(st', hid) && (rs.Ok? ==> AwayList(rs.value, st', hid))
    && (t in hid.thunks ==> log == [])
  }

  lemma {:induction false} EvalStays(e: Exp, env: Env, st: State, fuel: nat, t: nat, hid: Hidden)
    requires AwayState(st, hid) && AwayEnv(env, st, hid)
    ensures var (r, st') := Eval(e, env, st, fuel); Stays(r, st, st', Evals(e, env, st, fuel, t), t, hid)
    decreases fuel, Size(e), 0
  {
    match e
    case Self(d) => DatumAway(d, st, hid);
    case Quote(d) => DatumAway(d, st, hid);
    case Var(x) => LookupAway(x, env, st, hid);
    case Assign(x, rhs) =>
      EvalStays(rhs, env, st, fuel, t, hid);
      var (r, st1) := Eval(rhs, env, st, fuel);
      GrowEnv(env, st, st1, hid);
      if r.Ok? { SetAway(x, r.value, env, st1, hid); }
    case Define(x, rhs) =>
      EvalStays(rhs, env, st, fuel, t, hid);
      var (r, st1) := Eval(rhs, env, st, fuel);
      GrowEnv(env, st, st1, hid);
      if r.Ok? { DefineAway(x, r.value, env, st1, hid); }
    case If(p, c, a) =>
      ValueStays(p, env, st, fuel, t, hid);
      var (r, st1) := ActualValue(p, env, st, fuel);
      GrowEnv(env, st, st1, hid);
      if r.Ok? { EvalStays(if True(r.value) then c else a, env, st1, fuel, t, hid); }
    case Lambda(_, _) =>
    case Begin(b) => BodyStays(b, env, st, fuel, t, hid);
    case Cond(cs) => EvalStays(CondToIf(cs), env, st, fuel, t, hid);
    case App(f, es) =>
      ValueStays(f, env, st, fuel, t, hid);
      var (r, st1) := ActualValue(f, env, st, fuel);
      GrowEnv(env, st, st1, hid);
      if r.Ok? { CallStays(r.value, es, env, st1, fuel, t, hid); }
  }

  lemma {:induction false} ValueStays(e: Exp, env: Env, st: State, fuel: nat, t: nat, hid: Hidden)
    requires AwayState(st, hid) && AwayEnv(env, st, hid)
    ensures var (r, st') := ActualValue(e, env, st, fuel); Stays(r, st, st', EvalsValue(e, env, st, fuel, t), t, hid)
    decreases fuel, Size(e), 1
  {
    EvalStays(e, env, st, fuel, t, hid);
    var (r, st1) := Eval(e, env, st, fuel);
    if r.Ok? { ForceStays(r.value, st1, fuel, t, hid); }
  }

  lemma {:induction false} ForceStays(v: V, st: State, fuel: nat, t: nat, hid: Hidden)
    requires AwayState(st, hid) && Away(v, st, hid)
    ensures var (r, st') := ForceIt(v, st, fuel); Stays(r, st, st', EvalsForce(v, st, fuel, t), t, hid)
    decreases fuel, 0, 0
  {
    if v.Obj? && v.c.ThunkRef? {
      var u := v.c.t;
      var c := st.thunks[u];
      assert AwayCell(c, st, hid);
      if !c.EvaluatedThunk? && fuel > 0 {
        ValueStays(c.exp, c.env, st, fuel - 1, t, hid);
        var (r, st1) := ActualValue(c.exp, c.env, st, fuel - 1);
        if c.MemoizedThunk? && r.Ok? {
          GrowValue(r.value, st1, Memoize(u, r.value, st1), hid);
          ThunksAway(st1, Memoize(u, r.value, st1), u, hid);
        }
      }
    }
  }

  lemma {:induction false} BodyStays(b: Body, env: Env, st: State, fuel: nat, t: nat, hid: Hidden)
    requires AwayState(st, hid) && AwayEnv(env, st, hid)
    ensures var (r, st') := EvalSequence(b, env, st, fuel); Stays(r, st, st', EvalsBody(b, env, st, fuel, t), t, hid)
    decreases fuel, BodySize(b), 0
  {
    EvalStays(b.exp, env, st, fuel, t, hid);
    var (r, st1) := Eval(b.exp, env, st, fuel);
    GrowEnv(env, st, st1, hid);
    if b.More? && r.Ok? { BodyStays(b.rest, env, st1, fuel, t, hid); }
  }

  lemma {:induction false} CallStays(p: V, es: List<Exp>, env: Env, st: State, fuel: nat, t: nat, hid: Hidden)
    requires AwayState(st, hid) && AwayEnv(env, st, hid) && Away(p, st, hid)
    ensures var (r, st') := Apply(p, es, env, st, fuel); Stays(r, st, st', EvalsCall(p, es, env, st, fuel, t), t, hid)
    decreases fuel, ListSize(es), 2
  {
    match p
    case Primitive(op) =>
      ValuesStay(es, env, st, fuel, t, hid);
      var (rs, st1) := ListOfArgValues(es, env, st, fuel);
      if rs.Ok? && ApplyPrimitive(op, rs.value).Ok? { PrimitiveAway(op, rs.value, st1, hid); }
    case Obj(Proc(ps, b, penv)) =>
      ArgsStay(ps, es, env, st, fuel, t, hid);
      var (rs, st1) := ListOfProcedureArgs(ps, es, env, st, fuel);
      GrowEnv(penv, st, st1, hid);
      if rs.Ok? && fuel > 0 && Extend(StripParameters(ps), rs.value, st1.frames).Ok? {
        var frame := Zip(StripParameters(ps), rs.value);
        ZipAway(StripParameters(ps), rs.value, st1, hid);
        NewFrameAway(frame, st1, hid);
        var st2 := st1.(frames := st1.frames + [frame]);
        GrowEnv(penv, st1, st2, hid);
        BodyStays(b, Cons(|st1.frames|, penv), st2, fuel - 1, t, hid);
      }
    case _ =>
  }

  lemma {:induction false} ValuesStay(es: List<Exp>, env: Env, st: State, fuel: nat, t: nat, hid: Hidden)
    requires AwayState(st, hid) && AwayEnv(env, st, hid)
    ensures var (rs, st') := ListOfArgValues(es, env, st, fuel);
            ListStays(rs, st, st', EvalsValues(es, env, st, fuel, t), t, hid)
    decreases fuel, ListSize(es), 0
  {
    if es.Cons? {
      ValueStays(es.head, env, st, fuel, t, hid);
      var (r, st1) := ActualValue(es.head, env, st, fuel);
      GrowEnv(env, st, st1, hid);
      if r.Ok? {
        ValuesStay(es.tail, env, st1, fuel, t, hid);
        GrowValue(r.value, st1, ListOfArgValues(es.tail, env, st1, fuel).1, hid);
      }
    }
  }

  lemma {:induction false} ArgStays(m: Mode, e: Exp, env: Env, st: State, fuel: nat, t: nat, hid: Hidden)
    requires AwayState(st, hid) && AwayEnv(env, st, hid)
    ensures var (r, st') := ProcedureArg(m, e, env, st, fuel);
            Stays(r, st, st', if m.Strict? then EvalsValue(e, env, st, fuel, t) else [], t, hid)
    decreases fuel, Size(e), 2
  {
    match m
    case Strict => ValueStays(e, env, st, fuel, t, hid);
    case Lazy => NewThunkAway(Thunk(e, env), st, hid);
    case LazyMemo => NewThunkAway(MemoizedThunk(e, env), st, hid);
  }

  lemma {:induction false} ArgsStay(ps: List<Param>, es: List<Exp>, env: Env, st: State, fuel: nat, t: nat, hid: Hidden)
    requires AwayState(st, hid) && AwayEnv(env, st, hid)
    ensures var (rs, st') := ListOfProcedureArgs(ps, es, env, st, fuel);
            ListStays(rs, st, st', EvalsArgs(ps, es, env, st, fuel, t), t, hid)
    decreases fuel, ListSize(es), 1
  {
    if es.Cons? && ps.Cons? {
      ArgStays(ps.head.mode, es.head, env, st, fuel, t, hid);
      var (r, st1) := ProcedureArg(ps.head.mode, es.head, env, st, fuel);
      GrowEnv(env, st, st1, hid);
      if r.Ok? {
        ArgsStay(ps.tail, es.tail, env, st1, fuel, t, hid);
        GrowValue(r.value, st1, ListOfProcedureArgs(ps.tail, es.tail, env, st1, fuel).1, hid);
      }
    }
  }
}
