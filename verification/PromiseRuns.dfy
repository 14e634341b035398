/** A promise that has been forced keeps its value through every later run, and its expression
    is not run again: only the promise itself can write the frame that remembers the value. */
module PromiseRuns {
  import opened Scheme
  import opened Syntax
  import opened Analyzer
  import opened FrameNames
  import opened Promises

  // ----- nothing but the promise itself writes its frame -----

  /** Runs set! on x outside the procedures that bind x. */
  predicate FreelySets(c: Code, x: Name) {
    match c
    case AssignTo(y, rhs) => y == x || FreelySets(rhs, x)
    case DefineAs(_, rhs) => FreelySets(rhs, x)
    case Branch(p, c1, c2) => FreelySets(p, x) || FreelySets(c1, x) || FreelySets(c2, x)
    case MakeProc(ps, b) => !Member(x, ps) && FreelySets(b, x)
    case Sequentially(c1, c2) => FreelySets(c1, x) || FreelySets(c2, x)
    case Call(f, cs) => FreelySets(f, x) || AnyFreelySets(cs, x)
    case _ => false
  }

  predicate AnyFreelySets(cs: List<Code>, x: Name) {
    match cs
    case Nil => false
    case Cons(c, t) => FreelySets(c, x) || AnyFreelySets(t, x)
  }

  predicate Member(x: Name, xs: List<Name>) {
    match xs
    case Nil => false
    case Cons(y, t) => x == y || Member(x, t)
  }

  predicate InEnv(a: nat, env: Env) {
    match env
    case Nil => false
    case Cons(f, t) => f == a || InEnv(a, t)
  }

  /** A frame ahead of a binds x. */
  predicate Shadowed(x: Name, env: Env, a: nat, st: St) {
    env.Cons? && env.head != a && (Binds(st, env.head, x) || Shadowed(x, env.tail, a, st))
  }

  predicate Harmless(c: Code, x: Name, env: Env, a: nat, st: St) {
    InEnv(a, env) && FreelySets(c, x) ==> Shadowed(x, env, a, st)
  }

  /** Running c in env does not write the frame at a. */
  predicate MayRun(c: Code, env: Env, a: nat, st: St) {
    (env.Cons? ==> env.head != a) && Harmless(c, RAN, env, a, st) && Harmless(c, RESULT, env, a, st)
  }

  predicate HarmlessBody(p: Proc, x: Name, a: nat, st: St) {
    Member(x, p.params) || Harmless(p.body, x, p.env, a, st)
  }

  predicate SafeProc(q: Proc, p: Proc, a: nat, st: St) {
    q == p || (HarmlessBody(q, RAN, a, st) && HarmlessBody(q, RESULT, a, st))
  }

  predicate SafeValue(v: V, p: Proc, a: nat, st: St) {
    match v
    case Pair(x, y) => SafeValue(x, p, a, st) && SafeValue(y, p, a, st)
    case Obj(q) => SafeProc(q, p, a, st)
    case _ => true
  }

  predicate SafeValues(vs: List<V>, p: Proc, a: nat, st: St) {
    match vs
    case Nil => true
    case Cons(v, t) => SafeValue(v, p, a, st) && SafeValues(t, p, a, st)
  }

  predicate SafeFrame(frame: Frame<Proc>, p: Proc, a: nat, st: St) {
    match frame
    case Nil => true
    case Cons(b, t) => SafeValue(b.value, p, a, st) && SafeFrame(t, p, a, st)
  }

  /** Only the promise p, the procedure whose frame is at a, can write that frame. */
  ghost predicate Guarded(st: St, p: Proc, a: nat) {
    && a < |st| && IsPromiseFrame(st[a])
    && forall f :: 0 <= f < |st| ==> SafeFrame(st[f], p, a, st)
  }

  lemma {:induction false} GrowShadowed(x: Name, env: Env, a: nat, st: St, st': St)
    requires Shadowed(x, env, a, st) && Grows(st, st')
    ensures Shadowed(x, env, a, st')
  {
    if !Binds(st, env.head, x) { GrowShadowed(x, env.tail, a, st, st'); }
  }

  lemma {:induction false} GrowMayRun(c: Code, env: Env, a: nat, st: St, st': St)
    requires MayRun(c, env, a, st) && Grows(st, st')
    ensures MayRun(c, env, a, st')
  {
    if Shadowed(RAN, env, a, st) { GrowShadowed(RAN, env, a, st, st'); }
    if Shadowed(RESULT, env, a, st) { GrowShadowed(RESULT, env, a, st, st'); }
  }

  lemma {:induction false} GrowValue(v: V, p: Proc, a: nat, st: St, st': St)
    requires SafeValue(v, p, a, st) && Grows(st, st')
    ensures SafeValue(v, p, a, st')
  {
    match v
    case Pair(x, y) => GrowValue(x, p, a, st, st'); GrowValue(y, p, a, st, st');
    case Obj(q) =>
      if Shadowed(RAN, q.env, a, st) { GrowShadowed(RAN, q.env, a, st, st'); }
      if Shadowed(RESULT, q.env, a, st) { GrowShadowed(RESULT, q.env, a, st, st'); }
    case _ =>
  }

  lemma {:induction false} GrowFrame(frame: Frame<Proc>, p: Proc, a: nat, st: St, st': St)
    requires SafeFrame(frame, p, a, st) && Grows(st, st')
    ensures SafeFrame(frame, p, a, st')
  {
    if frame.Cons? {
      GrowValue(frame.head.value, p, a, st, st');
      GrowFrame(frame.tail, p, a, st, st');
    }
  }

  // ----- every run keeps the frame of a settled promise -----

  /** The expression of a promise may not set! the two names of the promise's frame. */
  predicate Clean(e: Exp) { !FreelySets(Analyze(e), RAN) && !FreelySets(Analyze(e), RESULT) }

  /** What a run of a guarded store leaves. */
  ghost predicate Kept(st: St, st': St, p: Proc, a: nat) {
    Grows(st, st') && Guarded(st', p, a) && (a < |st| && Settled(st[a]) ==> st'[a] == st[a])
  }

  ghost predicate KeptResult(r: Result<V>, st: St, st': St, p: Proc, a: nat) {
    Kept(st, st', p, a) && (r.Ok? ==> SafeValue(r.value, p, a, st'))
  }

  lemma {:induction false} KeptTwice(st: St, st1: St, st2: St, p: Proc, a: nat)
    requires Kept(st, st1, p, a) && Kept(st1, st2, p, a) && a < |st|
    ensures Kept(st, st2, p, a)
  {
    forall f: nat, x: Name | Binds(st, f, x) ensures Binds(st2, f, x) { assert Binds(st1, f, x); }
  }

  lemma {:induction false} SameKept(st: St, p: Proc, a: nat)
    requires Guarded(st, p, a)
    ensures Kept(st, st, p, a)
  {
  }

  lemma {:induction false} ScanSafe(x: Name, frame: Frame<Proc>, p: Proc, a: nat, st: St)
    requires SafeFrame(frame, p, a, st)
    ensures Scan(x, frame).Found? ==> SafeValue(Scan(x, frame).value, p, a, st)
  {
    if frame.Cons? { ScanSafe(x, frame.tail, p, a, st); }
  }

  lemma {:induction false} LookupSafe(x: Name, env: Env, p: Proc, a: nat, st: St)
    requires Guarded(st, p, a)
    ensures Lookup(x, env, st).Ok? ==> SafeValue(Lookup(x, env, st).value, p, a, st)
  {
    if env.Cons? {
      ScanSafe(x, FrameAt(st, env.head), p, a, st);
      LookupSafe(x, env.tail, p, a, st);
    }
  }

  lemma {:induction false} DatumSafe(d: Datum, p: Proc, a: nat, st: St)
    ensures SafeValue(FromDatum(d), p, a, st)
  {
    match d
    case DPair(x, y) => DatumSafe(x, p, a, st); DatumSafe(y, p, a, st);
    case _ =>
  }

  lemma {:induction false} ListSafe(vs: List<V>, p: Proc, a: nat, st: St)
    requires SafeValues(vs, p, a, st)
    ensures SafeValue(ToSchemeList(vs), p, a, st)
  {
    if vs.Cons? { ListSafe(vs.tail, p, a, st); }
  }

  lemma {:induction false} PrimitiveSafe(op: Prim, args: List<V>, p: Proc, a: nat, st: St)
    requires SafeValues(args, p, a, st)
    ensures ApplyPrimitive(op, args).Ok? ==> SafeValue(ApplyPrimitive(op, args).value, p, a, st)
  {
    ListSafe(args, p, a, st);
  }

  lemma {:induction false} SetInFrameSafe(x: Name, v: V, frame: Frame<Proc>, p: Proc, a: nat, st: St)
    requires SafeFrame(frame, p, a, st) && SafeValue(v, p, a, st)
    ensures SafeFrame(SetInFrame(x, v, frame), p, a, st)
  {
    if frame.Cons? { SetInFrameSafe(x, v, frame.tail, p, a, st); }
  }

  lemma {:induction false} ZipSafe(xs: List<Name>, vs: List<V>, p: Proc, a: nat, st: St)
    requires SafeValues(vs, p, a, st)
    ensures SafeFrame(Zip(xs, vs), p, a, st)
  {
    if xs.Cons? && vs.Cons? { ZipSafe(xs.tail, vs.tail, p, a, st); }
  }

  lemma {:induction false} ZipBinds(xs: List<Name>, vs: List<V>, x: Name)
    requires Length(xs) == Length(vs) && Member(x, xs)
    ensures Scan(x, Zip(xs, vs)).Found?
  {
    if xs.head != x { ZipBinds(xs.tail, vs.tail, x); }
  }

  /** Replacing a frame by one with safe values. */
  lemma {:induction false} UpdateKept(st: St, f: nat, frame: Frame<Proc>, p: Proc, a: nat)
    requires Guarded(st, p, a) && f < |st| && SafeFrame(frame, p, a, st) && Grows(st, st[f := frame])
    requires f == a ==> IsPromiseFrame(frame)
    ensures Guarded(st[f := frame], p, a)
    ensures f != a ==> Kept(st, st[f := frame], p, a)
  {
    var st' := st[f := frame];
    forall b | 0 <= b < |st'| ensures SafeFrame(st'[b], p, a, st') {
      GrowFrame(if b == f then frame else st[b], p, a, st, st');
    }
  }

  lemma {:induction false} NewFrameKept(st: St, frame: Frame<Proc>, p: Proc, a: nat)
    requires Guarded(st, p, a) && SafeFrame(frame, p, a, st)
    ensures Kept(st, st + [frame], p, a)
  {
    var st' := st + [frame];
    NewFrameNames(Nil, frame, st);
    forall b | 0 <= b < |st'| ensures SafeFrame(st'[b], p, a, st') {
      GrowFrame(if b == |st| then frame else st[b], p, a, st, st');
    }
  }

  lemma {:induction false} SetKept(x: Name, v: V, env: Env, st: St, p: Proc, a: nat)
    requires Guarded(st, p, a) && SafeValue(v, p, a, st) && SetVariable(x, v, env, st).Ok?
    requires InEnv(a, env) && (x == RAN || x == RESULT) ==> Shadowed(x, env, a, st)
    ensures var st' := SetVariable(x, v, env, st).value; Kept(st, st', p, a) && st'[a] == st[a]
  {
    if Scan(x, FrameAt(st, env.head)).Missing? {
      SetKept(x, v, env.tail, st, p, a);
    } else {
      if env.head == a { PromiseScan(x, st[a]); }
      SetNames(x, v, Cons(env.head, Nil), st, Nil);
      SetInFrameSafe(x, v, st[env.head], p, a, st);
      UpdateKept(st, env.head, SetInFrame(x, v, st[env.head]), p, a);
    }
  }

  lemma {:induction false} DefineKept(x: Name, v: V, env: Env, st: St, p: Proc, a: nat)
    requires Guarded(st, p, a) && SafeValue(v, p, a, st) && (env.Cons? ==> env.head != a)
    ensures var st' := DefineVariable(x, v, env, st); Kept(st, st', p, a) && st'[a] == st[a]
  {
    SameKept(st, p, a);
    if env.Cons? && env.head < |st| {
      DefineNames(x, v, env, st);
      SetInFrameSafe(x, v, st[env.head], p, a, st);
      UpdateKept(st, env.head, DefineInFrame(x, v, st[env.head]), p, a);
    }
  }

  /** Calling a procedure other than the promise. */
  lemma {:induction false} BodyMayRun(q: Proc, args: List<V>, st: St, p: Proc, a: nat)
    requires Guarded(st, p, a) && HarmlessBody(q, RAN, a, st) && HarmlessBody(q, RESULT, a, st)
    requires Length(q.params) == Length(args)
    ensures MayRun(q.body, Cons(|st|, q.env), a, st + [Zip(q.params, args)])
  {
    NewFrameNames(Nil, Zip(q.params, args), st);
    BodyHarmless(q, args, st, a, RAN);
    BodyHarmless(q, args, st, a, RESULT);
  }

  lemma {:induction false} BodyHarmless(q: Proc, args: List<V>, st: St, a: nat, x: Name)
    requires a < |st| && HarmlessBody(q, x, a, st) && Length(q.params) == Length(args)
    requires Grows(st, st + [Zip(q.params, args)])
    ensures Harmless(q.body, x, Cons(|st|, q.env), a, st + [Zip(q.params, args)])
  {
    if Member(x, q.params) { ZipBinds(q.params, args, x); }
    if Shadowed(x, q.env, a, st) { GrowShadowed(x, q.env, a, st, st + [Zip(q.params, args)]); }
  }

  lemma {:induction false} ExecKept(c: Code, env: Env, st: St, fuel: nat, e: Exp, a: nat, outer: Env)
    requires Clean(e) && Guarded(st, Promise(e, a, outer), a) && MayRun(c, env, a, st)
    ensures var (r, st') := Exec(c, env, st, fuel); KeptResult(r, st, st', Promise(e, a, outer), a)
    decreases fuel, 1, c, 1
  {
    var p := Promise(e, a, outer);
    SameKept(st, p, a);
    match c
    case Const(d) => DatumSafe(d, p, a, st);
    case VarRef(x) => LookupSafe(x, env, p, a, st);
    case AssignTo(x, rhs) =>
      ExecKept(rhs, env, st, fuel, e, a, outer);
      var (r, st1) := Exec(rhs, env, st, fuel);
      if r.Ok? && SetVariable(x, r.value, env, st1).Ok? {
        GrowMayRun(c, env, a, st, st1);
        SetKept(x, r.value, env, st1, p, a);
        KeptTwice(st, st1, SetVariable(x, r.value, env, st1).value, p, a);
      }
    case DefineAs(x, rhs) =>
      ExecKept(rhs, env, st, fuel, e, a, outer);
      var (r, st1) := Exec(rhs, env, st, fuel);
      if r.Ok? {
        DefineKept(x, r.value, env, st1, p, a);
        KeptTwice(st, st1, DefineVariable(x, r.value, env, st1), p, a);
      }
    case Branch(q, c1, c2) =>
      ExecKept(q, env, st, fuel, e, a, outer);
      var (r, st1) := Exec(q, env, st, fuel);
      if r.Ok? {
        var next := if True(r.value) then c1 else c2;
        GrowMayRun(next, env, a, st, st1);
        ExecKept(next, env, st1, fuel, e, a, outer);
        KeptTwice(st, st1, Exec(next, env, st1, fuel).1, p, a);
      }
    case MakeProc(ps, b) =>
    case Sequentially(c1, c2) =>
      ExecKept(c1, env, st, fuel, e, a, outer);
      var (r, st1) := Exec(c1, env, st, fuel);
      if r.Ok? {
        GrowMayRun(c2, env, a, st, st1);
        ExecKept(c2, env, st1, fuel, e, a, outer);
        KeptTwice(st, st1, Exec(c2, env, st1, fuel).1, p, a);
      }
    case Call(f, cs) => CallKept(f, cs, env, st, fuel, e, a, outer);
  }

  predicate MayRunAll(cs: List<Code>, env: Env, a: nat, st: St) {
    match cs
    case Nil => true
    case Cons(c, t) => MayRun(c, env, a, st) && MayRunAll(t, env, a, st)
  }

  lemma {:induction false} GrowMayRunAll(cs: List<Code>, env: Env, a: nat, st: St, st': St)
    requires MayRunAll(cs, env, a, st) && Grows(st, st')
    ensures MayRunAll(cs, env, a, st')
  {
    if cs.Cons? {
      GrowMayRun(cs.head, env, a, st, st');
      GrowMayRunAll(cs.tail, env, a, st, st');
    }
  }

  lemma {:induction false} CallMayRun(cs: List<Code>, env: Env, a: nat, st: St)
    requires (env.Cons? ==> env.head != a)
    requires forall x :: (x == RAN || x == RESULT) && InEnv(a, env) && AnyFreelySets(cs, x) ==> Shadowed(x, env, a, st)
    ensures MayRunAll(cs, env, a, st)
    decreases cs
  {
    if cs.Cons? { CallMayRun(cs.tail, env, a, st); }
  }

  lemma {:induction false} CallKept(f: Code, cs: List<Code>, env: Env, st: St, fuel: nat, e: Exp, a: nat, outer: Env)
    requires Clean(e) && Guarded(st, Promise(e, a, outer), a) && MayRun(Call(f, cs), env, a, st)
    ensures var (r, st') := Exec(Call(f, cs), env, st, fuel); KeptResult(r, st, st', Promise(e, a, outer), a)
    decreases fuel, 1, Call(f, cs), 0
  {
    var p := Promise(e, a, outer);
    ExecKept(f, env, st, fuel, e, a, outer);
    var (r, st1) := Exec(f, env, st, fuel);
    if r.Ok? {
      CallMayRun(cs, env, a, st);
      GrowMayRunAll(cs, env, a, st, st1);
      AllKept(cs, env, st1, fuel, e, a, outer);
      var (rs, st2) := ExecAll(cs, env, st1, fuel);
      KeptTwice(st, st1, st2, p, a);
      if rs.Ok? {
        GrowValue(r.value, p, a, st1, st2);
        ApplyKept(r.value, rs.value, st2, fuel, e, a, outer);
        KeptTwice(st, st2, ExecuteApplication(r.value, rs.value, st2, fuel).1, p, a);
      }
    }
  }

  lemma {:induction false} AllKept(cs: List<Code>, env: Env, st: St, fuel: nat, e: Exp, a: nat, outer: Env)
    requires Clean(e) && Guarded(st, Promise(e, a, outer), a) && MayRunAll(cs, env, a, st)
    ensures var (rs, st') := ExecAll(cs, env, st, fuel); var p := Promise(e, a, outer);
            Kept(st, st', p, a) && (rs.Ok? ==> SafeValues(rs.value, p, a, st'))
    decreases fuel, 1, cs, 1
  {
    var p := Promise(e, a, outer);
    SameKept(st, p, a);
    if cs.Cons? {
      ExecKept(cs.head, env, st, fuel, e, a, outer);
      var (r, st1) := Exec(cs.head, env, st, fuel);
      if r.Ok? {
        GrowMayRunAll(cs.tail, env, a, st, st1);
        AllKept(cs.tail, env, st1, fuel, e, a, outer);
        var st2 := ExecAll(cs.tail, env, st1, fuel).1;
        KeptTwice(st, st1, st2, p, a);
        GrowValue(r.value, p, a, st1, st2);
      }
    }
  }

  lemma {:induction false} ApplyKept(v: V, args: List<V>, st: St, fuel: nat, e: Exp, a: nat, outer: Env)
    requires Clean(e) && Guarded(st, Promise(e, a, outer), a)
    requires SafeValue(v, Promise(e, a, outer), a, st) && SafeValues(args, Promise(e, a, outer), a, st)
    ensures var (r, st') := ExecuteApplication(v, args, st, fuel); KeptResult(r, st, st', Promise(e, a, outer), a)
    decreases fuel, 0
  {
    var p := Promise(e, a, outer);
    SameKept(st, p, a);
    match v
    case Primitive(op) => PrimitiveSafe(op, args, p, a, st);
    case Obj(q) =>
      if fuel > 0 && Length(q.params) == Length(args) {
        var frame, inner := Zip(q.params, args), Cons(|st|, q.env);
        ZipSafe(q.params, args, p, a, st);
        NewFrameKept(st, frame, p, a);
        if q == p {
          ForceKept(inner, st + [frame], fuel - 1, e, a, outer);
        } else {
          BodyMayRun(q, args, st, p, a);
          ExecKept(q.body, inner, st + [frame], fuel - 1, e, a, outer);
        }
        KeptTwice(st, st + [frame], Exec(q.body, inner, st + [frame], fuel - 1).1, p, a);
      }
    case _ =>
  }

  lemma {:induction false} SetShape(x: Name, v: V, frame: Frame<Proc>)
    requires IsPromiseFrame(frame)
    ensures IsPromiseFrame(SetInFrame(x, v, frame))
  {
    assert SetInFrame(x, v, frame.tail.tail) == Nil;
    assert SetInFrame(x, v, frame.tail).head.name == RESULT && SetInFrame(x, v, frame.tail).tail == Nil;
  }

  lemma {:induction false} SetGuarded(x: Name, v: V, env: Env, st: St, p: Proc, a: nat)
    requires Guarded(st, p, a) && SafeValue(v, p, a, st) && SetVariable(x, v, env, st).Ok?
    ensures var st' := SetVariable(x, v, env, st).value; Guarded(st', p, a) && Grows(st, st')
  {
    if Scan(x, FrameAt(st, env.head)).Missing? {
      SetGuarded(x, v, env.tail, st, p, a);
    } else {
      SetNames(x, v, Cons(env.head, Nil), st, Nil);
      SetInFrameSafe(x, v, st[env.head], p, a, st);
      if env.head == a { SetShape(x, v, st[a]); }
      UpdateKept(st, env.head, SetInFrame(x, v, st[env.head]), p, a);
    }
  }

  lemma {:induction false} InnerMayRun(e: Exp, env: Env, a: nat, st: St)
    requires Clean(e) && (env.Cons? ==> env.head != a)
    ensures MayRun(Inner(e), env, a, st)
  {
    forall x | x == RAN || x == RESULT ensures !FreelySets(Inner(e), x) {
      assert !Member(x, Nil) && !AnyFreelySets(Nil, x);
      assert !FreelySets(MakeProc(Nil, Analyze(e)), x);
    }
  }

  lemma {:induction false} FillKept(env: Env, st: St, fuel: nat, e: Exp, a: nat, outer: Env)
    requires Clean(e) && Guarded(st, Promise(e, a, outer), a) && !Settled(st[a]) && (env.Cons? ==> env.head != a)
    ensures var (r, st') := Fill(e, env, st, fuel); KeptResult(r, st, st', Promise(e, a, outer), a)
    decreases fuel, 2
  {
    var p := Promise(e, a, outer);
    SameKept(st, p, a);
    InnerMayRun(e, env, a, st);
    CallKept(MakeProc(Nil, Analyze(e)), Nil, env, st, fuel, e, a, outer);
    var (r, st1) := Exec(Inner(e), env, st, fuel);
    if r.Ok? && SetVariable(RESULT, r.value, env, st1).Ok? {
      SetGuarded(RESULT, r.value, env, st1, p, a);
      var st2 := SetVariable(RESULT, r.value, env, st1).value;
      GrowTwice(st, st1, st2);
      LookupSafe("true", env, p, a, st2);
      var w := Lookup("true", env, st2);
      if w.Ok? && SetVariable(RAN, w.value, env, st2).Ok? {
        SetGuarded(RAN, w.value, env, st2, p, a);
        var st3 := SetVariable(RAN, w.value, env, st2).value;
        GrowTwice(st, st2, st3);
        LookupSafe(RESULT, env, p, a, st3);
      }
    }
  }

  lemma {:induction false} ForceKept(env: Env, st: St, fuel: nat, e: Exp, a: nat, outer: Env)
    requires Clean(e) && Guarded(st, Promise(e, a, outer), a)
    requires env.Cons? && env.head != a && env.tail == Cons(a, outer) && FrameAt(st, env.head) == Nil
    ensures var (r, st') := Exec(Promise(e, a, outer).body, env, st, fuel);
            KeptResult(r, st, st', Promise(e, a, outer), a)
    decreases fuel, 3
  {
    var p := Promise(e, a, outer);
    SameKept(st, p, a);
    LookupSafe(RESULT, env, p, a, st);
    ForceMeaning(env, st, fuel, e, a, outer);
    if !Settled(st[a]) {
      FillKept(env, st, fuel, e, a, outer);
    }
  }

  // ----- a promise runs its expression once -----

  /** Setting one of the two names from inside a force sets it in the promise's own frame. */
  lemma {:induction false} SetOwn(x: Name, v: V, env: Env, st: St, a: nat)
    requires env.Cons? && env.tail.Cons? && env.tail.head == a < |st| && IsPromiseFrame(st[a])
    requires !Binds(st, env.head, x) && (x == RAN || x == RESULT)
    ensures SetVariable(x, v, env, st) ==
            Ok(st[a := if x == RAN then PromiseFrame(v, st[a].tail.head.value) else PromiseFrame(st[a].head.value, v)])
  {
    PromiseScan(x, st[a]);
    assert SetVariable(x, v, env, st) == SetVariable(x, v, env.tail, st);
    assert st[a].tail.tail == Nil;
    assert SetInFrame(RESULT, v, st[a].tail) == Cons(Binding(RESULT, v), Nil);
    assert SetInFrame(x, v, st[a]) ==
           if x == RAN then PromiseFrame(v, st[a].tail.head.value) else PromiseFrame(st[a].head.value, v);
  }

  /** Neither value of the frame is the mark of a variable not yet assigned. */
  predicate Assigned(frame: Frame<Proc>)
    requires IsPromiseFrame(frame)
  {
    frame.head.value != Sym("*unassigned*") && frame.tail.head.value != Sym("*unassigned*")
  }

  lemma {:induction false} LookupAssigned(x: Name, env: Env, st: St)
    ensures Lookup(x, env, st).Ok? ==> Lookup(x, env, st).value != Sym("*unassigned*")
  {
    if env.Cons? { LookupAssigned(x, env.tail, st); }
  }

  /** The expression runs in a frame of its own, so a definition in it goes there. */
  lemma {:induction false} InnerNames(e: Exp, env: Env, st: St, fuel: nat)
    ensures Names(Nil, st, Exec(Inner(e), env, st, fuel).1)
  {
    var q: V := Obj(Proc(Nil, Analyze(e), env));
    assert Exec(MakeProc(Nil, Analyze(e)), env, st, fuel) == (Ok(q), st);
    assert ExecAll(Nil, env, st, fuel) == (Ok(Nil), st);
    assert Exec(Inner(e), env, st, fuel) == ExecuteApplication(q, Nil, st, fuel);
    ApplyNames(q, Nil, Nil, st, fuel);
  }

  lemma {:induction false} OwnFrameOnly(x: Name, env: Env, st: St, st': St, a: nat)
    requires a < |st| && st' == st[a := FrameAt(st', a)]
    requires Scan(x, st[a]).Missing? && Scan(x, FrameAt(st', a)).Missing?
    ensures Lookup(x, env, st') == Lookup(x, env, st)
  {
    if env.Cons? { OwnFrameOnly(x, env.tail, st, st', a); }
  }

  /** The first force that ends stores the value it answers, and marks the promise with the
      value of the variable `true`. */
  lemma {:induction false} FirstForce(st: St, fuel: nat, e: Exp, a: nat, outer: Env)
    requires Clean(e) && Guarded(st, Promise(e, a, outer), a) && !Settled(st[a])
    requires Force(Obj(Promise(e, a, outer)), st, fuel).0.Ok?
    ensures var (r, st') := Force(Obj(Promise(e, a, outer)), st, fuel); var env := Cons(|st|, Cons(a, outer));
            && Exec(Inner(e), env, st + [Nil], fuel - 1).0 == r
            && a < |st'| && IsPromiseFrame(st'[a]) && st'[a].tail.head.value == r.value
            && Lookup("true", outer, st') == Ok(st'[a].head.value)
            && Assigned(st'[a])
  {
    var p, env, st0 := Promise(e, a, outer), Cons(|st|, Cons(a, outer)), st + [Nil];
    ForceSteps(st, fuel, e, a, outer);
    NewFrameKept(st, Nil, p, a);
    assert !Binds(st0, |st|, RAN) && !Binds(st0, |st|, RESULT);
    InnerMayRun(e, env, a, st0);
    CallKept(MakeProc(Nil, Analyze(e)), Nil, env, st0, fuel - 1, e, a, outer);
    InnerNames(e, env, st0, fuel - 1);
    var (r, st1) := Exec(Inner(e), env, st0, fuel - 1);
    SetOwn(RESULT, r.value, env, st1, a);
    var st2 := SetVariable(RESULT, r.value, env, st1).value;
    var w := Lookup("true", env, st2);
    assert a != |st| && FrameAt(st2, |st|) == FrameAt(st1, |st|);
    assert Binds(st2, |st|, RAN) == Binds(st1, |st|, RAN);
    SetOwn(RAN, w.value, env, st2, a);
    var st3 := SetVariable(RAN, w.value, env, st2).value;
    PromiseScan("true", st2[a]);
    PromiseScan("true", st3[a]);
    OwnFrameOnly("true", env, st2, st3, a);
    PromiseScan(RESULT, st3[a]);
    LookupAssigned("true", env, st2);
    assert !Binds(st0, |st|, "true") && FrameAt(st3, |st|) == FrameAt(st1, |st|);
    assert !Binds(st1, |st|, "true") && Binds(st3, |st|, "true") == Binds(st1, |st|, "true");
    assert Lookup("true", env, st3) == Lookup("true", env.tail, st3) == Lookup("true", outer, st3);
    LookupAssigned(RESULT, env, st3);
    assert Lookup(RESULT, env, st3) == Lookup(RESULT, env.tail, st3);
  }

  /** A settled promise answers what it stored, and runs nothing: all it leaves is the empty
      frame of its call. */
  lemma {:induction false} LaterForce(st: St, fuel: nat, e: Exp, a: nat, outer: Env)
    requires a < |st| && Settled(st[a]) && fuel > 0
    requires Assigned(st[a])
    ensures Force(Obj(Promise(e, a, outer)), st, fuel) == (Ok(st[a].tail.head.value), st + [Nil])
  {
    var env, st' := Cons(|st|, Cons(a, outer)), st + [Nil];
    ForceSteps(st, fuel, e, a, outer);
    PromiseScan(RAN, st[a]);
    PromiseScan(RESULT, st[a]);
    assert Lookup(RAN, env, st') == Lookup(RAN, env.tail, st');
    assert Lookup(RESULT, env, st') == Lookup(RESULT, env.tail, st');
  }

  lemma {:induction false} SettledForce(st: St, fuel: nat, e: Exp, a: nat, outer: Env)
    requires a < |st| && Settled(st[a]) && Force(Obj(Promise(e, a, outer)), st, fuel).0.Ok?
    ensures Force(Obj(Promise(e, a, outer)), st, fuel) == (Ok(st[a].tail.head.value), st + [Nil]) && Assigned(st[a])
  {
    var env, st' := Cons(|st|, Cons(a, outer)), st + [Nil];
    ForceSteps(st, fuel, e, a, outer);
    PromiseScan(RAN, st[a]);
    PromiseScan(RESULT, st[a]);
    assert Lookup(RAN, env, st') == Lookup(RAN, env.tail, st');
    assert Lookup(RESULT, env, st') == Lookup(RESULT, env.tail, st');
  }

  /** Once a force has answered v and marked the promise, the promise answers v after any
      further run that may not write its frame, without running its expression. */
  lemma {:induction false} ForcedOnce(st: St, fuel: nat, e: Exp, a: nat, outer: Env, c: Code, env: Env, more: nat,
                                      again: nat)
    requires Clean(e) && Guarded(st, Promise(e, a, outer), a) && again > 0
    requires Force(Obj(Promise(e, a, outer)), st, fuel).0.Ok?
    requires var st1 := Force(Obj(Promise(e, a, outer)), st, fuel).1;
             MayRun(c, env, a, st1) && a < |st1| && Settled(st1[a])
    ensures var (r, st1) := Force(Obj(Promise(e, a, outer)), st, fuel); var st2 := Exec(c, env, st1, more).1;
            Force(Obj(Promise(e, a, outer)), st2, again) == (r, st2 + [Nil])
  {
    var p := Promise(e, a, outer);
    var (r, st1) := Force(Obj(p), st, fuel);
    ApplyKept(Obj(p), Nil, st, fuel, e, a, outer);
    if Settled(st[a]) {
      SettledForce(st, fuel, e, a, outer);
    } else {
      FirstForce(st, fuel, e, a, outer);
    }
    ExecKept(c, env, st1, more, e, a, outer);
    LaterForce(Exec(c, env, st1, more).1, again, e, a, outer);
  }

  // ----- whole runs -----

  predicate ValidValue(v: V, n: nat) {
    match v
    case Pair(x, y) => ValidValue(x, n) && ValidValue(y, n)
    case Obj(q) => ValidEnv(q.env, n)
    case _ => true
  }

  predicate ValidFrame(frame: Frame<Proc>, n: nat) {
    match frame
    case Nil => true
    case Cons(b, t) => ValidValue(b.value, n) && ValidFrame(t, n)
  }

  /** Every procedure has an environment of existing frames. */
  ghost predicate ValidStore(st: St) { forall f :: 0 <= f < |st| ==> ValidFrame(st[f], |st|) }

  lemma {:induction false} NotYet(env: Env, n: nat)
    requires ValidEnv(env, n)
    ensures !InEnv(n, env)
  {
    if env.Cons? { NotYet(env.tail, n); }
  }

  lemma {:induction false} ValidIsSafe(v: V, p: Proc, a: nat, st: St)
    requires ValidValue(v, a)
    ensures SafeValue(v, p, a, st)
  {
    match v
    case Pair(x, y) => ValidIsSafe(x, p, a, st); ValidIsSafe(y, p, a, st);
    case Obj(q) => NotYet(q.env, a);
    case _ =>
  }

  lemma {:induction false} ValidFrameIsSafe(frame: Frame<Proc>, p: Proc, a: nat, st: St)
    requires ValidFrame(frame, a)
    ensures SafeFrame(frame, p, a, st)
  {
    if frame.Cons? {
      ValidIsSafe(frame.head.value, p, a, st);
      ValidFrameIsSafe(frame.tail, p, a, st);
    }
  }

  /** A new promise is guarded: nothing that exists can reach its frame. */
  lemma {:induction false} NewPromiseGuarded(e: Exp, env: Env, st: St)
    requires ValidStore(st)
    ensures Guarded(st + [PromiseFrame(Bool(false), Bool(false))], Promise(e, |st|, env), |st|)
  {
    var st', p := st + [PromiseFrame(Bool(false), Bool(false))], Promise(e, |st|, env);
    forall f | 0 <= f < |st'| ensures SafeFrame(st'[f], p, |st|, st') {
      if f < |st| { ValidFrameIsSafe(st[f], p, |st|, st'); }
    }
  }

  /** Code of the environment the promise was made in may run beside it, whatever it is. */
  lemma {:induction false} OutsideMayRun(c: Code, env: Env, a: nat, st: St)
    requires ValidEnv(env, a)
    ensures MayRun(c, env, a, st)
  {
    NotYet(env, a);
  }

  /** An unsettled promise is settled by a force that answers if and only if the variable
      `true` is not #f then; if it is #f, the next force runs the expression again. */
  lemma {:induction false} SettledUnlessTrueIsFalse(st: St, fuel: nat, e: Exp, a: nat, outer: Env, again: nat)
    requires Clean(e) && Guarded(st, Promise(e, a, outer), a) && !Settled(st[a]) && again > 0
    requires Force(Obj(Promise(e, a, outer)), st, fuel).0.Ok?
    ensures var st1 := Force(Obj(Promise(e, a, outer)), st, fuel).1;
            && a < |st1| && Lookup("true", outer, st1).Ok?
            && (Settled(st1[a]) <==> True(Lookup("true", outer, st1).value))
            && (!Settled(st1[a]) ==>
                  Force(Obj(Promise(e, a, outer)), st1, again)
                  == Fill(e, Cons(|st1|, Cons(a, outer)), st1 + [Nil], again - 1))
  {
    FirstForce(st, fuel, e, a, outer);
    var st1 := Force(Obj(Promise(e, a, outer)), st, fuel).1;
    ForceSteps(st1, again, e, a, outer);
    PromiseScan(RAN, st1[a]);
    assert Lookup(RAN, Cons(|st1|, Cons(a, outer)), st1 + [Nil]) == Lookup(RAN, Cons(a, outer), st1 + [Nil]);
  }

  /** The store after (define x (delay e)). */
  function Delayed(x: Name, e: Exp, env: Env, st: St, fuel: nat): St {
    Exec(Analyze(Define(x, MemoizeExp(e))), env, st, fuel).1
  }

  lemma {:induction false} DelayedGuarded(x: Name, e: Exp, env: Env, st: St, fuel: nat)
    requires ValidStore(st) && ValidEnv(env, |st|) && Lookup("false", env, st) == Ok(Bool(false)) && fuel > 0
    ensures Guarded(Delayed(x, e, env, st, fuel), Promise(e, |st|, env), |st|)
  {
    var p, st1 := Promise(e, |st|, env), st + [PromiseFrame(Bool(false), Bool(false))];
    DelayMakesPromise(e, env, st, fuel);
    assert Analyze(Define(x, MemoizeExp(e))) == DefineAs(x, Analyze(MemoizeExp(e)));
    assert Delayed(x, e, env, st, fuel) == DefineVariable(x, Obj(p), env, st1);
    NewPromiseGuarded(e, env, st);
    DefineKept(x, Obj(p), env, st1, p, |st|);
  }

  /** In any store and environment: after (define x (delay e)) and any code c1, a force answers
      r; then, whatever code c2 runs, the promise answers r again and runs nothing. */
  lemma {:induction false} PromiseRunsOnce(x: Name, e: Exp, env: Env, st: St, c1: Code, c2: Code, f0: nat, f1: nat,
                                           f2: nat, f3: nat, f4: nat)
    requires ValidStore(st) && ValidEnv(env, |st|) && Clean(e)
    requires Lookup("false", env, st) == Ok(Bool(false)) && f0 > 0 && f4 > 0
    requires var st2 := Exec(c1, env, Delayed(x, e, env, st, f0), f1).1;
             var (r, st3) := Force(Obj(Promise(e, |st|, env)), st2, f2);
             r.Ok? && Lookup("true", env, st3).Ok? && True(Lookup("true", env, st3).value)
    ensures var p: V := Obj(Promise(e, |st|, env));
            var st2 := Exec(c1, env, Delayed(x, e, env, st, f0), f1).1;
            var (r, st3) := Force(p, st2, f2);
            var st4 := Exec(c2, env, st3, f3).1;
            Force(p, st4, f4) == (r, st4 + [Nil])
  {
    var a, p := |st|, Promise(e, |st|, env);
    var st1 := Delayed(x, e, env, st, f0);
    DelayedGuarded(x, e, env, st, f0);
    OutsideMayRun(c1, env, a, st1);
    ExecKept(c1, env, st1, f1, e, a, env);
    var st2 := Exec(c1, env, st1, f1).1;
    var st3 := Force(Obj(p), st2, f2).1;
    OutsideMayRun(c2, env, a, st3);
    ApplyKept(Obj(p), Nil, st2, f2, e, a, env);
    if !Settled(st2[a]) { FirstForce(st2, f2, e, a, env); }
    ForcedOnce(st2, f2, e, a, env, c2, env, f3, f4);
  }
}
