/** The value of a promise is the value its expression has outside the promise: an expression that
    does not mention the two names of the promise's frame does not notice that frame. */
module PromiseValue {
  import opened Analyzer
  import opened FrameNames
  import opened PromiseAnswers
  import opened PromiseRuns
  import opened Promises
  import opened Scheme
  import opened Syntax

  /** Code that mentions neither name of a promise's frame. */
  predicate Unaware(c: Code) { Silent(c, RAN) && Silent(c, RESULT) }

  predicate UnawareAll(cs: List<Code>) { AllSilent(cs, RAN) && AllSilent(cs, RESULT) }

  /** The environment without the frames in hid. */
  function Without(env: Env, hid: set<nat>): Env {
    match env
    case Nil => Nil
    case Cons(f, t) => if f in hid then Without(t, hid) else Cons(f, Without(t, hid))
  }

  /** The same environment, or, for code that does not notice, the environment without the frames in hid. */
  predicate AlikeEnv(aware: bool, env: Env, env': Env, hid: set<nat>) {
    env == env' || (!aware && env' == Without(env, hid))
  }

  predicate Alike(v: V, v': V, hid: set<nat>) {
    match v
    case Pair(x, y) => v'.Pair? && Alike(x, v'.car, hid) && Alike(y, v'.cdr, hid)
    case Obj(q) =>
      v'.Obj? && v'.c.params == q.params && v'.c.body == q.body && AlikeEnv(!Unaware(q.body), q.env, v'.c.env, hid)
    case _ => v' == v
  }

  predicate AlikeList(vs: List<V>, vs': List<V>, hid: set<nat>) {
    match vs
    case Nil => vs'.Nil?
    case Cons(v, t) => vs'.Cons? && Alike(v, vs'.head, hid) && AlikeList(t, vs'.tail, hid)
  }

  predicate AlikeFrame(frame: Frame<Proc>, frame': Frame<Proc>, hid: set<nat>) {
    match frame
    case Nil => frame'.Nil?
    case Cons(b, t) =>
      && frame'.Cons? && frame'.head.name == b.name && Alike(b.value, frame'.head.value, hid)
      && AlikeFrame(t, frame'.tail, hid)
  }

  /** Frame by frame alike; the hidden frames exist and bind nothing but the two names. */
  ghost predicate AlikeStore(st: St, st': St, hid: set<nat>) {
    && |st| == |st'| && (forall f :: 0 <= f < |st| ==> AlikeFrame(st[f], st'[f], hid))
    && (forall f :: f in hid ==> f < |st|)
    && forall f, x {:trigger Binds(st, f, x)} :: f in hid && Binds(st, f, x) ==> x == RAN || x == RESULT
  }

  predicate AlikeResult(r: Result<V>, r': Result<V>, hid: set<nat>) {
    match r
    case Ok(v) => r'.Ok? && Alike(v, r'.value, hid)
    case _ => r' == r
  }

  predicate AlikeListResult(rs: Result<List<V>>, rs': Result<List<V>>, hid: set<nat>) {
    match rs
    case Ok(vs) => rs'.Ok? && AlikeList(vs, rs'.value, hid)
    case _ => rs' == rs
  }

  lemma {:induction false} ScanAlike(x: Name, frame: Frame<Proc>, frame': Frame<Proc>, hid: set<nat>)
    requires AlikeFrame(frame, frame', hid)
    ensures match Scan(x, frame)
            case Missing => Scan(x, frame').Missing?
            case Found(v) => Scan(x, frame').Found? && Alike(v, Scan(x, frame').value, hid)
  {
    if frame.Cons? { ScanAlike(x, frame.tail, frame'.tail, hid); }
  }

  /** A name other than the two is found in the same frame, whether or not the hidden ones are passed. */
  lemma {:induction false} LookupAlike(x: Name, env: Env, env': Env, st: St, st': St, hid: set<nat>)
    requires AlikeStore(st, st', hid) && AlikeEnv(x == RAN || x == RESULT, env, env', hid)
    ensures AlikeResult(Lookup(x, env, st), Lookup(x, env', st'), hid)
  {
    if env.Cons? {
      if env != env' && env.head in hid {
        assert !Binds(st, env.head, x);
        LookupAlike(x, env.tail, env', st, st', hid);
      } else {
        ScanAlike(x, FrameAt(st, env.head), FrameAt(st', env.head), hid);
        if Scan(x, FrameAt(st, env.head)).Missing? { LookupAlike(x, env.tail, env'.tail, st, st', hid); }
      }
    }
  }

  lemma {:induction false} SetInFrameAlike(x: Name, v: V, v': V, frame: Frame<Proc>, frame': Frame<Proc>, hid: set<nat>)
    requires AlikeFrame(frame, frame', hid) && Alike(v, v', hid)
    ensures AlikeFrame(SetInFrame(x, v, frame), SetInFrame(x, v', frame'), hid)
  {
    if frame.Cons? { SetInFrameAlike(x, v, v', frame.tail, frame'.tail, hid); }
  }

  lemma {:induction false} UpdateAlike(st: St, st': St, f: nat, frame: Frame<Proc>, frame': Frame<Proc>, hid: set<nat>)
    requires AlikeStore(st, st', hid) && f < |st| && AlikeFrame(frame, frame', hid)
    requires f in hid ==> forall x :: Scan(x, frame).Found? ==> Scan(x, st[f]).Found?
    ensures AlikeStore(st[f := frame], st'[f := frame'], hid)
  {
    var next := st[f := frame];
    forall g, x | g in hid && Binds(next, g, x) ensures x == RAN || x == RESULT { assert Binds(st, g, x); }
  }

  lemma {:induction false} SetAlike(x: Name, v: V, v': V, env: Env, env': Env, st: St, st': St, hid: set<nat>)
    requires AlikeStore(st, st', hid) && AlikeEnv(x == RAN || x == RESULT, env, env', hid) && Alike(v, v', hid)
    ensures match SetVariable(x, v, env, st)
            case Ok(next) =>
              var r := SetVariable(x, v', env', st'); r.Ok? && AlikeStore(next, r.value, hid)
            case Err(e) => SetVariable(x, v', env', st') == Err(e)
            case Timeout => false
  {
    if env.Cons? {
      if env != env' && env.head in hid {
        assert !Binds(st, env.head, x);
        SetAlike(x, v, v', env.tail, env', st, st', hid);
      } else {
        var f := env.head;
        ScanAlike(x, FrameAt(st, f), FrameAt(st', f), hid);
        if Scan(x, FrameAt(st, f)).Missing? {
          SetAlike(x, v, v', env.tail, env'.tail, st, st', hid);
        } else {
          SetInFrameAlike(x, v, v', st[f], st'[f], hid);
          forall y ensures Scan(y, SetInFrame(x, v, st[f])).Found? == Scan(y, st[f]).Found? {
            SetKeepsNames(x, v, st[f], y);
          }
          UpdateAlike(st, st', f, SetInFrame(x, v, st[f]), SetInFrame(x, v', st'[f]), hid);
        }
      }
    }
  }

  lemma {:induction false} DefineAlike(x: Name, v: V, v': V, env: Env, env': Env, st: St, st': St, hid: set<nat>)
    requires AlikeStore(st, st', hid) && AlikeEnv(false, env, env', hid) && Alike(v, v', hid)
    requires env.Cons? ==> env.head !in hid
    ensures AlikeStore(DefineVariable(x, v, env, st), DefineVariable(x, v', env', st'), hid)
  {
    if env.Cons? && env.head < |st| {
      ScanAlike(x, st[env.head], st'[env.head], hid);
      SetInFrameAlike(x, v, v', st[env.head], st'[env.head], hid);
      UpdateAlike(st, st', env.head, DefineInFrame(x, v, st[env.head]), DefineInFrame(x, v', st'[env.head]), hid);
    }
  }

  lemma {:induction false} DatumAlike(d: Datum, hid: set<nat>)
    ensures Alike(FromDatum(d), FromDatum(d), hid)
  {
    match d
    case DPair(a, b) => DatumAlike(a, hid); DatumAlike(b, hid);
    case _ =>
  }

  lemma {:induction false} NumsAlike(vs: List<V>, vs': List<V>, hid: set<nat>)
    requires AlikeList(vs, vs', hid)
    ensures AllNums(vs) == AllNums(vs')
    ensures AllNums(vs) ==> vs == vs'
  {
    if vs.Cons? { NumsAlike(vs.tail, vs'.tail, hid); }
  }

  lemma {:induction false} SchemeListAlike(vs: List<V>, vs': List<V>, hid: set<nat>)
    requires AlikeList(vs, vs', hid)
    ensures Alike(ToSchemeList(vs), ToSchemeList(vs'), hid)
  {
    if vs.Cons? { SchemeListAlike(vs.tail, vs'.tail, hid); }
  }

  lemma {:induction false} PrimitiveAlike(op: Prim, vs: List<V>, vs': List<V>, hid: set<nat>)
    requires AlikeList(vs, vs', hid)
    ensures AlikeResult(ApplyPrimitive(op, vs), ApplyPrimitive(op, vs'), hid)
  {
    NumsAlike(vs, vs', hid);
    SchemeListAlike(vs, vs', hid);
    if vs.Cons? && vs.tail.Cons? { assert AlikeList(vs.tail.tail, vs'.tail.tail, hid); }
  }

  lemma {:induction false} ZipAlike(xs: List<Name>, vs: List<V>, vs': List<V>, hid: set<nat>)
    requires AlikeList(vs, vs', hid)
    ensures AlikeFrame(Zip(xs, vs), Zip(xs, vs'), hid) && Length(vs) == Length(vs')
  {
    if vs.Cons? { ZipAlike(if xs.Cons? then xs.tail else Nil, vs.tail, vs'.tail, hid); }
  }

  lemma {:induction false} NewFrameAlike(frame: Frame<Proc>, frame': Frame<Proc>, st: St, st': St, hid: set<nat>)
    requires AlikeStore(st, st', hid) && AlikeFrame(frame, frame', hid)
    ensures AlikeStore(st + [frame], st' + [frame'], hid)
  {
    forall f, x | f in hid && Binds(st + [frame], f, x) ensures x == RAN || x == RESULT { assert Binds(st, f, x); }
  }

  /** Two runs of the same code, one of which does not see the hidden frames. */
  lemma {:induction false} ExecAlike(c: Code, env: Env, env': Env, st: St, st': St, fuel: nat, hid: set<nat>)
    requires AlikeStore(st, st', hid) && AlikeEnv(!Unaware(c), env, env', hid) && (env.Cons? ==> env.head !in hid)
    ensures var (r, st1) := Exec(c, env, st, fuel); var (r', st1') := Exec(c, env', st', fuel);
            AlikeResult(r, r', hid) && AlikeStore(st1, st1', hid)
    decreases fuel, 1, c
  {
    match c
    case Const(d) => DatumAlike(d, hid);
    case VarRef(x) => LookupAlike(x, env, env', st, st', hid);
    case AssignTo(x, rhs) =>
      ExecAlike(rhs, env, env', st, st', fuel, hid);
      var (r, st1) := Exec(rhs, env, st, fuel);
      var (r', st1') := Exec(rhs, env', st', fuel);
      if r.Ok? { SetAlike(x, r.value, r'.value, env, env', st1, st1', hid); }
    case DefineAs(x, rhs) =>
      ExecAlike(rhs, env, env', st, st', fuel, hid);
      var (r, st1) := Exec(rhs, env, st, fuel);
      var (r', st1') := Exec(rhs, env', st', fuel);
      if r.Ok? { DefineAlike(x, r.value, r'.value, env, env', st1, st1', hid); }
    case Branch(q, c1, c2) =>
      ExecAlike(q, env, env', st, st', fuel, hid);
      var (r, st1) := Exec(q, env, st, fuel);
      var (r', st1') := Exec(q, env', st', fuel);
      if r.Ok? { ExecAlike(if True(r.value) then c1 else c2, env, env', st1, st1', fuel, hid); }
    case MakeProc(ps, b) =>
    case Sequentially(c1, c2) =>
      ExecAlike(c1, env, env', st, st', fuel, hid);
      var (r, st1) := Exec(c1, env, st, fuel);
      var (r', st1') := Exec(c1, env', st', fuel);
      if r.Ok? { ExecAlike(c2, env, env', st1, st1', fuel, hid); }
    case Call(f, cs) => CallAlike(f, cs, env, env', st, st', fuel, hid);
  }

  lemma {:induction false} CallAlike(f: Code, cs: List<Code>, env: Env, env': Env, st: St, st': St, fuel: nat,
                                     hid: set<nat>)
    requires AlikeStore(st, st', hid) && AlikeEnv(!Unaware(Call(f, cs)), env, env', hid)
    requires env.Cons? ==> env.head !in hid
    ensures var (r, st1) := Exec(Call(f, cs), env, st, fuel); var (r', st1') := Exec(Call(f, cs), env', st', fuel);
            AlikeResult(r, r', hid) && AlikeStore(st1, st1', hid)
    decreases fuel, 1, Call(f, cs), 0
  {
    ExecAlike(f, env, env', st, st', fuel, hid);
    var (r, st1) := Exec(f, env, st, fuel);
    var (r', st1') := Exec(f, env', st', fuel);
    if r.Ok? {
      AllAlike(cs, env, env', st1, st1', fuel, hid);
      var (rs, st2) := ExecAll(cs, env, st1, fuel);
      var (rs', st2') := ExecAll(cs, env', st1', fuel);
      if rs.Ok? { ApplyAlike(r.value, r'.value, rs.value, rs'.value, st2, st2', fuel, hid); }
    }
  }

  lemma {:induction false} AllAlike(cs: List<Code>, env: Env, env': Env, st: St, st': St, fuel: nat, hid: set<nat>)
    requires AlikeStore(st, st', hid) && AlikeEnv(!UnawareAll(cs), env, env', hid) && (env.Cons? ==> env.head !in hid)
    ensures var (rs, st1) := ExecAll(cs, env, st, fuel); var (rs', st1') := ExecAll(cs, env', st', fuel);
            AlikeListResult(rs, rs', hid) && AlikeStore(st1, st1', hid)
    decreases fuel, 1, cs
  {
    if cs.Cons? {
      ExecAlike(cs.head, env, env', st, st', fuel, hid);
      var (r, st1) := Exec(cs.head, env, st, fuel);
      var (r', st1') := Exec(cs.head, env', st', fuel);
      if r.Ok? { AllAlike(cs.tail, env, env', st1, st1', fuel, hid); }
    }
  }

  lemma {:induction false} ApplyAlike(v: V, v': V, args: List<V>, args': List<V>, st: St, st': St, fuel: nat,
                                      hid: set<nat>)
    requires AlikeStore(st, st', hid) && Alike(v, v', hid) && AlikeList(args, args', hid)
    ensures var (r, st1) := ExecuteApplication(v, args, st, fuel);
            var (r', st1') := ExecuteApplication(v', args', st', fuel);
            AlikeResult(r, r', hid) && AlikeStore(st1, st1', hid)
    decreases fuel, 0
  {
    match v
    case Primitive(op) => PrimitiveAlike(op, args, args', hid);
    case Obj(q) =>
      ZipAlike(q.params, args, args', hid);
      if fuel > 0 && Length(q.params) == Length(args) {
        var frame, frame' := Zip(q.params, args), Zip(q.params, args');
        NewFrameAlike(frame, frame', st, st', hid);
        ExecAlike(q.body, Cons(|st|, q.env), Cons(|st|, v'.c.env), st + [frame], st' + [frame'], fuel - 1, hid);
      }
    case _ =>
  }

  // ----- forcing -----

  lemma {:induction false} AlikeItself(v: V, hid: set<nat>)
    ensures Alike(v, v, hid)
  {
    if v.Pair? { AlikeItself(v.car, hid); AlikeItself(v.cdr, hid); }
  }

  lemma {:induction false} FrameAlikeItself(frame: Frame<Proc>, hid: set<nat>)
    ensures AlikeFrame(frame, frame, hid)
  {
    if frame.Cons? { AlikeItself(frame.head.value, hid); FrameAlikeItself(frame.tail, hid); }
  }

  lemma {:induction false} DataAlike(v: V, v': V, hid: set<nat>)
    requires Alike(v, v', hid) && Data(v)
    ensures v == v'
  {
    if v.Pair? { DataAlike(v.car, v'.car, hid); DataAlike(v.cdr, v'.cdr, hid); }
  }

  lemma {:induction false} NothingHidden(env: Env, n: nat, hid: set<nat>)
    requires ValidEnv(env, n) && forall f :: f in hid ==> n <= f
    ensures Without(env, hid) == env
  {
    if env.Cons? { NothingHidden(env.tail, n, hid); }
  }

  lemma {:induction false} UnawareIsClean(c: Code, x: Name)
    requires Silent(c, x)
    ensures !FreelySets(c, x)
  {
    match c
    case AssignTo(_, rhs) => UnawareIsClean(rhs, x);
    case DefineAs(_, rhs) => UnawareIsClean(rhs, x);
    case Branch(q, c1, c2) => UnawareIsClean(q, x); UnawareIsClean(c1, x); UnawareIsClean(c2, x);
    case MakeProc(_, b) => UnawareIsClean(b, x);
    case Sequentially(c1, c2) => UnawareIsClean(c1, x); UnawareIsClean(c2, x);
    case Call(f, cs) => UnawareIsClean(f, x); AllUnawareAreClean(cs, x);
    case _ =>
  }

  lemma {:induction false} AllUnawareAreClean(cs: List<Code>, x: Name)
    requires AllSilent(cs, x)
    ensures !AnyFreelySets(cs, x)
  {
    if cs.Cons? { UnawareIsClean(cs.head, x); AllUnawareAreClean(cs.tail, x); }
  }

  /** Running the expression is calling a procedure that was made where it stands. */
  lemma {:induction false} InnerIsCall(e: Exp, env: Env, st: St, fuel: nat)
    ensures Exec(Inner(e), env, st, fuel) == ExecuteApplication(Obj(Proc(Nil, Analyze(e), env)), Nil, st, fuel)
  {
    assert Exec(MakeProc(Nil, Analyze(e)), env, st, fuel) == (Ok(Obj(Proc(Nil, Analyze(e), env))), st);
    assert ExecAll(Nil, env, st, fuel) == (Ok(Nil), st);
  }

  /** In the store of a first force the hidden frames are those of the promise and of the call. */
  lemma {:induction false} ForceStoreAlike(st: St, e: Exp, a: nat, outer: Env)
    requires Guarded(st, Promise(e, a, outer), a)
    ensures AlikeStore(st + [Nil], st + [Nil], {a, |st|})
  {
    var st0, hid := st + [Nil], {a, |st|};
    forall f | 0 <= f < |st0| ensures AlikeFrame(st0[f], st0[f], hid) { FrameAlikeItself(st0[f], hid); }
    forall f, x | f in hid && Binds(st0, f, x) ensures x == RAN || x == RESULT { PromiseScan(x, st[a]); }
  }

  /** What a promise stores is the value that its expression has in the environment the promise was
      made in, with the store of the force: the same data, or procedures that differ only in seeing
      the promise's frames, which they do not mention. */
  lemma {:induction false} PromiseHoldsTheValue(st: St, fuel: nat, e: Exp, a: nat, outer: Env)
    requires Unaware(Analyze(e)) && ValidEnv(outer, a)
    requires Guarded(st, Promise(e, a, outer), a) && !Settled(st[a])
    requires Force(Obj(Promise(e, a, outer)), st, fuel).0.Ok?
    ensures var r := Force(Obj(Promise(e, a, outer)), st, fuel).0;
            var r' := Exec(Inner(e), outer, st + [Nil], fuel - 1).0;
            r'.Ok? && Alike(r.value, r'.value, {a, |st|}) && (Data(r.value) ==> r' == r)
  {
    var env, st0, hid := Cons(|st|, Cons(a, outer)), st + [Nil], {a, |st|};
    UnawareIsClean(Analyze(e), RAN);
    UnawareIsClean(Analyze(e), RESULT);
    FirstForce(st, fuel, e, a, outer);
    InnerIsCall(e, env, st0, fuel - 1);
    InnerIsCall(e, outer, st0, fuel - 1);
    NothingHidden(outer, a, hid);
    assert Without(Cons(a, outer), hid) == outer;
    ForceStoreAlike(st, e, a, outer);
    ApplyAlike(Obj(Proc(Nil, Analyze(e), env)), Obj(Proc(Nil, Analyze(e), outer)), Nil, Nil, st0, st0, fuel - 1, hid);
    var r, r' := Exec(Inner(e), env, st0, fuel - 1).0, Exec(Inner(e), outer, st0, fuel - 1).0;
    if Data(r.value) { DataAlike(r.value, r'.value, hid); }
  }
}
