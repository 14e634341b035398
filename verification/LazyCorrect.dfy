/** Memoising a thunk changes neither whether a run ends nor what it answers, in programs
    without set! and define: the evaluator that overwrites thunks in its store agrees with
    call by name, so any two ways of marking parameters lazy or lazy-memo agree. */
module LazyCorrect {
  import opened Scheme
  import opened LazySyntax
  import opened LazyInterp
  import N = ByName

  /** What each frame and each thunk of a store stands for in call by name. */
  datatype World = World(frames: seq<N.PFrame>, thunks: seq<(Exp, N.PEnv)>)

  function ForgetEnv(env: Env, w: World): N.PEnv {
    match env
    case Nil => Nil
    case Cons(a, rest) => Cons(if a < |w.frames| then w.frames[a] else N.Local(Nil), ForgetEnv(rest, w))
  }

  function Forget(w: World): Object -> N.Object {
    (o: Object) =>
      match o
      case Proc(ps, b, env) => N.Proc(EraseParams(ps), EraseBody(b), ForgetEnv(env, w))
      case ThunkRef(t) => if t < |w.thunks| then N.Thunk(w.thunks[t].0, w.thunks[t].1) else N.Thunk(Var(""), Nil)
  }

  function FV(v: V, w: World): N.V { MapValue(Forget(w), v) }
  function FR(r: Result<V>, w: World): Result<N.V> { MapResult(Forget(w), r) }
  function FVs(rs: Result<List<V>>, w: World): Result<List<N.V>> { MapListResult(Forget(w), rs) }

  predicate ValidEnv(env: Env, w: World) {
    match env
    case Nil => true
    case Cons(a, rest) => a < |w.frames| && ValidEnv(rest, w)
  }

  predicate ValidObject(o: Object, w: World) {
    match o
    case Proc(_, b, env) => PureBody(b) && ValidEnv(env, w)
    case ThunkRef(t) => t < |w.thunks|
  }

  predicate ValidValue(v: V, w: World) {
    match v
    case Pair(a, d) => ValidValue(a, w) && ValidValue(d, w)
    case Obj(o) => ValidObject(o, w)
    case _ => true
  }

  predicate ValidValues(vs: List<V>, w: World) {
    match vs
    case Nil => true
    case Cons(v, t) => ValidValue(v, w) && ValidValues(t, w)
  }

  predicate ValidFrame(frame: Frame<Object>, w: World) {
    match frame
    case Nil => true
    case Cons(b, t) => ValidValue(b.value, w) && ValidFrame(t, w)
  }

  type Globals = Frame<N.Object>

  /** Forcing by name what the cell stands for gives v, with enough fuel. */
  ghost predicate ForcesTo(d: (Exp, N.PEnv), globals: Globals, r: Result<N.V>) {
    exists k: nat :: N.ActualValue(d.0, d.1, globals, k) == r
  }

  ghost predicate CellStandsFor(c: Cell, d: (Exp, N.PEnv), w: World, globals: Globals) {
    match c
    case EvaluatedThunk(v) => ValidValue(v, w) && ForcesTo(d, globals, Ok(FV(v, w)))
    case _ => Pure(c.exp) && ValidEnv(c.env, w) && d == (Erase(c.exp), ForgetEnv(c.env, w))
  }

  predicate FrameStandsFor(frame: Frame<Object>, p: N.PFrame, w: World, globals: Globals) {
    ValidFrame(frame, w) && N.Bindings(p, globals) == MapFrame(Forget(w), frame)
  }

  ghost predicate Inv(st: State, w: World, globals: Globals) {
    && |w.frames| == |st.frames| && |w.thunks| == |st.thunks|
    && (forall a :: 0 <= a < |st.frames| ==> FrameStandsFor(st.frames[a], w.frames[a], w, globals))
    && (forall t :: 0 <= t < |st.thunks| ==> CellStandsFor(st.thunks[t], w.thunks[t], w, globals))
  }

  predicate Extends(w: World, w': World) {
    w.frames <= w'.frames && w.thunks <= w'.thunks
  }

  // ----- worlds grow -----

  lemma {:induction false} GrowEnv(env: Env, w: World, w': World)
    requires ValidEnv(env, w) && Extends(w, w')
    ensures ForgetEnv(env, w') == ForgetEnv(env, w) && ValidEnv(env, w')
  {
    if env.Cons? { GrowEnv(env.tail, w, w'); }
  }

  lemma {:induction false} GrowValue(v: V, w: World, w': World)
    requires ValidValue(v, w) && Extends(w, w')
    ensures FV(v, w') == FV(v, w) && ValidValue(v, w')
  {
    match v
    case Pair(a, d) => GrowValue(a, w, w'); GrowValue(d, w, w');
    case Obj(o) => if o.Proc? { GrowEnv(o.env, w, w'); }
    case _ =>
  }

  lemma {:induction false} GrowFrame(frame: Frame<Object>, w: World, w': World)
    requires ValidFrame(frame, w) && Extends(w, w')
    ensures MapFrame(Forget(w'), frame) == MapFrame(Forget(w), frame) && ValidFrame(frame, w')
  {
    if frame.Cons? {
      GrowValue(frame.head.value, w, w');
      GrowFrame(frame.tail, w, w');
    }
  }

  lemma {:induction false} GrowCell(c: Cell, d: (Exp, N.PEnv), w: World, w': World, globals: Globals)
    requires CellStandsFor(c, d, w, globals) && Extends(w, w')
    ensures CellStandsFor(c, d, w', globals)
  {
    match c
    case EvaluatedThunk(v) => GrowValue(v, w, w');
    case _ => GrowEnv(c.env, w, w');
  }

  /** A new thunk, lazy or memoised. */
  lemma {:induction false} NewThunk(c: Cell, st: State, w: World, globals: Globals) returns (w': World)
    requires Inv(st, w, globals) && !c.EvaluatedThunk? && Pure(c.exp) && ValidEnv(c.env, w)
    ensures Extends(w, w') && Inv(st.(thunks := st.thunks + [c]), w', globals)
    ensures w'.frames == w.frames && w'.thunks == w.thunks + [(Erase(c.exp), ForgetEnv(c.env, w))]
  {
    w' := w.(thunks := w.thunks + [(Erase(c.exp), ForgetEnv(c.env, w))]);
    GrowEnv(c.env, w, w');
    GrowAll(st, w, w', globals);
  }

  lemma {:induction false} GrowAll(st: State, w: World, w': World, globals: Globals)
    requires Inv(st, w, globals) && Extends(w, w')
    ensures forall a :: 0 <= a < |st.frames| ==> FrameStandsFor(st.frames[a], w.frames[a], w', globals)
    ensures forall t :: 0 <= t < |st.thunks| ==> CellStandsFor(st.thunks[t], w.thunks[t], w', globals)
  {
    forall a | 0 <= a < |st.frames| ensures FrameStandsFor(st.frames[a], w.frames[a], w', globals) {
      GrowFrame(st.frames[a], w, w');
    }
    forall t | 0 <= t < |st.thunks| ensures CellStandsFor(st.thunks[t], w.thunks[t], w', globals) {
      GrowCell(st.thunks[t], w.thunks[t], w, w', globals);
    }
  }

  lemma {:induction false} NewFrame(frame: Frame<Object>, st: State, w: World, globals: Globals) returns (w': World)
    requires Inv(st, w, globals) && ValidFrame(frame, w)
    ensures Extends(w, w') && Inv(st.(frames := st.frames + [frame]), w', globals)
    ensures w'.thunks == w.thunks && w'.frames == w.frames + [N.Local(MapFrame(Forget(w), frame))]
  {
    w' := w.(frames := w.frames + [N.Local(MapFrame(Forget(w), frame))]);
    GrowFrame(frame, w, w');
    GrowAll(st, w, w', globals);
  }

  /** Overwriting a thunk with the value that forcing it by name gives. */
  lemma {:induction false} OverwriteThunk(t: nat, v: V, st: State, w: World, globals: Globals)
    requires Inv(st, w, globals) && t < |st.thunks| && ValidValue(v, w)
    requires ForcesTo(w.thunks[t], globals, Ok(FV(v, w)))
    ensures Inv(Memoize(t, v, st), w, globals)
  {
  }

  // ----- values -----

  lemma {:induction false} ScanValid(x: Name, frame: Frame<Object>, w: World)
    requires ValidFrame(frame, w)
    ensures Scan(x, frame).Found? ==> ValidValue(Scan(x, frame).value, w)
  {
    if frame.Cons? { ScanValid(x, frame.tail, w); }
  }

  lemma {:induction false} LookupFinds(x: Name, env: Env, st: State, w: World, globals: Globals)
    requires Inv(st, w, globals) && ValidEnv(env, w)
    ensures N.Find(x, ForgetEnv(env, w), globals) == FR(Lookup(x, env, st.frames), w)
    ensures Lookup(x, env, st.frames).Ok? ==> ValidValue(Lookup(x, env, st.frames).value, w)
  {
    if env.Cons? {
      assert FrameStandsFor(st.frames[env.head], w.frames[env.head], w, globals);
      MapScan(Forget(w), x, st.frames[env.head]);
      ScanValid(x, st.frames[env.head], w);
      LookupFinds(x, env.tail, st, w, globals);
    }
  }

  lemma {:induction false} ZipValid(xs: List<Name>, vs: List<V>, w: World)
    requires ValidValues(vs, w)
    ensures ValidFrame(Zip(xs, vs), w)
  {
    if xs.Cons? && vs.Cons? { ZipValid(xs.tail, vs.tail, w); }
  }

  lemma {:induction false} ListValid(vs: List<V>, w: World)
    requires ValidValues(vs, w)
    ensures ValidValue(ToSchemeList(vs), w)
  {
    if vs.Cons? { ListValid(vs.tail, w); }
  }

  lemma {:induction false} PrimitiveValid(op: Prim, args: List<V>, w: World)
    requires ValidValues(args, w)
    ensures ApplyPrimitive(op, args).Ok? ==> ValidValue(ApplyPrimitive(op, args).value, w)
  {
    ListValid(args, w);
  }

  lemma {:induction false} FromDatumValid(d: Datum, w: World)
    ensures ValidValue(FromDatum(d), w)
  {
    match d
    case DPair(a, b) => FromDatumValid(a, w); FromDatumValid(b, w);
    case _ =>
  }

  // ----- a run of the evaluator is a run by name -----

  /** r, st' is the end of a run started in world w, and r is what call by name answers. */
  ghost predicate Ends(r: Result<V>, st': State, w: World, w': World, globals: Globals, pr: Result<N.V>) {
    Extends(w, w') && Inv(st', w', globals) && (r.Ok? ==> ValidValue(r.value, w')) && pr == FR(r, w')
  }

  ghost predicate ListEnds(rs: Result<List<V>>, st': State, w: World, w': World, globals: Globals,
                           prs: Result<List<N.V>>) {
    Extends(w, w') && Inv(st', w', globals) && (rs.Ok? ==> ValidValues(rs.value, w')) && prs == FVs(rs, w')
  }

  lemma {:induction false} EndsLater(r: Result<V>, st': State, w: World, w1: World, w': World, globals: Globals,
                                     pr: Result<N.V>)
    requires Extends(w, w1) && Ends(r, st', w1, w', globals, pr)
    ensures Ends(r, st', w, w', globals, pr)
  {
  }

  lemma {:induction false} EvalByName(e: Exp, env: Env, st: State, w: World, globals: Globals, f: nat)
    returns (w': World, k: nat)
    requires Inv(st, w, globals) && Pure(e) && ValidEnv(env, w) && !Eval(e, env, st, f).0.Timeout?
    ensures var (r, st') := Eval(e, env, st, f);
            Ends(r, st', w, w', globals, N.Eval(Erase(e), ForgetEnv(env, w), globals, k))
    decreases f, Size(e), 1
  {
    w', k := w, 0;
    var penv := ForgetEnv(env, w);
    match e
    case Self(d) => MapFromDatum(Forget(w), d); FromDatumValid(d, w);
    case Quote(d) => MapFromDatum(Forget(w), d); FromDatumValid(d, w);
    case Var(x) => LookupFinds(x, env, st, w, globals);
    case Lambda(ps, b) =>
    case Begin(b) => w', k := SequenceByName(b, env, st, w, globals, f);
    case Cond(cs) =>
      PureCond(cs);
      EraseCond(cs);
      w', k := EvalByName(CondToIf(cs), env, st, w, globals, f);
      N.CondMeaning(EraseClauses(cs), penv, globals, k);
    case If(p, c, a) => w', k := IfByName(p, c, a, env, st, w, globals, f);
    case App(h, es) => w', k := AppByName(h, es, env, st, w, globals, f);
  }

  lemma {:induction false} IfByName(p: Exp, c: Exp, a: Exp, env: Env, st: State, w: World, globals: Globals, f: nat)
    returns (w': World, k: nat)
    requires Inv(st, w, globals) && Pure(If(p, c, a)) && ValidEnv(env, w) && !Eval(If(p, c, a), env, st, f).0.Timeout?
    ensures var (r, st') := Eval(If(p, c, a), env, st, f);
            Ends(r, st', w, w', globals, N.Eval(Erase(If(p, c, a)), ForgetEnv(env, w), globals, k))
    decreases f, Size(If(p, c, a)), 0
  {
    var (r, st1) := ActualValue(p, env, st, f);
    var w1, k1 := ValueByName(p, env, st, w, globals, f);
    w', k := w1, k1;
    if r.Ok? {
      GrowEnv(env, w, w1);
      var next := if True(r.value) then c else a;
      var (r2, st2) := Eval(next, env, st1, f);
      assert Eval(If(p, c, a), env, st, f) == (r2, st2);
      var k2;
      w', k2 := EvalByName(next, env, st1, w1, globals, f);
      k := N.Max(k1, k2);
      IfAnswer(p, c, a, r.value, ForgetEnv(env, w), w1, globals, k1, k2);
      EndsLater(r2, st2, w, w1, w', globals, N.Eval(Erase(If(p, c, a)), ForgetEnv(env, w), globals, k));
    }
  }

  lemma {:induction false} IfAnswer(p: Exp, c: Exp, a: Exp, v: V, penv: N.PEnv, w: World, globals: Globals, k1: nat,
                                    k2: nat)
    requires N.ActualValue(Erase(p), penv, globals, k1) == Ok(FV(v, w))
    requires !N.Eval(Erase(if True(v) then c else a), penv, globals, k2).Timeout?
    ensures N.Eval(Erase(If(p, c, a)), penv, globals, N.Max(k1, k2)) ==
            N.Eval(Erase(if True(v) then c else a), penv, globals, k2)
  {
    assert True(FV(v, w)) == True(v);
    N.IfParts(Erase(p), Erase(c), Erase(a), penv, globals, FV(v, w), k1, k2);
  }

  lemma {:induction false} AppByName(h: Exp, es: List<Exp>, env: Env, st: State, w: World, globals: Globals, f: nat)
    returns (w': World, k: nat)
    requires Inv(st, w, globals) && Pure(App(h, es)) && ValidEnv(env, w) && !Eval(App(h, es), env, st, f).0.Timeout?
    ensures var (r, st') := Eval(App(h, es), env, st, f);
            Ends(r, st', w, w', globals, N.Eval(Erase(App(h, es)), ForgetEnv(env, w), globals, k))
    decreases f, Size(App(h, es)), 0
  {
    var (r, st1) := ActualValue(h, env, st, f);
    var w1, k1 := ValueByName(h, env, st, w, globals, f);
    w', k := w1, k1;
    if r.Ok? {
      GrowEnv(env, w, w1);
      var k2;
      w', k2 := ApplyByName(r.value, es, env, st1, w1, globals, f);
      k := N.Max(k1, k2);
      N.AppParts(Erase(h), EraseList(es), ForgetEnv(env, w), globals, FV(r.value, w1), k1, k2);
    }
  }

  lemma {:induction false} ValueByName(e: Exp, env: Env, st: State, w: World, globals: Globals, f: nat)
    returns (w': World, k: nat)
    requires Inv(st, w, globals) && Pure(e) && ValidEnv(env, w) && !ActualValue(e, env, st, f).0.Timeout?
    ensures var (r, st') := ActualValue(e, env, st, f);
            Ends(r, st', w, w', globals, N.ActualValue(Erase(e), ForgetEnv(env, w), globals, k))
    decreases f, Size(e), 2
  {
    var (r, st1) := Eval(e, env, st, f);
    var w1, k1 := EvalByName(e, env, st, w, globals, f);
    w', k := w1, k1;
    if r.Ok? {
      var k2;
      w', k2 := ForceByName(r.value, st1, w1, globals, f);
      k := N.Max(k1, k2);
      N.ValueParts(Erase(e), ForgetEnv(env, w), globals, FV(r.value, w1), k1, k2);
    }
  }

  lemma {:induction false} ForceByName(v: V, st: State, w: World, globals: Globals, f: nat)
    returns (w': World, k: nat)
    requires Inv(st, w, globals) && ValidValue(v, w) && !ForceIt(v, st, f).0.Timeout?
    ensures var (r, st') := ForceIt(v, st, f); Ends(r, st', w, w', globals, N.Force(FV(v, w), globals, k))
    decreases f, 0, 0
  {
    w', k := w, 0;
    if v.Obj? && v.c.ThunkRef? {
      var t := v.c.t;
      var d := w.thunks[t];
      assert CellStandsFor(st.thunks[t], d, w, globals);
      match st.thunks[t]
      case EvaluatedThunk(u) =>
        var k1: nat :| N.ActualValue(d.0, d.1, globals, k1) == Ok(FV(u, w));
        k := k1 + 1;
      case Thunk(e, env) =>
        var k1;
        w', k1 := ValueByName(e, env, st, w, globals, f - 1);
        k := k1 + 1;
      case MemoizedThunk(e, env) =>
        var (r, st1) := ActualValue(e, env, st, f - 1);
        var k1;
        w', k1 := ValueByName(e, env, st, w, globals, f - 1);
        k := k1 + 1;
        if r.Ok? {
          assert w'.thunks[t] == d;
          assert N.ActualValue(d.0, d.1, globals, k1) == Ok(FV(r.value, w'));
          OverwriteThunk(t, r.value, st1, w', globals);
        }
    }
  }

  lemma {:induction false} SequenceByName(b: Body, env: Env, st: State, w: World, globals: Globals, f: nat)
    returns (w': World, k: nat)
    requires Inv(st, w, globals) && PureBody(b) && ValidEnv(env, w) && !EvalSequence(b, env, st, f).0.Timeout?
    ensures var (r, st') := EvalSequence(b, env, st, f);
            Ends(r, st', w, w', globals, N.EvalBody(EraseBody(b), ForgetEnv(env, w), globals, k))
    decreases f, BodySize(b), 0
  {
    var (r, st1) := Eval(b.exp, env, st, f);
    var w1, k1 := EvalByName(b.exp, env, st, w, globals, f);
    w', k := w1, k1;
    if b.More? && r.Ok? {
      GrowEnv(env, w, w1);
      var k2;
      w', k2 := SequenceByName(b.rest, env, st1, w1, globals, f);
      k := N.Max(k1, k2);
      N.BodyParts(EraseBody(b), ForgetEnv(env, w), globals, k1, k2);
    }
  }

  lemma {:induction false} ApplyByName(p: V, es: List<Exp>, env: Env, st: State, w: World, globals: Globals, f: nat)
    returns (w': World, k: nat)
    requires Inv(st, w, globals) && ValidValue(p, w) && PureList(es) && ValidEnv(env, w)
             && !Apply(p, es, env, st, f).0.Timeout?
    ensures var (r, st') := Apply(p, es, env, st, f);
            Ends(r, st', w, w', globals, N.Apply(FV(p, w), EraseList(es), ForgetEnv(env, w), globals, k))
    decreases f, ListSize(es), 3
  {
    w', k := w, 0;
    match p
    case Primitive(op) =>
      var (rs, st1) := ListOfArgValues(es, env, st, f);
      w', k := ArgValuesByName(es, env, st, w, globals, f);
      if rs.Ok? {
        MapPrimitive(Forget(w'), op, rs.value);
        PrimitiveValid(op, rs.value, w');
      }
    case Obj(Proc(ps, b, penv)) => w', k := CallByName(ps, b, penv, es, env, st, w, globals, f);
    case _ =>
  }

  lemma {:induction false} CallByName(ps: List<Param>, b: Body, penv: Env, es: List<Exp>, env: Env,
                                      st: State, w: World, globals: Globals, f: nat)
    returns (w': World, k: nat)
    requires Inv(st, w, globals) && PureBody(b) && ValidEnv(penv, w) && PureList(es) && ValidEnv(env, w)
    requires !Apply(Obj(Proc(ps, b, penv)), es, env, st, f).0.Timeout?
    ensures var p := Obj(Proc(ps, b, penv)); var (r, st') := Apply(p, es, env, st, f);
            Ends(r, st', w, w', globals, N.Apply(FV(p, w), EraseList(es), ForgetEnv(env, w), globals, k))
    decreases f, ListSize(es), 2
  {
    var (rs, st1) := ListOfProcedureArgs(ps, es, env, st, f);
    var w1, k1 := ArgsByName(ps, es, env, st, w, globals, f);
    w', k := w1, k1;
    if rs.Ok? {
      ArgsLength(ps, es, env, st, f);
      var (r2, st2) := Enter(ps, b, penv, rs.value, st1, f);
      assert Apply(Obj(Proc(ps, b, penv)), es, env, st, f) == (r2, st2);
      w', k := EnterByName(ps, b, penv, rs.value, st1, w, w1, EraseList(es), ForgetEnv(env, w), globals, k1, f);
    }
  }

  /** Entering a procedure whose operands are ready. */
  function Enter(ps: List<Param>, b: Body, penv: Env, vs: List<V>, st: State, f: nat): (Result<V>, State) {
    if f == 0 then (Timeout, st) else
      match Extend(StripParameters(ps), vs, st.frames)
      case Ok(frames) => EvalSequence(b, Cons(|st.frames|, penv), st.(frames := frames), f - 1)
      case Err(err) => (Err(err), st)
      case Timeout => (Timeout, st)
  }

  lemma {:induction false} EnterByName(ps: List<Param>, b: Body, penv: Env, vs: List<V>, st: State, w: World, w1: World,
                                       es: List<Exp>, env: N.PEnv, globals: Globals, k1: nat, f: nat)
    returns (w': World, k: nat)
    requires Extends(w, w1) && Inv(st, w1, globals) && PureBody(b) && ValidEnv(penv, w) && ValidValues(vs, w1)
             && Length(vs) <= Length(ps)
    requires N.Args(EraseParams(ps), es, env, globals, k1) == Ok(MapValues(Forget(w1), vs))
             && !Enter(ps, b, penv, vs, st, f).0.Timeout?
    ensures var (r, st') := Enter(ps, b, penv, vs, st, f);
            Ends(r, st', w, w', globals,
              N.Apply(Obj(N.Proc(EraseParams(ps), EraseBody(b), ForgetEnv(penv, w))), es, env, globals, k))
    decreases f, 0, 1
  {
    EraseStrip(ps);
    GrowEnv(penv, w, w1);
    MapZip(Forget(w1), StripParameters(ps), vs);
    var pvs := MapValues(Forget(w1), vs);
    if Length(vs) < Length(ps) {
      w', k := w1, k1 + 1;
      N.CallFails(EraseParams(ps), EraseBody(b), ForgetEnv(penv, w), es, env, globals, pvs, k1);
    } else {
      var k2;
      w', k2 := BodyByName(StripParameters(ps), vs, b, penv, st, w1, globals, f);
      k := N.Max(k1, k2 + 1);
      N.CallParts(EraseParams(ps), EraseBody(b), ForgetEnv(penv, w), es, env, globals, pvs, k1, k2);
    }
  }

  lemma {:induction false} BodyByName(xs: List<Name>, vs: List<V>, b: Body, penv: Env, st: State, w: World,
                                      globals: Globals, f: nat)
    returns (w': World, k: nat)
    requires Inv(st, w, globals) && PureBody(b) && ValidEnv(penv, w) && ValidValues(vs, w) && f > 0
    requires !EvalSequence(b, Cons(|st.frames|, penv), st.(frames := st.frames + [Zip(xs, vs)]), f - 1).0.Timeout?
    ensures var (r, st') := EvalSequence(b, Cons(|st.frames|, penv), st.(frames := st.frames + [Zip(xs, vs)]), f - 1);
            Ends(r, st', w, w', globals,
              N.EvalBody(EraseBody(b), Cons(N.Local(Zip(xs, MapValues(Forget(w), vs))), ForgetEnv(penv, w)), globals,
                k))
    decreases f, 0, 0
  {
    ZipValid(xs, vs, w);
    MapZip(Forget(w), xs, vs);
    var w2 := NewFrame(Zip(xs, vs), st, w, globals);
    GrowEnv(penv, w, w2);
    w', k := SequenceByName(b, Cons(|st.frames|, penv), st.(frames := st.frames + [Zip(xs, vs)]), w2, globals, f - 1);
  }

  lemma {:induction false} ArgValuesByName(es: List<Exp>, env: Env, st: State, w: World, globals: Globals, f: nat)
    returns (w': World, k: nat)
    requires Inv(st, w, globals) && PureList(es) && ValidEnv(env, w) && !ListOfArgValues(es, env, st, f).0.Timeout?
    ensures var (rs, st') := ListOfArgValues(es, env, st, f);
            ListEnds(rs, st', w, w', globals, N.Values(EraseList(es), ForgetEnv(env, w), globals, k))
    decreases f, ListSize(es), 0
  {
    w', k := w, 0;
    if es.Cons? {
      var (r, st1) := ActualValue(es.head, env, st, f);
      var w1, k1 := ValueByName(es.head, env, st, w, globals, f);
      w', k := w1, k1;
      if r.Ok? {
        GrowEnv(env, w, w1);
        var k2;
        w', k2 := ArgValuesByName(es.tail, env, st1, w1, globals, f);
        GrowValue(r.value, w1, w');
        k := N.Max(k1, k2);
        N.ValuesParts(Erase(es.head), EraseList(es.tail), ForgetEnv(env, w), globals, FV(r.value, w1), k1, k2);
      }
    }
  }

  /** One operand: a strict one is evaluated, a lazy or memoised one becomes a thunk. */
  lemma {:induction false} ArgByName(m: Mode, e: Exp, env: Env, st: State, w: World, globals: Globals, f: nat)
    returns (w': World, k: nat)
    requires Inv(st, w, globals) && Pure(e) && ValidEnv(env, w) && !ProcedureArg(m, e, env, st, f).0.Timeout?
    ensures var (r, st') := ProcedureArg(m, e, env, st, f);
            Ends(r, st', w, w', globals, N.Arg(EraseMode(m), Erase(e), ForgetEnv(env, w), globals, k))
    decreases f, Size(e), 3
  {
    k := 0;
    match m
    case Strict => w', k := ValueByName(e, env, st, w, globals, f);
    case Lazy => w' := DelayByName(Thunk(e, env), st, w, globals);
    case LazyMemo => w' := DelayByName(MemoizedThunk(e, env), st, w, globals);
  }

  lemma {:induction false} DelayByName(c: Cell, st: State, w: World, globals: Globals) returns (w': World)
    requires Inv(st, w, globals) && !c.EvaluatedThunk? && Pure(c.exp) && ValidEnv(c.env, w)
    ensures Ends(Ok(Obj(ThunkRef(|st.thunks|))), st.(thunks := st.thunks + [c]), w, w', globals,
              Ok(Obj(N.Thunk(Erase(c.exp), ForgetEnv(c.env, w)))))
  {
    w' := NewThunk(c, st, w, globals);
  }

  lemma {:induction false} ArgsByName(ps: List<Param>, es: List<Exp>, env: Env, st: State, w: World, globals: Globals,
                                      f: nat)
    returns (w': World, k: nat)
    requires Inv(st, w, globals) && PureList(es) && ValidEnv(env, w)
             && !ListOfProcedureArgs(ps, es, env, st, f).0.Timeout?
    ensures var (rs, st') := ListOfProcedureArgs(ps, es, env, st, f);
            ListEnds(rs, st', w, w', globals, N.Args(EraseParams(ps), EraseList(es), ForgetEnv(env, w), globals, k))
    decreases f, ListSize(es), 1
  {
    w', k := w, 0;
    if es.Cons? && ps.Cons? {
      var m := ps.head.mode;
      var (r, st1) := ProcedureArg(m, es.head, env, st, f);
      var w1, k1 := ArgByName(m, es.head, env, st, w, globals, f);
      w', k := w1, k1;
      if r.Ok? {
        GrowEnv(env, w, w1);
        var k2;
        w', k2 := ArgsByName(ps.tail, es.tail, env, st1, w1, globals, f);
        GrowValue(r.value, w1, w');
        k := N.Max(k1, k2);
        N.ArgsParts(Param(ps.head.name, EraseMode(m)), EraseParams(ps.tail), Erase(es.head), EraseList(es.tail),
          ForgetEnv(env, w), globals, FV(r.value, w1), k1, k2);
      }
    }
  }

  lemma {:induction false} ArgsLength(ps: List<Param>, es: List<Exp>, env: Env, st: State, f: nat)
    requires ListOfProcedureArgs(ps, es, env, st, f).0.Ok?
    ensures Length(ListOfProcedureArgs(ps, es, env, st, f).0.value) <= Length(ps)
    decreases es
  {
    if es.Cons? {
      var (r, st1) := ProcedureArg(ps.head.mode, es.head, env, st, f);
      ArgsLength(ps.tail, es.tail, env, st1, f);
    }
  }

  // ----- a run by name that ends is a run of the evaluator that ends -----

  lemma {:induction false} SameEval(e: Exp, env: N.PEnv, globals: Globals, f: nat, k: nat)
    requires !N.Eval(e, env, globals, f).Timeout? && !N.Eval(e, env, globals, k).Timeout?
    ensures N.Eval(e, env, globals, f) == N.Eval(e, env, globals, k)
  {
    N.MoreFuel(e, env, globals, f, N.Max(f, k));
    N.MoreFuel(e, env, globals, k, N.Max(f, k));
  }

  lemma {:induction false} SameValue(e: Exp, env: N.PEnv, globals: Globals, f: nat, k: nat)
    requires !N.ActualValue(e, env, globals, f).Timeout? && !N.ActualValue(e, env, globals, k).Timeout?
    ensures N.ActualValue(e, env, globals, f) == N.ActualValue(e, env, globals, k)
  {
    N.MoreFuelValue(e, env, globals, f, N.Max(f, k));
    N.MoreFuelValue(e, env, globals, k, N.Max(f, k));
  }

  lemma {:induction false} SameArgs(ps: List<Param>, es: List<Exp>, env: N.PEnv, globals: Globals, f: nat, k: nat)
    requires !N.Args(ps, es, env, globals, f).Timeout? && !N.Args(ps, es, env, globals, k).Timeout?
    ensures N.Args(ps, es, env, globals, f) == N.Args(ps, es, env, globals, k)
  {
    N.MoreFuelArgs(ps, es, env, globals, f, N.Max(f, k));
    N.MoreFuelArgs(ps, es, env, globals, k, N.Max(f, k));
  }

  lemma {:induction false} EvalEnds(e: Exp, env: Env, st: State, w: World, globals: Globals, f: nat)
    requires Inv(st, w, globals) && Pure(e) && ValidEnv(env, w)
             && !N.Eval(Erase(e), ForgetEnv(env, w), globals, f).Timeout?
    ensures !Eval(e, env, st, f).0.Timeout?
    decreases f, Size(e), 0
  {
    var penv := ForgetEnv(env, w);
    match e
    case Begin(b) => SequenceEnds(b, env, st, w, globals, f);
    case Cond(cs) =>
      PureCond(cs);
      EraseCond(cs);
      N.CondMeaning(EraseClauses(cs), penv, globals, f);
      EvalEnds(CondToIf(cs), env, st, w, globals, f);
    case If(p, c, a) =>
      ValueEnds(p, env, st, w, globals, f);
      var (r, st1) := ActualValue(p, env, st, f);
      var w1, k := ValueByName(p, env, st, w, globals, f);
      if r.Ok? {
        SameValue(Erase(p), penv, globals, f, k);
        GrowEnv(env, w, w1);
        if True(r.value) { EvalEnds(c, env, st1, w1, globals, f); } else { EvalEnds(a, env, st1, w1, globals, f); }
      }
    case App(h, es) =>
      ValueEnds(h, env, st, w, globals, f);
      var (r, st1) := ActualValue(h, env, st, f);
      var w1, k := ValueByName(h, env, st, w, globals, f);
      if r.Ok? {
        SameValue(Erase(h), penv, globals, f, k);
        GrowEnv(env, w, w1);
        ApplyEnds(r.value, es, env, st1, w1, globals, f);
      }
    case _ =>
  }

  lemma {:induction false} ValueEnds(e: Exp, env: Env, st: State, w: World, globals: Globals, f: nat)
    requires Inv(st, w, globals) && Pure(e) && ValidEnv(env, w)
             && !N.ActualValue(Erase(e), ForgetEnv(env, w), globals, f).Timeout?
    ensures !ActualValue(e, env, st, f).0.Timeout?
    decreases f, Size(e), 1
  {
    EvalEnds(e, env, st, w, globals, f);
    var (r, st1) := Eval(e, env, st, f);
    if r.Ok? {
      var w1, k := EvalByName(e, env, st, w, globals, f);
      SameEval(Erase(e), ForgetEnv(env, w), globals, f, k);
      ForceEnds(r.value, st1, w1, globals, f);
    }
  }

  /** An evaluated thunk costs nothing, the others cost what call by name pays each time. */
  lemma {:induction false} ForceEnds(v: V, st: State, w: World, globals: Globals, f: nat)
    requires Inv(st, w, globals) && ValidValue(v, w) && !N.Force(FV(v, w), globals, f).Timeout?
    ensures !ForceIt(v, st, f).0.Timeout?
    decreases f, 0, 0
  {
    if v.Obj? && v.c.ThunkRef? {
      var c := st.thunks[v.c.t];
      assert CellStandsFor(c, w.thunks[v.c.t], w, globals);
      if !c.EvaluatedThunk? { ValueEnds(c.exp, c.env, st, w, globals, f - 1); }
    }
  }

  lemma {:induction false} SequenceEnds(b: Body, env: Env, st: State, w: World, globals: Globals, f: nat)
    requires Inv(st, w, globals) && PureBody(b) && ValidEnv(env, w)
             && !N.EvalBody(EraseBody(b), ForgetEnv(env, w), globals, f).Timeout?
    ensures !EvalSequence(b, env, st, f).0.Timeout?
    decreases f, BodySize(b), 0
  {
    EvalEnds(b.exp, env, st, w, globals, f);
    var (r, st1) := Eval(b.exp, env, st, f);
    if b.More? && r.Ok? {
      var w1, k := EvalByName(b.exp, env, st, w, globals, f);
      SameEval(Erase(b.exp), ForgetEnv(env, w), globals, f, k);
      GrowEnv(env, w, w1);
      SequenceEnds(b.rest, env, st1, w1, globals, f);
    }
  }

  lemma {:induction false} ApplyEnds(p: V, es: List<Exp>, env: Env, st: State, w: World, globals: Globals, f: nat)
    requires Inv(st, w, globals) && ValidValue(p, w) && PureList(es) && ValidEnv(env, w)
    requires !N.Apply(FV(p, w), EraseList(es), ForgetEnv(env, w), globals, f).Timeout?
    ensures !Apply(p, es, env, st, f).0.Timeout?
    decreases f, ListSize(es), 3
  {
    match p
    case Primitive(op) => ArgValuesEnd(es, env, st, w, globals, f);
    case Obj(Proc(ps, b, penv)) => CallEnds(ps, b, penv, es, env, st, w, globals, f);
    case _ =>
  }

  lemma {:induction false} CallEnds(ps: List<Param>, b: Body, penv: Env, es: List<Exp>, env: Env,
                                    st: State, w: World, globals: Globals, f: nat)
    requires Inv(st, w, globals) && PureBody(b) && ValidEnv(penv, w) && PureList(es) && ValidEnv(env, w)
    requires !N.Apply(FV(Obj(Proc(ps, b, penv)), w), EraseList(es), ForgetEnv(env, w), globals, f).Timeout?
    ensures !Apply(Obj(Proc(ps, b, penv)), es, env, st, f).0.Timeout?
    decreases f, ListSize(es), 2
  {
    ArgsEnd(ps, es, env, st, w, globals, f);
    var (rs, st1) := ListOfProcedureArgs(ps, es, env, st, f);
    var w1, k := ArgsByName(ps, es, env, st, w, globals, f);
    if rs.Ok? {
      SameArgs(EraseParams(ps), EraseList(es), ForgetEnv(env, w), globals, f, k);
      EraseStrip(ps);
      ArgsLength(ps, es, env, st, f);
      MapZip(Forget(w1), StripParameters(ps), rs.value);
      if Length(ps) == Length(rs.value) {
        var frame := Zip(StripParameters(ps), rs.value);
        ZipValid(StripParameters(ps), rs.value, w1);
        var w2 := NewFrame(frame, st1, w1, globals);
        GrowEnv(penv, w, w1);
        GrowEnv(penv, w1, w2);
        SequenceEnds(b, Cons(|st1.frames|, penv), st1.(frames := st1.frames + [frame]), w2, globals, f - 1);
      }
    }
  }

  lemma {:induction false} ArgValuesEnd(es: List<Exp>, env: Env, st: State, w: World, globals: Globals, f: nat)
    requires Inv(st, w, globals) && PureList(es) && ValidEnv(env, w)
    requires !N.Values(EraseList(es), ForgetEnv(env, w), globals, f).Timeout?
    ensures !ListOfArgValues(es, env, st, f).0.Timeout?
    decreases f, ListSize(es), 0
  {
    if es.Cons? {
      ValueEnds(es.head, env, st, w, globals, f);
      var (r, st1) := ActualValue(es.head, env, st, f);
      if r.Ok? {
        var w1, k := ValueByName(es.head, env, st, w, globals, f);
        SameValue(Erase(es.head), ForgetEnv(env, w), globals, f, k);
        GrowEnv(env, w, w1);
        ArgValuesEnd(es.tail, env, st1, w1, globals, f);
      }
    }
  }

  lemma {:induction false} ArgsEnd(ps: List<Param>, es: List<Exp>, env: Env, st: State, w: World, globals: Globals,
                                   f: nat)
    requires Inv(st, w, globals) && PureList(es) && ValidEnv(env, w)
    requires !N.Args(EraseParams(ps), EraseList(es), ForgetEnv(env, w), globals, f).Timeout?
    ensures !ListOfProcedureArgs(ps, es, env, st, f).0.Timeout?
    decreases f, ListSize(es), 1
  {
    if es.Cons? && ps.Cons? {
      var m := ps.head.mode;
      if m.Strict? { ValueEnds(es.head, env, st, w, globals, f); }
      var (r, st1) := ProcedureArg(m, es.head, env, st, f);
      if r.Ok? {
        var w1, k := ArgByName(m, es.head, env, st, w, globals, f);
        if m.Strict? { SameValue(Erase(es.head), ForgetEnv(env, w), globals, f, k); }
        GrowEnv(env, w, w1);
        ArgsEnd(ps.tail, es.tail, env, st1, w1, globals, f);
      }
    }
  }
}
