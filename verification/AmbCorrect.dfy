/** The continuation-passing evaluator delivers exactly the answers of the reference
    semantics, in its order, although it mutates one store and undoes its assignments.

    A store of the reference semantics is related to the mutated store by a renaming of
    frame addresses: the mutated store also holds the frames of abandoned branches. */
module AmbCorrect {
  import opened Scheme
  import opened AmbSyntax
  import opened AmbReference
  import opened Amb
  import opened AmbDesugar

  /** Position a of the reference store is position ren[a] of the mutated store. */
  type Renaming = seq<nat>

  function RenameEnv(env: Env, ren: Renaming): Env {
    match env
    case Nil => Nil
    case Cons(a, rest) => Cons(if a < |ren| then ren[a] else a, RenameEnv(rest, ren))
  }

  function Renamed(ren: Renaming): Proc -> CProc {
    (p: Proc) => CProc(p.params, AnalyzeSequence(p.body), RenameEnv(p.env, ren))
  }

  function RV(v: V, ren: Renaming): CV { MapValue(Renamed(ren), v) }
  function RVs(vs: List<V>, ren: Renaming): List<CV> { MapValues(Renamed(ren), vs) }

  /** Every procedure in v has a plain body and an environment of existing frames. */
  predicate ValidValue(v: V, n: nat) {
    match v
    case Pair(a, d) => ValidValue(a, n) && ValidValue(d, n)
    case Obj(p) => PlainBody(p.body) && ValidEnv(p.env, n)
    case _ => true
  }

  predicate ValidValues(vs: List<V>, n: nat) {
    match vs
    case Nil => true
    case Cons(v, t) => ValidValue(v, n) && ValidValues(t, n)
  }

  predicate ValidFrame(frame: Frame<Proc>, n: nat) {
    match frame
    case Nil => true
    case Cons(b, t) => ValidValue(b.value, n) && ValidFrame(t, n)
  }

  ghost predicate ValidStore(st: St) {
    forall a :: 0 <= a < |st| ==> ValidFrame(st[a], |st|)
  }

  predicate InRange(ren: Renaming, n: nat) {
    forall a :: 0 <= a < |ren| ==> ren[a] < n
  }

  predicate Injective(ren: Renaming) {
    forall a, b :: 0 <= a < b < |ren| ==> ren[a] != ren[b]
  }

  /** The mutated store holds every frame of the reference store, at its renamed place. */
  ghost predicate Rel(st: St, ren: Renaming, cst: CSt) {
    && |ren| == |st| && InRange(ren, |cst|) && Injective(ren) && ValidStore(st)
    && forall a :: 0 <= a < |st| ==> cst[ren[a]] == MapFrame(Renamed(ren), st[a])
  }

  /** Called in any mutated store that holds the reference store st again, `fail` answers d. */
  ghost predicate GoodFail(fail: Fail, st: St, ren: Renaming, d: Obs) {
    forall cst: CSt {:trigger fail(cst)} :: Rel(st, ren, cst) ==> fail(cst) == d
  }

  ghost predicate Reaches(ren: Renaming, v: V, st': St, ren': Renaming, cst': CSt) {
    ren <= ren' && Rel(st', ren', cst') && ValidValue(v, |st'|)
  }

  ghost predicate ReachesList(ren: Renaming, vs: List<V>, st': St, ren': Renaming, cst': CSt) {
    ren <= ren' && Rel(st', ren', cst') && ValidValues(vs, |st'|)
  }

  /** Given a value and a good failure continuation, `succ` delivers the answers of d, then those of failing. */
  ghost predicate GoodSucc(succ: Succ, ren: Renaming, d: Answer -> Obs) {
    forall v, st', ren', cst', fl, dfl {:trigger Reaches(ren, v, st', ren', cst'), GoodFail(fl, st', ren', dfl)} ::
      Reaches(ren, v, st', ren', cst') && GoodFail(fl, st', ren', dfl) ==>
      succ(RV(v, ren'), cst', fl) == Append(d((v, st')), dfl)
  }

  ghost predicate GoodListSucc(succ: ListSucc, ren: Renaming, d: Answers -> Obs) {
    forall vs, st', ren', cst', fl, dfl
      {:trigger ReachesList(ren, vs, st', ren', cst'), GoodFail(fl, st', ren', dfl)} ::
      ReachesList(ren, vs, st', ren', cst') && GoodFail(fl, st', ren', dfl) ==>
      succ(RVs(vs, ren'), cst', fl) == Append(d((vs, st')), dfl)
  }

  // ----- renamings grow -----

  lemma {:induction false} GrowEnv(env: Env, ren: Renaming, ren': Renaming)
    requires ValidEnv(env, |ren|) && ren <= ren'
    ensures RenameEnv(env, ren') == RenameEnv(env, ren) && ValidEnv(env, |ren'|)
  {
    if env.Cons? { GrowEnv(env.tail, ren, ren'); }
  }

  lemma {:induction false} GrowValue(v: V, ren: Renaming, ren': Renaming)
    requires ValidValue(v, |ren|) && ren <= ren'
    ensures RV(v, ren') == RV(v, ren) && ValidValue(v, |ren'|)
  {
    match v
    case Pair(a, d) => GrowValue(a, ren, ren'); GrowValue(d, ren, ren');
    case Obj(p) => GrowEnv(p.env, ren, ren');
    case _ =>
  }

  lemma {:induction false} GrowFrame(frame: Frame<Proc>, ren: Renaming, ren': Renaming)
    requires ValidFrame(frame, |ren|) && ren <= ren'
    ensures MapFrame(Renamed(ren'), frame) == MapFrame(Renamed(ren), frame) && ValidFrame(frame, |ren'|)
  {
    if frame.Cons? {
      GrowValue(frame.head.value, ren, ren');
      GrowFrame(frame.tail, ren, ren');
    }
  }

  lemma {:induction false} GrowSucc(succ: Succ, ren: Renaming, ren': Renaming, d: Answer -> Obs)
    requires GoodSucc(succ, ren, d) && ren <= ren'
    ensures GoodSucc(succ, ren', d)
  {
    forall v, st2, ren2, cst2, fl, dfl | Reaches(ren', v, st2, ren2, cst2) && GoodFail(fl, st2, ren2, dfl)
      ensures succ(RV(v, ren2), cst2, fl) == Append(d((v, st2)), dfl)
    {
      assert Reaches(ren, v, st2, ren2, cst2);
    }
  }

  lemma {:induction false} GrowListSucc(succ: ListSucc, ren: Renaming, ren': Renaming, d: Answers -> Obs)
    requires GoodListSucc(succ, ren, d) && ren <= ren'
    ensures GoodListSucc(succ, ren', d)
  {
    forall vs, st2, ren2, cst2, fl, dfl | ReachesList(ren', vs, st2, ren2, cst2) && GoodFail(fl, st2, ren2, dfl)
      ensures succ(RVs(vs, ren2), cst2, fl) == Append(d((vs, st2)), dfl)
    {
      assert ReachesList(ren, vs, st2, ren2, cst2);
    }
  }

  // ----- operations on related stores -----

  lemma {:induction false} ScanValid(x: Name, frame: Frame<Proc>, n: nat)
    requires ValidFrame(frame, n)
    ensures Scan(x, frame).Found? ==> ValidValue(Scan(x, frame).value, n)
  {
    if frame.Cons? { ScanValid(x, frame.tail, n); }
  }

  lemma {:induction false} LookupRel(x: Name, env: Env, st: St, ren: Renaming, cst: CSt)
    requires Rel(st, ren, cst) && ValidEnv(env, |st|)
    ensures Lookup(x, RenameEnv(env, ren), cst) == MapResult(Renamed(ren), Lookup(x, env, st))
    ensures Lookup(x, env, st).Ok? ==> ValidValue(Lookup(x, env, st).value, |st|)
  {
    if env.Cons? {
      MapScan(Renamed(ren), x, st[env.head]);
      ScanValid(x, st[env.head], |st|);
      LookupRel(x, env.tail, st, ren, cst);
    }
  }

  lemma {:induction false} SetInFrameValid(x: Name, v: V, frame: Frame<Proc>, n: nat)
    requires ValidFrame(frame, n) && ValidValue(v, n)
    ensures ValidFrame(SetInFrame(x, v, frame), n)
  {
    if frame.Cons? { SetInFrameValid(x, v, frame.tail, n); }
  }

  lemma {:induction false} SetVariableRel(x: Name, v: V, env: Env, st: St, ren: Renaming, cst: CSt)
    requires Rel(st, ren, cst) && ValidEnv(env, |st|) && ValidValue(v, |st|)
    ensures var r := SetVariable(x, v, env, st); var cr := SetVariable(x, RV(v, ren), RenameEnv(env, ren), cst);
            match r
            case Ok(st') => cr.Ok? && |st'| == |st| && Rel(st', ren, cr.value)
            case Err(e) => cr == Err(e)
            case Timeout => cr == Timeout
  {
    if env.Cons? {
      var a := env.head;
      MapScan(Renamed(ren), x, st[a]);
      if Scan(x, st[a]).Missing? {
        SetVariableRel(x, v, env.tail, st, ren, cst);
      } else {
        MapSetInFrame(Renamed(ren), x, v, st[a]);
        SetInFrameValid(x, v, st[a], |st|);
      }
    }
  }

  lemma {:induction false} SetBackFrame(x: Name, v: V, was: V, frame: Frame<Proc>)
    requires Scan(x, frame) == Found(was)
    ensures SetInFrame(x, was, SetInFrame(x, v, frame)) == frame
    ensures Scan(x, SetInFrame(x, v, frame)) == Found(v)
  {
    if frame.head.name != x { SetBackFrame(x, v, was, frame.tail); }
  }

  /** Setting a variable back to the value that was read before an assignment undoes the assignment. */
  lemma {:induction false} SetBack(x: Name, v: V, env: Env, st: St)
    requires Lookup(x, env, st).Ok? && SetVariable(x, v, env, st).Ok?
    ensures SetVariable(x, Lookup(x, env, st).value, env, SetVariable(x, v, env, st).value) == Ok(st)
  {
    var a := env.head;
    if Scan(x, FrameAt(st, a)).Missing? {
      SetBack(x, v, env.tail, st);
      SetKeepsMissing(x, v, env.tail, st, a);
    } else {
      SetBackFrame(x, v, Scan(x, st[a]).value, st[a]);
      assert st[a := SetInFrame(x, v, st[a])][a := st[a]] == st;
    }
  }

  lemma {:induction false} SetKeepsMissing(x: Name, v: V, env: Env, st: St, a: nat)
    requires Scan(x, FrameAt(st, a)).Missing? && SetVariable(x, v, env, st).Ok?
    ensures Scan(x, FrameAt(SetVariable(x, v, env, st).value, a)).Missing?
  {
    if Scan(x, FrameAt(st, env.head)).Missing? { SetKeepsMissing(x, v, env.tail, st, a); }
  }

  lemma {:induction false} ZipValid(xs: List<Name>, vs: List<V>, n: nat)
    requires ValidValues(vs, n)
    ensures ValidFrame(Zip(xs, vs), n)
  {
    if xs.Cons? && vs.Cons? { ZipValid(xs.tail, vs.tail, n); }
  }

  /** A new frame goes to the end of both stores. */
  lemma {:induction false} NewFrame(frame: Frame<Proc>, st: St, ren: Renaming, cst: CSt)
    requires Rel(st, ren, cst) && ValidFrame(frame, |st|)
    ensures Rel(st + [frame], ren + [|cst|], cst + [MapFrame(Renamed(ren), frame)])
  {
    var ren' := ren + [|cst|];
    GrowFrame(frame, ren, ren');
    forall a | 0 <= a < |st|
      ensures MapFrame(Renamed(ren'), st[a]) == MapFrame(Renamed(ren), st[a]) && ValidFrame(st[a], |ren'|)
    {
      GrowFrame(st[a], ren, ren');
    }
  }

  /** Failing inside a call leaves a good store for failing outside it. */
  lemma {:induction false} GoodFailInside(fail: Fail, frame: Frame<Proc>, st: St, ren: Renaming, a: nat, d: Obs)
    requires GoodFail(fail, st, ren, d) && |ren| == |st| && ValidStore(st)
    ensures GoodFail(fail, st + [frame], ren + [a], d)
  {
    var ren' := ren + [a];
    forall cst | Rel(st + [frame], ren', cst)
      ensures fail(cst) == d
    {
      assert InRange(ren, |cst|) by {
        forall i | 0 <= i < |ren| ensures ren[i] < |cst| { assert ren'[i] == ren[i]; }
      }
      forall b | 0 <= b < |st|
        ensures cst[ren[b]] == MapFrame(Renamed(ren), st[b])
      {
        GrowFrame(st[b], ren, ren');
        assert (st + [frame])[b] == st[b] && ren'[b] == ren[b];
      }
      assert Injective(ren) by {
        forall i, j | 0 <= i < j < |ren| ensures ren[i] != ren[j] { assert ren'[i] == ren[i] && ren'[j] == ren[j]; }
      }
      assert Rel(st, ren, cst);
    }
  }

  lemma {:induction false} ListValid(vs: List<V>, n: nat)
    requires ValidValues(vs, n)
    ensures ValidValue(ToSchemeList(vs), n)
  {
    if vs.Cons? { ListValid(vs.tail, n); }
  }

  lemma {:induction false} PrimitiveValid(op: Prim, args: List<V>, n: nat)
    requires ValidValues(args, n)
    ensures ApplyPrimitive(op, args).Ok? ==> ValidValue(ApplyPrimitive(op, args).value, n)
  {
    ListValid(args, n);
  }

  lemma {:induction false} FromDatumValid(d: Datum, n: nat)
    ensures ValidValue(FromDatum(d), n)
  {
    match d
    case DPair(a, b) => FromDatumValid(a, n); FromDatumValid(b, n);
    case _ =>
  }

  // ----- continuations built by the evaluator are good -----

  /** Delivering one value to a good continuation. */
  lemma {:induction false} Deliver(v: V, st: St, ren: Renaming, cst: CSt, succ: Succ, fail: Fail, d: Answer -> Obs,
                                   df: Obs)
    requires Rel(st, ren, cst) && ValidValue(v, |st|) && GoodSucc(succ, ren, d) && GoodFail(fail, st, ren, df)
    ensures succ(RV(v, ren), cst, fail) == Append(Bind(One((v, st)), d), df)
  {
    assert Reaches(ren, v, st, ren, cst);
    BindOne((v, st), d);
  }

  /** Undoing the assignment restores the store it was made in, so failing further is good. */
  lemma {:induction false} UndoGood(x: Name, v: V, env: Env, fl: Fail, st: St, ren: Renaming, dfl: Obs)
    requires Lookup(x, env, st).Ok? && SetVariable(x, v, env, st).Ok?
    requires ValidEnv(env, |st|) && ValidValue(Lookup(x, env, st).value, |st|)
    requires |SetVariable(x, v, env, st).value| == |st| && GoodFail(fl, st, ren, dfl)
    ensures GoodFail(Undo(x, RV(Lookup(x, env, st).value, ren), RenameEnv(env, ren), fl),
              SetVariable(x, v, env, st).value, ren, dfl)
  {
    var was := Lookup(x, env, st).value;
    var st' := SetVariable(x, v, env, st).value;
    forall cst | Rel(st', ren, cst)
      ensures Undo(x, RV(was, ren), RenameEnv(env, ren), fl)(cst) == dfl
    {
      SetBack(x, v, env, st);
      SetVariableRel(x, was, env, st', ren, cst);
    }
  }

  lemma {:induction false} AssignDelivers(x: Name, v: V, env: Env, st: St, ren: Renaming, cst: CSt,
                       succ: Succ, fl: Fail, d: Answer -> Obs, dfl: Obs)
    requires Rel(st, ren, cst) && ValidEnv(env, |st|) && ValidValue(v, |st|)
    requires GoodSucc(succ, ren, d) && GoodFail(fl, st, ren, dfl)
    ensures AssignSucc(x, RenameEnv(env, ren), succ)(RV(v, ren), cst, fl) ==
            Append(Bind(Assigned(x, env, v, st), d), dfl)
  {
    var r := Lookup(x, env, st);
    LookupRel(x, env, st, ren, cst);
    SetVariableRel(x, v, env, st, ren, cst);
    if r.Ok? && SetVariable(x, v, env, st).Ok? {
      var st' := SetVariable(x, v, env, st).value;
      var cst' := SetVariable(x, RV(v, ren), RenameEnv(env, ren), cst).value;
      UndoGood(x, v, env, fl, st, ren, dfl);
      Deliver(Sym("ok"), st', ren, cst', succ, Undo(x, RV(r.value, ren), RenameEnv(env, ren), fl), d, dfl);
      assert RV(Sym("ok"), ren) == Sym("ok");
      assert Assigned(x, env, v, st) == One((Sym("ok"), st'));
    } else {
      var e := if r.Err? then r.error else SetVariable(x, v, env, st).error;
      assert Assigned(x, env, v, st) == Stop(e);
      assert AssignSucc(x, RenameEnv(env, ren), succ)(RV(v, ren), cst, fl) == Stop(e);
    }
  }

  lemma {:induction false} AssignGood(x: Name, env: Env, succ: Succ, ren: Renaming, d: Answer -> Obs)
    requires GoodSucc(succ, ren, d) && ValidEnv(env, |ren|)
    ensures GoodSucc(AssignSucc(x, RenameEnv(env, ren), succ), ren, Then(Assigning(x, env), d))
  {
    forall v, st', ren', cst', fl, dfl | Reaches(ren, v, st', ren', cst') && GoodFail(fl, st', ren', dfl)
      ensures AssignSucc(x, RenameEnv(env, ren), succ)(RV(v, ren'), cst', fl) ==
              Append(Then(Assigning(x, env), d)((v, st')), dfl)
    {
      GrowEnv(env, ren, ren');
      GrowSucc(succ, ren, ren', d);
      AssignDelivers(x, v, env, st', ren', cst', succ, fl, d, dfl);
    }
  }

  lemma {:induction false} ConsGood(v: V, succ: ListSucc, ren: Renaming, d: Answers -> Obs)
    requires GoodListSucc(succ, ren, d) && ValidValue(v, |ren|)
    ensures GoodListSucc(ConsSucc(RV(v, ren), succ), ren, Then(Prefixing(v), d))
  {
    forall vs, st', ren', cst', fl, dfl | ReachesList(ren, vs, st', ren', cst') && GoodFail(fl, st', ren', dfl)
      ensures ConsSucc(RV(v, ren), succ)(RVs(vs, ren'), cst', fl) == Append(Then(Prefixing(v), d)((vs, st')), dfl)
    {
      GrowValue(v, ren, ren');
      assert ReachesList(ren, Cons(v, vs), st', ren', cst');
      BindOne((Cons(v, vs), st'), d);
    }
  }

  lemma {:induction false} BranchDelivers(v: V, c: Exp, a: Exp, env: Env, st: St, ren: Renaming, cst: CSt,
                       succ: Succ, fl: Fail, d: Answer -> Obs, dfl: Obs, fuel: nat)
    requires Plain(c) && Plain(a) && Rel(st, ren, cst) && ValidEnv(env, |st|)
    requires GoodSucc(succ, ren, d) && GoodFail(fl, st, ren, dfl)
    ensures BranchSucc(Analyze(c), Analyze(a), RenameEnv(env, ren), succ, fuel)(RV(v, ren), cst, fl) ==
            Append(Bind(Choosing(c, a, env, fuel)((v, st)), d), dfl)
    decreases fuel, Size(c) + Size(a), 3
  {
    var e := if True(v) then c else a;
    ExecDelivers(e, env, st, ren, cst, succ, fl, d, dfl, fuel);
    assert True(RV(v, ren)) == True(v);
    assert Choosing(c, a, env, fuel)((v, st)) == Solve(e, env, st, fuel);
  }

  lemma {:induction false} BranchGood(c: Exp, a: Exp, env: Env, succ: Succ, ren: Renaming, d: Answer -> Obs, fuel: nat)
    requires Plain(c) && Plain(a) && GoodSucc(succ, ren, d) && ValidEnv(env, |ren|)
    ensures GoodSucc(BranchSucc(Analyze(c), Analyze(a), RenameEnv(env, ren), succ, fuel), ren,
              Then(Choosing(c, a, env, fuel), d))
    decreases fuel, Size(c) + Size(a), 4
  {
    forall v, st', ren', cst', fl, dfl | Reaches(ren, v, st', ren', cst') && GoodFail(fl, st', ren', dfl)
      ensures BranchSucc(Analyze(c), Analyze(a), RenameEnv(env, ren), succ, fuel)(RV(v, ren'), cst', fl) ==
              Append(Then(Choosing(c, a, env, fuel), d)((v, st')), dfl)
    {
      GrowEnv(env, ren, ren');
      GrowSucc(succ, ren, ren', d);
      BranchDelivers(v, c, a, env, st', ren', cst', succ, fl, d, dfl, fuel);
    }
  }

  /** What runs after the first procedure of a sequence. */
  function RestSucc(rest: List<Code>, env: Env, succ: Succ, fuel: nat): Succ
    decreases rest
  {
    match rest
    case Nil => succ
    case Cons(c, t) => SequenceSucc(c, env, RestSucc(t, env, succ, fuel), fuel)
  }

  lemma {:induction false} LoopRuns(first: Code, rest: List<Code>, env: Env, cst: CSt, succ: Succ, fail: Fail,
                                    fuel: nat)
    ensures Exec(Loop(first, rest), env, cst, succ, fail, fuel) ==
            Exec(first, env, cst, RestSucc(rest, env, succ, fuel), fail, fuel)
    decreases rest
  {
    if rest.Cons? { LoopRuns(Sequentially(first, rest.head), rest.tail, env, cst, succ, fail, fuel); }
  }

  lemma {:induction false} RestGood(rest: Body, env: Env, succ: Succ, ren: Renaming, d: Answer -> Obs, fuel: nat)
    requires PlainBody(rest) && GoodSucc(succ, ren, d) && ValidEnv(env, |ren|)
    ensures GoodSucc(RestSucc(AnalyzeRest(rest), RenameEnv(env, ren), succ, fuel), ren,
              Then(Continuing(rest, env, fuel), d))
    decreases fuel, BodySize(rest), 3
  {
    var tail := AnalyzeRest(rest).tail;
    var d' := if rest.More? then Then(Continuing(rest.rest, env, fuel), d) else d;
    var after := RestSucc(tail, RenameEnv(env, ren), succ, fuel);
    if rest.More? { RestGood(rest.rest, env, succ, ren, d, fuel); }
    assert GoodSucc(after, ren, d');
    forall v, st', ren', cst', fl, dfl | Reaches(ren, v, st', ren', cst') && GoodFail(fl, st', ren', dfl)
      ensures SequenceSucc(Analyze(rest.exp), RenameEnv(env, ren), after, fuel)(RV(v, ren'), cst', fl) ==
              Append(Then(Continuing(rest, env, fuel), d)((v, st')), dfl)
    {
      GrowEnv(env, ren, ren');
      GrowSucc(after, ren, ren', d');
      ExecDelivers(rest.exp, env, st', ren', cst', after, fl, d', dfl, fuel);
      if rest.More? { BindBind(Solve(rest.exp, env, st', fuel), Continuing(rest.rest, env, fuel), d); }
    }
  }

  lemma {:induction false} ArgGood(rest: List<Exp>, env: Env, succ: ListSucc, ren: Renaming, d: Answers -> Obs,
                                   fuel: nat)
    requires PlainList(rest) && GoodListSucc(succ, ren, d) && ValidEnv(env, |ren|)
    ensures GoodSucc(ArgSucc(AnalyzeAll(rest), RenameEnv(env, ren), succ, fuel), ren,
              Then(Collecting(rest, env, fuel), d))
    decreases fuel, ListSize(rest), 3
  {
    forall v, st', ren', cst', fl, dfl | Reaches(ren, v, st', ren', cst') && GoodFail(fl, st', ren', dfl)
      ensures ArgSucc(AnalyzeAll(rest), RenameEnv(env, ren), succ, fuel)(RV(v, ren'), cst', fl) ==
              Append(Then(Collecting(rest, env, fuel), d)((v, st')), dfl)
    {
      GrowEnv(env, ren, ren');
      GrowListSucc(succ, ren, ren', d);
      ConsGood(v, succ, ren', d);
      ArgsDeliver(rest, env, st', ren', cst', ConsSucc(RV(v, ren'), succ), fl, Then(Prefixing(v), d), dfl, fuel);
      BindBind(SolveAll(rest, env, st', fuel), Prefixing(v), d);
    }
  }

  lemma {:induction false} OperandsGood(p: V, succ: Succ, ren: Renaming, d: Answer -> Obs, fuel: nat)
    requires ValidValue(p, |ren|) && GoodSucc(succ, ren, d)
    ensures GoodListSucc(OperandsSucc(RV(p, ren), succ, fuel), ren, Then(Applying(p, fuel), d))
    decreases fuel, 0, 3
  {
    forall vs, st', ren', cst', fl, dfl | ReachesList(ren, vs, st', ren', cst') && GoodFail(fl, st', ren', dfl)
      ensures OperandsSucc(RV(p, ren), succ, fuel)(RVs(vs, ren'), cst', fl) ==
              Append(Then(Applying(p, fuel), d)((vs, st')), dfl)
    {
      GrowValue(p, ren, ren');
      GrowSucc(succ, ren, ren', d);
      ApplyDelivers(p, vs, st', ren', cst', succ, fl, d, dfl, fuel);
    }
  }

  lemma {:induction false} OperatorGood(es: List<Exp>, env: Env, succ: Succ, ren: Renaming, d: Answer -> Obs, fuel: nat)
    requires PlainList(es) && GoodSucc(succ, ren, d) && ValidEnv(env, |ren|)
    ensures GoodSucc(OperatorSucc(AnalyzeAll(es), RenameEnv(env, ren), succ, fuel), ren,
              Then(Operating(es, env, fuel), d))
    decreases fuel, ListSize(es), 4
  {
    forall p, st', ren', cst', fl, dfl | Reaches(ren, p, st', ren', cst') && GoodFail(fl, st', ren', dfl)
      ensures OperatorSucc(AnalyzeAll(es), RenameEnv(env, ren), succ, fuel)(RV(p, ren'), cst', fl) ==
              Append(Then(Operating(es, env, fuel), d)((p, st')), dfl)
    {
      GrowEnv(env, ren, ren');
      GrowSucc(succ, ren, ren', d);
      OperandsGood(p, succ, ren', d, fuel);
      ArgsDeliver(es, env, st', ren', cst', OperandsSucc(RV(p, ren'), succ, fuel), fl,
        Then(Applying(p, fuel), d), dfl, fuel);
      BindBind(SolveAll(es, env, st', fuel), Applying(p, fuel), d);
    }
  }

  // ----- the evaluator delivers the answers of the reference semantics -----

  /** Executing e with good continuations delivers the continuation's answers for each
      success of e in turn, and then those of failing. */
  lemma {:induction false} ExecDelivers(e: Exp, env: Env, st: St, ren: Renaming, cst: CSt,
                                        succ: Succ, fail: Fail, d: Answer -> Obs, df: Obs, fuel: nat)
    requires Plain(e) && Rel(st, ren, cst) && ValidEnv(env, |st|)
    requires GoodSucc(succ, ren, d) && GoodFail(fail, st, ren, df)
    ensures Exec(Analyze(e), RenameEnv(env, ren), cst, succ, fail, fuel) == Append(Bind(Solve(e, env, st, fuel), d), df)
    decreases fuel, Size(e), 2
  {
    match e
    case Self(v) => QuoteDelivers(v, st, ren, cst, succ, fail, d, df);
    case Quote(v) => QuoteDelivers(v, st, ren, cst, succ, fail, d, df);
    case Var(x) =>
      LookupRel(x, env, st, ren, cst);
      if Lookup(x, env, st).Ok? { Deliver(Lookup(x, env, st).value, st, ren, cst, succ, fail, d, df); }
    case Assign(x, rhs) =>
      AssignGood(x, env, succ, ren, d);
      ExecDelivers(rhs, env, st, ren, cst, AssignSucc(x, RenameEnv(env, ren), succ), fail,
        Then(Assigning(x, env), d), df, fuel);
      BindBind(Solve(rhs, env, st, fuel), Assigning(x, env), d);
    case Amb(es) => AnyDelivers(es, env, st, ren, cst, succ, fail, d, df, fuel);
    case If(p, c, a) => IfDelivers(p, c, a, env, st, ren, cst, succ, fail, d, df, fuel);
    case Let(bs, b) =>
      PlainInitExps(bs);
      ExecDelivers(LetToCombination(bs, b), env, st, ren, cst, succ, fail, d, df, fuel);
      LetMeaning(bs, b, env, st, fuel);
    case LetStar(bs, b) =>
      PlainLetStar(bs, b);
      ExecDelivers(LetStarToLets(bs, b), env, st, ren, cst, succ, fail, d, df, fuel);
      LetStarMeaning(bs, b, env, st, fuel);
    case Lambda(ps, b) => Deliver(Obj(Proc(ps, b, env)), st, ren, cst, succ, fail, d, df);
    case Begin(b) => SequenceDelivers(b, env, st, ren, cst, succ, fail, d, df, fuel);
    case Cond(cs) =>
      PlainCond(cs);
      ExecDelivers(CondToIf(cs), env, st, ren, cst, succ, fail, d, df, fuel);
      CondMeaning(cs, env, st, fuel);
    case App(f, es) => AppDelivers(f, es, env, st, ren, cst, succ, fail, d, df, fuel);
  }

  lemma {:induction false} BranchMeaning(p: Exp, c: Exp, a: Exp, env: Env, cst: CSt, succ: Succ, fail: Fail, fuel: nat)
    ensures Exec(Analyze(If(p, c, a)), env, cst, succ, fail, fuel) ==
            Exec(Analyze(p), env, cst, BranchSucc(Analyze(c), Analyze(a), env, succ, fuel), fail, fuel)
  {
  }

  lemma {:induction false} IfDelivers(p: Exp, c: Exp, a: Exp, env: Env, st: St, ren: Renaming, cst: CSt,
                                      succ: Succ, fail: Fail, d: Answer -> Obs, df: Obs, fuel: nat)
    requires Plain(If(p, c, a)) && Rel(st, ren, cst) && ValidEnv(env, |st|)
    requires GoodSucc(succ, ren, d) && GoodFail(fail, st, ren, df)
    ensures Exec(Analyze(If(p, c, a)), RenameEnv(env, ren), cst, succ, fail, fuel) ==
            Append(Bind(Solve(If(p, c, a), env, st, fuel), d), df)
    decreases fuel, Size(If(p, c, a)), 1
  {
    BranchGood(c, a, env, succ, ren, d, fuel);
    ExecDelivers(p, env, st, ren, cst, BranchSucc(Analyze(c), Analyze(a), RenameEnv(env, ren), succ, fuel), fail,
      Then(Choosing(c, a, env, fuel), d), df, fuel);
    BindBind(Solve(p, env, st, fuel), Choosing(c, a, env, fuel), d);
    BranchMeaning(p, c, a, RenameEnv(env, ren), cst, succ, fail, fuel);
  }

  lemma {:induction false} CallMeaning(f: Exp, es: List<Exp>, env: Env, cst: CSt, succ: Succ, fail: Fail, fuel: nat)
    ensures Exec(Analyze(App(f, es)), env, cst, succ, fail, fuel) ==
            Exec(Analyze(f), env, cst, OperatorSucc(AnalyzeAll(es), env, succ, fuel), fail, fuel)
  {
  }

  lemma {:induction false} AppDelivers(f: Exp, es: List<Exp>, env: Env, st: St, ren: Renaming, cst: CSt,
                                       succ: Succ, fail: Fail, d: Answer -> Obs, df: Obs, fuel: nat)
    requires Plain(App(f, es)) && Rel(st, ren, cst) && ValidEnv(env, |st|)
    requires GoodSucc(succ, ren, d) && GoodFail(fail, st, ren, df)
    ensures Exec(Analyze(App(f, es)), RenameEnv(env, ren), cst, succ, fail, fuel) ==
            Append(Bind(Solve(App(f, es), env, st, fuel), d), df)
    decreases fuel, Size(App(f, es)), 1
  {
    OperatorGood(es, env, succ, ren, d, fuel);
    ExecDelivers(f, env, st, ren, cst, OperatorSucc(AnalyzeAll(es), RenameEnv(env, ren), succ, fuel), fail,
      Then(Operating(es, env, fuel), d), df, fuel);
    BindBind(Solve(f, env, st, fuel), Operating(es, env, fuel), d);
    CallMeaning(f, es, RenameEnv(env, ren), cst, succ, fail, fuel);
  }

  lemma {:induction false} QuoteDelivers(q: Datum, st: St, ren: Renaming, cst: CSt, succ: Succ, fail: Fail,
                                         d: Answer -> Obs, df: Obs)
    requires Rel(st, ren, cst) && GoodSucc(succ, ren, d) && GoodFail(fail, st, ren, df)
    ensures succ(FromDatum(q), cst, fail) == Append(Bind(One((FromDatum(q), st)), d), df)
  {
    MapFromDatum(Renamed(ren), q);
    FromDatumValid(q, |st|);
    Deliver(FromDatum(q), st, ren, cst, succ, fail, d, df);
  }

  lemma {:induction false} AnyDelivers(es: List<Exp>, env: Env, st: St, ren: Renaming, cst: CSt,
                                       succ: Succ, fail: Fail, d: Answer -> Obs, df: Obs, fuel: nat)
    requires PlainList(es) && Rel(st, ren, cst) && ValidEnv(env, |st|)
    requires GoodSucc(succ, ren, d) && GoodFail(fail, st, ren, df)
    ensures TryNext(AnalyzeAll(es), RenameEnv(env, ren), cst, succ, fail, fuel) ==
            Append(Bind(SolveAny(es, env, st, fuel), d), df)
    decreases fuel, ListSize(es), 0
  {
    if es.Cons? {
      var first, rest := Solve(es.head, env, st, fuel), SolveAny(es.tail, env, st, fuel);
      var retry := Retry(AnalyzeAll(es.tail), RenameEnv(env, ren), succ, fail, fuel);
      var dr := Append(Bind(rest, d), df);
      forall cst' | Rel(st, ren, cst')
        ensures retry(cst') == dr
      {
        AnyDelivers(es.tail, env, st, ren, cst', succ, fail, d, df, fuel);
      }
      ExecDelivers(es.head, env, st, ren, cst, succ, retry, d, dr, fuel);
      BindAppend(first, rest, d);
      AppendAssoc(Bind(first, d), Bind(rest, d), df);
    }
  }

  lemma {:induction false} SequenceDelivers(b: Body, env: Env, st: St, ren: Renaming, cst: CSt,
                                            succ: Succ, fail: Fail, d: Answer -> Obs, df: Obs, fuel: nat)
    requires PlainBody(b) && Rel(st, ren, cst) && ValidEnv(env, |st|)
    requires GoodSucc(succ, ren, d) && GoodFail(fail, st, ren, df)
    ensures Exec(AnalyzeSequence(b), RenameEnv(env, ren), cst, succ, fail, fuel) ==
            Append(Bind(SolveSequence(b, env, st, fuel), d), df)
    decreases fuel, BodySize(b), 2
  {
    match b
    case Last(e) => ExecDelivers(e, env, st, ren, cst, succ, fail, d, df, fuel);
    case More(e, rest) =>
      LoopRuns(Analyze(e), AnalyzeRest(rest), RenameEnv(env, ren), cst, succ, fail, fuel);
      RestGood(rest, env, succ, ren, d, fuel);
      ExecDelivers(e, env, st, ren, cst, RestSucc(AnalyzeRest(rest), RenameEnv(env, ren), succ, fuel), fail,
        Then(Continuing(rest, env, fuel), d), df, fuel);
      BindBind(Solve(e, env, st, fuel), Continuing(rest, env, fuel), d);
  }

  lemma {:induction false} ArgsDeliver(es: List<Exp>, env: Env, st: St, ren: Renaming, cst: CSt,
                                       succ: ListSucc, fail: Fail, d: Answers -> Obs, df: Obs, fuel: nat)
    requires PlainList(es) && Rel(st, ren, cst) && ValidEnv(env, |st|)
    requires GoodListSucc(succ, ren, d) && GoodFail(fail, st, ren, df)
    ensures GetArgs(AnalyzeAll(es), RenameEnv(env, ren), cst, succ, fail, fuel) ==
            Append(Bind(SolveAll(es, env, st, fuel), d), df)
    decreases fuel, ListSize(es), 2
  {
    match es
    case Nil =>
      assert ReachesList(ren, Nil, st, ren, cst);
      assert RVs(Nil, ren) == Nil;
      BindOne((Nil, st), d);
    case Cons(e, rest) =>
      ArgGood(rest, env, succ, ren, d, fuel);
      ExecDelivers(e, env, st, ren, cst, ArgSucc(AnalyzeAll(rest), RenameEnv(env, ren), succ, fuel), fail,
        Then(Collecting(rest, env, fuel), d), df, fuel);
      BindBind(Solve(e, env, st, fuel), Collecting(rest, env, fuel), d);
  }

  lemma {:induction false} ApplyDelivers(p: V, args: List<V>, st: St, ren: Renaming, cst: CSt,
                                         succ: Succ, fail: Fail, d: Answer -> Obs, df: Obs, fuel: nat)
    requires ValidValue(p, |st|) && ValidValues(args, |st|) && Rel(st, ren, cst)
    requires GoodSucc(succ, ren, d) && GoodFail(fail, st, ren, df)
    ensures ExecuteApplication(RV(p, ren), RVs(args, ren), cst, succ, fail, fuel) ==
            Append(Bind(ApplyTo(p, args, st, fuel), d), df)
    decreases fuel, 0, 2
  {
    match p
    case Primitive(op) =>
      MapPrimitive(Renamed(ren), op, args);
      PrimitiveValid(op, args, |st|);
      if ApplyPrimitive(op, args).Ok? { Deliver(ApplyPrimitive(op, args).value, st, ren, cst, succ, fail, d, df); }
    case Obj(q) =>
      MapZip(Renamed(ren), q.params, args);
      if fuel > 0 && Length(q.params) == Length(args) {
        var frame, ren' := Zip(q.params, args), ren + [|cst|];
        var cst' := cst + [MapFrame(Renamed(ren), frame)];
        ZipValid(q.params, args, |st|);
        NewFrame(frame, st, ren, cst);
        GrowEnv(q.env, ren, ren');
        GrowSucc(succ, ren, ren', d);
        GoodFailInside(fail, frame, st, ren, |cst|, df);
        SequenceDelivers(q.body, Cons(|st|, q.env), st + [frame], ren', cst', succ, fail, d, df, fuel - 1);
      }
    case _ =>
  }

  // ----- whole problems -----

  function Identity(n: nat): Renaming { seq(n, i requires 0 <= i < n => i) }

  /** The store of the evaluator that holds the same frames as st, with analysed procedures. */
  function Load(st: St): CSt {
    seq(|st|, a requires 0 <= a < |st| => MapFrame(Renamed(Identity(|st|)), st[a]))
  }

  lemma {:induction false} IdentityEnv(env: Env, n: nat)
    requires ValidEnv(env, n)
    ensures RenameEnv(env, Identity(n)) == env
  {
    if env.Cons? { IdentityEnv(env.tail, n); }
  }

  lemma {:induction false} LoadRel(st: St)
    requires ValidStore(st)
    ensures Rel(st, Identity(|st|), Load(st))
  {
  }

  function Showing(): Answer -> Obs {
    (r: Answer) => One(MapValue((p: Proc) => p.params, r.0))
  }

  lemma {:induction false} ShowRenamed(v: V, ren: Renaming)
    ensures Show(RV(v, ren)) == MapValue((p: Proc) => p.params, v)
  {
    match v
    case Pair(a, d) => ShowRenamed(a, ren); ShowRenamed(d, ren);
    case _ =>
  }

  lemma {:induction false} DriverGood(ren: Renaming)
    ensures GoodSucc(DriverSucc(), ren, Showing())
  {
    forall v, st', ren', cst', fl, dfl | Reaches(ren, v, st', ren', cst') && GoodFail(fl, st', ren', dfl)
      ensures DriverSucc()(RV(v, ren'), cst', fl) == Append(Showing()((v, st')), dfl)
    {
      ShowRenamed(v, ren');
    }
  }

  /** Under repeated try-again the driver prints the successes of the reference semantics, all
      of them, left to right, and then reports that there are no more; it stops at the same
      error if there is one. */
  lemma {:induction false} DriverPrintsSuccesses(e: Exp, env: Env, st: St, fuel: nat)
    requires Plain(e) && ValidStore(st) && ValidEnv(env, |st|)
    ensures Drive(e, env, Load(st), fuel) == Bind(Solve(e, env, st, fuel), Showing())
  {
    var ren := Identity(|st|);
    LoadRel(st);
    IdentityEnv(env, |st|);
    DriverGood(ren);
    var none: Obs := Outcome(Nil, NoMore);
    var d := Bind(Solve(e, env, st, fuel), Showing());
    ExecDelivers(e, env, st, ren, Load(st), DriverSucc(), DriverFail(), Showing(), none, fuel);
    ConcatNil(d.answers);
  }

  // ----- definitions -----

  /** Prints the first answer and does not ask for another. */
  function FirstOnly(): Succ {
    (v: CV, st: CSt, next: Fail) => Outcome(Cons(Show(v), Nil), OutOfFuel)
  }

  function ShowingFirst(): Answer -> Obs {
    (r: Answer) => Outcome(Cons(MapValue((p: Proc) => p.params, r.0), Nil), OutOfFuel)
  }

  lemma {:induction false} DefineGood(x: Name, env: Env, ren: Renaming)
    ensures GoodSucc(DefineSucc(x, RenameEnv(env, ren), FirstOnly()), ren, Then(Defining(x, env), ShowingFirst()))
  {
    forall v, st', ren', cst', fl, dfl | Reaches(ren, v, st', ren', cst') && GoodFail(fl, st', ren', dfl)
      ensures DefineSucc(x, RenameEnv(env, ren), FirstOnly())(RV(v, ren'), cst', fl) ==
              Append(Then(Defining(x, env), ShowingFirst())((v, st')), dfl)
    {
      BindOne((Sym("ok"), DefineVariable(x, v, env, st')), ShowingFirst());
    }
  }

  /** As far as its first answer goes, a definition of the value of any plain expression agrees too. */
  lemma {:induction false} DefinePrintsFirst(x: Name, rhs: Exp, env: Env, st: St, fuel: nat)
    requires Plain(rhs) && ValidStore(st) && ValidEnv(env, |st|)
    ensures Exec(Analyze(Define(x, rhs)), env, Load(st), FirstOnly(), DriverFail(), fuel) ==
            Bind(Solve(Define(x, rhs), env, st, fuel), ShowingFirst())
  {
    var ren := Identity(|st|);
    LoadRel(st);
    IdentityEnv(env, |st|);
    DefineGood(x, env, ren);
    var none: Obs := Outcome(Nil, NoMore);
    var d := Then(Defining(x, env), ShowingFirst());
    ExecDelivers(rhs, env, st, ren, Load(st), DefineSucc(x, env, FirstOnly()), DriverFail(), d, none, fuel);
    BindBind(Solve(rhs, env, st, fuel), Defining(x, env), ShowingFirst());
    ConcatNil(Bind(Solve(rhs, env, st, fuel), d).answers);
  }

  /** Fails at once. */
  function Failing(): Succ {
    (v: CV, st: CSt, next: Fail) => next(st)
  }

  lemma {:induction false} SameFrame(x: Name, v: CV, frame: Frame<CProc>)
    ensures SetInFrame(x, v, frame) == frame <==> Scan(x, frame).Missing? || Scan(x, frame) == Found(v)
  {
    if frame.Cons? { SameFrame(x, v, frame.tail); }
  }

  /** Failing after a definition goes back to the store with the definition in it; that is the store
      without it if and only if the innermost frame bound the name to the value already. */
  lemma {:induction false} DefineUndoneIff(x: Name, v: CV, env: Env, cst: CSt, fail: Fail)
    requires env.Cons? && env.head < |cst|
    ensures DefineSucc(x, env, Failing())(v, cst, fail) == fail(DefineVariable(x, v, env, cst))
    ensures DefineVariable(x, v, env, cst) == cst <==> Scan(x, cst[env.head]) == Found(v)
  {
    var frame := DefineInFrame(x, v, cst[env.head]);
    SameFrame(x, v, cst[env.head]);
    assert cst[env.head := frame][env.head] == frame;
    if frame == cst[env.head] { assert cst[env.head := frame] == cst; }
  }

  predicate Restored(st: St, cst: CSt) {
    |st| <= |cst| && forall a :: 0 <= a < |st| ==> cst[a] == Load(st)[a]
  }

  /** Answers df in a store whose entry frames hold their entry values, and anything else otherwise. */
  function IfRestored(st: St, df: Obs, otherwise: Obs): Fail {
    (cst: CSt) => if Restored(st, cst) then df else otherwise
  }

  /** Whenever an expression fails, through any nesting of set!, amb and calls, every variable
      that existed on entry has its entry value again: what the failure continuation would do
      in any other store never shows. */
  lemma {:induction false} FailureFindsEntryStore(e: Exp, env: Env, st: St, succ: Succ, d: Answer -> Obs, df: Obs,
                                                  otherwise: Obs, fuel: nat)
    requires Plain(e) && ValidStore(st) && ValidEnv(env, |st|) && GoodSucc(succ, Identity(|st|), d)
    ensures Exec(Analyze(e), env, Load(st), succ, IfRestored(st, df, otherwise), fuel) ==
            Append(Bind(Solve(e, env, st, fuel), d), df)
  {
    var ren := Identity(|st|);
    LoadRel(st);
    IdentityEnv(env, |st|);
    forall cst | Rel(st, ren, cst)
      ensures IfRestored(st, df, otherwise)(cst) == df
    {
      RangeOfIdentity(|st|, |cst|);
      forall a | 0 <= a < |st| ensures cst[a] == Load(st)[a] { assert ren[a] == a; }
    }
    ExecDelivers(e, env, st, ren, Load(st), succ, IfRestored(st, df, otherwise), d, df, fuel);
  }

  lemma {:induction false} RangeOfIdentity(n: nat, m: nat)
    requires InRange(Identity(n), m)
    ensures n <= m
  {
    if n > 0 { assert Identity(n)[n - 1] == n - 1; }
  }

  // ----- a definition is not undone -----

  /** (if (amb '#t '#f) (begin (define y 1) (amb)) y) */
  function Leak(): Exp {
    If(Amb(Cons(Quote(DBool(true)), Cons(Quote(DBool(false)), Nil))),
       Begin(More(Define("y", Self(DNum(1.0))), Last(Amb(Nil)))),
       Var("y"))
  }

  /** Started in an empty frame, the second branch of Leak sees the definition that the first
      one made before it failed; in the reference semantics y is unbound there. */
  lemma {:induction false} DefineLeaks(fuel: nat)
    ensures Drive(Leak(), Cons(0, Nil), [Nil], fuel) == One(Num(1.0))
    ensures Bind(Solve(Leak(), Cons(0, Nil), [Nil], fuel), Showing()) == Stop(UnboundVariable("y"))
  {
    LeakRuns(fuel);
    LeakSolves(fuel);
  }

  lemma {:induction false} LeakRuns(fuel: nat)
    ensures Drive(Leak(), Cons(0, Nil), [Nil], fuel) == One(Num(1.0))
  {
    var env: Env, cst: CSt := Cons(0, Nil), [Nil];
    var vtrue, vfalse, vy := Const(DBool(true)), Const(DBool(false)), VarRef("y");
    var body := Sequentially(DefineAs("y", Const(DNum(1.0))), Choose(Nil));
    assert Analyze(Leak()) == Branch(Choose(Cons(vtrue, Cons(vfalse, Nil))), body, vy);
    var succ, fail := DriverSucc(), DriverFail();
    var branch := BranchSucc(body, vy, env, succ, fuel);
    var retry := Retry(Cons(vfalse, Nil), env, branch, fail, fuel);
    var cst1: CSt := [Cons(Binding("y", Num(1.0)), Nil)];
    assert DefineVariable("y", Num(1.0), env, cst) == cst1;
    assert Exec(vtrue, env, cst, branch, retry, fuel) == branch(Bool(true), cst, retry);
    var after := SequenceSucc(Choose(Nil), env, succ, fuel);
    assert Exec(body, env, cst, succ, retry, fuel)
        == Exec(DefineAs("y", Const(DNum(1.0))), env, cst, after, retry, fuel);
    assert Exec(Const(DNum(1.0)), env, cst, DefineSucc("y", env, after), retry, fuel) == after(Sym("ok"), cst1, retry);
    assert after(Sym("ok"), cst1, retry) == Exec(Choose(Nil), env, cst1, succ, retry, fuel) == retry(cst1);
    var done := Retry(Nil, env, branch, fail, fuel);
    assert retry(cst1) == TryNext(Cons(vfalse, Nil), env, cst1, branch, fail, fuel);
    assert retry(cst1) == Exec(vfalse, env, cst1, branch, done, fuel) == branch(Bool(false), cst1, done);
    assert Exec(vy, env, cst1, succ, done, fuel) == succ(Num(1.0), cst1, done);
    assert done(cst1) == TryNext(Nil, env, cst1, branch, fail, fuel) == Outcome(Nil, NoMore);
    assert branch(Bool(true), cst, retry) == Exec(body, env, cst, succ, retry, fuel);
    assert branch(Bool(false), cst1, done) == Exec(vy, env, cst1, succ, done, fuel);
    var choice := Choose(Cons(vtrue, Cons(vfalse, Nil)));
    assert Drive(Leak(), env, cst, fuel) == Exec(Branch(choice, body, vy), env, cst, succ, fail, fuel);
    assert Drive(Leak(), env, cst, fuel) == Exec(choice, env, cst, branch, fail, fuel);
    assert Drive(Leak(), env, cst, fuel) == TryNext(Cons(vtrue, Cons(vfalse, Nil)), env, cst, branch, fail, fuel);
    var one: Shown := Num(1.0);
    assert Show(Num(1.0)) == one;
    assert succ(Num(1.0), cst1, done) == Append(One(one), Outcome(Nil, NoMore));
    ConcatNil(One(one).answers);
  }

  lemma {:induction false} LeakSolves(fuel: nat)
    ensures Bind(Solve(Leak(), Cons(0, Nil), [Nil], fuel), Showing()) == Stop(UnboundVariable("y"))
  {
    var env: Env, st: St := Cons(0, Nil), [Nil];
    var yes, no := Quote(DBool(true)), Quote(DBool(false));
    var body := Begin(More(Define("y", Self(DNum(1.0))), Last(Amb(Nil))));
    var k := Choosing(body, Var("y"), env, fuel);
    var t: Answer, f: Answer := (Bool(true), st), (Bool(false), st);
    assert Solve(yes, env, st, fuel) == One(t) && Solve(no, env, st, fuel) == One(f);
    ConcatNil(One(f).answers);
    assert SolveAny(Cons(no, Nil), env, st, fuel) == Append(One(f), SolveAny(Nil, env, st, fuel)) == One(f);
    var both: Outcome<Answer> := Outcome(Cons(t, Cons(f, Nil)), NoMore);
    assert Concat(Cons(t, Nil), One(f).answers) == Cons(t, Concat(Nil, One(f).answers));
    assert SolveAny(Cons(yes, Cons(no, Nil)), env, st, fuel) == Append(One(t), One(f)) == both;
    BodyFails(env, st, fuel);
    assert Lookup("y", env, st) == Lookup("y", Nil, st) == Err(UnboundVariable("y"));
    assert k(f) == Solve(Var("y"), env, st, fuel);
    assert k(t) == Outcome(Nil, NoMore) && k(f) == Reading("y", env, st) == Stop(UnboundVariable("y"));
    assert Bind(Outcome(Cons(f, Nil), NoMore), k) == Stop(UnboundVariable("y"));
    assert Solve(Leak(), env, st, fuel) == Bind(both, k) == Stop(UnboundVariable("y"));
  }

  lemma {:induction false} BodyFails(env: Env, st: St, fuel: nat)
    ensures Solve(Begin(More(Define("y", Self(DNum(1.0))), Last(Amb(Nil)))), env, st, fuel) == Outcome(Nil, NoMore)
  {
    var one: Answer := (Num(1.0), st);
    BindOne(one, Defining("y", env));
    var ok: Answer := Defining("y", env)(one).answers.head;
    BindOne(ok, Continuing(Last(Amb(Nil)), env, fuel));
    assert Solve(Define("y", Self(DNum(1.0))), env, st, fuel) == Bind(One(one), Defining("y", env)) == One(ok);
    assert SolveSequence(Last(Amb(Nil)), env, ok.1, fuel) == SolveAny(Nil, env, ok.1, fuel) == Outcome(Nil, NoMore);
    var b := More(Define("y", Self(DNum(1.0))), Last(Amb(Nil)));
    assert SolveSequence(b, env, st, fuel) == Bind(One(ok), Continuing(Last(Amb(Nil)), env, fuel));
  }
}
