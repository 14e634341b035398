/** How often a promise runs its expression, and which of its values it keeps: a force that
    finds the promise unsettled runs the expression, and the expression may force the promise
    in turn. */
module PromiseAnswers {
  import opened Scheme
  import opened Syntax
  import opened Analyzer
  import opened FrameNames
  import opened Promises
  import opened PromiseRuns

  /** What the calls of p made in a run leave in the frame at a, one entry for each call that
      finds the promise unsettled and answers, in the order in which they answer. Each entry is
      one completed run of the promise's expression. */
  function Answers(c: Code, env: Env, st: St, fuel: nat, p: Proc, a: nat): seq<Frame<Proc>>
    decreases fuel, 1, c
  {
    match c
    case AssignTo(_, rhs) => Answers(rhs, env, st, fuel, p, a)
    case DefineAs(_, rhs) => Answers(rhs, env, st, fuel, p, a)
    case Branch(q, c1, c2) =>
      var (r, st1) := Exec(q, env, st, fuel);
      Answers(q, env, st, fuel, p, a) +
      (if !r.Ok? then []
       else if True(r.value) then Answers(c1, env, st1, fuel, p, a) else Answers(c2, env, st1, fuel, p, a))
    case Sequentially(c1, c2) =>
      var (r, st1) := Exec(c1, env, st, fuel);
      Answers(c1, env, st, fuel, p, a) + (if r.Ok? then Answers(c2, env, st1, fuel, p, a) else [])
    case Call(f, cs) =>
      var (r, st1) := Exec(f, env, st, fuel);
      var (rs, st2) := ExecAll(cs, env, st1, fuel);
      Answers(f, env, st, fuel, p, a) +
      (if !r.Ok? then []
       else AnswersAll(cs, env, st1, fuel, p, a) +
            (if rs.Ok? then AnswersOfCall(r.value, rs.value, st2, fuel, p, a) else []))
    case _ => []
  }

  function AnswersAll(cs: List<Code>, env: Env, st: St, fuel: nat, p: Proc, a: nat): seq<Frame<Proc>>
    decreases fuel, 1, cs
  {
    match cs
    case Nil => []
    case Cons(c, rest) =>
      var (r, st1) := Exec(c, env, st, fuel);
      Answers(c, env, st, fuel, p, a) + (if r.Ok? then AnswersAll(rest, env, st1, fuel, p, a) else [])
  }

  function AnswersOfCall(v: V, args: List<V>, st: St, fuel: nat, p: Proc, a: nat): seq<Frame<Proc>>
    decreases fuel, 0
  {
    if !(v.Obj? && fuel > 0 && Length(v.c.params) == Length(args)) then [] else
      var (r, st') := ExecuteApplication(v, args, st, fuel);
      Answers(v.c.body, Cons(|st|, v.c.env), st + [Zip(v.c.params, args)], fuel - 1, p, a) +
      (if v == Obj(p) && !Settled(FrameAt(st, a)) && r.Ok? then [FrameAt(st', a)] else [])
  }

  /** Makes no call; it may make procedures. */
  predicate CallFree(c: Code) {
    match c
    case AssignTo(_, rhs) => CallFree(rhs)
    case DefineAs(_, rhs) => CallFree(rhs)
    case Branch(q, c1, c2) => CallFree(q) && CallFree(c1) && CallFree(c2)
    case Sequentially(c1, c2) => CallFree(c1) && CallFree(c2)
    case Call(_, _) => false
    case _ => true
  }

  lemma {:induction false} CallFreeAnswers(c: Code, env: Env, st: St, fuel: nat, p: Proc, a: nat)
    requires CallFree(c)
    ensures Answers(c, env, st, fuel, p, a) == []
    decreases c
  {
    match c
    case AssignTo(_, rhs) => CallFreeAnswers(rhs, env, st, fuel, p, a);
    case DefineAs(_, rhs) => CallFreeAnswers(rhs, env, st, fuel, p, a);
    case Branch(q, c1, c2) =>
      CallFreeAnswers(q, env, st, fuel, p, a);
      CallFreeAnswers(c1, env, Exec(q, env, st, fuel).1, fuel, p, a);
      CallFreeAnswers(c2, env, Exec(q, env, st, fuel).1, fuel, p, a);
    case Sequentially(c1, c2) =>
      CallFreeAnswers(c1, env, st, fuel, p, a);
      CallFreeAnswers(c2, env, Exec(c1, env, st, fuel).1, fuel, p, a);
    case _ =>
  }

  /** Running an expression that makes no call does not force anything. */
  lemma {:induction false} InnerAnswers(e: Exp, env: Env, st: St, fuel: nat, p: Proc, a: nat)
    requires CallFree(Analyze(e)) && Proc(Nil, Analyze(e), env) != p
    ensures Answers(Inner(e), env, st, fuel, p, a) == []
  {
    var q: V := Obj(Proc(Nil, Analyze(e), env));
    assert Exec(MakeProc(Nil, Analyze(e)), env, st, fuel) == (Ok(q), st);
    assert ExecAll(Nil, env, st, fuel) == (Ok(Nil), st);
    assert Zip<Proc>(Nil, Nil) == Nil && Length<V>(Nil) == 0;
    if fuel > 0 { CallFreeAnswers(Analyze(e), Cons(|st|, env), st + [Nil], fuel - 1, p, a); }
    assert AnswersOfCall(q, Nil, st, fuel, p, a) == [];
  }

  // ----- the frame holds what was answered last -----

  predicate Tracks(log: seq<Frame<Proc>>, st: St, st': St, a: nat, e: Exp) {
    && FrameAt(st', a) == (if log == [] then FrameAt(st, a) else log[|log| - 1])
    && (forall k :: 0 <= k < |log| ==> IsPromiseFrame(log[k]))
    && (Settled(FrameAt(st, a)) ==> log == [])
    && (CallFree(Analyze(e)) ==> forall k :: 0 <= k < |log| - 1 ==> !Settled(log[k]))
  }

  lemma {:induction false} TracksTwice(l1: seq<Frame<Proc>>, l2: seq<Frame<Proc>>, st: St, st1: St, st2: St, a: nat,
                                    e: Exp)
    requires Tracks(l1, st, st1, a, e) && Tracks(l2, st1, st2, a, e)
    ensures Tracks(l1 + l2, st, st2, a, e)
  {
  }

  lemma {:induction false} ExecTracks(c: Code, env: Env, st: St, fuel: nat, e: Exp, a: nat, outer: Env)
    requires Clean(e) && Guarded(st, Promise(e, a, outer), a) && MayRun(c, env, a, st) && Exec(c, env, st, fuel).0.Ok?
    ensures Tracks(Answers(c, env, st, fuel, Promise(e, a, outer), a), st, Exec(c, env, st, fuel).1, a, e)
    decreases fuel, 1, c, 1
  {
    var p := Promise(e, a, outer);
    match c
    case AssignTo(x, rhs) =>
      ExecTracks(rhs, env, st, fuel, e, a, outer);
      ExecKept(rhs, env, st, fuel, e, a, outer);
      var (r, st1) := Exec(rhs, env, st, fuel);
      GrowMayRun(c, env, a, st, st1);
      SetKept(x, r.value, env, st1, p, a);
    case DefineAs(x, rhs) =>
      ExecTracks(rhs, env, st, fuel, e, a, outer);
      ExecKept(rhs, env, st, fuel, e, a, outer);
      var (r, st1) := Exec(rhs, env, st, fuel);
      DefineKept(x, r.value, env, st1, p, a);
    case Branch(q, c1, c2) =>
      ExecTracks(q, env, st, fuel, e, a, outer);
      ExecKept(q, env, st, fuel, e, a, outer);
      var (r, st1) := Exec(q, env, st, fuel);
      var next := if True(r.value) then c1 else c2;
      GrowMayRun(next, env, a, st, st1);
      ExecTracks(next, env, st1, fuel, e, a, outer);
      TracksTwice(Answers(q, env, st, fuel, p, a), Answers(next, env, st1, fuel, p, a), st, st1,
        Exec(next, env, st1, fuel).1, a, e);
    case Sequentially(c1, c2) =>
      ExecTracks(c1, env, st, fuel, e, a, outer);
      ExecKept(c1, env, st, fuel, e, a, outer);
      var (r, st1) := Exec(c1, env, st, fuel);
      GrowMayRun(c2, env, a, st, st1);
      ExecTracks(c2, env, st1, fuel, e, a, outer);
      TracksTwice(Answers(c1, env, st, fuel, p, a), Answers(c2, env, st1, fuel, p, a), st, st1,
        Exec(c2, env, st1, fuel).1, a, e);
    case Call(f, cs) => CallTracks(f, cs, env, st, fuel, e, a, outer);
    case _ =>
  }

  lemma {:induction false} CallTracks(f: Code, cs: List<Code>, env: Env, st: St, fuel: nat, e: Exp, a: nat, outer: Env)
    requires Clean(e) && Guarded(st, Promise(e, a, outer), a) && MayRun(Call(f, cs), env, a, st)
    requires Exec(Call(f, cs), env, st, fuel).0.Ok?
    ensures Tracks(Answers(Call(f, cs), env, st, fuel, Promise(e, a, outer), a), st,
              Exec(Call(f, cs), env, st, fuel).1, a, e)
    decreases fuel, 1, Call(f, cs), 0
  {
    var p := Promise(e, a, outer);
    ExecTracks(f, env, st, fuel, e, a, outer);
    ExecKept(f, env, st, fuel, e, a, outer);
    var (r, st1) := Exec(f, env, st, fuel);
    CallMayRun(cs, env, a, st);
    GrowMayRunAll(cs, env, a, st, st1);
    AllTrack(cs, env, st1, fuel, e, a, outer);
    AllKept(cs, env, st1, fuel, e, a, outer);
    var (rs, st2) := ExecAll(cs, env, st1, fuel);
    GrowValue(r.value, p, a, st1, st2);
    CallOfTracks(r.value, rs.value, st2, fuel, e, a, outer);
    var st3 := ExecuteApplication(r.value, rs.value, st2, fuel).1;
    var l1, l2 := AnswersAll(cs, env, st1, fuel, p, a), AnswersOfCall(r.value, rs.value, st2, fuel, p, a);
    TracksTwice(l1, l2, st1, st2, st3, a, e);
    TracksTwice(Answers(f, env, st, fuel, p, a), l1 + l2, st, st1, st3, a, e);
  }

  lemma {:induction false} AllTrack(cs: List<Code>, env: Env, st: St, fuel: nat, e: Exp, a: nat, outer: Env)
    requires Clean(e) && Guarded(st, Promise(e, a, outer), a) && MayRunAll(cs, env, a, st)
    requires ExecAll(cs, env, st, fuel).0.Ok?
    ensures Tracks(AnswersAll(cs, env, st, fuel, Promise(e, a, outer), a), st, ExecAll(cs, env, st, fuel).1, a, e)
    decreases fuel, 1, cs, 1
  {
    if cs.Cons? {
      var p := Promise(e, a, outer);
      ExecTracks(cs.head, env, st, fuel, e, a, outer);
      ExecKept(cs.head, env, st, fuel, e, a, outer);
      var (r, st1) := Exec(cs.head, env, st, fuel);
      GrowMayRunAll(cs.tail, env, a, st, st1);
      AllTrack(cs.tail, env, st1, fuel, e, a, outer);
      TracksTwice(Answers(cs.head, env, st, fuel, p, a), AnswersAll(cs.tail, env, st1, fuel, p, a), st, st1,
        ExecAll(cs.tail, env, st1, fuel).1, a, e);
    }
  }

  lemma {:induction false} CallOfTracks(v: V, args: List<V>, st: St, fuel: nat, e: Exp, a: nat, outer: Env)
    requires Clean(e) && Guarded(st, Promise(e, a, outer), a)
    requires SafeValue(v, Promise(e, a, outer), a, st) && SafeValues(args, Promise(e, a, outer), a, st)
    requires ExecuteApplication(v, args, st, fuel).0.Ok?
    ensures Tracks(AnswersOfCall(v, args, st, fuel, Promise(e, a, outer), a), st,
              ExecuteApplication(v, args, st, fuel).1, a, e)
    decreases fuel, 0
  {
    var p := Promise(e, a, outer);
    if v == Obj(p) {
      assert args == Nil;
      if Settled(st[a]) {
        SettledForce(st, fuel, e, a, outer);
        SettledAnswers(st, fuel, e, a, outer);
      } else {
        ForceAnswers(st, fuel, e, a, outer);
        if CallFree(Analyze(e)) { CallFreeNests(st, fuel, e, a, outer); }
        FirstForce(st, fuel, e, a, outer);
        NewFrameKept(st, Nil, p, a);
        InnerMayRun(e, Cons(|st|, Cons(a, outer)), a, st + [Nil]);
        CallTracks(MakeProc(Nil, Analyze(e)), Nil, Cons(|st|, Cons(a, outer)), st + [Nil], fuel - 1, e, a, outer);
      }
    } else if v.Obj? {
      var q := v.c;
      var frame := Zip(q.params, args);
      ZipSafe(q.params, args, p, a, st);
      NewFrameKept(st, frame, p, a);
      BodyMayRun(q, args, st, p, a);
      ExecTracks(q.body, Cons(|st|, q.env), st + [frame], fuel - 1, e, a, outer);
    }
  }

  lemma {:induction false} SettledAnswers(st: St, fuel: nat, e: Exp, a: nat, outer: Env)
    requires a < |st| && Settled(st[a]) && Force(Obj(Promise(e, a, outer)), st, fuel).0.Ok? && fuel > 0
    ensures AnswersOfCall(Obj(Promise(e, a, outer)), Nil, st, fuel, Promise(e, a, outer), a) == []
  {
    var p, env, st' := Promise(e, a, outer), Cons(|st|, Cons(a, outer)), st + [Nil];
    PromiseScan(RAN, st[a]);
    assert Lookup(RAN, env, st') == Lookup(RAN, env.tail, st');
    assert Exec(VarRef(RAN), env, st', fuel - 1) == (Lookup(RAN, env, st'), st');
    assert Answers(VarRef(RAN), env, st', fuel - 1, p, a) == [] == Answers(VarRef(RESULT), env, st', fuel - 1, p, a);
    assert Answers(p.body, env, st', fuel - 1, p, a) == [];
  }

  // ----- which value is kept -----

  function ValueIn(frame: Frame<Proc>): V
    requires IsPromiseFrame(frame)
  {
    frame.tail.head.value
  }

  /** What the forces of the promise made while its expression runs leave in its frame. */
  function Nested(st: St, fuel: nat, e: Exp, a: nat, outer: Env): seq<Frame<Proc>>
    requires fuel > 0
  {
    Answers(Inner(e), Cons(|st|, Cons(a, outer)), st + [Nil], fuel - 1, Promise(e, a, outer), a)
  }

  lemma {:induction false} CallFreeNests(st: St, fuel: nat, e: Exp, a: nat, outer: Env)
    requires CallFree(Analyze(e)) && fuel > 0 && a < |st|
    ensures Nested(st, fuel, e, a, outer) == []
  {
    var env := Cons(|st|, Cons(a, outer));
    assert Proc(Nil, Analyze(e), env).env != Promise(e, a, outer).env;
    InnerAnswers(e, env, st + [Nil], fuel - 1, Promise(e, a, outer), a);
  }

  /** A force of an unsettled promise completes the runs of its expression that are nested in
      its own, and then its own. */
  lemma {:induction false} ForceAnswers(st: St, fuel: nat, e: Exp, a: nat, outer: Env)
    requires Clean(e) && Guarded(st, Promise(e, a, outer), a) && !Settled(st[a])
    requires Force(Obj(Promise(e, a, outer)), st, fuel).0.Ok?
    ensures fuel > 0
    ensures var p := Promise(e, a, outer);
            AnswersOfCall(Obj(p), Nil, st, fuel, p, a) ==
            Nested(st, fuel, e, a, outer) + [FrameAt(Force(Obj(p), st, fuel).1, a)]
  {
    var p, env, st' := Promise(e, a, outer), Cons(|st|, Cons(a, outer)), st + [Nil];
    var f: nat := fuel - 1;
    PromiseScan(RAN, st[a]);
    assert Lookup(RAN, env, st') == Lookup(RAN, env.tail, st');
    assert Exec(VarRef(RAN), env, st', f) == (Lookup(RAN, env, st'), st');
    ForceSteps(st, fuel, e, a, outer);
    FillingAnswers(e, env, st', f, p, a);
    assert Answers(VarRef(RAN), env, st', f, p, a) == [];
    assert Answers(p.body, env, st', f, p, a) == Answers(Filling(e), env, st', f, p, a);
  }

  /** Storing the value and the mark runs nothing. */
  lemma {:induction false} FillingAnswers(e: Exp, env: Env, st: St, fuel: nat, p: Proc, a: nat)
    ensures Answers(Filling(e), env, st, fuel, p, a) == Answers(Inner(e), env, st, fuel, p, a)
  {
    var set1, set2 := AssignTo(RESULT, Inner(e)), AssignTo(RAN, VarRef("true"));
    var first := Sequentially(set1, set2);
    assert Answers(set1, env, st, fuel, p, a) == Answers(Inner(e), env, st, fuel, p, a);
    assert forall s :: Answers(VarRef("true"), env, s, fuel, p, a) == [];
    assert forall s :: Answers(set2, env, s, fuel, p, a) == Answers(VarRef("true"), env, s, fuel, p, a);
    assert forall s :: Answers(VarRef(RESULT), env, s, fuel, p, a) == [];
    assert Answers(first, env, st, fuel, p, a) == Answers(set1, env, st, fuel, p, a);
    assert Answers(Filling(e), env, st, fuel, p, a) == Answers(first, env, st, fuel, p, a);
  }

  lemma {:induction false} NestedTracks(st: St, fuel: nat, e: Exp, a: nat, outer: Env)
    requires Clean(e) && Guarded(st, Promise(e, a, outer), a) && !Settled(st[a])
    requires Force(Obj(Promise(e, a, outer)), st, fuel).0.Ok? && fuel > 0
    ensures var st1 := Exec(Inner(e), Cons(|st|, Cons(a, outer)), st + [Nil], fuel - 1).1;
            && Tracks(Nested(st, fuel, e, a, outer), st, st1, a, e)
            && a < |st1| && IsPromiseFrame(st1[a])
  {
    var p, env, st0 := Promise(e, a, outer), Cons(|st|, Cons(a, outer)), st + [Nil];
    FirstForce(st, fuel, e, a, outer);
    NewFrameKept(st, Nil, p, a);
    InnerMayRun(e, env, a, st0);
    CallKept(MakeProc(Nil, Analyze(e)), Nil, env, st0, fuel - 1, e, a, outer);
    CallTracks(MakeProc(Nil, Analyze(e)), Nil, env, st0, fuel - 1, e, a, outer);
  }

  /** For every expression, store and unsettled promise: the value that is kept is the one the
      expression ends with; the value first delivered is the one kept if and only if no nested
      force answered or the first that did gave the same value. While the expression ran, the
      frame came to hold what the last nested force left, or stayed as it was; so a force
      replaces a settled value exactly when the frame is settled by then and holds another. */
  lemma {:induction false} FirstValueKeptIff(st: St, fuel: nat, e: Exp, a: nat, outer: Env)
    requires Clean(e) && Guarded(st, Promise(e, a, outer), a) && !Settled(st[a])
    requires Force(Obj(Promise(e, a, outer)), st, fuel).0.Ok?
    ensures fuel > 0
    ensures var p := Promise(e, a, outer); var (r, st') := Force(Obj(p), st, fuel);
            var st1 := Exec(Inner(e), Cons(|st|, Cons(a, outer)), st + [Nil], fuel - 1).1;
            var nested := Nested(st, fuel, e, a, outer); var all := AnswersOfCall(Obj(p), Nil, st, fuel, p, a);
            && all == nested + [FrameAt(st', a)] && (forall k :: 0 <= k < |all| ==> IsPromiseFrame(all[k]))
            && ValueIn(all[|nested|]) == r.value
            && FrameAt(st1, a) == (if nested == [] then st[a] else nested[|nested| - 1])
            && (ValueIn(all[0]) == ValueIn(all[|nested|]) <==> nested == [] || ValueIn(nested[0]) == r.value)
            && (|nested| <= 1 && (nested == [] || Settled(nested[0])) ==>
                  (ValueIn(all[0]) == ValueIn(all[|nested|]) <==>
                     !Settled(FrameAt(st1, a)) || ValueIn(FrameAt(st1, a)) == r.value))
  {
    FirstForce(st, fuel, e, a, outer);
    ForceAnswers(st, fuel, e, a, outer);
    NestedTracks(st, fuel, e, a, outer);
  }

  // ----- an expression that cannot reach the promise -----

  /** Does not mention the variable x. */
  predicate Silent(c: Code, x: Name) {
    match c
    case Const(_) => true
    case VarRef(y) => y != x
    case AssignTo(y, rhs) => y != x && Silent(rhs, x)
    case DefineAs(y, rhs) => y != x && Silent(rhs, x)
    case Branch(q, c1, c2) => Silent(q, x) && Silent(c1, x) && Silent(c2, x)
    case MakeProc(_, b) => Silent(b, x)
    case Sequentially(c1, c2) => Silent(c1, x) && Silent(c2, x)
    case Call(f, cs) => Silent(f, x) && AllSilent(cs, x)
  }

  predicate AllSilent(cs: List<Code>, x: Name) {
    match cs
    case Nil => true
    case Cons(c, t) => Silent(c, x) && AllSilent(t, x)
  }

  /** Neither the promise nor a procedure that mentions x. */
  predicate SilentValue(v: V, p: Proc, x: Name) {
    match v
    case Pair(h, t) => SilentValue(h, p, x) && SilentValue(t, p, x)
    case Obj(q) => q != p && Silent(q.body, x)
    case _ => true
  }

  predicate SilentValues(vs: List<V>, p: Proc, x: Name) {
    match vs
    case Nil => true
    case Cons(v, t) => SilentValue(v, p, x) && SilentValues(t, p, x)
  }

  /** Under names other than x. */
  predicate SilentFrame(frame: Frame<Proc>, p: Proc, x: Name) {
    match frame
    case Nil => true
    case Cons(b, t) => (b.name == x || SilentValue(b.value, p, x)) && SilentFrame(t, p, x)
  }

  /** The promise is held under the name x only, and no procedure mentions x. */
  ghost predicate Unreached(st: St, p: Proc, x: Name) { forall f :: 0 <= f < |st| ==> SilentFrame(st[f], p, x) }

  lemma {:induction false} ScanSilent(y: Name, frame: Frame<Proc>, p: Proc, x: Name)
    requires SilentFrame(frame, p, x) && y != x
    ensures Scan(y, frame).Found? ==> SilentValue(Scan(y, frame).value, p, x)
  {
    if frame.Cons? { ScanSilent(y, frame.tail, p, x); }
  }

  lemma {:induction false} LookupSilent(y: Name, env: Env, st: St, p: Proc, x: Name)
    requires Unreached(st, p, x) && y != x
    ensures Lookup(y, env, st).Ok? ==> SilentValue(Lookup(y, env, st).value, p, x)
  {
    if env.Cons? {
      ScanSilent(y, FrameAt(st, env.head), p, x);
      LookupSilent(y, env.tail, st, p, x);
    }
  }

  lemma {:induction false} SetFrameSilent(y: Name, v: V, frame: Frame<Proc>, p: Proc, x: Name)
    requires SilentFrame(frame, p, x) && SilentValue(v, p, x)
    ensures SilentFrame(SetInFrame(y, v, frame), p, x)
  {
    if frame.Cons? { SetFrameSilent(y, v, frame.tail, p, x); }
  }

  lemma {:induction false} SetSilent(y: Name, v: V, env: Env, st: St, p: Proc, x: Name)
    requires Unreached(st, p, x) && SilentValue(v, p, x) && SetVariable(y, v, env, st).Ok?
    ensures Unreached(SetVariable(y, v, env, st).value, p, x)
  {
    if Scan(y, FrameAt(st, env.head)).Missing? {
      SetSilent(y, v, env.tail, st, p, x);
    } else {
      SetFrameSilent(y, v, st[env.head], p, x);
    }
  }

  lemma {:induction false} ZipSilent(ys: List<Name>, vs: List<V>, p: Proc, x: Name)
    requires SilentValues(vs, p, x)
    ensures SilentFrame(Zip(ys, vs), p, x)
  {
    if ys.Cons? && vs.Cons? { ZipSilent(ys.tail, vs.tail, p, x); }
  }

  lemma {:induction false} ListSilent(vs: List<V>, p: Proc, x: Name)
    requires SilentValues(vs, p, x)
    ensures SilentValue(ToSchemeList(vs), p, x)
  {
    if vs.Cons? { ListSilent(vs.tail, p, x); }
  }

  lemma {:induction false} DatumSilent(d: Datum, p: Proc, x: Name)
    ensures SilentValue(FromDatum(d), p, x)
  {
    match d
    case DPair(a, b) => DatumSilent(a, p, x); DatumSilent(b, p, x);
    case _ =>
  }

  /** Code that does not mention x never calls the promise. */
  lemma {:induction false} ExecSilent(c: Code, env: Env, st: St, fuel: nat, p: Proc, a: nat, x: Name)
    requires Silent(c, x) && Unreached(st, p, x)
    requires p.env.Cons? && p.env.head == a < |st| && (env.Cons? ==> env.head != a)
    ensures var (r, st') := Exec(c, env, st, fuel);
            && |st| <= |st'| && Unreached(st', p, x) && (r.Ok? ==> SilentValue(r.value, p, x))
            && Answers(c, env, st, fuel, p, a) == []
    decreases fuel, 1, c
  {
    match c
    case Const(d) => DatumSilent(d, p, x);
    case VarRef(y) => LookupSilent(y, env, st, p, x);
    case AssignTo(y, rhs) =>
      ExecSilent(rhs, env, st, fuel, p, a, x);
      var (r, st1) := Exec(rhs, env, st, fuel);
      if r.Ok? && SetVariable(y, r.value, env, st1).Ok? { SetSilent(y, r.value, env, st1, p, x); }
    case DefineAs(y, rhs) =>
      ExecSilent(rhs, env, st, fuel, p, a, x);
      var (r, st1) := Exec(rhs, env, st, fuel);
      if r.Ok? && env.Cons? && env.head < |st1| { SetFrameSilent(y, r.value, st1[env.head], p, x); }
    case Branch(q, c1, c2) =>
      ExecSilent(q, env, st, fuel, p, a, x);
      var (r, st1) := Exec(q, env, st, fuel);
      if r.Ok? { ExecSilent(if True(r.value) then c1 else c2, env, st1, fuel, p, a, x); }
    case MakeProc(ps, b) => assert Proc(ps, b, env) != p;
    case Sequentially(c1, c2) =>
      ExecSilent(c1, env, st, fuel, p, a, x);
      var (r, st1) := Exec(c1, env, st, fuel);
      if r.Ok? { ExecSilent(c2, env, st1, fuel, p, a, x); }
    case Call(f, cs) =>
      ExecSilent(f, env, st, fuel, p, a, x);
      var (r, st1) := Exec(f, env, st, fuel);
      if r.Ok? {
        AllExecSilent(cs, env, st1, fuel, p, a, x);
        var (rs, st2) := ExecAll(cs, env, st1, fuel);
        if rs.Ok? { ApplySilent(r.value, rs.value, st2, fuel, p, a, x); }
      }
  }

  lemma {:induction false} AllExecSilent(cs: List<Code>, env: Env, st: St, fuel: nat, p: Proc, a: nat, x: Name)
    requires AllSilent(cs, x) && Unreached(st, p, x)
    requires p.env.Cons? && p.env.head == a < |st| && (env.Cons? ==> env.head != a)
    ensures var (rs, st') := ExecAll(cs, env, st, fuel);
            && |st| <= |st'| && Unreached(st', p, x) && (rs.Ok? ==> SilentValues(rs.value, p, x))
            && AnswersAll(cs, env, st, fuel, p, a) == []
    decreases fuel, 1, cs
  {
    if cs.Cons? {
      ExecSilent(cs.head, env, st, fuel, p, a, x);
      var (r, st1) := Exec(cs.head, env, st, fuel);
      if r.Ok? { AllExecSilent(cs.tail, env, st1, fuel, p, a, x); }
    }
  }

  lemma {:induction false} ApplySilent(v: V, args: List<V>, st: St, fuel: nat, p: Proc, a: nat, x: Name)
    requires SilentValue(v, p, x) && SilentValues(args, p, x) && Unreached(st, p, x)
    requires p.env.Cons? && p.env.head == a < |st|
    ensures var (r, st') := ExecuteApplication(v, args, st, fuel);
            && |st| <= |st'| && Unreached(st', p, x) && (r.Ok? ==> SilentValue(r.value, p, x))
            && AnswersOfCall(v, args, st, fuel, p, a) == []
    decreases fuel, 0
  {
    match v
    case Primitive(op) => ListSilent(args, p, x);
    case Obj(q) =>
      if fuel > 0 && Length(q.params) == Length(args) {
        ZipSilent(q.params, args, p, x);
        ExecSilent(q.body, Cons(|st|, q.env), st + [Zip(q.params, args)], fuel - 1, p, a, x);
      }
    case _ =>
  }

  /** What a caller can check beforehand: if the promise is held under the name x only, and
      neither its expression nor any procedure mentions x, then a force that answers runs the
      expression once, and the value it delivers is the one kept. */
  lemma {:induction false} UnreachedRunsOnce(st: St, fuel: nat, e: Exp, a: nat, outer: Env, x: Name)
    requires Clean(e) && Guarded(st, Promise(e, a, outer), a) && !Settled(st[a])
    requires Unreached(st, Promise(e, a, outer), x) && Silent(Analyze(e), x)
    requires Force(Obj(Promise(e, a, outer)), st, fuel).0.Ok?
    ensures fuel > 0 && Nested(st, fuel, e, a, outer) == []
    ensures var p := Promise(e, a, outer); var (r, st') := Force(Obj(p), st, fuel);
            && AnswersOfCall(Obj(p), Nil, st, fuel, p, a) == [FrameAt(st', a)]
            && IsPromiseFrame(FrameAt(st', a)) && ValueIn(FrameAt(st', a)) == r.value
  {
    var p, env := Promise(e, a, outer), Cons(|st|, Cons(a, outer));
    FirstValueKeptIff(st, fuel, e, a, outer);
    assert Silent(MakeProc(Nil, Analyze(e)), x) && AllSilent(Nil, x);
    assert Silent(Inner(e), x);
    ExecSilent(Inner(e), env, st + [Nil], fuel - 1, p, a, x);
  }

  /** The other condition to check beforehand: an expression that makes no call, such as the name
      of the stream itself, is run once by a force that answers. */
  lemma {:induction false} CallFreeRunsOnce(st: St, fuel: nat, e: Exp, a: nat, outer: Env)
    requires Clean(e) && Guarded(st, Promise(e, a, outer), a) && !Settled(st[a]) && CallFree(Analyze(e))
    requires Force(Obj(Promise(e, a, outer)), st, fuel).0.Ok?
    ensures var p := Promise(e, a, outer); var (r, st') := Force(Obj(p), st, fuel);
            && AnswersOfCall(Obj(p), Nil, st, fuel, p, a) == [FrameAt(st', a)]
            && IsPromiseFrame(FrameAt(st', a)) && ValueIn(FrameAt(st', a)) == r.value
  {
    FirstValueKeptIff(st, fuel, e, a, outer);
    CallFreeNests(st, fuel, e, a, outer);
  }

  // ----- right after the definition -----

  /** No procedure in the store mentions x. */
  ghost predicate NobodyMentions(st: St, x: Name) { forall f :: 0 <= f < |st| ==> FrameSilent(st[f], x) }

  predicate FrameSilent(frame: Frame<Proc>, x: Name) {
    match frame
    case Nil => true
    case Cons(b, t) => BodiesSilent(b.value, x) && FrameSilent(t, x)
  }

  predicate BodiesSilent(v: V, x: Name) {
    match v
    case Pair(h, t) => BodiesSilent(h, x) && BodiesSilent(t, x)
    case Obj(q) => Silent(q.body, x)
    case _ => true
  }

  lemma {:induction false} OldValueSilent(v: V, p: Proc, x: Name, n: nat)
    requires BodiesSilent(v, x) && ValidValue(v, n) && p.env.Cons? && p.env.head == n
    ensures SilentValue(v, p, x)
  {
    match v
    case Pair(h, t) => OldValueSilent(h, p, x, n); OldValueSilent(t, p, x, n);
    case _ =>
  }

  lemma {:induction false} OldFrameSilent(frame: Frame<Proc>, p: Proc, x: Name, n: nat)
    requires FrameSilent(frame, x) && ValidFrame(frame, n) && p.env.Cons? && p.env.head == n
    ensures SilentFrame(frame, p, x)
  {
    if frame.Cons? {
      OldValueSilent(frame.head.value, p, x, n);
      OldFrameSilent(frame.tail, p, x, n);
    }
  }

  lemma {:induction false} BindSilent(x: Name, v: V, frame: Frame<Proc>, p: Proc)
    requires SilentFrame(frame, p, x)
    ensures SilentFrame(SetInFrame(x, v, frame), p, x)
  {
    if frame.Cons? { BindSilent(x, v, frame.tail, p); }
  }

  /** After (define x (delay e)), where neither e nor any procedure of the store mentions x, the
      first force runs e exactly once and keeps the value it delivers. */
  lemma {:induction false} DelayedRunsOnce(x: Name, e: Exp, env: Env, st: St, f0: nat, fuel: nat)
    requires ValidStore(st) && ValidEnv(env, |st|) && Lookup("false", env, st) == Ok(Bool(false)) && f0 > 0
    requires Clean(e) && Silent(Analyze(e), x) && NobodyMentions(st, x)
    requires Force(Obj(Promise(e, |st|, env)), Delayed(x, e, env, st, f0), fuel).0.Ok?
    ensures var p := Promise(e, |st|, env); var (r, st') := Force(Obj(p), Delayed(x, e, env, st, f0), fuel);
            && AnswersOfCall(Obj(p), Nil, Delayed(x, e, env, st, f0), fuel, p, |st|) == [FrameAt(st', |st|)]
            && IsPromiseFrame(FrameAt(st', |st|)) && ValueIn(FrameAt(st', |st|)) == r.value
  {
    var p, unset := Promise(e, |st|, env), PromiseFrame(Bool(false), Bool(false));
    var st1, st2 := st + [unset], Delayed(x, e, env, st, f0);
    DelayedGuarded(x, e, env, st, f0);
    DelayMakesPromise(e, env, st, f0);
    assert Analyze(Define(x, MemoizeExp(e))) == DefineAs(x, Analyze(MemoizeExp(e)));
    assert st2 == DefineVariable(x, Obj(p), env, st1);
    assert SilentFrame(unset, p, x) by { assert SilentFrame(unset.tail.tail, p, x); }
    forall f | 0 <= f < |st2| ensures SilentFrame(st2[f], p, x) {
      if f < |st| {
        OldFrameSilent(st[f], p, x, |st|);
        BindSilent(x, Obj(p), st[f], p);
      }
    }
    assert st2[|st|] == unset;
    UnreachedRunsOnce(st2, fuel, e, |st|, env, x);
  }

  /** Whole runs: after (define x (delay e)) and while any code runs, however often it forces the
      promise, an expression that makes no call is run at most once, unless its first run left the
      promise unsettled, because `true` was #f. */
  lemma {:induction false} CallFreeRunsAtMostOnce(x: Name, e: Exp, env: Env, st: St, c: Code, f0: nat, fuel: nat)
    requires ValidStore(st) && ValidEnv(env, |st|) && Lookup("false", env, st) == Ok(Bool(false)) && f0 > 0
    requires Clean(e) && CallFree(Analyze(e)) && Exec(c, env, Delayed(x, e, env, st, f0), fuel).0.Ok?
    ensures var log := Answers(c, env, Delayed(x, e, env, st, f0), fuel, Promise(e, |st|, env), |st|);
            |log| <= 1 || !Settled(log[0])
  {
    DelayedGuarded(x, e, env, st, f0);
    OutsideMayRun(c, env, |st|, Delayed(x, e, env, st, f0));
    ExecTracks(c, env, Delayed(x, e, env, st, f0), fuel, e, |st|, env);
  }
}
