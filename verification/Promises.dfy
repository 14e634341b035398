/** Promises and stream tails of the analysing evaluator: `delay` rewrites its expression into
    a procedure over a frame of its own that remembers the first value. */
module Promises {
  import opened Scheme
  import opened Syntax
  import opened Analyzer

  const RAN: Name := "already-run?"
  const RESULT: Name := "result"

  function MakeLet(vars: List<Name>, inits: List<Exp>, body: Exp): Exp {
    App(Lambda(vars, Last(body)), inits)
  }

  /** The procedure inside: run the expression unless it has been run. */
  function RunOnce(e: Exp): Exp {
    If(Var(RAN), Var(RESULT),
      Begin(More(Assign(RESULT, App(Lambda(Nil, Last(e)), Nil)), More(Assign(RAN, Var("true")), Last(Var(RESULT))))))
  }

  function MemoizeExp(e: Exp): Exp {
    MakeLet(Cons(RAN, Cons(RESULT, Nil)), Cons(Var("false"), Cons(Var("false"), Nil)), Lambda(Nil, Last(RunOnce(e))))
  }

  function ConsStreamToCons(head: Exp, tail: Exp): Exp {
    App(Var("cons"), Cons(head, Cons(MemoizeExp(tail), Nil)))
  }

  /** `force` applies the promise to no arguments. */
  function Force(promise: V, st: St, fuel: nat): (Result<V>, St) { ExecuteApplication(promise, Nil, st, fuel) }

  // ----- the promise and its frame -----

  function Inner(e: Exp): Code { Call(MakeProc(Nil, Analyze(e)), Nil) }

  function Filling(e: Exp): Code {
    Sequentially(Sequentially(AssignTo(RESULT, Inner(e)), AssignTo(RAN, VarRef("true"))), VarRef(RESULT))
  }

  /** The promise for e whose frame is at a. */
  function Promise(e: Exp, a: nat, env: Env): Proc {
    Proc(Nil, Branch(VarRef(RAN), VarRef(RESULT), Filling(e)), Cons(a, env))
  }

  function PromiseFrame(ran: V, result: V): Frame<Proc> { Cons(Binding(RAN, ran), Cons(Binding(RESULT, result), Nil)) }

  predicate IsPromiseFrame(frame: Frame<Proc>) {
    && frame.Cons? && frame.head.name == RAN
    && frame.tail.Cons? && frame.tail.head.name == RESULT && frame.tail.tail.Nil?
  }

  /** The expression has been run. */
  predicate Settled(frame: Frame<Proc>) { IsPromiseFrame(frame) && True(frame.head.value) }

  lemma {:induction false} PromiseCode(e: Exp)
    ensures Analyze(RunOnce(e)) == Branch(VarRef(RAN), VarRef(RESULT), Filling(e))
  {
    var set1, set2 := Assign(RESULT, App(Lambda(Nil, Last(e)), Nil)), Assign(RAN, Var("true"));
    var b := More(set1, More(set2, Last(Var(RESULT))));
    var thunk := Lambda(Nil, Last(e));
    assert Analyze(thunk) == MakeProc(Nil, Analyze(e)) by { assert AnalyzeSequence(Last(e)) == Analyze(e); }
    assert Analyze(App(thunk, Nil)) == Inner(e) by { assert AnalyzeAll(Nil) == Nil; }
    assert AnalyzeRest(More(set2, Last(Var(RESULT)))) == Cons(Analyze(set2), Cons(VarRef(RESULT), Nil));
    assert AnalyzeSequence(b)
        == Loop(AssignTo(RESULT, Inner(e)), Cons(AssignTo(RAN, VarRef("true")), Cons(VarRef(RESULT), Nil)));
    assert AnalyzeSequence(b) == Filling(e);
  }

  /** Delaying evaluates nothing: it answers a promise with a frame of its own. */
  lemma {:induction false} DelayMakesPromise(e: Exp, env: Env, st: St, fuel: nat)
    requires fuel > 0 && Lookup("false", env, st) == Ok(Bool(false))
    ensures Exec(Analyze(MemoizeExp(e)), env, st, fuel) ==
            (Ok(Obj(Promise(e, |st|, env))), st + [PromiseFrame(Bool(false), Bool(false))])
  {
    PromiseCode(e);
    var vars, no := Cons(RAN, Cons(RESULT, Nil)), VarRef("false");
    var maker := Lambda(Nil, Last(RunOnce(e)));
    var body := MakeProc(Nil, Branch(VarRef(RAN), VarRef(RESULT), Filling(e)));
    assert Analyze(maker) == body;
    assert Analyze(Lambda(vars, Last(maker))) == MakeProc(vars, body) by {
      assert AnalyzeSequence(Last(maker)) == body;
    }
    assert AnalyzeAll(Cons(Var("false"), Nil)) == Cons(no, Nil) by { assert AnalyzeAll(Nil) == Nil; }
    assert AnalyzeAll(Cons(Var("false"), Cons(Var("false"), Nil))) == Cons(no, Cons(no, Nil));
    assert Analyze(MemoizeExp(e)) == Call(MakeProc(vars, body), Cons(no, Cons(no, Nil)));
    assert Exec(MakeProc(vars, body), env, st, fuel) == (Ok(Obj(Proc(vars, body, env))), st);
    var f: V := Bool(false);
    var args: List<V> := Cons(f, Cons(f, Nil));
    assert ExecAll(Nil, env, st, fuel) == (Ok(Nil), st);
    assert ExecAll(Cons(no, Nil), env, st, fuel) == (Ok(Cons(f, Nil)), st);
    assert ExecAll(Cons(no, Cons(no, Nil)), env, st, fuel) == (Ok(args), st);
    assert Zip(vars.tail, args.tail) == Cons(Binding(RESULT, f), Nil);
    assert Zip(vars, args) == PromiseFrame(f, f);
    assert Length(vars.tail) == Length(args.tail) == 1;
    var st' := st + [PromiseFrame(f, f)];
    assert Extend(vars, args, st) == Ok(st');
    assert ExecuteApplication(Obj(Proc(vars, body, env)), args, st, fuel) == Exec(body, Cons(|st|, env), st', fuel - 1);
  }

  /** A stream is its head and a promise of its tail. */
  lemma {:induction false} StreamTailIsPromise(head: Exp, tail: Exp, env: Env, st: St, fuel: nat)
    requires fuel > 0 && Lookup("cons", env, st) == Ok(Primitive(ConsPair))
    requires var (r, st1) := Exec(Analyze(head), env, st, fuel); r.Ok? && Lookup("false", env, st1) == Ok(Bool(false))
    ensures var (r, st1) := Exec(Analyze(head), env, st, fuel);
            Exec(Analyze(ConsStreamToCons(head, tail)), env, st, fuel) ==
            (Ok(Pair(r.value, Obj(Promise(tail, |st1|, env)))), st1 + [PromiseFrame(Bool(false), Bool(false))])
  {
    var (r, st1) := Exec(Analyze(head), env, st, fuel);
    DelayMakesPromise(tail, env, st1, fuel);
    var st2 := st1 + [PromiseFrame(Bool(false), Bool(false))];
    var p: V := Obj(Promise(tail, |st1|, env));
    var memo := Cons(Analyze(MemoizeExp(tail)), Nil);
    assert AnalyzeAll(Cons(MemoizeExp(tail), Nil)) == memo;
    assert ExecAll(Nil, env, st2, fuel) == (Ok(Nil), st2);
    assert ExecAll(memo, env, st1, fuel) == (Ok(Cons(p, Nil)), st2);
    assert ExecAll(Cons(Analyze(head), memo), env, st, fuel) == (Ok(Cons(r.value, Cons(p, Nil))), st2);
  }

  lemma {:induction false} PromiseScan(x: Name, frame: Frame<Proc>)
    requires IsPromiseFrame(frame)
    ensures Scan(x, frame) ==
            if x == RAN then Found(frame.head.value)
            else if x == RESULT then Found(frame.tail.head.value) else Missing
  {
    assert Scan(x, frame.tail.tail).Missing?;
    assert Scan(x, frame.tail) == if x == RESULT then Found(frame.tail.head.value) else Missing;
  }

  // ----- forcing -----

  /** The steps of a first force: run the expression, store its value, store the value of `true`,
      read the value back. */
  function Fill(e: Exp, env: Env, st: St, fuel: nat): (Result<V>, St) {
    var (r, st1) := Exec(Inner(e), env, st, fuel);
    if !r.Ok? then (r, st1) else
      var (r1, st2) := Store(RESULT, r.value, env, st1);
      if !r1.Ok? then (r1, st2) else
        var w := Lookup("true", env, st2);
        if !w.Ok? then (w, st2) else
          var (r3, st3) := Store(RAN, w.value, env, st2);
          if !r3.Ok? then (r3, st3) else (Lookup(RESULT, env, st3), st3)
  }

  function Store(x: Name, v: V, env: Env, st: St): (Result<V>, St) {
    match SetVariable(x, v, env, st)
    case Ok(st') => (Ok(Sym("ok")), st')
    case Err(err) => (Err(err), st)
    case Timeout => (Timeout, st)
  }

  lemma {:induction false} StoreMeaning(x: Name, c: Code, env: Env, st: St, fuel: nat)
    ensures var (r, st1) := Exec(c, env, st, fuel);
            Exec(AssignTo(x, c), env, st, fuel) == if r.Ok? then Store(x, r.value, env, st1) else (r, st1)
  {
  }

  lemma {:induction false} ThenMeaning(c1: Code, c2: Code, env: Env, st: St, fuel: nat)
    ensures var (r, st1) := Exec(c1, env, st, fuel);
            Exec(Sequentially(c1, c2), env, st, fuel) == if r.Ok? then Exec(c2, env, st1, fuel) else (r, st1)
  {
  }

  lemma {:induction false} FillMeaning(e: Exp, env: Env, st: St, fuel: nat)
    ensures Exec(Filling(e), env, st, fuel) == Fill(e, env, st, fuel)
  {
    var set1, set2 := AssignTo(RESULT, Inner(e)), AssignTo(RAN, VarRef("true"));
    ThenMeaning(Sequentially(set1, set2), VarRef(RESULT), env, st, fuel);
    ThenMeaning(set1, set2, env, st, fuel);
    StoreMeaning(RESULT, Inner(e), env, st, fuel);
    var st2 := Exec(set1, env, st, fuel).1;
    StoreMeaning(RAN, VarRef("true"), env, st2, fuel);
    assert Exec(VarRef("true"), env, st2, fuel) == (Lookup("true", env, st2), st2);
    var st3 := Exec(set2, env, st2, fuel).1;
    assert Exec(VarRef(RESULT), env, st3, fuel) == (Lookup(RESULT, env, st3), st3);
    var (r, st1) := Exec(Inner(e), env, st, fuel);
    if r.Ok? {
      assert Exec(set1, env, st, fuel) == Store(RESULT, r.value, env, st1);
      if Exec(set1, env, st, fuel).0.Ok? && Lookup("true", env, st2).Ok? {
        assert Exec(set2, env, st2, fuel) == Store(RAN, Lookup("true", env, st2).value, env, st2);
      }
    }
  }

  /** Inside a force: read the value, or run the expression. */
  lemma {:induction false} ForceMeaning(env: Env, st: St, fuel: nat, e: Exp, a: nat, outer: Env)
    requires a < |st| && IsPromiseFrame(st[a])
    requires env.Cons? && env.head != a && env.tail == Cons(a, outer) && FrameAt(st, env.head) == Nil
    ensures Lookup(RAN, env, st).Ok? ==>
              Exec(Promise(e, a, outer).body, env, st, fuel) ==
              if Settled(st[a]) then (Lookup(RESULT, env, st), st) else Fill(e, env, st, fuel)
    ensures !Lookup(RAN, env, st).Ok? ==>
              Settled(st[a]) && Exec(Promise(e, a, outer).body, env, st, fuel) == (Lookup(RAN, env, st), st)
  {
    FillMeaning(e, env, st, fuel);
    PromiseScan(RAN, st[a]);
    assert Lookup(RAN, env, st) == Lookup(RAN, env.tail, st);
    assert Exec(VarRef(RAN), env, st, fuel) == (Lookup(RAN, env, st), st);
    assert Exec(VarRef(RESULT), env, st, fuel) == (Lookup(RESULT, env, st), st);
  }

  /** After a frame for the call, the promise's own frame comes first. */
  lemma {:induction false} ForceSteps(st: St, fuel: nat, e: Exp, a: nat, outer: Env)
    requires a < |st| && IsPromiseFrame(st[a]) && fuel > 0
    ensures var env := Cons(|st|, Cons(a, outer)); var st' := st + [Nil];
            Force(Obj(Promise(e, a, outer)), st, fuel) ==
            if !Lookup(RAN, env, st').Ok? then (Lookup(RAN, env, st'), st')
            else if Settled(st[a]) then (Lookup(RESULT, env, st'), st')
            else Fill(e, env, st', fuel - 1)
  {
    var env, st' := Cons(|st|, Cons(a, outer)), st + [Nil];
    ForceMeaning(env, st', fuel - 1, e, a, outer);
    assert Extend<Proc>(Nil, Nil, st) == Ok(st');
  }
}
