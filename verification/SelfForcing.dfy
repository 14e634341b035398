/** A promise whose expression forces the promise itself: the value that the inner force
    delivers, and settles, is replaced by another one. */
module SelfForcing {
  import opened Scheme
  import opened Syntax
  import opened Analyzer
  import opened FrameNames
  import opened Promises
  import opened PromiseRuns

  /** (if first (begin (set! first false) (force p) 1) 2) */
  function Twice(): Exp {
    If(Var("first"),
       Begin(More(Assign("first", Var("false")), More(App(Var("p"), Nil), Last(Self(DNum(1.0)))))),
       Self(DNum(2.0)))
  }

  const TOP: Env := Cons(0, Nil)

  /** Where `first` is true and p is not yet defined. */
  function Before(): St {
    [Cons(Binding("first", Bool(true)), Cons(Binding("true", Bool(true)), Cons(Binding("false", Bool(false)), Nil)))]
  }

  function ThePromise(): Proc { Promise(Twice(), 1, TOP) }

  /** The global frame with p defined, the promise's frame, and n empty frames of calls. */
  function After(first: bool, promise: Frame<Proc>, n: nat): St {
    [Cons(Binding("p", Obj(ThePromise())),
       Cons(Binding("first", Bool(first)),
         Cons(Binding("true", Bool(true)), Cons(Binding("false", Bool(false)), Nil)))),
     promise] + Empties(n)
  }

  function Empties(n: nat): St { seq(n, _ => Nil) }

  function Unset(): Frame<Proc> { PromiseFrame(Bool(false), Bool(false)) }

  function Body(): Code {
    Sequentially(Sequentially(AssignTo("first", VarRef("false")), Call(VarRef("p"), Nil)), Const(DNum(1.0)))
  }

  lemma {:induction false} TwiceCode()
    ensures Analyze(Twice()) == Branch(VarRef("first"), Body(), Const(DNum(2.0)))
  {
    var set1, call := Assign("first", Var("false")), App(Var("p"), Nil);
    var one: Exp := Self(DNum(1.0));
    assert Analyze(call) == Call(VarRef("p"), Nil) by { assert AnalyzeAll(Nil) == Nil; }
    assert Analyze(set1) == AssignTo("first", VarRef("false"));
    assert AnalyzeRest(Last(one)) == Cons(Const(DNum(1.0)), Nil);
    assert AnalyzeRest(More(call, Last(one))) == Cons(Call(VarRef("p"), Nil), Cons(Const(DNum(1.0)), Nil));
    assert AnalyzeSequence(More(set1, More(call, Last(one)))) ==
           Loop(AssignTo("first", VarRef("false")), AnalyzeRest(More(call, Last(one))));
  }

  /** Variables are looked up past the empty frames of the calls and the promise's frame. */
  lemma {:induction false} LookupGlobal(x: Name, env: Env, first: bool, promise: Frame<Proc>, n: nat)
    requires IsPromiseFrame(promise) && Inside(env, n) && x != RAN && x != RESULT
    ensures Lookup(x, env, After(first, promise, n)) == Lookup(x, TOP, After(first, promise, n))
  {
    if env.head >= 2 {
      LookupGlobal(x, env.tail, first, promise, n);
    } else {
      PromiseScan(x, promise);
      assert Lookup(x, env, After(first, promise, n)) == Lookup(x, env.tail, After(first, promise, n));
    }
  }

  /** Frames of calls, then the promise's frame, then the global one. */
  predicate Inside(env: Env, n: nat) {
    env.Cons? && (env == Cons(1, TOP) || (2 <= env.head < n + 2 && Inside(env.tail, n)))
  }

  lemma {:induction false} Globals(first: bool, promise: Frame<Proc>, n: nat)
    ensures var st := After(first, promise, n);
            && Lookup("first", TOP, st) == Ok(Bool(first)) && Lookup("true", TOP, st) == Ok(Bool(true))
            && Lookup("false", TOP, st) == Ok(Bool(false)) && Lookup("p", TOP, st) == Ok(Obj(ThePromise()))
            && SetVariable("first", Bool(false), TOP, st) == Ok(After(false, promise, n))
  {
    var st := After(first, promise, n);
    var t2: Frame<Proc> := Cons(Binding("false", Bool(false)), Nil);
    var t1 := Cons(Binding("true", Bool(true)), t2);
    var t0 := Cons(Binding("first", Bool(first)), t1);
    assert st[0] == Cons(Binding("p", Obj(ThePromise())), t0);
    assert Scan("false", st[0]) == Scan("false", t0) == Scan("false", t1) == Scan("false", t2);
    assert Scan("true", st[0]) == Scan("true", t0) == Scan("true", t1);
    assert Scan("first", st[0]) == Scan("first", t0);
    assert SetInFrame("first", Bool(false), t0) == Cons(Binding("first", Bool(false)), t1);
    assert st[0 := SetInFrame("first", Bool(false), st[0])] == After(false, promise, n);
  }

  lemma {:induction false} SetGlobal(env: Env, first: bool, promise: Frame<Proc>, n: nat)
    requires IsPromiseFrame(promise) && Inside(env, n)
    ensures SetVariable("first", Bool(false), env, After(first, promise, n)) == Ok(After(false, promise, n))
  {
    if env.head >= 2 {
      SetGlobal(env.tail, first, promise, n);
    } else {
      PromiseScan("first", promise);
      Globals(first, promise, n);
    }
  }

  lemma {:induction false} OneMoreEmpty(first: bool, promise: Frame<Proc>, n: nat)
    ensures After(first, promise, n) + [Nil] == After(first, promise, n + 1)
    ensures |After(first, promise, n)| == n + 2
  {
    assert Empties(n) + [Nil] == Empties(n + 1);
  }

  /** Running the expression in a call of its own, from inside a force. */
  lemma {:induction false} InnerRuns(first: bool, n: nat, fuel: nat)
    requires fuel > 0
    ensures var env := Cons(n + 2, Cons(1, TOP));
            Exec(Inner(Twice()), env, After(first, Unset(), n + 1), fuel) ==
            Exec(Analyze(Twice()), Cons(n + 3, env), After(first, Unset(), n + 2), fuel - 1)
  {
    var env, st := Cons(n + 2, Cons(1, TOP)), After(first, Unset(), n + 1);
    OneMoreEmpty(first, Unset(), n + 1);
    var q: V := Obj(Proc(Nil, Analyze(Twice()), env));
    assert Exec(MakeProc(Nil, Analyze(Twice())), env, st, fuel) == (Ok(q), st);
    assert ExecAll(Nil, env, st, fuel) == (Ok(Nil), st);
    assert Extend<Proc>(Nil, Nil, st) == Ok(st + [Nil]);
  }

  /** The end of a force: the value and the mark are stored in the promise's frame. */
  lemma {:induction false} FillEnds(n: nat, m: nat, first: bool, first1: bool, promise: Frame<Proc>, v: V, fuel: nat)
    requires n < m && IsPromiseFrame(promise) && v != Sym("*unassigned*")
    requires var env := Cons(n + 2, Cons(1, TOP));
             Exec(Inner(Twice()), env, After(first, Unset(), n + 1), fuel) == (Ok(v), After(first1, promise, m))
    ensures Fill(Twice(), Cons(n + 2, Cons(1, TOP)), After(first, Unset(), n + 1), fuel) ==
            (Ok(v), After(first1, PromiseFrame(Bool(true), v), m))
  {
    var env, st1 := Cons(n + 2, Cons(1, TOP)), After(first1, promise, m);
    assert FrameAt(st1, n + 2) == Nil;
    SetOwn(RESULT, v, env, st1, 1);
    var p2 := PromiseFrame(promise.head.value, v);
    assert st1[1 := p2] == After(first1, p2, m);
    var st2 := After(first1, p2, m);
    assert FrameAt(st2, n + 2) == Nil;
    LookupGlobal("true", env, first1, p2, m);
    Globals(first1, p2, m);
    SetOwn(RAN, Bool(true), env, st2, 1);
    var p3 := PromiseFrame(Bool(true), v);
    assert st2[1 := p3] == After(first1, p3, m);
    PromiseScan(RESULT, p3);
    assert Lookup(RESULT, env, After(first1, p3, m)) == Lookup(RESULT, env.tail, After(first1, p3, m));
  }

  /** A force of the unsettled promise is the steps of a first force. */
  lemma {:induction false} ForceFills(first: bool, n: nat, fuel: nat)
    requires fuel > 0
    ensures Force(Obj(ThePromise()), After(first, Unset(), n), fuel) ==
            Fill(Twice(), Cons(n + 2, Cons(1, TOP)), After(first, Unset(), n + 1), fuel - 1)
  {
    var st := After(first, Unset(), n);
    OneMoreEmpty(first, Unset(), n);
    ForceSteps(st, fuel, Twice(), 1, TOP);
    PromiseScan(RAN, Unset());
    assert Lookup(RAN, Cons(n + 2, Cons(1, TOP)), st + [Nil]) == Lookup(RAN, Cons(1, TOP), st + [Nil]);
  }

  /** The inner force, made with `first` false, delivers 2 and settles the promise with it. */
  lemma {:induction false} InnerForce(n: nat, fuel: nat)
    requires fuel > 1
    ensures Force(Obj(ThePromise()), After(false, Unset(), n), fuel) ==
            (Ok(Num(2.0)), After(false, PromiseFrame(Bool(true), Num(2.0)), n + 2))
  {
    var env := Cons(n + 3, Cons(n + 2, Cons(1, TOP)));
    var st := After(false, Unset(), n + 2);
    ForceFills(false, n, fuel);
    InnerRuns(false, n, fuel - 1);
    TwiceCode();
    LookupGlobal("first", env, false, Unset(), n + 2);
    Globals(false, Unset(), n + 2);
    assert Exec(VarRef("first"), env, st, fuel - 2) == (Ok(Bool(false)), st);
    assert Exec(Const(DNum(2.0)), env, st, fuel - 2) == (Ok(Num(2.0)), st);
    FillEnds(n, n + 2, false, false, Unset(), Num(2.0), fuel - 1);
  }

  function AfterInner(): St { After(false, PromiseFrame(Bool(true), Num(2.0)), 4) }

  const INNERMOST: Env := Cons(3, Cons(2, Cons(1, TOP)))

  lemma {:induction false} SetsFirst(fuel: nat)
    ensures Exec(AssignTo("first", VarRef("false")), INNERMOST, After(true, Unset(), 2), fuel) ==
            (Ok(Sym("ok")), After(false, Unset(), 2))
  {
    var st := After(true, Unset(), 2);
    LookupGlobal("false", INNERMOST, true, Unset(), 2);
    Globals(true, Unset(), 2);
    SetGlobal(INNERMOST, true, Unset(), 2);
    assert Exec(VarRef("false"), INNERMOST, st, fuel) == (Ok(Bool(false)), st);
  }

  lemma {:induction false} CallsPromise(fuel: nat)
    requires fuel > 1
    ensures Exec(Call(VarRef("p"), Nil), INNERMOST, After(false, Unset(), 2), fuel) ==
            Force(Obj(ThePromise()), After(false, Unset(), 2), fuel)
  {
    var st := After(false, Unset(), 2);
    LookupGlobal("p", INNERMOST, false, Unset(), 2);
    Globals(false, Unset(), 2);
    assert Exec(VarRef("p"), INNERMOST, st, fuel) == (Ok(Obj(ThePromise())), st);
    assert ExecAll(Nil, INNERMOST, st, fuel) == (Ok(Nil), st);
  }

  /** The expression, started with `first` true: it makes the inner force, and answers 1. */
  lemma {:induction false} ExpressionForces(fuel: nat)
    requires fuel > 1
    ensures Exec(Analyze(Twice()), INNERMOST, After(true, Unset(), 2), fuel) == (Ok(Num(1.0)), AfterInner())
  {
    var st := After(true, Unset(), 2);
    var set1, call := AssignTo("first", VarRef("false")), Call(VarRef("p"), Nil);
    TwiceCode();
    LookupGlobal("first", INNERMOST, true, Unset(), 2);
    Globals(true, Unset(), 2);
    assert Exec(VarRef("first"), INNERMOST, st, fuel) == (Ok(Bool(true)), st);
    SetsFirst(fuel);
    CallsPromise(fuel);
    InnerForce(2, fuel);
    ThenMeaning(set1, call, INNERMOST, st, fuel);
    ThenMeaning(Sequentially(set1, call), Const(DNum(1.0)), INNERMOST, st, fuel);
    assert Exec(Const(DNum(1.0)), INNERMOST, AfterInner(), fuel) == (Ok(Num(1.0)), AfterInner());
  }

  lemma {:induction false} OuterExpression(fuel: nat)
    requires fuel > 2
    ensures Exec(Inner(Twice()), Cons(2, Cons(1, TOP)), After(true, Unset(), 1), fuel) == (Ok(Num(1.0)), AfterInner())
  {
    InnerRuns(true, 0, fuel);
    ExpressionForces(fuel - 1);
  }

  lemma {:induction false} OuterFill(fuel: nat)
    requires fuel > 2
    ensures Fill(Twice(), Cons(2, Cons(1, TOP)), After(true, Unset(), 1), fuel) ==
            (Ok(Num(1.0)), After(false, PromiseFrame(Bool(true), Num(1.0)), 4))
  {
    OuterExpression(fuel);
    FillEnds(0, 4, true, false, PromiseFrame(Bool(true), Num(2.0)), Num(1.0), fuel);
  }

  lemma {:induction false} OuterForce(fuel: nat)
    requires fuel > 3
    ensures Force(Obj(ThePromise()), After(true, Unset(), 0), fuel) ==
            (Ok(Num(1.0)), After(false, PromiseFrame(Bool(true), Num(1.0)), 4))
  {
    ForceFills(true, 0, fuel);
    OuterFill(fuel - 1);
  }

  /** (define p (delay (if first (begin (set! first false) (force p) 1) 2))): the force that the
      expression makes delivers 2 and settles the promise; the force that ran the expression
      then delivers 1, and from then on the promise answers 1. Section 4.2.5 of R5RS keeps 2. */
  lemma {:induction false} SelfForcingReplacesValue(f0: nat, fuel: nat, again: nat)
    requires f0 > 0 && fuel > 3 && again > 0
    ensures Delayed("p", Twice(), TOP, Before(), f0) == After(true, Unset(), 0)
    ensures var (inner, st1) := Exec(Call(VarRef("p"), Nil), INNERMOST, After(false, Unset(), 2), fuel - 2);
            var (outer, st2) := Force(Obj(ThePromise()), After(true, Unset(), 0), fuel);
            && inner == Ok(Num(2.0)) && Settled(FrameAt(st1, 1))
            && Exec(Analyze(Twice()), INNERMOST, After(true, Unset(), 2), fuel - 2) == (outer, st1)
            && outer == Ok(Num(1.0)) && Force(Obj(ThePromise()), st2, again) == (Ok(Num(1.0)), st2 + [Nil])
  {
    DelayedIs(f0);
    CallsPromise(fuel - 2);
    InnerForce(2, fuel - 2);
    ExpressionForces(fuel - 2);
    OuterForce(fuel);
    LaterForce(After(false, PromiseFrame(Bool(true), Num(1.0)), 4), again, Twice(), 1, TOP);
  }

  lemma {:induction false} DelayedIs(f0: nat)
    requires f0 > 0
    ensures Delayed("p", Twice(), TOP, Before(), f0) == After(true, Unset(), 0)
  {
    var st := Before();
    var t1: Frame<Proc> := st[0].tail;
    assert Scan("false", st[0]) == Scan("false", t1) == Scan("false", t1.tail);
    DelayMakesPromise(Twice(), TOP, st, f0);
    assert Analyze(Define("p", MemoizeExp(Twice()))) == DefineAs("p", Analyze(MemoizeExp(Twice())));
    var st1 := st + [Unset()];
    assert Scan("p", st[0]) == Scan("p", t1) == Scan("p", t1.tail) == Scan("p", t1.tail.tail);
    assert DefineVariable("p", Obj(ThePromise()), TOP, st1) == After(true, Unset(), 0);
  }
}
