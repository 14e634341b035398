/** A program that tells the three modes of a parameter apart by an assignment in its operand. */
module LazyCounting {
  import opened LazyInterp
  import opened LazySyntax
  import opened Scheme
  import P = LazyPrograms

  const INSIDE: Env := Cons(1, Cons(0, Nil))
  const INNERMOST: Env := Cons(2, Cons(1, Cons(0, Nil)))

  /** (+ a b) */
  function Plus(a: Exp, b: Exp): Exp { App(Var("+"), Cons(a, Cons(b, Nil))) }

  /** (begin (set! count (+ count 1)) count) */
  function Increment(): Exp {
    Begin(More(Assign("count", Plus(Var("count"), Self(DNum(1.0)))), Last(Var("count"))))
  }

  /** (lambda ((x mode)) (+ x x)) */
  function Double(m: Mode): Exp { Lambda(Cons(Param("x", m), Nil), Last(Plus(Var("x"), Var("x")))) }

  /** ((lambda (count) ((lambda ((x mode)) (+ x x)) (begin (set! count (+ count 1)) count))) 0) */
  function Counting(m: Mode): P.Program {
    P.Program(Nil, App(Lambda(Cons(Param("count", Strict), Nil), Last(App(Double(m), Cons(Increment(), Nil)))),
      Cons(Self(DNum(0.0)), Nil)))
  }

  function Count(r: real): Frame<Object> { Cons(Binding("count", Num(r)), Nil) }

  /** The global frame, a frame that counts, and what else there is. */
  ghost predicate Counts(st: State, r: real) {
    && |st.frames| >= 2 && st.frames[0] == GlobalFrame() && st.frames[1] == Count(r)
    && (|st.frames| >= 3 ==> st.frames[2].Cons? && st.frames[2].head.name == "x" && st.frames[2].tail.Nil?)
  }

  lemma {:induction false} FindPlus(env: Env, st: State, r: real)
    requires Counts(st, r) && (env == INSIDE || (env == INNERMOST && |st.frames| >= 3))
    ensures Lookup("+", env, st.frames) == Ok(Primitive(Add))
  {
    var g: Frame<Object> := GlobalFrame();
    assert Scan("+", g.tail.tail.tail.tail) == Scan("+", g);
    assert Scan("+", g.tail.tail.tail.tail) == Found(Primitive(Add));
    assert Lookup("+", Cons(0, Nil), st.frames) == Ok(Primitive(Add));
    assert Scan("+", Count(r)).Missing?;
    assert Lookup("+", INSIDE, st.frames) == Lookup("+", Cons(0, Nil), st.frames);
    if env == INNERMOST {
      assert Scan("+", st.frames[2].tail).Missing?;
      assert Lookup("+", INNERMOST, st.frames) == Lookup("+", INSIDE, st.frames);
    }
  }

  lemma {:induction false} TwoValues(a: Exp, b: Exp, env: Env, st: State, st1: State, st2: State, x: V, y: V, fuel: nat)
    requires ActualValue(a, env, st, fuel) == (Ok(x), st1) && ActualValue(b, env, st1, fuel) == (Ok(y), st2)
    ensures ListOfArgValues(Cons(a, Cons(b, Nil)), env, st, fuel).0 == Ok(Cons(x, Cons(y, Nil)))
    ensures ListOfArgValues(Cons(a, Cons(b, Nil)), env, st, fuel).1 == st2
  {
    var rs := ListOfArgValues(Cons(b, Nil), env, st1, fuel);
    assert ListOfArgValues(Nil, env, st2, fuel) == (Ok(Nil), st2);
    assert rs.0 == Ok(Cons(y, Nil)) && rs.1 == st2;
    assert ListOfArgValues(Cons(a, Cons(b, Nil)), env, st, fuel).0 == ConsResult(x, rs.0);
  }

  lemma {:induction false} AddTwo<C>(x: real, y: real)
    ensures ApplyPrimitive<C>(Add, Cons(Num(x), Cons(Num(y), Nil))) == Ok(Num(x + y))
  {
    var last: List<Value<C>> := Cons(Num(y), Nil);
    assert Sum(last) == y + Sum<C>(Nil) == y;
    assert Sum(Cons(Num(x), last)) == x + Sum(last);
    assert AllNums(last);
    assert AllNums(Cons(Num(x), last));
  }

  /** The sum of two operands that are numbers. */
  lemma {:induction false} PlusAdds(a: Exp, b: Exp, env: Env, st: State, st1: State, st2: State, r: real, x: real,
                                    y: real, fuel: nat)
    requires Counts(st, r) && (env == INSIDE || (env == INNERMOST && |st.frames| >= 3))
    requires ActualValue(a, env, st, fuel) == (Ok(Num(x)), st1) && ActualValue(b, env, st1, fuel) == (Ok(Num(y)), st2)
    ensures Eval(Plus(a, b), env, st, fuel) == (Ok(Num(x + y)), st2)
    ensures ActualValue(Plus(a, b), env, st, fuel) == (Ok(Num(x + y)), st2)
  {
    FindPlus(env, st, r);
    var vs: List<V> := Cons(Num(x), Cons(Num(y), Nil));
    TwoValues(a, b, env, st, st1, st2, Num(x), Num(y), fuel);
    AddTwo<Object>(x, y);
    assert ActualValue(Var("+"), env, st, fuel) == (Ok(Primitive(Add)), st);
  }

  function Counted(st: State, r: real): State
    requires |st.frames| >= 2
  {
    st.(frames := st.frames[1 := Count(r)])
  }

  lemma {:induction false} Increments(st: State, r: real, fuel: nat)
    requires Counts(st, r)
    ensures Eval(Increment(), INSIDE, st, fuel) == (Ok(Num(r + 1.0)), Counted(st, r + 1.0))
    ensures ActualValue(Increment(), INSIDE, st, fuel) == (Ok(Num(r + 1.0)), Counted(st, r + 1.0))
    ensures Counts(Counted(st, r + 1.0), r + 1.0)
  {
    var one, st1 := Self(DNum(1.0)), Counted(st, r + 1.0);
    assert Lookup("count", INSIDE, st.frames) == Ok(Num(r));
    assert ActualValue(Var("count"), INSIDE, st, fuel) == (Ok(Num(r)), st);
    assert ActualValue(one, INSIDE, st, fuel) == (Ok(Num(1.0)), st);
    PlusAdds(Var("count"), one, INSIDE, st, st, st, r, r, 1.0, fuel);
    assert SetVariable("count", Num(r + 1.0), INSIDE, st.frames) == Ok(st1.frames);
    assert Eval(Assign("count", Plus(Var("count"), one)), INSIDE, st, fuel) == (Ok(Sym("ok")), st1);
    assert Lookup("count", INSIDE, st1.frames) == Ok(Num(r + 1.0));
    assert EvalSequence(Last(Var("count")), INSIDE, st1, fuel) == (Ok(Num(r + 1.0)), st1);
  }

  /** The state in which the body of the inner procedure begins. */
  function Entered(r: real, x: V, thunks: seq<Cell>): State {
    State([GlobalFrame(), Count(r), Cons(Binding("x", x), Nil)], thunks)
  }

  lemma {:induction false} XIs(r: real, x: V, thunks: seq<Cell>)
    requires x != Sym("*unassigned*")
    ensures Counts(Entered(r, x, thunks), r) && Lookup("x", INNERMOST, Entered(r, x, thunks).frames) == Ok(x)
  {
  }

  lemma {:induction false} StrictAdds(fuel: nat)
    ensures EvalSequence(Last(Plus(Var("x"), Var("x"))), INNERMOST, Entered(1.0, Num(1.0), []), fuel).0 == Ok(Num(2.0))
  {
    var st := Entered(1.0, Num(1.0), []);
    XIs(1.0, Num(1.0), []);
    assert ActualValue(Var("x"), INNERMOST, st, fuel) == (Ok(Num(1.0)), st);
    PlusAdds(Var("x"), Var("x"), INNERMOST, st, st, st, 1.0, 1.0, 1.0, fuel);
  }

  lemma {:induction false} LazyAdds(fuel: nat)
    requires fuel > 0
    ensures EvalSequence(Last(Plus(Var("x"), Var("x"))), INNERMOST,
              Entered(0.0, Obj(ThunkRef(0)), [Thunk(Increment(), INSIDE)]), fuel).0 == Ok(Num(3.0))
  {
    var x, cell: Cell := Obj(ThunkRef(0)), Thunk(Increment(), INSIDE);
    var st, st1, st2 := Entered(0.0, x, [cell]), Entered(1.0, x, [cell]), Entered(2.0, x, [cell]);
    XIs(0.0, x, [cell]);
    XIs(1.0, x, [cell]);
    Increments(st, 0.0, fuel - 1);
    Increments(st1, 1.0, fuel - 1);
    assert Counted(st, 1.0) == st1 && Counted(st1, 2.0) == st2;
    assert ActualValue(Var("x"), INNERMOST, st, fuel) == ForceIt(x, st, fuel) == (Ok(Num(1.0)), st1);
    assert ActualValue(Var("x"), INNERMOST, st1, fuel) == ForceIt(x, st1, fuel) == (Ok(Num(2.0)), st2);
    PlusAdds(Var("x"), Var("x"), INNERMOST, st, st1, st2, 0.0, 1.0, 2.0, fuel);
  }

  lemma {:induction false} MemoAdds(fuel: nat)
    requires fuel > 0
    ensures EvalSequence(Last(Plus(Var("x"), Var("x"))), INNERMOST,
              Entered(0.0, Obj(ThunkRef(0)), [MemoizedThunk(Increment(), INSIDE)]), fuel).0 == Ok(Num(2.0))
  {
    var x, cell: Cell, done: Cell := Obj(ThunkRef(0)), MemoizedThunk(Increment(), INSIDE), EvaluatedThunk(Num(1.0));
    var st, st1 := Entered(0.0, x, [cell]), Entered(1.0, x, [done]);
    XIs(0.0, x, [cell]);
    XIs(1.0, x, [done]);
    Increments(st, 0.0, fuel - 1);
    assert Counted(st, 1.0) == Entered(1.0, x, [cell]);
    assert [cell][0 := done] == [done];
    assert ActualValue(Var("x"), INNERMOST, st, fuel) == ForceIt(x, st, fuel) == (Ok(Num(1.0)), st1);
    assert ActualValue(Var("x"), INNERMOST, st1, fuel) == ForceIt(x, st1, fuel) == (Ok(Num(1.0)), st1);
    PlusAdds(Var("x"), Var("x"), INNERMOST, st, st1, st1, 0.0, 1.0, 1.0, fuel);
  }

  function Counter(): State { State([GlobalFrame(), Count(0.0)], []) }

  /** The operand, by the mode of the parameter. */
  lemma {:induction false} OperandOf(m: Mode, fuel: nat) returns (x: V, r: real, thunks: seq<Cell>)
    requires fuel > 1
    ensures ListOfProcedureArgs(Cons(Param("x", m), Nil), Cons(Increment(), Nil), INSIDE, Counter(), fuel)
            == (Ok(Cons(x, Nil)), State([GlobalFrame(), Count(r)], thunks))
    ensures EvalSequence(Last(Plus(Var("x"), Var("x"))), INNERMOST, Entered(r, x, thunks), fuel - 1).0
            == Ok(Num(if m.Lazy? then 3.0 else 2.0))
  {
    var st := Counter();
    match m {
      case Strict =>
        Increments(st, 0.0, fuel);
        StrictAdds(fuel - 1);
        x, r, thunks := Num(1.0), 1.0, [];
        assert Counted(st, 1.0).frames == [GlobalFrame(), Count(r)];
        assert ProcedureArg(m, Increment(), INSIDE, st, fuel) == (Ok(x), State([GlobalFrame(), Count(r)], thunks));
      case Lazy =>
        LazyAdds(fuel - 1);
        x, r, thunks := Obj(ThunkRef(0)), 0.0, [Thunk(Increment(), INSIDE)];
        assert st.thunks + thunks == thunks;
        assert ProcedureArg(m, Increment(), INSIDE, st, fuel) == (Ok(x), State([GlobalFrame(), Count(r)], thunks));
      case LazyMemo =>
        MemoAdds(fuel - 1);
        x, r, thunks := Obj(ThunkRef(0)), 0.0, [MemoizedThunk(Increment(), INSIDE)];
        assert st.thunks + thunks == thunks;
        assert ProcedureArg(m, Increment(), INSIDE, st, fuel) == (Ok(x), State([GlobalFrame(), Count(r)], thunks));
    }
    var st1 := State([GlobalFrame(), Count(r)], thunks);
    assert ListOfProcedureArgs(Nil, Nil, INSIDE, st1, fuel) == (Ok(Nil), st1);
  }

  lemma {:induction false} ZipOne<C>(x: Name, v: Value<C>)
    ensures Zip(Cons(x, Nil), Cons(v, Nil)) == Cons(Binding(x, v), Nil)
  {
    assert Zip<C>(Nil, Nil) == Nil;
  }

  lemma {:induction false} InnerCall(m: Mode, fuel: nat)
    requires fuel > 1
    ensures Eval(App(Double(m), Cons(Increment(), Nil)), INSIDE, Counter(), fuel).0
            == Ok(Num(if m.Lazy? then 3.0 else 2.0))
  {
    var st, ps, b := Counter(), Cons(Param("x", m), Nil), Last(Plus(Var("x"), Var("x")));
    var x, r, thunks := OperandOf(m, fuel);
    assert ActualValue(Double(m), INSIDE, st, fuel) == (Ok(Obj(Proc(ps, b, INSIDE))), st);
    assert StripParameters(ps) == Cons("x", Nil);
    var st1 := State([GlobalFrame(), Count(r)], thunks);
    var frames := Entered(r, x, thunks).frames;
    ZipOne("x", x);
    assert st1.frames + [Cons(Binding("x", x), Nil)] == frames;
    assert Length(Cons("x", Nil)) == 1 == Length(Cons(x, Nil));
    assert Extend(StripParameters(ps), Cons(x, Nil), st1.frames) == Ok(frames);
    assert Apply(Obj(Proc(ps, b, INSIDE)), Cons(Increment(), Nil), INSIDE, st, fuel)
        == EvalSequence(b, INNERMOST, Entered(r, x, thunks), fuel - 1);
  }

  /** A lazy operand is evaluated at each of its two uses, a lazy-memo one at the first. */
  lemma {:induction false} CountingTellsModes(m: Mode, fuel: nat)
    requires fuel > 2
    ensures P.Run(Counting(m), fuel) == Ok(Num(if m.Lazy? then 3.0 else 2.0))
  {
    var st := P.Load(Nil);
    var zero, ps := Self(DNum(0.0)), Cons(Param("count", Strict), Nil);
    var b := Last(App(Double(m), Cons(Increment(), Nil)));
    InnerCall(m, fuel - 1);
    assert ActualValue(zero, P.TOP, st, fuel) == (Ok(Num(0.0)), st);
    assert ListOfProcedureArgs(Nil, Nil, P.TOP, st, fuel) == (Ok(Nil), st);
    assert ListOfProcedureArgs(ps, Cons(zero, Nil), P.TOP, st, fuel) == (Ok(Cons(Num(0.0), Nil)), st);
    assert StripParameters(ps) == Cons("count", Nil);
    ZipOne<Object>("count", Num(0.0));
    assert st.frames + [Count(0.0)] == Counter().frames;
    assert ActualValue(Lambda(ps, b), P.TOP, st, fuel) == (Ok(Obj(Proc(ps, b, P.TOP))), st);
    assert Apply(Obj(Proc(ps, b, P.TOP)), Cons(zero, Nil), P.TOP, st, fuel)
        == EvalSequence(b, INSIDE, Counter(), fuel - 1) == Eval(b.exp, INSIDE, Counter(), fuel - 1);
    var answer := Num(if m.Lazy? then 3.0 else 2.0);
    assert Eval(Counting(m).main, P.TOP, st, fuel).0 == Ok(answer);
    assert ActualValue(Counting(m).main, P.TOP, st, fuel).0 == Ok(answer);
  }
}
