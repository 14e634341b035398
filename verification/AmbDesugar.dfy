/** The rewritings of `let`, `let*` and `cond` keep the meaning the reference semantics gives them. */
module AmbDesugar {
  import opened Scheme
  import opened AmbSyntax
  import opened AmbReference

  lemma {:induction false} BindSame<S, T>(p: Outcome<S>, k: S -> Outcome<T>, k': S -> Outcome<T>)
    requires forall x :: k(x) == k'(x)
    ensures Bind(p, k) == Bind(p, k')
    decreases p.answers
  {
    if p.answers.Cons? { BindSame(Outcome(p.answers.tail, p.end), k, k'); }
  }

  lemma {:induction false} LetMeaning(bs: Inits, b: Body, env: Env, st: St, fuel: nat)
    ensures Solve(LetToCombination(bs, b), env, st, fuel) == Solve(Let(bs, b), env, st, fuel)
  {
    var f := Lambda(InitNames(bs), b);
    var p := Obj(Proc(InitNames(bs), b, env));
    BindOne((p, st), Operating(InitExps(bs), env, fuel));
    assert Solve(f, env, st, fuel) == One((p, st));
    forall r: Answers
      ensures Applying(p, fuel)(r) == Entering(InitNames(bs), b, env, fuel)(r)
    {
      assert ApplyTo(p, r.0, r.1, fuel) == Enter(InitNames(bs), r.0, b, env, r.1, fuel);
    }
    BindSame(SolveAll(InitExps(bs), env, st, fuel), Applying(p, fuel), Entering(InitNames(bs), b, env, fuel));
  }

  lemma {:induction false} SequenceMeaning(b: Body, env: Env, st: St, fuel: nat)
    ensures Solve(SequenceToExp(b), env, st, fuel) == SolveSequence(b, env, st, fuel)
  {
  }

  lemma {:induction false} CondMeaning(cs: Clauses, env: Env, st: St, fuel: nat)
    ensures Solve(CondToIf(cs), env, st, fuel) == SolveCond(cs, env, st, fuel)
    decreases cs
  {
    match cs
    case NoClause =>
    case Else(b) => SequenceMeaning(b, env, st, fuel);
    case Clause(p, b, rest) =>
      var k := Choosing(SequenceToExp(b), CondToIf(rest), env, fuel);
      forall r: Answer
        ensures k(r) == Clausing(b, rest, env, fuel)(r)
      {
        SequenceMeaning(b, env, r.1, fuel);
        CondMeaning(rest, env, r.1, fuel);
      }
      BindSame(Solve(p, env, st, fuel), k, Clausing(b, rest, env, fuel));
  }

  /** One init: a let of one binding. */
  lemma {:induction false} LetOne(x: Name, e: Exp, b: Body, env: Env, st: St, fuel: nat)
    ensures Solve(Let(Init(x, e, NoInit), b), env, st, fuel) ==
            Bind(Solve(e, env, st, fuel), Then(LetOneK(env, fuel), Entering(Cons(x, Nil), b, env, fuel)))
  {
    var es := Cons(e, Nil);
    assert InitExps(Init(x, e, NoInit)) == es && InitNames(Init(x, e, NoInit)) == Cons(x, Nil);
    forall r: Answer
      ensures Collecting(Nil, env, fuel)(r) == LetOneK(env, fuel)(r)
    {
      BindOne((Nil, r.1), Prefixing(r.0));
    }
    BindSame(Solve(e, env, st, fuel), Collecting(Nil, env, fuel), LetOneK(env, fuel));
    BindBind(Solve(e, env, st, fuel), LetOneK(env, fuel), Entering(Cons(x, Nil), b, env, fuel));
  }

  function LetOneK(env: Env, fuel: nat): Answer -> Outcome<Answers> {
    (r: Answer) => One((Cons(r.0, Nil), r.1))
  }

  /** Nested lets bind from left to right, and run the first expression of the body only. */
  lemma {:induction false} LetStarMeaning(bs: Inits, b: Body, env: Env, st: St, fuel: nat)
    ensures Solve(LetStarToLets(bs, b), env, st, fuel) == SolveLetStar(bs, Last(b.exp), env, st, fuel)
    decreases bs
  {
    match bs
    case NoInit =>
    case Init(x, e, rest) =>
      var inner := LetStarToLets(rest, b);
      LetOne(x, e, Last(inner), env, st, fuel);
      var k := Then(LetOneK(env, fuel), Entering(Cons(x, Nil), Last(inner), env, fuel));
      forall r: Answer
        ensures k(r) == BindingNext(x, rest, Last(b.exp), env, fuel)(r)
      {
        BindOne((Cons(r.0, Nil), r.1), Entering(Cons(x, Nil), Last(inner), env, fuel));
        assert k(r) == Enter(Cons(x, Nil), Cons(r.0, Nil), Last(inner), env, r.1, fuel);
        if fuel > 0 {
          var xs: List<Name>, vs: List<V> := Cons(x, Nil), Cons(r.0, Nil);
          assert Length(xs.tail) == 0 && Length(vs.tail) == 0;
          assert Zip(xs, vs) == Cons(Binding(x, r.0), Zip(xs.tail, vs.tail));
          var st' := r.1 + [Cons(Binding(x, r.0), Nil)];
          assert Extend(xs, vs, r.1) == Ok(st');
          LetStarMeaning(rest, b, Cons(|r.1|, env), st', fuel - 1);
          assert SolveSequence(Last(inner), Cons(|r.1|, env), st', fuel - 1) ==
                 Solve(inner, Cons(|r.1|, env), st', fuel - 1);
        }
      }
      BindSame(Solve(e, env, st, fuel), k, BindingNext(x, rest, Last(b.exp), env, fuel));
  }

  /** A let* whose body has a second expression is answered with the value of the first one. */
  lemma {:induction false} LetStarDropsRestOfBody(st: St, env: Env, fuel: nat)
    ensures var b := More(Self(DNum(1.0)), Last(Self(DNum(2.0))));
            && Solve(LetStarToLets(NoInit, b), env, st, fuel) == One((Num(1.0), st))
            && Solve(LetStar(NoInit, b), env, st, fuel) == One((Num(2.0), st))
  {
    var b := More(Self(DNum(1.0)), Last(Self(DNum(2.0))));
    var one: Answer := (Num(1.0), st);
    assert Solve(b.exp, env, st, fuel) == One(one);
    assert Solve(LetStar(NoInit, b), env, st, fuel) == SolveLetStar(NoInit, b, env, st, fuel) ==
           SolveSequence(b, env, st, fuel);
    BindOne(one, Continuing(b.rest, env, fuel));
    assert SolveSequence(b.rest, env, st, fuel) == Solve(Self(DNum(2.0)), env, st, fuel);
  }

  // ----- rewriting keeps programs plain -----

  lemma {:induction false} PlainInitExps(bs: Inits)
    requires PlainInits(bs)
    ensures PlainList(InitExps(bs))
  {
    if bs.Init? { PlainInitExps(bs.rest); }
  }

  lemma {:induction false} PlainLetStar(bs: Inits, b: Body)
    requires PlainInits(bs) && PlainBody(b)
    ensures Plain(LetStarToLets(bs, b))
  {
    if bs.Init? { PlainLetStar(bs.rest, b); }
  }

  lemma {:induction false} PlainCond(cs: Clauses)
    requires PlainClauses(cs)
    ensures Plain(CondToIf(cs))
  {
    if cs.Clause? { PlainCond(cs.rest); }
  }
}
