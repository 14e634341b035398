/** What the special forms and calls of the direct evaluator mean to a program. */
module EvaluationLaws {
  import opened Scheme
  import opened Syntax
  import opened Interp
  import L = SchemeLaws
  import E = EnvironmentLaws

  /** `if` takes the alternative exactly when its test is #f, and the consequent when it is any
      other value. */
  lemma {:induction false} IfMeaning(p: Exp, c: Exp, a: Exp, env: Env, st: St, v: V, st1: St, fuel: nat)
    requires Eval(p, env, st, fuel) == (Ok(v), st1)
    ensures v == Bool(false) ==> Eval(If(p, c, a), env, st, fuel) == Eval(a, env, st1, fuel)
    ensures v != Bool(false) ==> Eval(If(p, c, a), env, st, fuel) == Eval(c, env, st1, fuel)
  {
  }

  /** (car '(a . d)) is 'a and (cdr '(a . d)) is 'd, where car and cdr have not been redefined. */
  lemma {:induction false} QuotedParts(a: Datum, d: Datum, env: Env, st: St, fuel: nat)
    requires Lookup("car", env, st) == Ok(Primitive(Car)) && Lookup("cdr", env, st) == Ok(Primitive(Cdr))
    ensures var q := L.One(Quote(DPair(a, d)));
            && Eval(App(Var("car"), q), env, st, fuel) == Eval(Quote(a), env, st, fuel)
            && Eval(App(Var("cdr"), q), env, st, fuel) == Eval(Quote(d), env, st, fuel)
  {
    var v: V := FromDatum(DPair(a, d));
    L.QuotedPair<Proc>(a, d);
    OneValue(Quote(DPair(a, d)), v, env, st, st, fuel);
  }

  lemma {:induction false} OneValue(e: Exp, v: V, env: Env, st: St, st1: St, fuel: nat)
    requires Eval(e, env, st, fuel) == (Ok(v), st1)
    ensures ListOfValues(L.One(e), env, st, fuel) == (Ok(L.One(v)), st1)
  {
    assert ListOfValues(Nil, env, st1, fuel) == (Ok(Nil), st1);
  }

  /** After an assignment has answered, the name stands for the value of its right-hand side. */
  lemma {:induction false} AssignThenRead(x: Name, rhs: Exp, env: Env, st: St, fuel: nat)
    requires Eval(Assign(x, rhs), env, st, fuel).0.Ok?
    requires Eval(rhs, env, st, fuel).0 != Ok(Sym("*unassigned*"))
    ensures Eval(Var(x), env, Eval(Assign(x, rhs), env, st, fuel).1, fuel).0 == Eval(rhs, env, st, fuel).0
  {
    var (r, st1) := Eval(rhs, env, st, fuel);
    E.SetThenLookup(x, r.value, env, st1);
  }

  /** After a definition likewise. */
  lemma {:induction false} DefineThenRead(x: Name, rhs: Exp, env: Env, st: St, fuel: nat)
    requires env.Cons? && env.head < |Eval(rhs, env, st, fuel).1|
    requires Eval(rhs, env, st, fuel).0.Ok? && Eval(rhs, env, st, fuel).0 != Ok(Sym("*unassigned*"))
    ensures Eval(Var(x), env, Eval(Define(x, rhs), env, st, fuel).1, fuel).0 == Eval(rhs, env, st, fuel).0
  {
    var (r, st1) := Eval(rhs, env, st, fuel);
    E.DefineThenLookup(x, r.value, env, st1);
  }

  /** A call of a lambda expression whose operands have values runs its body where each parameter
      stands for its operand's value and every other name for what it stood for where the lambda
      expression was evaluated. */
  lemma {:induction false} CallMeaning(xs: List<Name>, b: Body, es: List<Exp>, env: Env, st: St, vs: List<V>, st1: St,
                                       fuel: nat)
    returns (inner: Env, st2: St)
    requires fuel > 0 && ListOfValues(es, env, st, fuel) == (Ok(vs), st1)
    requires Length(vs) == Length(xs) && ValidEnv(env, |st1|)
    ensures Eval(App(Lambda(xs, b), es), env, st, fuel) == EvalSequence(b, inner, st2, fuel - 1)
    ensures E.Binds(inner, st2, xs, vs, env, st1)
  {
    inner, st2 := Cons(|st1|, env), Extend(xs, vs, st1).value;
    E.ExtendBinds(xs, vs, env, st1);
    var p: V := Obj(Proc(xs, b, env));
    assert Eval(Lambda(xs, b), env, st, fuel) == (Ok(p), st);
    assert Apply(p, vs, st1, fuel) == EvalSequence(b, inner, st2, fuel - 1);
  }
}
