/** The evaluator with lazy parameters extends the direct evaluator: a program all of whose
    parameters are strict is evaluated as if the other evaluator had been given it. Only calls
    that cannot be made are told apart, because they are found out before the operands are all
    evaluated. */
module StrictPrograms {
  import opened Scheme
  import opened Syntax
  import I = Interp
  import L = LazyInterp
  import T = LazySyntax

  function Strictly(xs: List<Name>): List<T.Param> {
    match xs
    case Nil => Nil
    case Cons(x, t) => Cons(T.Param(x, T.Strict), Strictly(t))
  }

  function Embed(e: Exp): T.Exp {
    match e
    case Self(d) => T.Self(d)
    case Var(x) => T.Var(x)
    case Quote(d) => T.Quote(d)
    case Assign(x, r) => T.Assign(x, Embed(r))
    case Define(x, r) => T.Define(x, Embed(r))
    case If(p, c, a) => T.If(Embed(p), Embed(c), Embed(a))
    case Lambda(xs, b) => T.Lambda(Strictly(xs), EmbedBody(b))
    case Begin(b) => T.Begin(EmbedBody(b))
    case Cond(cs) => T.Cond(EmbedClauses(cs))
    case App(f, es) => T.App(Embed(f), EmbedList(es))
  }

  function EmbedBody(b: Body): T.Body {
    match b
    case Last(e) => T.Last(Embed(e))
    case More(e, r) => T.More(Embed(e), EmbedBody(r))
  }

  function EmbedClauses(cs: Clauses): T.Clauses {
    match cs
    case NoClause => T.NoClause
    case Else(b) => T.Else(EmbedBody(b))
    case Clause(p, b, r) => T.Clause(Embed(p), EmbedBody(b), EmbedClauses(r))
  }

  function EmbedList(es: List<Exp>): List<T.Exp> {
    match es
    case Nil => Nil
    case Cons(e, t) => Cons(Embed(e), EmbedList(t))
  }

  function EmbedProc(p: I.Proc): L.Object { L.Proc(Strictly(p.params), EmbedBody(p.body), p.env) }

  /** The same frames, and no thunk. */
  function EmbedState(st: I.St): L.State { L.State(MapStore(EmbedProc, st), []) }

  predicate CannotCall<T>(r: Result<T>) { r == Err(BadArguments) || r == Err(UnknownProcedure) }

  /** The same answer, error or lack of fuel and the same store; or no answer on either side. */
  ghost predicate Agree(rl: (Result<L.V>, L.State), ri: (Result<I.V>, I.St)) {
    rl == (MapResult(EmbedProc, ri.0), EmbedState(ri.1)) || (CannotCall(rl.0) && !ri.0.Ok?)
  }

  ghost predicate AgreeAll(rl: (Result<List<L.V>>, L.State), ri: (Result<List<I.V>>, I.St)) {
    rl == (MapListResult(EmbedProc, ri.0), EmbedState(ri.1)) || (CannotCall(rl.0) && !ri.0.Ok?)
  }

  lemma {:induction false} EmbedCond(cs: Clauses)
    ensures Embed(CondToIf(cs)) == T.CondToIf(EmbedClauses(cs))
  {
    if cs.Clause? { EmbedCond(cs.rest); }
  }

  lemma {:induction false} StripStrictly(xs: List<Name>)
    ensures T.StripParameters(Strictly(xs)) == xs
  {
    if xs.Cons? { StripStrictly(xs.tail); }
  }

  lemma {:induction false} ValuesLength(es: List<Exp>, env: Env, st: I.St, fuel: nat)
    requires I.ListOfValues(es, env, st, fuel).0.Ok?
    ensures Length(I.ListOfValues(es, env, st, fuel).0.value) == Length(es)
  {
    if es.Cons? { ValuesLength(es.tail, env, I.Eval(es.head, env, st, fuel).1, fuel); }
  }

  lemma {:induction false} StrictAgrees(e: Exp, env: Env, st: I.St, fuel: nat)
    ensures Agree(L.Eval(Embed(e), env, EmbedState(st), fuel), I.Eval(e, env, st, fuel))
    decreases fuel, Size(e), 0
  {
    match e
    case Self(d) => MapFromDatum(EmbedProc, d);
    case Var(x) => MapLookup(EmbedProc, x, env, st);
    case Quote(d) => MapFromDatum(EmbedProc, d);
    case Assign(x, rhs) =>
      StrictAgrees(rhs, env, st, fuel);
      var (r, st1) := I.Eval(rhs, env, st, fuel);
      if r.Ok? { MapSetVariable(EmbedProc, x, r.value, env, st1); }
    case Define(x, rhs) =>
      StrictAgrees(rhs, env, st, fuel);
      var (r, st1) := I.Eval(rhs, env, st, fuel);
      if r.Ok? { MapDefineVariable(EmbedProc, x, r.value, env, st1); }
    case If(p, c, a) =>
      ValueAgrees(p, env, st, fuel);
      var (r, st1) := I.Eval(p, env, st, fuel);
      if r.Ok? { StrictAgrees(if True(r.value) then c else a, env, st1, fuel); }
    case Lambda(xs, b) =>
    case Begin(b) => BodyAgrees(b, env, st, fuel);
    case Cond(cs) =>
      EmbedCond(cs);
      StrictAgrees(CondToIf(cs), env, st, fuel);
    case App(f, es) => AppAgrees(f, es, env, st, fuel);
  }

  lemma {:induction false} AppAgrees(f: Exp, es: List<Exp>, env: Env, st: I.St, fuel: nat)
    ensures Agree(L.Eval(T.App(Embed(f), EmbedList(es)), env, EmbedState(st), fuel), I.Eval(App(f, es), env, st, fuel))
    decreases fuel, Size(f) + ListSize(es), 3
  {
    ValueAgrees(f, env, st, fuel);
    var (r, st1) := I.Eval(f, env, st, fuel);
    if r.Ok? { CallAgrees(r.value, es, env, st1, fuel); }
  }

  /** There is nothing to force. */
  lemma {:induction false} ValueAgrees(e: Exp, env: Env, st: I.St, fuel: nat)
    ensures Agree(L.ActualValue(Embed(e), env, EmbedState(st), fuel), I.Eval(e, env, st, fuel))
    decreases fuel, Size(e), 1
  {
    StrictAgrees(e, env, st, fuel);
  }

  lemma {:induction false} BodyAgrees(b: Body, env: Env, st: I.St, fuel: nat)
    ensures Agree(L.EvalSequence(EmbedBody(b), env, EmbedState(st), fuel), I.EvalSequence(b, env, st, fuel))
    decreases fuel, BodySize(b), 0
  {
    StrictAgrees(b.exp, env, st, fuel);
    if b.More? {
      var (r, st1) := I.Eval(b.exp, env, st, fuel);
      if r.Ok? { BodyAgrees(b.rest, env, st1, fuel); }
    }
  }

  lemma {:induction false} CallAgrees(p: I.V, es: List<Exp>, env: Env, st: I.St, fuel: nat)
    ensures Agree(L.Apply(MapValue(EmbedProc, p), EmbedList(es), env, EmbedState(st), fuel),
              I.Call(p, es, env, st, fuel))
    decreases fuel, ListSize(es), 2
  {
    match p
    case Primitive(op) =>
      ArgValuesAgree(es, env, st, fuel);
      var (rs, st1) := I.ListOfValues(es, env, st, fuel);
      if rs.Ok? { MapPrimitive(EmbedProc, op, rs.value); }
    case Obj(q) =>
      ArgsAgree(q.params, es, env, st, fuel);
      var (rs, st1) := I.ListOfValues(es, env, st, fuel);
      if rs.Ok? {
        ValuesLength(es, env, st, fuel);
        StripStrictly(q.params);
        MapExtend(EmbedProc, q.params, rs.value, st1);
        if fuel > 0 && Length(q.params) == Length(rs.value) {
          BodyAgrees(q.body, Cons(|st1|, q.env), st1 + [Zip(q.params, rs.value)], fuel - 1);
        }
      }
    case _ =>
  }

  lemma {:induction false} ArgValuesAgree(es: List<Exp>, env: Env, st: I.St, fuel: nat)
    ensures AgreeAll(L.ListOfArgValues(EmbedList(es), env, EmbedState(st), fuel), I.ListOfValues(es, env, st, fuel))
    decreases fuel, ListSize(es), 0
  {
    if es.Cons? {
      ValueAgrees(es.head, env, st, fuel);
      var (r, st1) := I.Eval(es.head, env, st, fuel);
      if r.Ok? { ArgValuesAgree(es.tail, env, st1, fuel); }
    }
  }

  /** With more operands than parameters the call is given up at the first operand too many. */
  lemma {:induction false} ArgsAgree(xs: List<Name>, es: List<Exp>, env: Env, st: I.St, fuel: nat)
    ensures var rl := L.ListOfProcedureArgs(Strictly(xs), EmbedList(es), env, EmbedState(st), fuel);
            var ri := I.ListOfValues(es, env, st, fuel);
            if rl.0.Ok? then Length(es) <= Length(xs) && AgreeAll(rl, ri)
            else AgreeAll(rl, ri) || (CannotCall(rl.0) && Length(xs) < Length(es))
    decreases fuel, ListSize(es), 0
  {
    if es.Cons? && xs.Cons? {
      ValueAgrees(es.head, env, st, fuel);
      var (r, st1) := I.Eval(es.head, env, st, fuel);
      if r.Ok? { ArgsAgree(xs.tail, es.tail, env, st1, fuel); }
    }
  }

  /** What the direct evaluator answers, the other one answers, with the same store; and whatever
      the other one does, unless it meets a call that cannot be made, the direct evaluator does. */
  lemma {:induction false} StrictIsDirect(e: Exp, env: Env, st: I.St, fuel: nat)
    ensures var rl := L.ActualValue(Embed(e), env, EmbedState(st), fuel);
            var ri := I.Eval(e, env, st, fuel);
            ri.0.Ok? || !CannotCall(rl.0) ==> rl == (MapResult(EmbedProc, ri.0), EmbedState(ri.1))
  {
    ValueAgrees(e, env, st, fuel);
  }
}
