/** What a backtracking program means: the list of its successes, left to right and depth
    first. Every branch of a choice starts from the same store value, so nothing is ever
    undone, and there are no continuations. Special forms are given their own meaning
    rather than being rewritten. */
module AmbReference {
  import opened Scheme
  import opened AmbSyntax

  /** How the answers end. `Timeout` says only that the fuel ran out before the next one. */
  datatype End = NoMore | Stopped(error: Error) | OutOfFuel
  datatype Outcome<+T> = Outcome(answers: List<T>, end: End)

  function Stop<T>(e: Error): Outcome<T> { Outcome(Nil, Stopped(e)) }

  /** The answers of p, then those of q if p ran to its end. */
  function Append<T>(p: Outcome<T>, q: Outcome<T>): Outcome<T> {
    if p.end.NoMore? then Outcome(Concat(p.answers, q.answers), q.end) else p
  }

  /** The answers of k for each answer of p in turn. */
  function Bind<S, T>(p: Outcome<S>, k: S -> Outcome<T>): Outcome<T>
    decreases p.answers
  {
    match p.answers
    case Nil => Outcome(Nil, p.end)
    case Cons(x, t) => Append(k(x), Bind(Outcome(t, p.end), k))
  }

  function Then<R, S, T>(k: R -> Outcome<S>, d: S -> Outcome<T>): R -> Outcome<T> {
    x => Bind(k(x), d)
  }

  datatype Proc = Proc(params: List<Name>, body: Body, env: Env)
  type V = Value<Proc>
  type St = Store<Proc>
  type Answer = (V, St)
  type Answers = (List<V>, St)

  function One<T>(x: T): Outcome<T> { Outcome(Cons(x, Nil), NoMore) }

  function Solve(e: Exp, env: Env, st: St, fuel: nat): Outcome<Answer>
    decreases fuel, Size(e), 2
  {
    match e
    case Self(d) => One((FromDatum(d), st))
    case Var(x) => Reading(x, env, st)
    case Quote(d) => One((FromDatum(d), st))
    case Assign(x, rhs) => Bind(Solve(rhs, env, st, fuel), Assigning(x, env))
    case Define(x, rhs) => Bind(Solve(rhs, env, st, fuel), Defining(x, env))
    case Amb(es) => SolveAny(es, env, st, fuel)
    case If(p, c, a) => Bind(Solve(p, env, st, fuel), Choosing(c, a, env, fuel))
    case Let(bs, b) => Bind(SolveAll(InitExps(bs), env, st, fuel), Entering(InitNames(bs), b, env, fuel))
    case LetStar(bs, b) => SolveLetStar(bs, b, env, st, fuel)
    case Lambda(ps, b) => One((Obj(Proc(ps, b, env)), st))
    case Begin(b) => SolveSequence(b, env, st, fuel)
    case Cond(cs) => SolveCond(cs, env, st, fuel)
    case App(f, es) => Bind(Solve(f, env, st, fuel), Operating(es, env, fuel))
  }

  function Reading(x: Name, env: Env, st: St): Outcome<Answer> {
    match Lookup(x, env, st)
    case Ok(v) => One((v, st))
    case Err(e) => Stop(e)
    case Timeout => Outcome(Nil, OutOfFuel)
  }

  /** The old value is read first, so assigning an unbound variable reports a read. */
  function Assigned(x: Name, env: Env, v: V, st: St): Outcome<Answer> {
    match Lookup(x, env, st)
    case Err(e) => Stop(e)
    case Timeout => Outcome(Nil, OutOfFuel)
    case Ok(_) =>
      match SetVariable(x, v, env, st)
      case Ok(st') => One((Sym("ok"), st'))
      case Err(e) => Stop(e)
      case Timeout => Outcome(Nil, OutOfFuel)
  }

  function Assigning(x: Name, env: Env): Answer -> Outcome<Answer> {
    (r: Answer) => Assigned(x, env, r.0, r.1)
  }

  function Defining(x: Name, env: Env): Answer -> Outcome<Answer> {
    (r: Answer) => One((Sym("ok"), DefineVariable(x, r.0, env, r.1)))
  }

  /** Every choice starts from the store the amb expression started from. */
  function SolveAny(es: List<Exp>, env: Env, st: St, fuel: nat): Outcome<Answer>
    decreases fuel, ListSize(es), 0
  {
    match es
    case Nil => Outcome(Nil, NoMore)
    case Cons(e, rest) => Append(Solve(e, env, st, fuel), SolveAny(rest, env, st, fuel))
  }

  function Choosing(c: Exp, a: Exp, env: Env, fuel: nat): Answer -> Outcome<Answer>
    decreases fuel, Size(c) + Size(a), 3
  {
    (r: Answer) => Solve(if True(r.0) then c else a, env, r.1, fuel)
  }

  /** The body of a let sees all the new bindings at once, and the inits none of them. */
  function Entering(xs: List<Name>, b: Body, env: Env, fuel: nat): Answers -> Outcome<Answer>
    decreases fuel, 0, 2
  {
    (r: Answers) => Enter(xs, r.0, b, env, r.1, fuel)
  }

  function Enter(xs: List<Name>, vs: List<V>, b: Body, env: Env, st: St, fuel: nat): Outcome<Answer>
    decreases fuel, 0, 0
  {
    if fuel == 0 then Outcome(Nil, OutOfFuel) else
      match Extend(xs, vs, st)
      case Ok(st') => SolveSequence(b, Cons(|st|, env), st', fuel - 1)
      case Err(e) => Stop(e)
      case Timeout => Outcome(Nil, OutOfFuel)
  }

  /** Each init of a let* sees the bindings before it. */
  function SolveLetStar(bs: Inits, b: Body, env: Env, st: St, fuel: nat): Outcome<Answer>
    decreases fuel, 2 * InitsSize(bs) + BodySize(b), 1
  {
    match bs
    case NoInit => SolveSequence(b, env, st, fuel)
    case Init(x, e, rest) => Bind(Solve(e, env, st, fuel), BindingNext(x, rest, b, env, fuel))
  }

  function BindingNext(x: Name, rest: Inits, b: Body, env: Env, fuel: nat): Answer -> Outcome<Answer>
    decreases fuel, 0, 2
  {
    (r: Answer) =>
      if fuel == 0 then Outcome(Nil, OutOfFuel)
      else SolveLetStar(rest, b, Cons(|r.1|, env), r.1 + [Cons(Binding(x, r.0), Nil)], fuel - 1)
  }

  function SolveSequence(b: Body, env: Env, st: St, fuel: nat): Outcome<Answer>
    decreases fuel, BodySize(b), 0
  {
    match b
    case Last(e) => Solve(e, env, st, fuel)
    case More(e, rest) => Bind(Solve(e, env, st, fuel), Continuing(rest, env, fuel))
  }

  function Continuing(rest: Body, env: Env, fuel: nat): Answer -> Outcome<Answer>
    decreases fuel, BodySize(rest), 1
  {
    (r: Answer) => SolveSequence(rest, env, r.1, fuel)
  }

  /** The first clause whose test is true; without one, the value of the variable false. */
  function SolveCond(cs: Clauses, env: Env, st: St, fuel: nat): Outcome<Answer>
    decreases fuel, ClausesSize(cs), 0
  {
    match cs
    case NoClause => Reading("false", env, st)
    case Else(b) => SolveSequence(b, env, st, fuel)
    case Clause(p, b, rest) => Bind(Solve(p, env, st, fuel), Clausing(b, rest, env, fuel))
  }

  function Clausing(b: Body, rest: Clauses, env: Env, fuel: nat): Answer -> Outcome<Answer>
    decreases fuel, BodySize(b) + ClausesSize(rest), 1
  {
    (r: Answer) => if True(r.0) then SolveSequence(b, env, r.1, fuel) else SolveCond(rest, env, r.1, fuel)
  }

  function SolveAll(es: List<Exp>, env: Env, st: St, fuel: nat): Outcome<Answers>
    decreases fuel, ListSize(es), 0
  {
    match es
    case Nil => One((Nil, st))
    case Cons(e, rest) => Bind(Solve(e, env, st, fuel), Collecting(rest, env, fuel))
  }

  function Collecting(rest: List<Exp>, env: Env, fuel: nat): Answer -> Outcome<Answers>
    decreases fuel, ListSize(rest), 1
  {
    (r: Answer) => Bind(SolveAll(rest, env, r.1, fuel), Prefixing(r.0))
  }

  function Prefixing(v: V): Answers -> Outcome<Answers> {
    (r: Answers) => One((Cons(v, r.0), r.1))
  }

  function Operating(es: List<Exp>, env: Env, fuel: nat): Answer -> Outcome<Answer>
    decreases fuel, ListSize(es), 3
  {
    (r: Answer) => Bind(SolveAll(es, env, r.1, fuel), Applying(r.0, fuel))
  }

  function Applying(p: V, fuel: nat): Answers -> Outcome<Answer>
    decreases fuel, 0, 2
  {
    (r: Answers) => ApplyTo(p, r.0, r.1, fuel)
  }

  function ApplyTo(p: V, args: List<V>, st: St, fuel: nat): Outcome<Answer>
    decreases fuel, 0, 1
  {
    match p
    case Primitive(op) =>
      (match ApplyPrimitive(op, args)
       case Ok(v) => One((v, st))
       case Err(e) => Stop(e)
       case Timeout => Outcome(Nil, OutOfFuel))
    case Obj(Proc(ps, b, env)) => Enter(ps, args, b, env, st, fuel)
    case _ => Stop(UnknownProcedure)
  }

  // ----- laws -----

  lemma {:induction false} ConcatAssoc<T>(xs: List<T>, ys: List<T>, zs: List<T>)
    ensures Concat(Concat(xs, ys), zs) == Concat(xs, Concat(ys, zs))
  {
    if xs.Cons? { ConcatAssoc(xs.tail, ys, zs); }
  }

  lemma {:induction false} ConcatNil<T>(xs: List<T>)
    ensures Concat(xs, Nil) == xs
  {
    if xs.Cons? { ConcatNil(xs.tail); }
  }

  lemma {:induction false} AppendAssoc<T>(p: Outcome<T>, q: Outcome<T>, r: Outcome<T>)
    ensures Append(Append(p, q), r) == Append(p, Append(q, r))
  {
    ConcatAssoc(p.answers, q.answers, r.answers);
  }

  lemma {:induction false} BindAppend<S, T>(p: Outcome<S>, q: Outcome<S>, k: S -> Outcome<T>)
    ensures Bind(Append(p, q), k) == Append(Bind(p, k), Bind(q, k))
    decreases p.answers
  {
    match p.answers
    case Nil =>
    case Cons(x, t) =>
      var p' := Outcome(t, p.end);
      BindAppend(p', q, k);
      AppendAssoc(k(x), Bind(p', k), Bind(q, k));
      if p.end.NoMore? {
        assert Outcome(Append(p, q).answers.tail, Append(p, q).end) == Append(p', q);
      }
  }

  lemma {:induction false} BindBind<R, S, T>(p: Outcome<R>, k: R -> Outcome<S>, d: S -> Outcome<T>)
    ensures Bind(Bind(p, k), d) == Bind(p, Then(k, d))
    decreases p.answers
  {
    match p.answers
    case Nil =>
    case Cons(x, t) =>
      var p' := Outcome(t, p.end);
      BindBind(p', k, d);
      BindAppend(k(x), Bind(p', k), d);
  }

  lemma {:induction false} BindOne<S, T>(x: S, k: S -> Outcome<T>)
    ensures Bind(One(x), k) == k(x)
  {
    ConcatNil(k(x).answers);
    assert Bind(Outcome(Nil, NoMore), k) == Outcome(Nil, NoMore);
  }
}
