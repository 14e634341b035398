/** A program without amb has exactly one success in the backtracking evaluator, the answer of the
    direct evaluator, or stops at its error. */
module AmbFree {
  import opened AmbReference
  import opened Scheme
  import opened Syntax
  import A = Amb
  import C = AmbCorrect
  import I = Interp
  import T = AmbSyntax

  function Embed(e: Exp): T.Exp {
    match e
    case Self(d) => T.Self(d)
    case Var(x) => T.Var(x)
    case Quote(d) => T.Quote(d)
    case Assign(x, r) => T.Assign(x, Embed(r))
    case Define(x, r) => T.Define(x, Embed(r))
    case If(p, c, a) => T.If(Embed(p), Embed(c), Embed(a))
    case Lambda(xs, b) => T.Lambda(xs, EmbedBody(b))
    case Begin(b) => T.Begin(EmbedBody(b))
    case Cond(cs) => T.Cond(EmbedClauses(cs))
    case App(f, es) => T.App(Embed(f), EmbedList(es))
  }

  function EmbedBody(b: Body): T.Body {
    match b
    case Last(e) => T.Last(Embed(e))
    case More(e, r) => T.More(Embed(e), EmbedBody(r))
  }

  function EmbedClauses(cs: Clauses): T.Clauses {
    match cs
    case NoClause => T.NoClause
    case Else(b) => T.Else(EmbedBody(b))
    case Clause(p, b, r) => T.Clause(Embed(p), EmbedBody(b), EmbedClauses(r))
  }

  function EmbedList(es: List<Exp>): List<T.Exp> {
    match es
    case Nil => Nil
    case Cons(e, t) => Cons(Embed(e), EmbedList(t))
  }

  function EmbedProc(p: I.Proc): Proc { Proc(p.params, EmbedBody(p.body), p.env) }

  function EmbedStore(st: I.St): St { MapStore(EmbedProc, st) }

  /** One success, or none and the error. */
  function Only(ri: (Result<I.V>, I.St)): Outcome<Answer> {
    match ri.0
    case Ok(v) => One((MapValue(EmbedProc, v), EmbedStore(ri.1)))
    case Err(e) => Stop(e)
    case Timeout => Outcome(Nil, OutOfFuel)
  }

  function OnlyList(ri: (Result<List<I.V>>, I.St)): Outcome<Answers> {
    match ri.0
    case Ok(vs) => One((MapValues(EmbedProc, vs), EmbedStore(ri.1)))
    case Err(e) => Stop(e)
    case Timeout => Outcome(Nil, OutOfFuel)
  }

  /** An assignment reads the variable first: where it is unbound the error is that of reading,
      and where it is marked as unassigned, which the direct evaluator overwrites, the program stops. */
  predicate StopsReading<S, T>(o: Outcome<S>, r: Result<T>) {
    && o.answers.Nil? && o.end.Stopped?
    && (o.end.error.UnassignedVariable? || (o.end.error.UnboundVariable? && r == Err(UnboundSet(o.end.error.name))))
  }

  ghost predicate Agree(o: Outcome<Answer>, ri: (Result<I.V>, I.St)) {
    o == Only(ri) || StopsReading(o, ri.0)
  }

  ghost predicate AgreeAll(o: Outcome<Answers>, ri: (Result<List<I.V>>, I.St)) {
    o == OnlyList(ri) || StopsReading(o, ri.0)
  }

  lemma {:induction false} ReadThenSet<C>(x: Name, v: Value<C>, env: Env, st: Store<C>)
    ensures Lookup(x, env, st).Ok? ==> SetVariable(x, v, env, st).Ok?
    ensures match Lookup(x, env, st)
            case Err(UnboundVariable(y)) => y == x && SetVariable(x, v, env, st) == Err(UnboundSet(x))
            case Err(e) => e.UnassignedVariable?
            case _ => true
  {
    if env.Cons? { ReadThenSet(x, v, env.tail, st); }
  }

  /** The answer of k for the one success, or the same end. */
  lemma {:induction false} BindOnly<T>(ri: (Result<I.V>, I.St), o: Outcome<Answer>, k: Answer -> Outcome<T>)
    requires Agree(o, ri)
    ensures if o == Only(ri) && ri.0.Ok? then Bind(o, k) == k((MapValue(EmbedProc, ri.0.value), EmbedStore(ri.1)))
            else o.answers.Nil? && Bind(o, k) == Outcome(Nil, o.end)
  {
    if o == Only(ri) && ri.0.Ok? { BindOne((MapValue(EmbedProc, ri.0.value), EmbedStore(ri.1)), k); }
  }

  lemma {:induction false} BindOnlyList<T>(ri: (Result<List<I.V>>, I.St), o: Outcome<Answers>, k: Answers -> Outcome<T>)
    requires AgreeAll(o, ri)
    ensures if o == OnlyList(ri) && ri.0.Ok? then Bind(o, k) == k((MapValues(EmbedProc, ri.0.value), EmbedStore(ri.1)))
            else o.answers.Nil? && Bind(o, k) == Outcome(Nil, o.end)
  {
    if o == OnlyList(ri) && ri.0.Ok? { BindOne((MapValues(EmbedProc, ri.0.value), EmbedStore(ri.1)), k); }
  }

  lemma {:induction false} SolveAgrees(e: Exp, env: Env, st: I.St, fuel: nat)
    ensures Agree(Solve(Embed(e), env, EmbedStore(st), fuel), I.Eval(e, env, st, fuel))
    decreases fuel, Size(e), 2
  {
    match e
    case Self(d) => MapFromDatum(EmbedProc, d);
    case Var(x) => MapLookup(EmbedProc, x, env, st);
    case Quote(d) => MapFromDatum(EmbedProc, d);
    case Assign(x, rhs) => AssignAgrees(x, rhs, env, st, fuel);
    case Define(x, rhs) =>
      SolveAgrees(rhs, env, st, fuel);
      var ri := I.Eval(rhs, env, st, fuel);
      BindOnly(ri, Solve(Embed(rhs), env, EmbedStore(st), fuel), Defining(x, env));
      if ri.0.Ok? { MapDefineVariable(EmbedProc, x, ri.0.value, env, ri.1); }
    case If(p, c, a) => IfAgrees(p, c, a, env, st, fuel);
    case Lambda(xs, b) =>
    case Begin(b) => SequenceAgrees(b, env, st, fuel);
    case Cond(cs) =>
      ClausesAgree(cs, env, st, fuel);
      I.CondTakesFirstTrue(cs, env, st, fuel);
    case App(f, es) => AppAgrees(f, es, env, st, fuel);
  }

  lemma {:induction false} IfAgrees(p: Exp, c: Exp, a: Exp, env: Env, st: I.St, fuel: nat)
    ensures Agree(Solve(T.If(Embed(p), Embed(c), Embed(a)), env, EmbedStore(st), fuel),
              I.Eval(If(p, c, a), env, st, fuel))
    decreases fuel, Size(p) + Size(c) + Size(a), 3
  {
    SolveAgrees(p, env, st, fuel);
    var ri := I.Eval(p, env, st, fuel);
    BindOnly(ri, Solve(Embed(p), env, EmbedStore(st), fuel), Choosing(Embed(c), Embed(a), env, fuel));
    if ri.0.Ok? { SolveAgrees(if True(ri.0.value) then c else a, env, ri.1, fuel); }
  }

  lemma {:induction false} AppAgrees(f: Exp, es: List<Exp>, env: Env, st: I.St, fuel: nat)
    ensures Agree(Solve(T.App(Embed(f), EmbedList(es)), env, EmbedStore(st), fuel), I.Eval(App(f, es), env, st, fuel))
    decreases fuel, Size(f) + ListSize(es), 3
  {
    SolveAgrees(f, env, st, fuel);
    var ri := I.Eval(f, env, st, fuel);
    BindOnly(ri, Solve(Embed(f), env, EmbedStore(st), fuel), Operating(EmbedList(es), env, fuel));
    if ri.0.Ok? { CallAgrees(ri.0.value, es, env, ri.1, fuel); }
  }

  lemma {:induction false} AssignAgrees(x: Name, rhs: Exp, env: Env, st: I.St, fuel: nat)
    ensures Agree(Solve(T.Assign(x, Embed(rhs)), env, EmbedStore(st), fuel), I.Eval(Assign(x, rhs), env, st, fuel))
    decreases fuel, Size(rhs), 3
  {
    SolveAgrees(rhs, env, st, fuel);
    var ri := I.Eval(rhs, env, st, fuel);
    BindOnly(ri, Solve(Embed(rhs), env, EmbedStore(st), fuel), Assigning(x, env));
    if ri.0.Ok? {
      ReadThenSet(x, ri.0.value, env, ri.1);
      MapLookup(EmbedProc, x, env, ri.1);
      MapSetVariable(EmbedProc, x, ri.0.value, env, ri.1);
    }
  }

  lemma {:induction false} SequenceAgrees(b: Body, env: Env, st: I.St, fuel: nat)
    ensures Agree(SolveSequence(EmbedBody(b), env, EmbedStore(st), fuel), I.EvalSequence(b, env, st, fuel))
    decreases fuel, BodySize(b), 0
  {
    SolveAgrees(b.exp, env, st, fuel);
    if b.More? {
      var ri := I.Eval(b.exp, env, st, fuel);
      BindOnly(ri, Solve(Embed(b.exp), env, EmbedStore(st), fuel), Continuing(EmbedBody(b.rest), env, fuel));
      if ri.0.Ok? { SequenceAgrees(b.rest, env, ri.1, fuel); }
    }
  }

  lemma {:induction false} ClausesAgree(cs: Clauses, env: Env, st: I.St, fuel: nat)
    ensures Agree(SolveCond(EmbedClauses(cs), env, EmbedStore(st), fuel), I.FirstTrue(cs, env, st, fuel))
    decreases fuel, ClausesSize(cs), 0
  {
    match cs
    case NoClause => MapLookup(EmbedProc, "false", env, st);
    case Else(b) => SequenceAgrees(b, env, st, fuel);
    case Clause(p, b, rest) =>
      SolveAgrees(p, env, st, fuel);
      var ri := I.Eval(p, env, st, fuel);
      BindOnly(ri, Solve(Embed(p), env, EmbedStore(st), fuel), Clausing(EmbedBody(b), EmbedClauses(rest), env, fuel));
      if ri.0.Ok? {
        if True(ri.0.value) { SequenceAgrees(b, env, ri.1, fuel); } else { ClausesAgree(rest, env, ri.1, fuel); }
      }
  }

  lemma {:induction false} CallAgrees(p: I.V, es: List<Exp>, env: Env, st: I.St, fuel: nat)
    ensures Agree(Operating(EmbedList(es), env, fuel)((MapValue(EmbedProc, p), EmbedStore(st))),
              I.Call(p, es, env, st, fuel))
    decreases fuel, ListSize(es), 2
  {
    ArgsAgree(es, env, st, fuel);
    var ri := I.ListOfValues(es, env, st, fuel);
    var q := MapValue(EmbedProc, p);
    BindOnlyList(ri, SolveAll(EmbedList(es), env, EmbedStore(st), fuel), Applying(q, fuel));
    if ri.0.Ok? { ApplyAgrees(p, ri.0.value, ri.1, fuel); }
  }

  lemma {:induction false} ArgsAgree(es: List<Exp>, env: Env, st: I.St, fuel: nat)
    ensures AgreeAll(SolveAll(EmbedList(es), env, EmbedStore(st), fuel), I.ListOfValues(es, env, st, fuel))
    decreases fuel, ListSize(es), 0
  {
    if es.Cons? {
      SolveAgrees(es.head, env, st, fuel);
      var ri := I.Eval(es.head, env, st, fuel);
      BindOnly(ri, Solve(Embed(es.head), env, EmbedStore(st), fuel), Collecting(EmbedList(es.tail), env, fuel));
      if ri.0.Ok? {
        ArgsAgree(es.tail, env, ri.1, fuel);
        var v := MapValue(EmbedProc, ri.0.value);
        BindOnlyList(I.ListOfValues(es.tail, env, ri.1, fuel),
          SolveAll(EmbedList(es.tail), env, EmbedStore(ri.1), fuel), Prefixing(v));
      }
    }
  }

  lemma {:induction false} ApplyAgrees(p: I.V, args: List<I.V>, st: I.St, fuel: nat)
    ensures Agree(ApplyTo(MapValue(EmbedProc, p), MapValues(EmbedProc, args), EmbedStore(st), fuel),
              I.Apply(p, args, st, fuel))
    decreases fuel, 0, 1
  {
    match p
    case Primitive(op) => MapPrimitive(EmbedProc, op, args);
    case Obj(q) =>
      MapExtend(EmbedProc, q.params, args, st);
      if fuel > 0 && Length(q.params) == Length(args) {
        SequenceAgrees(q.body, Cons(|st|, q.env), st + [Zip(q.params, args)], fuel - 1);
      }
    case _ =>
  }

  /** What the driver prints for a program without amb and define: the value of the direct evaluator,
      then that there are no more; or its error. */
  lemma {:induction false} DriverPrintsTheAnswer(e: Exp, env: Env, st: I.St, fuel: nat)
    requires T.Plain(Embed(e)) && C.ValidStore(EmbedStore(st)) && ValidEnv(env, |st|)
    ensures var o := A.Drive(Embed(e), env, C.Load(EmbedStore(st)), fuel);
            || StopsReading(o, I.Eval(e, env, st, fuel).0)
            || o == match I.Eval(e, env, st, fuel).0
                    case Ok(v) => One(MapValue((p: I.Proc) => p.params, v))
                    case Err(err) => Stop(err)
                    case Timeout => Outcome(Nil, OutOfFuel)
  {
    SolveAgrees(e, env, st, fuel);
    C.DriverPrintsSuccesses(Embed(e), env, EmbedStore(st), fuel);
    var ri := I.Eval(e, env, st, fuel);
    BindOnly(ri, Solve(Embed(e), env, EmbedStore(st), fuel), C.Showing());
    if ri.0.Ok? { ShowEmbedded(ri.0.value); }
  }

  lemma {:induction false} ShowEmbedded(v: I.V)
    ensures MapValue((p: Proc) => p.params, MapValue(EmbedProc, v)) == MapValue((p: I.Proc) => p.params, v)
  {
    match v
    case Pair(a, d) => ShowEmbedded(a); ShowEmbedded(d);
    case _ =>
  }
}
