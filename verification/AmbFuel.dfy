/** Fuel only cuts a run off: what is printed before it runs out is a beginning of what is
    printed with more, and a run that does not run out of it is the same with more. */
module AmbFuel {
  import opened Scheme
  import opened AmbSyntax
  import opened AmbReference
  import opened Amb
  import opened AmbCorrect

  predicate Prefix<T(==)>(xs: List<T>, ys: List<T>) {
    xs.Nil? || (ys.Cons? && xs.head == ys.head && Prefix(xs.tail, ys.tail))
  }

  /** p is q, or the beginning of q up to where the fuel ran out. */
  ghost predicate Cut<T>(p: Outcome<T>, q: Outcome<T>) {
    p == q || (p.end.OutOfFuel? && Prefix(p.answers, q.answers))
  }

  lemma {:induction false} PrefixConcat<T>(xs: List<T>, ys: List<T>, zs: List<T>)
    requires Prefix(ys, zs)
    ensures Prefix(Concat(xs, ys), Concat(xs, zs))
  {
    if xs.Cons? { PrefixConcat(xs.tail, ys, zs); }
  }

  lemma {:induction false} PrefixLonger<T>(xs: List<T>, ys: List<T>, zs: List<T>)
    requires Prefix(xs, ys)
    ensures Prefix(xs, Concat(ys, zs))
  {
    if xs.Cons? { PrefixLonger(xs.tail, ys.tail, zs); }
  }

  lemma {:induction false} CutAppend<T>(p: Outcome<T>, p': Outcome<T>, q: Outcome<T>, q': Outcome<T>)
    requires Cut(p, p') && Cut(q, q')
    ensures Cut(Append(p, q), Append(p', q'))
  {
    if p == p' {
      if q != q' { PrefixConcat(p.answers, q.answers, q'.answers); }
    } else {
      PrefixLonger(p.answers, p'.answers, q'.answers);
    }
  }

  lemma {:induction false} CutBind<S, T>(p: Outcome<S>, p': Outcome<S>, k: S -> Outcome<T>, k': S -> Outcome<T>)
    requires Cut(p, p') && forall x :: Cut(k(x), k'(x))
    ensures Cut(Bind(p, k), Bind(p', k'))
    decreases p.answers
  {
    if p.answers.Cons? {
      var t, t' := Outcome(p.answers.tail, p.end), Outcome(p'.answers.tail, p'.end);
      CutBind(t, t', k, k');
      CutAppend(k(p.answers.head), k'(p.answers.head), Bind(t, k), Bind(t', k'));
    }
  }

  lemma {:induction false} SolveCut(e: Exp, env: Env, st: St, f: nat, g: nat)
    requires f <= g
    ensures Cut(Solve(e, env, st, f), Solve(e, env, st, g))
    decreases f, Size(e), 2
  {
    match e
    case Assign(x, rhs) =>
      SolveCut(rhs, env, st, f, g);
      CutBind(Solve(rhs, env, st, f), Solve(rhs, env, st, g), Assigning(x, env), Assigning(x, env));
    case Define(x, rhs) =>
      SolveCut(rhs, env, st, f, g);
      CutBind(Solve(rhs, env, st, f), Solve(rhs, env, st, g), Defining(x, env), Defining(x, env));
    case Amb(es) => AnyCut(es, env, st, f, g);
    case If(p, c, a) =>
      SolveCut(p, env, st, f, g);
      forall r: Answer ensures Cut(Choosing(c, a, env, f)(r), Choosing(c, a, env, g)(r)) {
        SolveCut(if True(r.0) then c else a, env, r.1, f, g);
      }
      CutBind(Solve(p, env, st, f), Solve(p, env, st, g), Choosing(c, a, env, f), Choosing(c, a, env, g));
    case Let(bs, b) =>
      AllCut(InitExps(bs), env, st, f, g);
      forall r: Answers ensures Cut(Entering(InitNames(bs), b, env, f)(r), Entering(InitNames(bs), b, env, g)(r)) {
        EnterCut(InitNames(bs), r.0, b, env, r.1, f, g);
      }
      CutBind(SolveAll(InitExps(bs), env, st, f), SolveAll(InitExps(bs), env, st, g),
        Entering(InitNames(bs), b, env, f), Entering(InitNames(bs), b, env, g));
    case LetStar(bs, b) => LetStarCut(bs, b, env, st, f, g);
    case Begin(b) => SequenceCut(b, env, st, f, g);
    case Cond(cs) => CondCut(cs, env, st, f, g);
    case App(h, es) =>
      SolveCut(h, env, st, f, g);
      forall r: Answer ensures Cut(Operating(es, env, f)(r), Operating(es, env, g)(r)) {
        OperatingCut(es, env, r, f, g);
      }
      CutBind(Solve(h, env, st, f), Solve(h, env, st, g), Operating(es, env, f), Operating(es, env, g));
    case _ =>
  }

  lemma {:induction false} OperatingCut(es: List<Exp>, env: Env, r: Answer, f: nat, g: nat)
    requires f <= g
    ensures Cut(Operating(es, env, f)(r), Operating(es, env, g)(r))
    decreases f, ListSize(es), 3
  {
    AllCut(es, env, r.1, f, g);
    forall args: Answers ensures Cut(Applying(r.0, f)(args), Applying(r.0, g)(args)) {
      if r.0.Obj? { EnterCut(r.0.c.params, args.0, r.0.c.body, r.0.c.env, args.1, f, g); }
    }
    CutBind(SolveAll(es, env, r.1, f), SolveAll(es, env, r.1, g), Applying(r.0, f), Applying(r.0, g));
  }

  lemma {:induction false} AnyCut(es: List<Exp>, env: Env, st: St, f: nat, g: nat)
    requires f <= g
    ensures Cut(SolveAny(es, env, st, f), SolveAny(es, env, st, g))
    decreases f, ListSize(es), 0
  {
    if es.Cons? {
      SolveCut(es.head, env, st, f, g);
      AnyCut(es.tail, env, st, f, g);
      CutAppend(Solve(es.head, env, st, f), Solve(es.head, env, st, g),
        SolveAny(es.tail, env, st, f), SolveAny(es.tail, env, st, g));
    }
  }

  lemma {:induction false} EnterCut(xs: List<Name>, vs: List<V>, b: Body, env: Env, st: St, f: nat, g: nat)
    requires f <= g
    ensures Cut(Enter(xs, vs, b, env, st, f), Enter(xs, vs, b, env, st, g))
    decreases f, 0, 0
  {
    if f > 0 && Length(xs) == Length(vs) { SequenceCut(b, Cons(|st|, env), st + [Zip(xs, vs)], f - 1, g - 1); }
  }

  lemma {:induction false} LetStarCut(bs: Inits, b: Body, env: Env, st: St, f: nat, g: nat)
    requires f <= g
    ensures Cut(SolveLetStar(bs, b, env, st, f), SolveLetStar(bs, b, env, st, g))
    decreases f, 2 * InitsSize(bs) + BodySize(b), 1
  {
    match bs
    case NoInit => SequenceCut(b, env, st, f, g);
    case Init(x, e, rest) =>
      SolveCut(e, env, st, f, g);
      forall r: Answer ensures Cut(BindingNext(x, rest, b, env, f)(r), BindingNext(x, rest, b, env, g)(r)) {
        if f > 0 { LetStarCut(rest, b, Cons(|r.1|, env), r.1 + [Cons(Binding(x, r.0), Nil)], f - 1, g - 1); }
      }
      CutBind(Solve(e, env, st, f), Solve(e, env, st, g),
        BindingNext(x, rest, b, env, f), BindingNext(x, rest, b, env, g));
  }

  lemma {:induction false} SequenceCut(b: Body, env: Env, st: St, f: nat, g: nat)
    requires f <= g
    ensures Cut(SolveSequence(b, env, st, f), SolveSequence(b, env, st, g))
    decreases f, BodySize(b), 0
  {
    SolveCut(b.exp, env, st, f, g);
    if b.More? {
      forall r: Answer ensures Cut(Continuing(b.rest, env, f)(r), Continuing(b.rest, env, g)(r)) {
        SequenceCut(b.rest, env, r.1, f, g);
      }
      CutBind(Solve(b.exp, env, st, f), Solve(b.exp, env, st, g),
        Continuing(b.rest, env, f), Continuing(b.rest, env, g));
    }
  }

  lemma {:induction false} CondCut(cs: Clauses, env: Env, st: St, f: nat, g: nat)
    requires f <= g
    ensures Cut(SolveCond(cs, env, st, f), SolveCond(cs, env, st, g))
    decreases f, ClausesSize(cs), 0
  {
    match cs
    case NoClause =>
    case Else(b) => SequenceCut(b, env, st, f, g);
    case Clause(p, b, rest) =>
      SolveCut(p, env, st, f, g);
      forall r: Answer ensures Cut(Clausing(b, rest, env, f)(r), Clausing(b, rest, env, g)(r)) {
        if True(r.0) { SequenceCut(b, env, r.1, f, g); } else { CondCut(rest, env, r.1, f, g); }
      }
      CutBind(Solve(p, env, st, f), Solve(p, env, st, g), Clausing(b, rest, env, f), Clausing(b, rest, env, g));
  }

  lemma {:induction false} AllCut(es: List<Exp>, env: Env, st: St, f: nat, g: nat)
    requires f <= g
    ensures Cut(SolveAll(es, env, st, f), SolveAll(es, env, st, g))
    decreases f, ListSize(es), 0
  {
    if es.Cons? {
      SolveCut(es.head, env, st, f, g);
      forall r: Answer ensures Cut(Collecting(es.tail, env, f)(r), Collecting(es.tail, env, g)(r)) {
        AllCut(es.tail, env, r.1, f, g);
        CutBind(SolveAll(es.tail, env, r.1, f), SolveAll(es.tail, env, r.1, g), Prefixing(r.0), Prefixing(r.0));
      }
      CutBind(Solve(es.head, env, st, f), Solve(es.head, env, st, g),
        Collecting(es.tail, env, f), Collecting(es.tail, env, g));
    }
  }

  /** What the driver prints before the fuel runs out is what it prints first with more. */
  lemma {:induction false} DriverCut(e: Exp, env: Env, st: St, f: nat, g: nat)
    requires Plain(e) && ValidStore(st) && ValidEnv(env, |st|) && f <= g
    ensures Cut(Drive(e, env, Load(st), f), Drive(e, env, Load(st), g))
  {
    DriverPrintsSuccesses(e, env, st, f);
    DriverPrintsSuccesses(e, env, st, g);
    SolveCut(e, env, st, f, g);
    CutBind(Solve(e, env, st, f), Solve(e, env, st, g), Showing(), Showing());
  }
}
