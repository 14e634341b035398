/** In which order the answers of a backtracking program come, by their positions. */
module AmbOrder {
  import opened Scheme
  import opened AmbSyntax
  import opened AmbReference
  import A = Amb
  import C = AmbCorrect

  lemma {:induction false} ConcatNth<T>(xs: List<T>, ys: List<T>)
    ensures Length(Concat(xs, ys)) == Length(xs) + Length(ys)
    ensures forall k: nat :: k < Length(xs) ==> Nth(Concat(xs, ys), k) == Nth(xs, k)
    ensures forall k: nat :: k < Length(ys) ==> Nth(Concat(xs, ys), Length(xs) + k) == Nth(ys, k)
  {
    if xs.Cons? {
      ConcatNth(xs.tail, ys);
      forall k: nat | k < Length(xs) ensures Nth(Concat(xs, ys), k) == Nth(xs, k) {
        if k > 0 { assert Nth(Concat(xs.tail, ys), k - 1) == Nth(xs.tail, k - 1); }
      }
      forall k: nat | k < Length(ys) ensures Nth(Concat(xs, ys), Length(xs) + k) == Nth(ys, k) {
        assert Nth(Concat(xs, ys), Length(xs) + k) == Nth(Concat(xs.tail, ys), Length(xs.tail) + k);
      }
    }
  }

  lemma {:induction false} AppendNth<T>(p: Outcome<T>, q: Outcome<T>, k: nat)
    ensures k < Length(p.answers) ==>
              k < Length(Append(p, q).answers) && Nth(Append(p, q).answers, k) == Nth(p.answers, k)
    ensures p.end.NoMore? && k < Length(q.answers) ==>
              var n := Length(p.answers) + k;
              n < Length(Append(p, q).answers) && Nth(Append(p, q).answers, n) == Nth(q.answers, k)
  {
    if p.end.NoMore? { ConcatNth(p.answers, q.answers); }
  }

  /** How many answers the first j choices have. */
  function Before(es: List<Exp>, env: Env, st: St, fuel: nat, j: nat): nat
    requires j <= Length(es)
  {
    if j == 0 then 0
    else Length(Solve(es.head, env, st, fuel).answers) + Before(es.tail, env, st, fuel, j - 1)
  }

  /** The answers of a choice stand behind those of all the choices to the left of it, in their
      own order, if those have come to their ends. */
  lemma {:induction false} ChoicesInOrder(es: List<Exp>, env: Env, st: St, fuel: nat, j: nat, k: nat)
    requires j < Length(es) && forall i: nat :: i < j ==> Solve(Nth(es, i), env, st, fuel).end.NoMore?
    requires k < Length(Solve(Nth(es, j), env, st, fuel).answers)
    ensures var all := Solve(Amb(es), env, st, fuel).answers; var n := Before(es, env, st, fuel, j) + k;
            n < Length(all) && Nth(all, n) == Nth(Solve(Nth(es, j), env, st, fuel).answers, k)
    decreases j
  {
    var p, q := Solve(es.head, env, st, fuel), Solve(Amb(es.tail), env, st, fuel);
    assert Solve(Amb(es), env, st, fuel) == Append(p, q);
    assert Nth(es, 0) == es.head;
    if j == 0 {
      AppendNth(p, q, k);
    } else {
      forall i: nat | i < j - 1 ensures Solve(Nth(es.tail, i), env, st, fuel).end.NoMore? {
        assert Nth(es, i + 1) == Nth(es.tail, i);
      }
      ChoicesInOrder(es.tail, env, st, fuel, j - 1, k);
      AppendNth(p, q, Before(es.tail, env, st, fuel, j - 1) + k);
    }
  }

  /** How many answers follow from the first j of xs. */
  function Following<S, T>(xs: List<S>, h: S -> Outcome<T>, j: nat): nat
    requires j <= Length(xs)
  {
    if j == 0 then 0 else Length(h(xs.head).answers) + Following(xs.tail, h, j - 1)
  }

  /** What follows from each of the first j of xs comes to its end. */
  ghost predicate Ending<S, T>(xs: List<S>, h: S -> Outcome<T>, j: nat)
    requires j <= Length(xs)
  {
    forall i: nat :: i < j ==> h(Nth(xs, i)).end.NoMore?
  }

  lemma {:induction false} EndingTail<S, T>(xs: List<S>, h: S -> Outcome<T>, j: nat)
    requires 0 < j <= Length(xs) && Ending(xs, h, j)
    ensures Ending(xs.tail, h, j - 1) && h(xs.head).end.NoMore?
  {
    assert h(Nth(xs, 0)).end.NoMore?;
    forall i: nat | i < j - 1 ensures h(Nth(xs.tail, i)).end.NoMore? { assert Nth(xs, i + 1) == Nth(xs.tail, i); }
  }

  /** What follows from one answer stands behind all that follows from the answers before it, if
      that comes to its end. */
  lemma {:induction false} FollowsInOrder<S, T>(p: Outcome<S>, h: S -> Outcome<T>, j: nat, k: nat)
    requires j < Length(p.answers) && Ending(p.answers, h, j) && k < Length(h(Nth(p.answers, j)).answers)
    ensures var n := Following(p.answers, h, j) + k;
            n < Length(Bind(p, h).answers) && Nth(Bind(p, h).answers, n) == Nth(h(Nth(p.answers, j)).answers, k)
    decreases j
  {
    var xs, p' := p.answers, Outcome(p.answers.tail, p.end);
    ConcatNth(h(xs.head).answers, Bind(p', h).answers);
    if j > 0 {
      EndingTail(xs, h, j);
      FollowsInOrder(p', h, j - 1, k);
    }
  }

  lemma {:induction false} FollowsAt<S, T>(p: Outcome<S>, h: S -> Outcome<T>, j: nat, k: nat, x: S, n: nat, y: T)
    requires j < Length(p.answers) && Nth(p.answers, j) == x && Ending(p.answers, h, j)
    requires Following(p.answers, h, j) == n && k < Length(h(x).answers) && Nth(h(x).answers, k) == y
    ensures n + k < Length(Bind(p, h).answers) && Nth(Bind(p, h).answers, n + k) == y
  {
    FollowsInOrder(p, h, j, k);
  }

  /** If all that follows comes to its end, that is all. */
  lemma {:induction false} FollowsEnds<S, T>(p: Outcome<S>, h: S -> Outcome<T>)
    requires Ending(p.answers, h, Length(p.answers))
    ensures Bind(p, h).end == p.end && Length(Bind(p, h).answers) == Following(p.answers, h, Length(p.answers))
    decreases p.answers
  {
    if p.answers.Cons? {
      var p' := Outcome(p.answers.tail, p.end);
      EndingTail(p.answers, h, Length(p.answers));
      FollowsEnds(p', h);
      ConcatNth(h(p.answers.head).answers, Bind(p', h).answers);
    }
  }

  function Mapped<S, T>(xs: List<S>, f: S -> T): List<T> {
    match xs
    case Nil => Nil
    case Cons(x, t) => Cons(f(x), Mapped(t, f))
  }

  lemma {:induction false} MappedNth<S, T>(xs: List<S>, f: S -> T)
    ensures Length(Mapped(xs, f)) == Length(xs)
    ensures forall i: nat :: i < Length(xs) ==> Nth(Mapped(xs, f), i) == f(Nth(xs, i))
  {
    if xs.Cons? {
      MappedNth(xs.tail, f);
      forall i: nat | i < Length(xs) ensures Nth(Mapped(xs, f), i) == f(Nth(xs, i)) {
        if i > 0 { assert Nth(Mapped(xs.tail, f), i - 1) == f(Nth(xs.tail, i - 1)); }
      }
    }
  }

  /** One answer follows from x. */
  ghost predicate Gives<S, T>(h: S -> Outcome<T>, f: S -> T, x: S) { h(x) == One(f(x)) }

  ghost predicate GivesAll<S, T>(h: S -> Outcome<T>, f: S -> T, xs: List<S>) {
    xs.Cons? ==> Gives(h, f, xs.head) && GivesAll(h, f, xs.tail)
  }

  lemma {:induction false} BindOnes<S, T>(xs: List<S>, h: S -> Outcome<T>, f: S -> T)
    requires GivesAll(h, f, xs)
    ensures Bind(Outcome(xs, NoMore), h) == Outcome(Mapped(xs, f), NoMore)
    decreases xs
  {
    if xs.Cons? {
      BindOnes(xs.tail, h, f);
      var q := Bind(Outcome(xs.tail, NoMore), h);
      assert h(xs.head) == One(f(xs.head));
      assert Concat(Cons(f(xs.head), Nil), q.answers) == Cons(f(xs.head), q.answers);
    }
  }

  lemma {:induction false} GivesEvery<S, T>(xs: List<S>, h: S -> Outcome<T>, f: S -> T)
    requires forall x :: Gives(h, f, x)
    ensures GivesAll(h, f, xs)
  {
    if xs.Cons? { GivesEvery(xs.tail, h, f); }
  }

  // ----- choices among data -----

  function Quotes(ds: List<Datum>): List<Exp> {
    match ds
    case Nil => Nil
    case Cons(d, t) => Cons(Quote(d), Quotes(t))
  }

  /** (amb 'd1 'd2 ...) */
  function Choices(ds: List<Datum>): Exp { Amb(Quotes(ds)) }

  function Quoted(st: St): Datum -> Answer { (d: Datum) => (FromDatum(d), st) }

  lemma {:induction false} SolveChoices(ds: List<Datum>, env: Env, st: St, fuel: nat)
    ensures SolveAny(Quotes(ds), env, st, fuel) == Outcome(Mapped(ds, Quoted(st)), NoMore)
  {
    if ds.Cons? {
      SolveChoices(ds.tail, env, st, fuel);
      var first: Answer := (FromDatum(ds.head), st);
      assert Solve(Quote(ds.head), env, st, fuel) == One(first);
      var rest := Mapped(ds.tail, Quoted(st));
      assert Concat(Cons(first, Nil), rest) == Cons(first, rest);
    }
  }

  lemma {:induction false} PlainChoices(ds: List<Datum>)
    ensures PlainList(Quotes(ds)) && Plain(Choices(ds))
  {
    if ds.Cons? { PlainChoices(ds.tail); }
  }

  function Shown(): Answer -> A.Shown { (r: Answer) => MapValue((p: Proc) => p.params, r.0) }

  lemma {:induction false} ShowsAll(xs: List<Answer>)
    ensures GivesAll(C.Showing(), Shown(), xs)
  {
    forall x ensures Gives(C.Showing(), Shown(), x) {}
    GivesEvery(xs, C.Showing(), Shown());
  }

  /** The driver prints the choices of (amb 'd1 ... 'dn) one after the other from left to right,
      and then that there are no more. */
  lemma {:induction false} DriverPrintsChoices(ds: List<Datum>, env: Env, st: St, fuel: nat)
    requires C.ValidStore(st) && ValidEnv(env, |st|)
    ensures var o := A.Drive(Choices(ds), env, C.Load(st), fuel);
            && o.end.NoMore? && Length(o.answers) == Length(ds)
            && forall i: nat :: i < Length(ds) ==> Nth(o.answers, i) == FromDatum(Nth(ds, i))
  {
    PlainChoices(ds);
    C.DriverPrintsSuccesses(Choices(ds), env, st, fuel);
    SolveChoices(ds, env, st, fuel);
    var xs := Mapped(ds, Quoted(st));
    assert Solve(Choices(ds), env, st, fuel) == Outcome(xs, NoMore);
    ShowsAll(xs);
    BindOnes(xs, C.Showing(), Shown());
    MappedNth(ds, Quoted(st));
    MappedNth(xs, Shown());
    forall i: nat | i < Length(ds) ensures Nth(Mapped(xs, Shown()), i) == FromDatum(Nth(ds, i)) {
      MapFromDatum((q: Proc) => q.params, Nth(ds, i));
    }
  }

  // ----- two choices -----

  /** (cons (amb 'a1 ... 'am) (amb 'b1 ... 'bn)) */
  function PairUp(xs: List<Datum>, ys: List<Datum>): Exp {
    App(Var("cons"), Cons(Choices(xs), Cons(Choices(ys), Nil)))
  }

  function Alone(): Answer -> Answers { (r: Answer) => (Cons(r.0, Nil), r.1) }
  function InFront(v: V): Answers -> Answers { (r: Answers) => (Cons(v, r.0), r.1) }

  lemma {:induction false} LastOperand(ys: List<Datum>, env: Env, st: St, fuel: nat)
    ensures SolveAll(Cons(Choices(ys), Nil), env, st, fuel)
            == Outcome(Mapped(Mapped(ys, Quoted(st)), Alone()), NoMore)
  {
    var h, xs := Collecting(Nil, env, fuel), Mapped(ys, Quoted(st));
    SolveChoices(ys, env, st, fuel);
    forall r: Answer ensures Gives(h, Alone(), r) {
      var none: Answers := (Nil, r.1);
      assert SolveAll(Nil, env, r.1, fuel) == One(none);
      BindOne(none, Prefixing(r.0));
    }
    GivesEvery(xs, h, Alone());
    BindOnes(xs, h, Alone());
    assert Solve(Choices(ys), env, st, fuel) == Outcome(xs, NoMore);
  }

  /** The operands for one choice of the first. */
  function Row(v: V, ys: List<Datum>, st: St): List<Answers> {
    Mapped(Mapped(Mapped(ys, Quoted(st)), Alone()), InFront(v))
  }

  lemma {:induction false} FirstOperand(v: V, ys: List<Datum>, env: Env, st: St, fuel: nat)
    ensures Collecting(Cons(Choices(ys), Nil), env, fuel)((v, st)) == Outcome(Row(v, ys, st), NoMore)
  {
    var xs := Mapped(Mapped(ys, Quoted(st)), Alone());
    LastOperand(ys, env, st, fuel);
    forall r: Answers ensures Gives(Prefixing(v), InFront(v), r) {}
    GivesEvery(xs, Prefixing(v), InFront(v));
    BindOnes(xs, Prefixing(v), InFront(v));
  }

  /** What is printed for a pair of operands. */
  function ShownPair(): Answers -> A.Shown {
    (r: Answers) =>
      if r.0.Cons? && r.0.tail.Cons? then MapValue((p: Proc) => p.params, Pair(r.0.head, r.0.tail.head)) else Null
  }

  /** Conses the operands and prints the pair. */
  function Printing(fuel: nat): Answers -> A.Obs { Then(Applying(Primitive(ConsPair), fuel), C.Showing()) }

  lemma {:induction false} PrintsPair(v: V, w: V, st: St, fuel: nat)
    ensures Gives(Printing(fuel), ShownPair(), (Cons(v, Cons(w, Nil)), st))
  {
    var r: Answer := (Pair(v, w), st);
    assert Applying(Primitive(ConsPair), fuel)((Cons(v, Cons(w, Nil)), st)) == One(r);
    BindOne(r, C.Showing());
  }

  lemma {:induction false} PrintsRow(v: V, ys: List<Datum>, st: St, fuel: nat)
    ensures GivesAll(Printing(fuel), ShownPair(), Row(v, ys, st))
  {
    if ys.Cons? {
      PrintsPair(v, FromDatum(ys.head), st, fuel);
      PrintsRow(v, ys.tail, st, fuel);
      assert Row(v, ys, st).head == (Cons(v, Cons(FromDatum(ys.head), Nil)), st);
      assert Row(v, ys, st).tail == Row(v, ys.tail, st);
    }
  }

  lemma {:induction false} RowShown(v: V, ys: List<Datum>, st: St, j: nat)
    ensures Length(Mapped(Row(v, ys, st), ShownPair())) == Length(ys)
    ensures j < Length(ys) ==> Nth(Mapped(Row(v, ys, st), ShownPair()), j)
                               == MapValue((p: Proc) => p.params, Pair(v, FromDatum(Nth(ys, j))))
  {
    MappedNth(ys, Quoted(st));
    MappedNth(Mapped(ys, Quoted(st)), Alone());
    MappedNth(Mapped(Mapped(ys, Quoted(st)), Alone()), InFront(v));
    MappedNth(Row(v, ys, st), ShownPair());
  }

  /** Everything printed for one choice of the first operand. */
  function Rows(ys: List<Datum>, env: Env, fuel: nat): Answer -> A.Obs {
    Then(Collecting(Cons(Choices(ys), Nil), env, fuel), Printing(fuel))
  }

  lemma {:induction false} RowPrinted(v: V, ys: List<Datum>, env: Env, st: St, fuel: nat)
    ensures Rows(ys, env, fuel)((v, st)) == Outcome(Mapped(Row(v, ys, st), ShownPair()), NoMore)
  {
    FirstOperand(v, ys, env, st, fuel);
    PrintsRow(v, ys, st, fuel);
    BindOnes(Row(v, ys, st), Printing(fuel), ShownPair());
  }

  lemma {:induction false} SolvePairUp(xs: List<Datum>, ys: List<Datum>, env: Env, st: St, fuel: nat)
    requires Lookup("cons", env, st) == Ok(Primitive(ConsPair))
    ensures Bind(Solve(PairUp(xs, ys), env, st, fuel), C.Showing())
            == Bind(Outcome(Mapped(xs, Quoted(st)), NoMore), Rows(ys, env, fuel))
  {
    var es, op: Answer := Cons(Choices(xs), Cons(Choices(ys), Nil)), (Primitive(ConsPair), st);
    var p := Outcome(Mapped(xs, Quoted(st)), NoMore);
    var h, d := Collecting(Cons(Choices(ys), Nil), env, fuel), Applying(Primitive(ConsPair), fuel);
    SolveChoices(xs, env, st, fuel);
    assert Solve(Choices(xs), env, st, fuel) == p;
    assert SolveAll(es, env, st, fuel) == Bind(p, h);
    assert Solve(Var("cons"), env, st, fuel) == One(op);
    BindOne(op, Operating(es, env, fuel));
    assert Solve(PairUp(xs, ys), env, st, fuel) == Bind(Bind(p, h), d);
    BindBind(Bind(p, h), d, C.Showing());
    BindBind(p, h, Printing(fuel));
  }

  lemma {:induction false} RowsEnd(xs: List<Datum>, ys: List<Datum>, env: Env, st: St, fuel: nat, j: nat)
    requires j <= Length(xs)
    ensures Length(Mapped(xs, Quoted(st))) == Length(xs) && Ending(Mapped(xs, Quoted(st)), Rows(ys, env, fuel), j)
  {
    MappedNth(xs, Quoted(st));
    forall i: nat | i < j ensures Rows(ys, env, fuel)(Nth(Mapped(xs, Quoted(st)), i)).end.NoMore? {
      RowPrinted(FromDatum(Nth(xs, i)), ys, env, st, fuel);
    }
  }

  lemma {:induction false} RowsFollowing(xs: List<Datum>, ys: List<Datum>, env: Env, st: St, fuel: nat, j: nat)
    requires j <= Length(xs)
    ensures Length(Mapped(xs, Quoted(st))) == Length(xs)
    ensures Following(Mapped(xs, Quoted(st)), Rows(ys, env, fuel), j) == j * Length(ys)
  {
    MappedNth(xs, Quoted(st));
    if j > 0 {
      RowsFollowing(xs.tail, ys, env, st, fuel, j - 1);
      RowPrinted(FromDatum(xs.head), ys, env, st, fuel);
      RowShown(FromDatum(xs.head), ys, st, 0);
      assert (j - 1) * Length(ys) + Length(ys) == j * Length(ys);
    }
  }

  lemma {:induction false} DatumPairShown(a: Datum, d: Datum)
    ensures MapValue((p: Proc) => p.params, Pair(FromDatum(a), FromDatum(d)))
            == Pair(FromDatum(a), FromDatum(d))
  {
    MapFromDatum((p: Proc) => p.params, a);
    MapFromDatum((p: Proc) => p.params, d);
  }

  lemma {:induction false} RowAt(a: Datum, ys: List<Datum>, env: Env, st: St, fuel: nat, j: nat)
    requires j < Length(ys)
    ensures var o := Rows(ys, env, fuel)((FromDatum(a), st));
            Length(o.answers) == Length(ys) && Nth(o.answers, j) == Pair(FromDatum(a), FromDatum(Nth(ys, j)))
  {
    RowPrinted(FromDatum(a), ys, env, st, fuel);
    RowShown(FromDatum(a), ys, st, j);
    DatumPairShown(a, Nth(ys, j));
  }

  lemma {:induction false} RowsInOrder(xs: List<Datum>, ys: List<Datum>, env: Env, st: St, fuel: nat, i: nat, j: nat)
    requires i < Length(xs) && j < Length(ys)
    ensures var q := Bind(Outcome(Mapped(xs, Quoted(st)), NoMore), Rows(ys, env, fuel)); var n := i * Length(ys) + j;
            && n < Length(q.answers) && Nth(q.answers, n) == Pair(FromDatum(Nth(xs, i)), FromDatum(Nth(ys, j)))
  {
    MappedNth(xs, Quoted(st));
    RowsEnd(xs, ys, env, st, fuel, i);
    RowsFollowing(xs, ys, env, st, fuel, i);
    RowAt(Nth(xs, i), ys, env, st, fuel, j);
    FollowsAt(Outcome(Mapped(xs, Quoted(st)), NoMore), Rows(ys, env, fuel), i, j, (FromDatum(Nth(xs, i)), st),
              i * Length(ys), Pair(FromDatum(Nth(xs, i)), FromDatum(Nth(ys, j))));
  }

  lemma {:induction false} PlainPairUp(xs: List<Datum>, ys: List<Datum>)
    ensures Plain(PairUp(xs, ys))
  {
    PlainChoices(xs);
    PlainChoices(ys);
    assert PlainList(Cons(Choices(xs), Cons(Choices(ys), Nil)));
  }

  /** Of two choices the left one is kept while the right one runs through all of its own: the
      driver prints the pairs of (cons (amb 'a1 ... 'am) (amb 'b1 ... 'bn)) row by row. */
  lemma {:induction false} DriverPrintsRows(xs: List<Datum>, ys: List<Datum>, env: Env, st: St, fuel: nat, i: nat,
                                            j: nat)
    requires C.ValidStore(st) && ValidEnv(env, |st|) && Lookup("cons", env, st) == Ok(Primitive(ConsPair))
    requires i < Length(xs) && j < Length(ys)
    ensures var o := A.Drive(PairUp(xs, ys), env, C.Load(st), fuel); var n := i * Length(ys) + j;
            && o.end.NoMore? && Length(o.answers) == Length(xs) * Length(ys) && n < Length(o.answers)
            && Nth(o.answers, n) == Pair(FromDatum(Nth(xs, i)), FromDatum(Nth(ys, j)))
  {
    PlainPairUp(xs, ys);
    C.DriverPrintsSuccesses(PairUp(xs, ys), env, st, fuel);
    SolvePairUp(xs, ys, env, st, fuel);
    RowsEnd(xs, ys, env, st, fuel, Length(xs));
    RowsFollowing(xs, ys, env, st, fuel, Length(xs));
    FollowsEnds(Outcome(Mapped(xs, Quoted(st)), NoMore), Rows(ys, env, fuel));
    RowsInOrder(xs, ys, env, st, fuel, i, j);
  }
}
