/** Expressions of the backtracking evaluator and the desugarings it performs. */
module AmbSyntax {
  import opened Scheme

  datatype Exp =
    | Self(d: Datum) | Var(x: Name) | Quote(text: Datum)
    | Assign(x: Name, rhs: Exp) | Define(x: Name, rhs: Exp)
    | Amb(choices: List<Exp>)
    | If(pred: Exp, conseq: Exp, alt: Exp)
    | Let(bindings: Inits, body: Body)
    | LetStar(bindings: Inits, body: Body)
    | Lambda(params: List<Name>, body: Body)
    | Begin(actions: Body)
    | Cond(clauses: Clauses)
    | App(operator: Exp, operands: List<Exp>)

  datatype Body = Last(exp: Exp) | More(exp: Exp, rest: Body)
  datatype Inits = NoInit | Init(x: Name, init: Exp, rest: Inits)
  datatype Clauses = NoClause | Else(actions: Body) | Clause(test: Exp, actions: Body, rest: Clauses)

  function Size(e: Exp): nat {
    match e
    case Assign(_, r) => 1 + Size(r)
    case Define(_, r) => 1 + Size(r)
    case Amb(es) => 1 + ListSize(es)
    case If(p, c, a) => 1 + Size(p) + Size(c) + Size(a)
    case Let(bs, b) => 4 + InitsSize(bs) + BodySize(b)
    case LetStar(bs, b) => 1 + 2 * InitsSize(bs) + BodySize(b)
    case Lambda(_, b) => 1 + BodySize(b)
    case Begin(b) => 1 + BodySize(b)
    case Cond(cs) => 1 + ClausesSize(cs)
    case App(f, es) => 2 + Size(f) + ListSize(es)
    case _ => 1
  }

  function BodySize(b: Body): nat {
    match b
    case Last(e) => 1 + Size(e)
    case More(e, r) => 2 + Size(e) + BodySize(r)
  }

  function ClausesSize(cs: Clauses): nat {
    match cs
    case NoClause => 1
    case Else(b) => 1 + BodySize(b)
    case Clause(p, b, r) => 2 + Size(p) + BodySize(b) + ClausesSize(r)
  }

  /** One init of a let* becomes a let of its own. */
  function InitsSize(bs: Inits): nat {
    match bs
    case NoInit => 0
    case Init(_, e, r) => 6 + Size(e) + InitsSize(r)
  }

  function ListSize(es: List<Exp>): nat {
    match es
    case Nil => 0
    case Cons(e, t) => 2 + Size(e) + ListSize(t)
  }

  function InitNames(bs: Inits): List<Name> {
    match bs
    case NoInit => Nil
    case Init(x, _, r) => Cons(x, InitNames(r))
  }

  function InitExps(bs: Inits): (es: List<Exp>)
    ensures ListSize(es) <= InitsSize(bs)
    ensures Length(es) == Length(InitNames(bs))
  {
    match bs
    case NoInit => Nil
    case Init(_, e, r) => Cons(e, InitExps(r))
  }

  function LetToCombination(bs: Inits, body: Body): (e: Exp)
    ensures Size(e) < Size(Let(bs, body))
  {
    App(Lambda(InitNames(bs), body), InitExps(bs))
  }

  /** Only the first expression of the body survives. */
  function LetStarToLets(bs: Inits, body: Body): (e: Exp)
    ensures Size(e) <= 2 * InitsSize(bs) + BodySize(body)
  {
    match bs
    case NoInit => body.exp
    case Init(x, e, rest) =>
      assert InitsSize(Init(x, e, NoInit)) == 6 + Size(e);
      Let(Init(x, e, NoInit), Last(LetStarToLets(rest, body)))
  }

  function SequenceToExp(b: Body): (e: Exp)
    ensures Size(e) <= 1 + BodySize(b)
  {
    match b
    case Last(e) => e
    case More(_, _) => Begin(b)
  }

  function CondToIf(cs: Clauses): (e: Exp)
    ensures Size(e) <= ClausesSize(cs)
  {
    match cs
    case NoClause => Var("false")
    case Else(b) => SequenceToExp(b)
    case Clause(p, b, rest) => If(p, SequenceToExp(b), CondToIf(rest))
  }

  // ----- plain programs: no define, and one expression in the body of every let* -----

  predicate Plain(e: Exp) {
    match e
    case Assign(_, r) => Plain(r)
    case Define(_, _) => false
    case Amb(es) => PlainList(es)
    case If(p, c, a) => Plain(p) && Plain(c) && Plain(a)
    case Let(bs, b) => PlainInits(bs) && PlainBody(b)
    case LetStar(bs, b) => PlainInits(bs) && PlainBody(b) && b.Last?
    case Lambda(_, b) => PlainBody(b)
    case Begin(b) => PlainBody(b)
    case Cond(cs) => PlainClauses(cs)
    case App(f, es) => Plain(f) && PlainList(es)
    case _ => true
  }

  predicate PlainBody(b: Body) {
    match b
    case Last(e) => Plain(e)
    case More(e, r) => Plain(e) && PlainBody(r)
  }

  predicate PlainClauses(cs: Clauses) {
    match cs
    case NoClause => true
    case Else(b) => PlainBody(b)
    case Clause(p, b, r) => Plain(p) && PlainBody(b) && PlainClauses(r)
  }

  predicate PlainInits(bs: Inits) {
    match bs
    case NoInit => true
    case Init(_, e, r) => Plain(e) && PlainInits(r)
  }

  predicate PlainList(es: List<Exp>) {
    match es
    case Nil => true
    case Cons(e, t) => Plain(e) && PlainList(t)
  }
}
