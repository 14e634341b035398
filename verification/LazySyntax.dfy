/** Expressions of the evaluator with strict, lazy and lazy-memo parameters. */
module LazySyntax {
  import opened Scheme

  datatype Mode = Strict | Lazy | LazyMemo
  /** A parameter is a name, or a list of a name and its mode. */
  datatype Param = Param(name: Name, mode: Mode)

  datatype Exp =
    | Self(d: Datum) | Var(x: Name) | Quote(text: Datum)
    | Assign(x: Name, rhs: Exp) | Define(x: Name, rhs: Exp)
    | If(pred: Exp, conseq: Exp, alt: Exp)
    | Lambda(params: List<Param>, body: Body)
    | Begin(actions: Body)
    | Cond(clauses: Clauses)
    | App(operator: Exp, operands: List<Exp>)

  datatype Body = Last(exp: Exp) | More(exp: Exp, rest: Body)
  datatype Clauses = NoClause | Else(actions: Body) | Clause(test: Exp, actions: Body, rest: Clauses)

  function Size(e: Exp): nat {
    match e
    case Assign(_, r) => 1 + Size(r)
    case Define(_, r) => 1 + Size(r)
    case If(p, c, a) => 1 + Size(p) + Size(c) + Size(a)
    case Lambda(_, b) => 1 + BodySize(b)
    case Begin(b) => 1 + BodySize(b)
    case Cond(cs) => 1 + ClausesSize(cs)
    case App(f, es) => 1 + Size(f) + ListSize(es)
    case _ => 1
  }

  function BodySize(b: Body): nat {
    match b
    case Last(e) => 1 + Size(e)
    case More(e, r) => 1 + Size(e) + BodySize(r)
  }

  function ClausesSize(cs: Clauses): nat {
    match cs
    case NoClause => 1
    case Else(b) => 1 + BodySize(b)
    case Clause(p, b, r) => 2 + Size(p) + BodySize(b) + ClausesSize(r)
  }

  function ListSize(es: List<Exp>): nat {
    match es
    case Nil => 0
    case Cons(e, t) => 1 + Size(e) + ListSize(t)
  }

  function SequenceToExp(b: Body): (e: Exp)
    ensures Size(e) <= 1 + BodySize(b)
  {
    match b
    case Last(e) => e
    case More(_, _) => Begin(b)
  }

  function CondToIf(cs: Clauses): (e: Exp)
    ensures Size(e) <= ClausesSize(cs)
  {
    match cs
    case NoClause => Var("false")
    case Else(b) => SequenceToExp(b)
    case Clause(p, b, rest) => If(p, SequenceToExp(b), CondToIf(rest))
  }

  function StripParameters(ps: List<Param>): List<Name> {
    match ps
    case Nil => Nil
    case Cons(p, t) => Cons(p.name, StripParameters(t))
  }

  // ----- forgetting which lazy parameters are memoised -----

  function EraseMode(m: Mode): Mode { if m.LazyMemo? then Lazy else m }

  function EraseParams(ps: List<Param>): List<Param> {
    match ps
    case Nil => Nil
    case Cons(p, t) => Cons(Param(p.name, EraseMode(p.mode)), EraseParams(t))
  }

  function Erase(e: Exp): Exp {
    match e
    case Assign(x, r) => Assign(x, Erase(r))
    case Define(x, r) => Define(x, Erase(r))
    case If(p, c, a) => If(Erase(p), Erase(c), Erase(a))
    case Lambda(ps, b) => Lambda(EraseParams(ps), EraseBody(b))
    case Begin(b) => Begin(EraseBody(b))
    case Cond(cs) => Cond(EraseClauses(cs))
    case App(f, es) => App(Erase(f), EraseList(es))
    case _ => e
  }

  function EraseBody(b: Body): Body {
    match b
    case Last(e) => Last(Erase(e))
    case More(e, r) => More(Erase(e), EraseBody(r))
  }

  function EraseClauses(cs: Clauses): Clauses {
    match cs
    case NoClause => NoClause
    case Else(b) => Else(EraseBody(b))
    case Clause(p, b, r) => Clause(Erase(p), EraseBody(b), EraseClauses(r))
  }

  function EraseList(es: List<Exp>): List<Exp> {
    match es
    case Nil => Nil
    case Cons(e, t) => Cons(Erase(e), EraseList(t))
  }

  // ----- programs without set! and define -----

  predicate Pure(e: Exp) {
    match e
    case Assign(_, _) => false
    case Define(_, _) => false
    case If(p, c, a) => Pure(p) && Pure(c) && Pure(a)
    case Lambda(_, b) => PureBody(b)
    case Begin(b) => PureBody(b)
    case Cond(cs) => PureClauses(cs)
    case App(f, es) => Pure(f) && PureList(es)
    case _ => true
  }

  predicate PureBody(b: Body) {
    match b
    case Last(e) => Pure(e)
    case More(e, r) => Pure(e) && PureBody(r)
  }

  predicate PureClauses(cs: Clauses) {
    match cs
    case NoClause => true
    case Else(b) => PureBody(b)
    case Clause(p, b, r) => Pure(p) && PureBody(b) && PureClauses(r)
  }

  predicate PureList(es: List<Exp>) {
    match es
    case Nil => true
    case Cons(e, t) => Pure(e) && PureList(t)
  }

  lemma {:induction false} EraseCond(cs: Clauses)
    ensures Erase(CondToIf(cs)) == CondToIf(EraseClauses(cs))
  {
    if cs.Clause? { EraseCond(cs.rest); }
  }

  lemma {:induction false} PureCond(cs: Clauses)
    requires PureClauses(cs)
    ensures Pure(CondToIf(cs))
  {
    if cs.Clause? { PureCond(cs.rest); }
  }

  lemma {:induction false} EraseStrip(ps: List<Param>)
    ensures StripParameters(EraseParams(ps)) == StripParameters(ps)
    ensures Length(EraseParams(ps)) == Length(ps) == Length(StripParameters(ps))
  {
    if ps.Cons? { EraseStrip(ps.tail); }
  }
}
