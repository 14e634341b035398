/** Well-formed expressions of the language that the direct evaluator of chapter 4 and
    the analysing evaluator of chapter 3 share, and the desugarings of `cond` and `delay`. */
module Syntax {
  import opened Scheme

  /** A one-armed `if` is read with the variable `false` as its alternative and
      `(define (f p) b)` as `(define f (lambda (p) b))`, as the selectors do. */
  datatype Exp =
    | Self(d: Datum) | Var(x: Name) | Quote(text: Datum)
    | Assign(x: Name, rhs: Exp) | Define(x: Name, rhs: Exp)
    | If(pred: Exp, conseq: Exp, alt: Exp)
    | Lambda(params: List<Name>, body: Body)
    | Begin(actions: Body)
    | Cond(clauses: Clauses)
    | App(operator: Exp, operands: List<Exp>)

  /** A sequence of expressions is never empty. */
  datatype Body = Last(exp: Exp) | More(exp: Exp, rest: Body)

  /** An `else` clause can only be the last one. */
  datatype Clauses = NoClause | Else(actions: Body) | Clause(test: Exp, actions: Body, rest: Clauses)

  function Size(e: Exp): nat {
    match e
    case Assign(_, r) => 1 + Size(r)
    case Define(_, r) => 1 + Size(r)
    case If(p, c, a) => 1 + Size(p) + Size(c) + Size(a)
    case Lambda(_, b) => 1 + BodySize(b)
    case Begin(b) => 1 + BodySize(b)
    case Cond(cs) => 1 + ClausesSize(cs)
    case App(f, es) => 1 + Size(f) + ListSize(es)
    case _ => 1
  }

  function BodySize(b: Body): nat {
    match b
    case Last(e) => 1 + Size(e)
    case More(e, r) => 1 + Size(e) + BodySize(r)
  }

  function ClausesSize(cs: Clauses): nat {
    match cs
    case NoClause => 1
    case Else(b) => 1 + BodySize(b)
    case Clause(p, b, r) => 2 + Size(p) + BodySize(b) + ClausesSize(r)
  }

  function ListSize(es: List<Exp>): nat {
    match es
    case Nil => 0
    case Cons(e, t) => 1 + Size(e) + ListSize(t)
  }

  function SequenceToExp(b: Body): (e: Exp)
    ensures Size(e) <= 1 + BodySize(b)
  {
    match b
    case Last(e) => e
    case More(_, _) => Begin(b)
  }

  function CondToIf(cs: Clauses): (e: Exp)
    ensures Size(e) <= ClausesSize(cs)
  {
    match cs
    case NoClause => Var("false")
    case Else(b) => SequenceToExp(b)
    case Clause(p, b, rest) => If(p, SequenceToExp(b), CondToIf(rest))
  }
}
