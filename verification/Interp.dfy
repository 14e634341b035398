/** The direct evaluator: `eval` and `apply` before analysis is separated from execution.
    Operators and operands are evaluated left to right. `fuel` bounds the nesting of
    compound applications; with enough of it a run that ends gives its answer. */
module Interp {
  import opened Scheme
  import opened Syntax

  datatype Proc = Proc(params: List<Name>, body: Body, env: Env)
  type V = Value<Proc>
  type St = Store<Proc>

  function Eval(e: Exp, env: Env, st: St, fuel: nat): (Result<V>, St)
    decreases fuel, Size(e)
  {
    match e
    case Self(d) => (Ok(FromDatum(d)), st)
    case Var(x) => (Lookup(x, env, st), st)
    case Quote(d) => (Ok(FromDatum(d)), st)
    case Assign(x, rhs) =>
      var (r, st1) := Eval(rhs, env, st, fuel);
      if !r.Ok? then (r, st1) else
        (match SetVariable(x, r.value, env, st1)
         case Ok(st2) => (Ok(Sym("ok")), st2)
         case Err(err) => (Err(err), st1)
         case Timeout => (Timeout, st1))
    case Define(x, rhs) =>
      var (r, st1) := Eval(rhs, env, st, fuel);
      if !r.Ok? then (r, st1) else (Ok(Sym("ok")), DefineVariable(x, r.value, env, st1))
    case If(p, c, a) =>
      var (r, st1) := Eval(p, env, st, fuel);
      if !r.Ok? then (r, st1)
      else if True(r.value) then Eval(c, env, st1, fuel) else Eval(a, env, st1, fuel)
    case Lambda(ps, b) => (Ok(Obj(Proc(ps, b, env))), st)
    case Begin(b) => EvalSequence(b, env, st, fuel)
    case Cond(cs) => Eval(CondToIf(cs), env, st, fuel)
    case App(f, es) =>
      var (r, st1) := Eval(f, env, st, fuel);
      if !r.Ok? then (r, st1) else
        var (rs, st2) := ListOfValues(es, env, st1, fuel);
        match rs
        case Err(err) => (Err(err), st2)
        case Timeout => (Timeout, st2)
        case Ok(vs) => Apply(r.value, vs, st2, fuel)
  }

  function EvalSequence(b: Body, env: Env, st: St, fuel: nat): (Result<V>, St)
    decreases fuel, BodySize(b)
  {
    match b
    case Last(e) => Eval(e, env, st, fuel)
    case More(e, rest) =>
      var (r, st1) := Eval(e, env, st, fuel);
      if !r.Ok? then (r, st1) else EvalSequence(rest, env, st1, fuel)
  }

  function ListOfValues(es: List<Exp>, env: Env, st: St, fuel: nat): (Result<List<V>>, St)
    decreases fuel, ListSize(es)
  {
    match es
    case Nil => (Ok(Nil), st)
    case Cons(e, rest) =>
      var (r, st1) := Eval(e, env, st, fuel);
      match r
      case Err(err) => (Err(err), st1)
      case Timeout => (Timeout, st1)
      case Ok(v) =>
        var (rs, st2) := ListOfValues(rest, env, st1, fuel);
        (match rs
         case Err(err) => (Err(err), st2)
         case Timeout => (Timeout, st2)
         case Ok(vs) => (Ok(Cons(v, vs)), st2))
  }

  function Apply(p: V, args: List<V>, st: St, fuel: nat): (Result<V>, St)
    decreases fuel, 0
  {
    match p
    case Primitive(op) => (ApplyPrimitive(op, args), st)
    case Obj(Proc(ps, b, env)) =>
      if fuel == 0 then (Timeout, st) else
        (match Extend(ps, args, st)
         case Ok(st1) => EvalSequence(b, Cons(|st|, env), st1, fuel - 1)
         case Err(err) => (Err(err), st)
         case Timeout => (Timeout, st))
    case _ => (Err(UnknownProcedure), st)
  }

  /** The operands, then the call: what remains of an application once p is known. */
  function Call(p: V, es: List<Exp>, env: Env, st: St, fuel: nat): (Result<V>, St) {
    var (rs, st1) := ListOfValues(es, env, st, fuel);
    match rs
    case Err(err) => (Err(err), st1)
    case Timeout => (Timeout, st1)
    case Ok(vs) => Apply(p, vs, st1, fuel)
  }

  // ----- more fuel never changes an answer -----

  lemma {:induction false} MoreFuel(e: Exp, env: Env, st: St, f: nat, g: nat)
    requires f <= g && !Eval(e, env, st, f).0.Timeout?
    ensures Eval(e, env, st, g) == Eval(e, env, st, f)
    decreases f, Size(e)
  {
    match e
    case Assign(_, rhs) => MoreFuel(rhs, env, st, f, g);
    case Define(_, rhs) => MoreFuel(rhs, env, st, f, g);
    case If(p, c, a) =>
      MoreFuel(p, env, st, f, g);
      var (r, st1) := Eval(p, env, st, f);
      if r.Ok? { MoreFuel(if True(r.value) then c else a, env, st1, f, g); }
    case Begin(b) => MoreFuelSequence(b, env, st, f, g);
    case Cond(cs) => MoreFuel(CondToIf(cs), env, st, f, g);
    case App(h, es) =>
      MoreFuel(h, env, st, f, g);
      var (r, st1) := Eval(h, env, st, f);
      if r.Ok? {
        MoreFuelValues(es, env, st1, f, g);
        var (rs, st2) := ListOfValues(es, env, st1, f);
        if rs.Ok? { MoreFuelApply(r.value, rs.value, st2, f, g); }
      }
    case _ =>
  }

  lemma {:induction false} MoreFuelSequence(b: Body, env: Env, st: St, f: nat, g: nat)
    requires f <= g && !EvalSequence(b, env, st, f).0.Timeout?
    ensures EvalSequence(b, env, st, g) == EvalSequence(b, env, st, f)
    decreases f, BodySize(b)
  {
    MoreFuel(b.exp, env, st, f, g);
    var (r, st1) := Eval(b.exp, env, st, f);
    if b.More? && r.Ok? { MoreFuelSequence(b.rest, env, st1, f, g); }
  }

  lemma {:induction false} MoreFuelValues(es: List<Exp>, env: Env, st: St, f: nat, g: nat)
    requires f <= g && !ListOfValues(es, env, st, f).0.Timeout?
    ensures ListOfValues(es, env, st, g) == ListOfValues(es, env, st, f)
    decreases f, ListSize(es)
  {
    if es.Cons? {
      MoreFuel(es.head, env, st, f, g);
      var (r, st1) := Eval(es.head, env, st, f);
      if r.Ok? { MoreFuelValues(es.tail, env, st1, f, g); }
    }
  }

  lemma {:induction false} MoreFuelApply(p: V, args: List<V>, st: St, f: nat, g: nat)
    requires f <= g && !Apply(p, args, st, f).0.Timeout?
    ensures Apply(p, args, st, g) == Apply(p, args, st, f)
    decreases f, 0
  {
    if p.Obj? && Length(p.c.params) == Length(args) {
      MoreFuelSequence(p.c.body, Cons(|st|, p.c.env), st + [Zip(p.c.params, args)], f - 1, g - 1);
    }
  }

  // ----- what `cond` means -----

  /** The first clause whose test is true, in R5RS section 4.2.1: no if, no begin. When none
      is, the answer is the value of the variable `false`. */
  function FirstTrue(cs: Clauses, env: Env, st: St, fuel: nat): (Result<V>, St)
    decreases fuel, ClausesSize(cs)
  {
    match cs
    case NoClause => (Lookup("false", env, st), st)
    case Else(b) => EvalSequence(b, env, st, fuel)
    case Clause(p, b, rest) =>
      var (r, st1) := Eval(p, env, st, fuel);
      if !r.Ok? then (r, st1)
      else if True(r.value) then EvalSequence(b, env, st1, fuel)
      else FirstTrue(rest, env, st1, fuel)
  }

  lemma {:induction false} SequenceToExpMeaning(b: Body, env: Env, st: St, fuel: nat)
    ensures Eval(SequenceToExp(b), env, st, fuel) == EvalSequence(b, env, st, fuel)
  {
  }

  lemma {:induction false} CondTakesFirstTrue(cs: Clauses, env: Env, st: St, fuel: nat)
    ensures Eval(Cond(cs), env, st, fuel) == FirstTrue(cs, env, st, fuel)
    decreases cs
  {
    match cs
    case NoClause =>
    case Else(b) => SequenceToExpMeaning(b, env, st, fuel);
    case Clause(p, b, rest) =>
      var (r, st1) := Eval(p, env, st, fuel);
      SequenceToExpMeaning(b, env, st1, fuel);
      assert Eval(Cond(cs), env, st, fuel) == Eval(If(p, SequenceToExp(b), CondToIf(rest)), env, st, fuel);
      if r.Ok? && !True(r.value) {
        CondTakesFirstTrue(rest, env, st1, fuel);
        assert Eval(CondToIf(rest), env, st1, fuel) == FirstTrue(rest, env, st1, fuel);
      }
  }
}
