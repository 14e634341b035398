/** Call by name without a store: an environment is a list of frames of values, a thunk is an
    expression with its environment, and forcing it evaluates the expression again. Only the
    global frame is known by name, so that its procedures can refer to themselves; it does not
    change while a program without set! and define runs. */
module ByName {
  import opened Scheme
  import opened LazySyntax

  datatype Object = Proc(params: List<Param>, body: Body, env: PEnv) | Thunk(exp: Exp, env: PEnv)
  type V = Value<Object>
  datatype PFrame = Local(frame: Frame<Object>) | Global
  type PEnv = List<PFrame>

  function Bindings(f: PFrame, globals: Frame<Object>): Frame<Object> {
    match f
    case Local(frame) => frame
    case Global => globals
  }

  function Find(x: Name, env: PEnv, globals: Frame<Object>): (r: Result<V>)
    ensures !r.Timeout?
  {
    match env
    case Nil => Err(UnboundVariable(x))
    case Cons(f, rest) =>
      match Scan(x, Bindings(f, globals))
      case Missing => Find(x, rest, globals)
      case Found(v) => if v == Sym("*unassigned*") then Err(UnassignedVariable(x)) else Ok(v)
  }

  /** set! and define have no meaning here. */
  function Eval(e: Exp, env: PEnv, globals: Frame<Object>, fuel: nat): Result<V>
    decreases fuel, Size(e), 0
  {
    match e
    case Self(d) => Ok(FromDatum(d))
    case Var(x) => Find(x, env, globals)
    case Quote(d) => Ok(FromDatum(d))
    case Assign(x, _) => Err(UnboundSet(x))
    case Define(x, _) => Err(UnboundSet(x))
    case If(p, c, a) =>
      var r := ActualValue(p, env, globals, fuel);
      if !r.Ok? then r else if True(r.value) then Eval(c, env, globals, fuel) else Eval(a, env, globals, fuel)
    case Lambda(ps, b) => Ok(Obj(Proc(ps, b, env)))
    case Begin(b) => EvalBody(b, env, globals, fuel)
    case Cond(cs) => FirstTrue(cs, env, globals, fuel)
    case App(f, es) =>
      var r := ActualValue(f, env, globals, fuel);
      if !r.Ok? then r else Apply(r.value, es, env, globals, fuel)
  }

  /** The value of e, forced until it is no thunk. */
  function ActualValue(e: Exp, env: PEnv, globals: Frame<Object>, fuel: nat): Result<V>
    decreases fuel, Size(e), 1
  {
    var r := Eval(e, env, globals, fuel);
    if !r.Ok? then r else Force(r.value, globals, fuel)
  }

  function Force(v: V, globals: Frame<Object>, fuel: nat): Result<V>
    decreases fuel, 0, 0
  {
    if !(v.Obj? && v.c.Thunk?) then Ok(v)
    else if fuel == 0 then Timeout
    else ActualValue(v.c.exp, v.c.env, globals, fuel - 1)
  }

  function EvalBody(b: Body, env: PEnv, globals: Frame<Object>, fuel: nat): Result<V>
    decreases fuel, BodySize(b), 0
  {
    match b
    case Last(e) => Eval(e, env, globals, fuel)
    case More(e, rest) =>
      var r := Eval(e, env, globals, fuel);
      if !r.Ok? then r else EvalBody(rest, env, globals, fuel)
  }

  function FirstTrue(cs: Clauses, env: PEnv, globals: Frame<Object>, fuel: nat): Result<V>
    decreases fuel, ClausesSize(cs), 0
  {
    match cs
    case NoClause => Find("false", env, globals)
    case Else(b) => EvalBody(b, env, globals, fuel)
    case Clause(p, b, rest) =>
      var r := ActualValue(p, env, globals, fuel);
      if !r.Ok? then r
      else if True(r.value) then EvalBody(b, env, globals, fuel)
      else FirstTrue(rest, env, globals, fuel)
  }

  function Apply(p: V, es: List<Exp>, env: PEnv, globals: Frame<Object>, fuel: nat): Result<V>
    decreases fuel, ListSize(es), 2
  {
    match p
    case Primitive(op) =>
      (match Values(es, env, globals, fuel)
       case Ok(vs) => ApplyPrimitive(op, vs)
       case Err(e) => Err(e)
       case Timeout => Timeout)
    case Obj(Proc(ps, b, penv)) =>
      (match Args(ps, es, env, globals, fuel)
       case Err(e) => Err(e)
       case Timeout => Timeout
       case Ok(vs) =>
         if fuel == 0 then Timeout
         else if Length(vs) < Length(ps) then Err(TooFewArguments)
         else EvalBody(b, Cons(Local(Zip(StripParameters(ps), vs)), penv), globals, fuel - 1))
    case _ => Err(UnknownProcedure)
  }

  function Values(es: List<Exp>, env: PEnv, globals: Frame<Object>, fuel: nat): Result<List<V>>
    decreases fuel, ListSize(es), 0
  {
    match es
    case Nil => Ok(Nil)
    case Cons(e, rest) =>
      match ActualValue(e, env, globals, fuel)
      case Err(err) => Err(err)
      case Timeout => Timeout
      case Ok(v) => ConsTo(v, Values(rest, env, globals, fuel))
  }

  function ConsTo(v: V, rs: Result<List<V>>): Result<List<V>> {
    match rs
    case Ok(vs) => Ok(Cons(v, vs))
    case Err(e) => Err(e)
    case Timeout => Timeout
  }

  function Arg(m: Mode, e: Exp, env: PEnv, globals: Frame<Object>, fuel: nat): Result<V>
    decreases fuel, Size(e), 2
  {
    if m.Strict? then ActualValue(e, env, globals, fuel) else Ok(Obj(Thunk(e, env)))
  }

  function Args(ps: List<Param>, es: List<Exp>, env: PEnv, globals: Frame<Object>, fuel: nat): Result<List<V>>
    decreases fuel, ListSize(es), 1
  {
    match es
    case Nil => Ok(Nil)
    case Cons(e, rest) =>
      if ps.Nil? then Err(BadArguments) else
        match Arg(ps.head.mode, e, env, globals, fuel)
        case Err(err) => Err(err)
        case Timeout => Timeout
        case Ok(v) => ConsTo(v, Args(ps.tail, rest, env, globals, fuel))
  }

  // ----- more fuel never changes an answer -----

  lemma {:induction false} MoreFuel(e: Exp, env: PEnv, globals: Frame<Object>, f: nat, g: nat)
    requires f <= g && !Eval(e, env, globals, f).Timeout?
    ensures Eval(e, env, globals, g) == Eval(e, env, globals, f)
    decreases f, Size(e), 0
  {
    match e
    case If(p, c, a) =>
      MoreFuelValue(p, env, globals, f, g);
      var r := ActualValue(p, env, globals, f);
      if r.Ok? {
        if True(r.value) { MoreFuel(c, env, globals, f, g); } else { MoreFuel(a, env, globals, f, g); }
      }
    case Begin(b) => MoreFuelBody(b, env, globals, f, g);
    case Cond(cs) => MoreFuelClauses(cs, env, globals, f, g);
    case App(h, es) =>
      MoreFuelValue(h, env, globals, f, g);
      var r := ActualValue(h, env, globals, f);
      if r.Ok? { MoreFuelApply(r.value, es, env, globals, f, g); }
    case _ =>
  }

  lemma {:induction false} MoreFuelValue(e: Exp, env: PEnv, globals: Frame<Object>, f: nat, g: nat)
    requires f <= g && !ActualValue(e, env, globals, f).Timeout?
    ensures ActualValue(e, env, globals, g) == ActualValue(e, env, globals, f)
    decreases f, Size(e), 1
  {
    MoreFuel(e, env, globals, f, g);
    var r := Eval(e, env, globals, f);
    if r.Ok? { MoreFuelForce(r.value, globals, f, g); }
  }

  lemma {:induction false} MoreFuelForce(v: V, globals: Frame<Object>, f: nat, g: nat)
    requires f <= g && !Force(v, globals, f).Timeout?
    ensures Force(v, globals, g) == Force(v, globals, f)
    decreases f, 0, 0
  {
    if v.Obj? && v.c.Thunk? { MoreFuelValue(v.c.exp, v.c.env, globals, f - 1, g - 1); }
  }

  lemma {:induction false} MoreFuelBody(b: Body, env: PEnv, globals: Frame<Object>, f: nat, g: nat)
    requires f <= g && !EvalBody(b, env, globals, f).Timeout?
    ensures EvalBody(b, env, globals, g) == EvalBody(b, env, globals, f)
    decreases f, BodySize(b), 0
  {
    MoreFuel(b.exp, env, globals, f, g);
    if b.More? && Eval(b.exp, env, globals, f).Ok? { MoreFuelBody(b.rest, env, globals, f, g); }
  }

  lemma {:induction false} MoreFuelClauses(cs: Clauses, env: PEnv, globals: Frame<Object>, f: nat, g: nat)
    requires f <= g && !FirstTrue(cs, env, globals, f).Timeout?
    ensures FirstTrue(cs, env, globals, g) == FirstTrue(cs, env, globals, f)
    decreases f, ClausesSize(cs), 0
  {
    match cs
    case NoClause =>
    case Else(b) => MoreFuelBody(b, env, globals, f, g);
    case Clause(p, b, rest) =>
      MoreFuelValue(p, env, globals, f, g);
      var r := ActualValue(p, env, globals, f);
      if r.Ok? {
        if True(r.value) { MoreFuelBody(b, env, globals, f, g); } else { MoreFuelClauses(rest, env, globals, f, g); }
      }
  }

  lemma {:induction false} MoreFuelApply(p: V, es: List<Exp>, env: PEnv, globals: Frame<Object>, f: nat, g: nat)
    requires f <= g && !Apply(p, es, env, globals, f).Timeout?
    ensures Apply(p, es, env, globals, g) == Apply(p, es, env, globals, f)
    decreases f, ListSize(es), 2
  {
    match p
    case Primitive(op) => MoreFuelValues(es, env, globals, f, g);
    case Obj(Proc(ps, b, penv)) =>
      MoreFuelArgs(ps, es, env, globals, f, g);
      var rs := Args(ps, es, env, globals, f);
      if rs.Ok? && Length(ps) <= Length(rs.value) {
        MoreFuelBody(b, Cons(Local(Zip(StripParameters(ps), rs.value)), penv), globals, f - 1, g - 1);
      }
    case _ =>
  }

  lemma {:induction false} MoreFuelValues(es: List<Exp>, env: PEnv, globals: Frame<Object>, f: nat, g: nat)
    requires f <= g && !Values(es, env, globals, f).Timeout?
    ensures Values(es, env, globals, g) == Values(es, env, globals, f)
    decreases f, ListSize(es), 0
  {
    if es.Cons? {
      MoreFuelValue(es.head, env, globals, f, g);
      if ActualValue(es.head, env, globals, f).Ok? { MoreFuelValues(es.tail, env, globals, f, g); }
    }
  }

  lemma {:induction false} MoreFuelArg(m: Mode, e: Exp, env: PEnv, globals: Frame<Object>, f: nat, g: nat)
    requires f <= g && !Arg(m, e, env, globals, f).Timeout?
    ensures Arg(m, e, env, globals, g) == Arg(m, e, env, globals, f)
    decreases f, Size(e), 2
  {
    if m.Strict? { MoreFuelValue(e, env, globals, f, g); }
  }

  lemma {:induction false} MoreFuelArgs(ps: List<Param>, es: List<Exp>, env: PEnv, globals: Frame<Object>, f: nat,
                                        g: nat)
    requires f <= g && !Args(ps, es, env, globals, f).Timeout?
    ensures Args(ps, es, env, globals, g) == Args(ps, es, env, globals, f)
    decreases f, ListSize(es), 1
  {
    if es.Cons? && ps.Cons? {
      MoreFuelArg(ps.head.mode, es.head, env, globals, f, g);
      if Arg(ps.head.mode, es.head, env, globals, f).Ok? { MoreFuelArgs(ps.tail, es.tail, env, globals, f, g); }
    }
  }

  // ----- the answers of the parts, each found with its own fuel, give the answer of the whole -----

  function Max(a: nat, b: nat): nat { if a < b then b else a }

  lemma {:induction false} IfParts(p: Exp, c: Exp, a: Exp, env: PEnv, globals: Frame<Object>, v: V, k1: nat, k2: nat)
    requires ActualValue(p, env, globals, k1) == Ok(v) && !Eval(if True(v) then c else a, env, globals, k2).Timeout?
    ensures Eval(If(p, c, a), env, globals, Max(k1, k2)) == Eval(if True(v) then c else a, env, globals, k2)
  {
    MoreFuelValue(p, env, globals, k1, Max(k1, k2));
    MoreFuel(if True(v) then c else a, env, globals, k2, Max(k1, k2));
  }

  lemma {:induction false} AppParts(h: Exp, es: List<Exp>, env: PEnv, globals: Frame<Object>, v: V, k1: nat, k2: nat)
    requires ActualValue(h, env, globals, k1) == Ok(v) && !Apply(v, es, env, globals, k2).Timeout?
    ensures Eval(App(h, es), env, globals, Max(k1, k2)) == Apply(v, es, env, globals, k2)
  {
    MoreFuelValue(h, env, globals, k1, Max(k1, k2));
    MoreFuelApply(v, es, env, globals, k2, Max(k1, k2));
  }

  lemma {:induction false} ValueParts(e: Exp, env: PEnv, globals: Frame<Object>, v: V, k1: nat, k2: nat)
    requires Eval(e, env, globals, k1) == Ok(v) && !Force(v, globals, k2).Timeout?
    ensures ActualValue(e, env, globals, Max(k1, k2)) == Force(v, globals, k2)
  {
    MoreFuel(e, env, globals, k1, Max(k1, k2));
    MoreFuelForce(v, globals, k2, Max(k1, k2));
  }

  lemma {:induction false} BodyParts(b: Body, env: PEnv, globals: Frame<Object>, k1: nat, k2: nat)
    requires b.More? && Eval(b.exp, env, globals, k1).Ok? && !EvalBody(b.rest, env, globals, k2).Timeout?
    ensures EvalBody(b, env, globals, Max(k1, k2)) == EvalBody(b.rest, env, globals, k2)
  {
    MoreFuel(b.exp, env, globals, k1, Max(k1, k2));
    MoreFuelBody(b.rest, env, globals, k2, Max(k1, k2));
  }

  lemma {:induction false} ValuesParts(e: Exp, es: List<Exp>, env: PEnv, globals: Frame<Object>, v: V, k1: nat, k2: nat)
    requires ActualValue(e, env, globals, k1) == Ok(v) && !Values(es, env, globals, k2).Timeout?
    ensures Values(Cons(e, es), env, globals, Max(k1, k2)) == ConsTo(v, Values(es, env, globals, k2))
  {
    MoreFuelValue(e, env, globals, k1, Max(k1, k2));
    MoreFuelValues(es, env, globals, k2, Max(k1, k2));
  }

  lemma {:induction false} ArgsParts(p: Param, ps: List<Param>, e: Exp, es: List<Exp>, env: PEnv,
                                     globals: Frame<Object>, v: V, k1: nat, k2: nat)
    requires Arg(p.mode, e, env, globals, k1) == Ok(v) && !Args(ps, es, env, globals, k2).Timeout?
    ensures Args(Cons(p, ps), Cons(e, es), env, globals, Max(k1, k2)) == ConsTo(v, Args(ps, es, env, globals, k2))
  {
    MoreFuelArg(p.mode, e, env, globals, k1, Max(k1, k2));
    MoreFuelArgs(ps, es, env, globals, k2, Max(k1, k2));
  }

  lemma {:induction false} CallParts(ps: List<Param>, b: Body, penv: PEnv, es: List<Exp>, env: PEnv,
                                     globals: Frame<Object>, vs: List<V>, k1: nat, k2: nat)
    requires Args(ps, es, env, globals, k1) == Ok(vs) && Length(ps) <= Length(vs)
    requires !EvalBody(b, Cons(Local(Zip(StripParameters(ps), vs)), penv), globals, k2).Timeout?
    ensures Apply(Obj(Proc(ps, b, penv)), es, env, globals, Max(k1, k2 + 1)) ==
            EvalBody(b, Cons(Local(Zip(StripParameters(ps), vs)), penv), globals, k2)
  {
    MoreFuelArgs(ps, es, env, globals, k1, Max(k1, k2 + 1));
    MoreFuelBody(b, Cons(Local(Zip(StripParameters(ps), vs)), penv), globals, k2, Max(k1, k2 + 1) - 1);
  }

  lemma {:induction false} CallFails(ps: List<Param>, b: Body, penv: PEnv, es: List<Exp>, env: PEnv,
                                     globals: Frame<Object>, vs: List<V>, k: nat)
    requires Args(ps, es, env, globals, k) == Ok(vs) && Length(vs) < Length(ps)
    ensures Apply(Obj(Proc(ps, b, penv)), es, env, globals, k + 1) == Err(TooFewArguments)
  {
    MoreFuelArgs(ps, es, env, globals, k, k + 1);
  }

  // ----- cond -----

  lemma {:induction false} SequenceMeaning(b: Body, env: PEnv, globals: Frame<Object>, fuel: nat)
    ensures Eval(SequenceToExp(b), env, globals, fuel) == EvalBody(b, env, globals, fuel)
  {
  }

  lemma {:induction false} CondMeaning(cs: Clauses, env: PEnv, globals: Frame<Object>, fuel: nat)
    ensures Eval(CondToIf(cs), env, globals, fuel) == FirstTrue(cs, env, globals, fuel)
    decreases cs
  {
    match cs
    case NoClause =>
    case Else(b) => SequenceMeaning(b, env, globals, fuel);
    case Clause(p, b, rest) =>
      SequenceMeaning(b, env, globals, fuel);
      CondMeaning(rest, env, globals, fuel);
  }
}
