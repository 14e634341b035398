/** The analysing evaluator: `analyze` turns an expression into an execution procedure once,
    and running it never looks at the expression again. The closures that `analyze` returns
    are the constructors of `Code`. */
module Analyzer {
  import opened Scheme
  import opened Syntax
  import Interp

  datatype Code =
    | Const(d: Datum) | VarRef(x: Name)
    | AssignTo(x: Name, rhs: Code) | DefineAs(x: Name, rhs: Code)
    | Branch(pred: Code, conseq: Code, alt: Code)
    | MakeProc(params: List<Name>, body: Code)
    | Sequentially(first: Code, second: Code)
    | Call(operator: Code, operands: List<Code>)

  datatype Proc = Proc(params: List<Name>, body: Code, env: Env)
  type V = Value<Proc>
  type St = Store<Proc>

  function Analyze(e: Exp): Code
    decreases Size(e)
  {
    match e
    case Self(d) => Const(d)
    case Var(x) => VarRef(x)
    case Quote(d) => Const(d)
    case Assign(x, r) => AssignTo(x, Analyze(r))
    case Define(x, r) => DefineAs(x, Analyze(r))
    case If(p, c, a) => Branch(Analyze(p), Analyze(c), Analyze(a))
    case Lambda(ps, b) => MakeProc(ps, AnalyzeSequence(b))
    case Begin(b) => AnalyzeSequence(b)
    case Cond(cs) => Analyze(CondToIf(cs))
    case App(f, es) => Call(Analyze(f), AnalyzeAll(es))
  }

  function AnalyzeAll(es: List<Exp>): List<Code>
    decreases ListSize(es)
  {
    match es
    case Nil => Nil
    case Cons(e, t) => Cons(Analyze(e), AnalyzeAll(t))
  }

  function AnalyzeSequence(b: Body): Code
    decreases BodySize(b)
  {
    match b
    case Last(e) => Analyze(e)
    case More(e, rest) => Loop(Analyze(e), AnalyzeRest(rest))
  }

  function AnalyzeRest(b: Body): List<Code>
    decreases BodySize(b)
  {
    match b
    case Last(e) => Cons(Analyze(e), Nil)
    case More(e, rest) => Cons(Analyze(e), AnalyzeRest(rest))
  }

  /** Chains the procedures of a sequence to the left. */
  function Loop(first: Code, rest: List<Code>): Code
    decreases rest
  {
    match rest
    case Nil => first
    case Cons(c, t) => Loop(Sequentially(first, c), t)
  }

  function Exec(c: Code, env: Env, st: St, fuel: nat): (Result<V>, St)
    decreases fuel, 1, c
  {
    match c
    case Const(d) => (Ok(FromDatum(d)), st)
    case VarRef(x) => (Lookup(x, env, st), st)
    case AssignTo(x, rhs) =>
      var (r, st1) := Exec(rhs, env, st, fuel);
      if !r.Ok? then (r, st1) else
        (match SetVariable(x, r.value, env, st1)
         case Ok(st2) => (Ok(Sym("ok")), st2)
         case Err(err) => (Err(err), st1)
         case Timeout => (Timeout, st1))
    case DefineAs(x, rhs) =>
      var (r, st1) := Exec(rhs, env, st, fuel);
      if !r.Ok? then (r, st1) else (Ok(Sym("ok")), DefineVariable(x, r.value, env, st1))
    case Branch(p, c, a) =>
      var (r, st1) := Exec(p, env, st, fuel);
      if !r.Ok? then (r, st1)
      else if True(r.value) then Exec(c, env, st1, fuel) else Exec(a, env, st1, fuel)
    case MakeProc(ps, b) => (Ok(Obj(Proc(ps, b, env))), st)
    case Sequentially(p1, p2) =>
      var (r, st1) := Exec(p1, env, st, fuel);
      if !r.Ok? then (r, st1) else Exec(p2, env, st1, fuel)
    case Call(f, cs) =>
      var (r, st1) := Exec(f, env, st, fuel);
      if !r.Ok? then (r, st1) else
        var (rs, st2) := ExecAll(cs, env, st1, fuel);
        match rs
        case Err(err) => (Err(err), st2)
        case Timeout => (Timeout, st2)
        case Ok(vs) => ExecuteApplication(r.value, vs, st2, fuel)
  }

  function ExecAll(cs: List<Code>, env: Env, st: St, fuel: nat): (Result<List<V>>, St)
    decreases fuel, 1, cs
  {
    match cs
    case Nil => (Ok(Nil), st)
    case Cons(c, rest) =>
      var (r, st1) := Exec(c, env, st, fuel);
      match r
      case Err(err) => (Err(err), st1)
      case Timeout => (Timeout, st1)
      case Ok(v) =>
        var (rs, st2) := ExecAll(rest, env, st1, fuel);
        (match rs
         case Err(err) => (Err(err), st2)
         case Timeout => (Timeout, st2)
         case Ok(vs) => (Ok(Cons(v, vs)), st2))
  }

  function ExecuteApplication(p: V, args: List<V>, st: St, fuel: nat): (Result<V>, St)
    decreases fuel, 0
  {
    match p
    case Primitive(op) => (ApplyPrimitive(op, args), st)
    case Obj(Proc(ps, b, env)) =>
      if fuel == 0 then (Timeout, st) else
        (match Extend(ps, args, st)
         case Ok(st1) => Exec(b, Cons(|st|, env), st1, fuel - 1)
         case Err(err) => (Err(err), st)
         case Timeout => (Timeout, st))
    case _ => (Err(UnknownProcedure), st)
  }

  // ----- analysis preserves meaning -----

  /** The analysed counterpart of a procedure keeps its parameters and its environment. */
  function AnalyzeProc(p: Interp.Proc): Proc {
    Proc(p.params, AnalyzeSequence(p.body), p.env)
  }

  function AnalyzeStore(st: Interp.St): St { MapStore(AnalyzeProc, st) }

  function Lift(r: (Result<Interp.V>, Interp.St)): (Result<V>, St) {
    (MapResult(AnalyzeProc, r.0), AnalyzeStore(r.1))
  }

  /** A left-nested chain runs like its elements one after the other. */
  function ExecInOrder(first: Code, rest: List<Code>, env: Env, st: St, fuel: nat): (Result<V>, St)
    decreases rest
  {
    match rest
    case Nil => Exec(first, env, st, fuel)
    case Cons(c, t) =>
      var (r, st1) := Exec(first, env, st, fuel);
      if !r.Ok? then (r, st1) else ExecInOrder(c, t, env, st1, fuel)
  }

  lemma {:induction false} LoopRunsInOrder(first: Code, rest: List<Code>, env: Env, st: St, fuel: nat)
    ensures Exec(Loop(first, rest), env, st, fuel) == ExecInOrder(first, rest, env, st, fuel)
    decreases rest
  {
    if rest.Cons? {
      LoopRunsInOrder(Sequentially(first, rest.head), rest.tail, env, st, fuel);
    }
  }

  /** Running the analysed expression gives the value or error of the direct evaluator, and its store. */
  lemma {:induction false} ExecAgrees(e: Exp, env: Env, st: Interp.St, fuel: nat)
    ensures Exec(Analyze(e), env, AnalyzeStore(st), fuel) == Lift(Interp.Eval(e, env, st, fuel))
    decreases fuel, Size(e)
  {
    match e
    case Self(d) => MapFromDatum(AnalyzeProc, d);
    case Var(x) => MapLookup(AnalyzeProc, x, env, st);
    case Quote(d) => MapFromDatum(AnalyzeProc, d);
    case Assign(x, rhs) =>
      ExecAgrees(rhs, env, st, fuel);
      var (r, st1) := Interp.Eval(rhs, env, st, fuel);
      if r.Ok? { MapSetVariable(AnalyzeProc, x, r.value, env, st1); }
    case Define(x, rhs) =>
      ExecAgrees(rhs, env, st, fuel);
      var (r, st1) := Interp.Eval(rhs, env, st, fuel);
      if r.Ok? { MapDefineVariable(AnalyzeProc, x, r.value, env, st1); }
    case If(p, c, a) =>
      ExecAgrees(p, env, st, fuel);
      var (r, st1) := Interp.Eval(p, env, st, fuel);
      ExecAgrees(c, env, st1, fuel);
      ExecAgrees(a, env, st1, fuel);
    case Lambda(ps, b) =>
    case Begin(b) => SequenceAgrees(b, env, st, fuel);
    case Cond(cs) => ExecAgrees(CondToIf(cs), env, st, fuel);
    case App(f, es) =>
      ExecAgrees(f, env, st, fuel);
      var (r, st1) := Interp.Eval(f, env, st, fuel);
      ArgumentsAgree(es, env, st1, fuel);
      var (rs, st2) := Interp.ListOfValues(es, env, st1, fuel);
      if r.Ok? && rs.Ok? { ApplyAgrees(r.value, rs.value, st2, fuel); }
  }

  lemma {:induction false} SequenceAgrees(b: Body, env: Env, st: Interp.St, fuel: nat)
    ensures Exec(AnalyzeSequence(b), env, AnalyzeStore(st), fuel) == Lift(Interp.EvalSequence(b, env, st, fuel))
    decreases fuel, BodySize(b), 1
  {
    match b
    case Last(e) => ExecAgrees(e, env, st, fuel);
    case More(e, rest) =>
      LoopRunsInOrder(Analyze(e), AnalyzeRest(rest), env, AnalyzeStore(st), fuel);
      InOrderAgrees(b, env, st, fuel);
  }

  lemma {:induction false} InOrderAgrees(b: Body, env: Env, st: Interp.St, fuel: nat)
    ensures ExecInOrder(AnalyzeRest(b).head, AnalyzeRest(b).tail, env, AnalyzeStore(st), fuel) ==
            Lift(Interp.EvalSequence(b, env, st, fuel))
    decreases fuel, BodySize(b), 0
  {
    ExecAgrees(b.exp, env, st, fuel);
    if b.More? {
      var (r, st1) := Interp.Eval(b.exp, env, st, fuel);
      InOrderAgrees(b.rest, env, st1, fuel);
    }
  }

  lemma {:induction false} ArgumentsAgree(es: List<Exp>, env: Env, st: Interp.St, fuel: nat)
    ensures var (rs, st') := Interp.ListOfValues(es, env, st, fuel);
            ExecAll(AnalyzeAll(es), env, AnalyzeStore(st), fuel) ==
            (MapListResult(AnalyzeProc, rs), AnalyzeStore(st'))
    decreases fuel, ListSize(es)
  {
    if es.Cons? {
      ExecAgrees(es.head, env, st, fuel);
      var (r, st1) := Interp.Eval(es.head, env, st, fuel);
      if r.Ok? { ArgumentsAgree(es.tail, env, st1, fuel); }
    }
  }

  lemma {:induction false} ApplyAgrees(p: Interp.V, args: List<Interp.V>, st: Interp.St, fuel: nat)
    ensures ExecuteApplication(MapValue(AnalyzeProc, p), MapValues(AnalyzeProc, args), AnalyzeStore(st), fuel) ==
            Lift(Interp.Apply(p, args, st, fuel))
    decreases fuel, 0
  {
    match p
    case Primitive(op) => MapPrimitive(AnalyzeProc, op, args);
    case Obj(q) =>
      MapExtend(AnalyzeProc, q.params, args, st);
      if fuel > 0 && Length(q.params) == Length(args) {
        SequenceAgrees(q.body, Cons(|st|, q.env), st + [Zip(q.params, args)], fuel - 1);
      }
    case _ =>
  }
}
