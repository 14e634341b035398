/** The backtracking evaluator as it is written: expressions are analysed once, execution
    procedures take a success and a failure continuation, the store is updated in place,
    and a failure continuation undoes the assignments made since the choice it returns to. */
module Amb {
  import opened Scheme
  import opened AmbSyntax
  import opened AmbReference

  datatype Code =
    | Const(d: Datum) | VarRef(x: Name)
    | AssignTo(x: Name, rhs: Code) | DefineAs(x: Name, rhs: Code)
    | Choose(choices: List<Code>)
    | Branch(pred: Code, conseq: Code, alt: Code)
    | MakeProc(params: List<Name>, body: Code)
    | Sequentially(first: Code, second: Code)
    | Call(operator: Code, operands: List<Code>)

  datatype CProc = CProc(params: List<Name>, body: Code, env: Env)
  type CV = Value<CProc>
  type CSt = Store<CProc>

  // ----- analysis -----

  function Analyze(e: Exp): Code
    decreases Size(e)
  {
    match e
    case Self(d) => Const(d)
    case Var(x) => VarRef(x)
    case Quote(d) => Const(d)
    case Assign(x, r) => AssignTo(x, Analyze(r))
    case Define(x, r) => DefineAs(x, Analyze(r))
    case Amb(es) => Choose(AnalyzeAll(es))
    case If(p, c, a) => Branch(Analyze(p), Analyze(c), Analyze(a))
    case Let(bs, b) => Analyze(LetToCombination(bs, b))
    case LetStar(bs, b) => Analyze(LetStarToLets(bs, b))
    case Lambda(ps, b) => MakeProc(ps, AnalyzeSequence(b))
    case Begin(b) => AnalyzeSequence(b)
    case Cond(cs) => Analyze(CondToIf(cs))
    case App(f, es) => Call(Analyze(f), AnalyzeAll(es))
  }

  function AnalyzeAll(es: List<Exp>): List<Code>
    decreases ListSize(es)
  {
    match es
    case Nil => Nil
    case Cons(e, t) => Cons(Analyze(e), AnalyzeAll(t))
  }

  function AnalyzeSequence(b: Body): Code
    decreases BodySize(b)
  {
    match b
    case Last(e) => Analyze(e)
    case More(e, rest) => Loop(Analyze(e), AnalyzeRest(rest))
  }

  function AnalyzeRest(b: Body): List<Code>
    decreases BodySize(b)
  {
    match b
    case Last(e) => Cons(Analyze(e), Nil)
    case More(e, rest) => Cons(Analyze(e), AnalyzeRest(rest))
  }

  function Loop(first: Code, rest: List<Code>): Code
    decreases rest
  {
    match rest
    case Nil => first
    case Cons(c, t) => Loop(Sequentially(first, c), t)
  }

  function CodeSize(c: Code): nat {
    match c
    case AssignTo(_, r) => 1 + CodeSize(r)
    case DefineAs(_, r) => 1 + CodeSize(r)
    case Choose(cs) => 1 + CodesSize(cs)
    case Branch(p, c1, c2) => 1 + CodeSize(p) + CodeSize(c1) + CodeSize(c2)
    case Sequentially(a, b) => 1 + CodeSize(a) + CodeSize(b)
    case Call(f, cs) => 1 + CodeSize(f) + CodesSize(cs)
    case _ => 1
  }

  function CodesSize(cs: List<Code>): nat {
    match cs
    case Nil => 0
    case Cons(c, t) => 1 + CodeSize(c) + CodesSize(t)
  }

  // ----- execution -----

  /** What the driver shows: a procedure is printed without its environment. */
  type Shown = Value<List<Name>>
  type Obs = Outcome<Shown>
  type Fail = CSt -> Obs
  type Succ = (CV, CSt, Fail) -> Obs
  type ListSucc = (List<CV>, CSt, Fail) -> Obs

  function Exec(c: Code, env: Env, st: CSt, succ: Succ, fail: Fail, fuel: nat): Obs
    decreases fuel, CodeSize(c), 1
  {
    match c
    case Const(d) => succ(FromDatum(d), st, fail)
    case VarRef(x) =>
      (match Lookup(x, env, st)
       case Ok(v) => succ(v, st, fail)
       case Err(e) => Stop(e)
       case Timeout => Outcome(Nil, OutOfFuel))
    case AssignTo(x, rhs) => Exec(rhs, env, st, AssignSucc(x, env, succ), fail, fuel)
    case DefineAs(x, rhs) => Exec(rhs, env, st, DefineSucc(x, env, succ), fail, fuel)
    case Choose(cs) => TryNext(cs, env, st, succ, fail, fuel)
    case Branch(p, c1, c2) => Exec(p, env, st, BranchSucc(c1, c2, env, succ, fuel), fail, fuel)
    case MakeProc(ps, b) => succ(Obj(CProc(ps, b, env)), st, fail)
    case Sequentially(p1, p2) => Exec(p1, env, st, SequenceSucc(p2, env, succ, fuel), fail, fuel)
    case Call(f, cs) => Exec(f, env, st, OperatorSucc(cs, env, succ, fuel), fail, fuel)
  }

  function AssignSucc(x: Name, env: Env, succ: Succ): Succ {
    (v: CV, st: CSt, fail2: Fail) =>
      match Lookup(x, env, st)
      case Err(e) => Stop(e)
      case Timeout => Outcome(Nil, OutOfFuel)
      case Ok(existing) =>
        match SetVariable(x, v, env, st)
        case Ok(st') => succ(Sym("ok"), st', Undo(x, existing, env, fail2))
        case Err(e) => Stop(e)
        case Timeout => Outcome(Nil, OutOfFuel)
  }

  function Undo(x: Name, existing: CV, env: Env, fail2: Fail): Fail {
    (st: CSt) =>
      match SetVariable(x, existing, env, st)
      case Ok(st') => fail2(st')
      case Err(e) => Stop(e)
      case Timeout => Outcome(Nil, OutOfFuel)
  }

  /** A definition is not undone. */
  function DefineSucc(x: Name, env: Env, succ: Succ): Succ {
    (v: CV, st: CSt, fail2: Fail) => succ(Sym("ok"), DefineVariable(x, v, env, st), fail2)
  }

  function TryNext(cs: List<Code>, env: Env, st: CSt, succ: Succ, fail: Fail, fuel: nat): Obs
    decreases fuel, CodesSize(cs), 0
  {
    match cs
    case Nil => fail(st)
    case Cons(c, rest) => Exec(c, env, st, succ, Retry(rest, env, succ, fail, fuel), fuel)
  }

  /** Failing into a choice tries the next one in whatever store the failure left. */
  function Retry(rest: List<Code>, env: Env, succ: Succ, fail: Fail, fuel: nat): Fail
    decreases fuel, CodesSize(rest), 1
  {
    (st: CSt) => TryNext(rest, env, st, succ, fail, fuel)
  }

  function BranchSucc(c1: Code, c2: Code, env: Env, succ: Succ, fuel: nat): Succ
    decreases fuel, CodeSize(c1) + CodeSize(c2), 2
  {
    (v: CV, st: CSt, fail2: Fail) =>
      if True(v) then Exec(c1, env, st, succ, fail2, fuel) else Exec(c2, env, st, succ, fail2, fuel)
  }

  function SequenceSucc(p2: Code, env: Env, succ: Succ, fuel: nat): Succ
    decreases fuel, CodeSize(p2), 2
  {
    (v: CV, st: CSt, fail2: Fail) => Exec(p2, env, st, succ, fail2, fuel)
  }

  function OperatorSucc(cs: List<Code>, env: Env, succ: Succ, fuel: nat): Succ
    decreases fuel, CodesSize(cs), 3
  {
    (proc: CV, st: CSt, fail2: Fail) => GetArgs(cs, env, st, OperandsSucc(proc, succ, fuel), fail2, fuel)
  }

  function OperandsSucc(proc: CV, succ: Succ, fuel: nat): ListSucc
    decreases fuel, 0, 2
  {
    (args: List<CV>, st: CSt, fail3: Fail) => ExecuteApplication(proc, args, st, succ, fail3, fuel)
  }

  function GetArgs(cs: List<Code>, env: Env, st: CSt, succ: ListSucc, fail: Fail, fuel: nat): Obs
    decreases fuel, CodesSize(cs), 0
  {
    match cs
    case Nil => succ(Nil, st, fail)
    case Cons(c, rest) => Exec(c, env, st, ArgSucc(rest, env, succ, fuel), fail, fuel)
  }

  function ArgSucc(rest: List<Code>, env: Env, succ: ListSucc, fuel: nat): Succ
    decreases fuel, CodesSize(rest), 1
  {
    (v: CV, st: CSt, fail2: Fail) => GetArgs(rest, env, st, ConsSucc(v, succ), fail2, fuel)
  }

  function ConsSucc(v: CV, succ: ListSucc): ListSucc {
    (args: List<CV>, st: CSt, fail3: Fail) => succ(Cons(v, args), st, fail3)
  }

  function ExecuteApplication(p: CV, args: List<CV>, st: CSt, succ: Succ, fail: Fail, fuel: nat): Obs
    decreases fuel, 0, 1
  {
    match p
    case Primitive(op) =>
      (match ApplyPrimitive(op, args)
       case Ok(v) => succ(v, st, fail)
       case Err(e) => Stop(e)
       case Timeout => Outcome(Nil, OutOfFuel))
    case Obj(CProc(ps, b, env)) =>
      if fuel == 0 then Outcome(Nil, OutOfFuel) else
        (match Extend(ps, args, st)
         case Ok(st') => Exec(b, Cons(|st|, env), st', succ, fail, fuel - 1)
         case Err(e) => Stop(e)
         case Timeout => Outcome(Nil, OutOfFuel))
    case _ => Stop(UnknownProcedure)
  }

  // ----- the driver -----

  function Show(v: CV): Shown { MapValue((p: CProc) => p.params, v) }

  /** Prints the value and, at the next try-again, continues with the alternative. */
  function DriverSucc(): Succ {
    (v: CV, st: CSt, next: Fail) => Append(One(Show(v)), next(st))
  }

  function DriverFail(): Fail {
    (st: CSt) => Outcome(Nil, NoMore)
  }

  /** Everything the driver prints for a problem when it is asked to try again until the end. */
  function Drive(e: Exp, env: Env, st: CSt, fuel: nat): Obs {
    Exec(Analyze(e), env, st, DriverSucc(), DriverFail(), fuel)
  }
}
