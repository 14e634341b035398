/** The evaluator with strict, lazy and lazy-memo parameters, as it is written: thunks are
    cells of the store, and forcing a memoised thunk overwrites its cell with the value.
    Operands are evaluated left to right. Fuel is spent on calls and on forcing thunks. */
module LazyInterp {
  import opened Scheme
  import opened LazySyntax

  datatype Object = Proc(params: List<Param>, body: Body, env: Env) | ThunkRef(t: nat)
  type V = Value<Object>

  datatype Cell = Thunk(exp: Exp, env: Env) | MemoizedThunk(exp: Exp, env: Env) | EvaluatedThunk(value: V)
  datatype State = State(frames: Store<Object>, thunks: seq<Cell>)

  function Eval(e: Exp, env: Env, st: State, fuel: nat): (Result<V>, State)
    decreases fuel, Size(e), 0
  {
    match e
    case Self(d) => (Ok(FromDatum(d)), st)
    case Var(x) => (Lookup(x, env, st.frames), st)
    case Quote(d) => (Ok(FromDatum(d)), st)
    case Assign(x, rhs) =>
      var (r, st1) := Eval(rhs, env, st, fuel);
      if !r.Ok? then (r, st1) else
        (match SetVariable(x, r.value, env, st1.frames)
         case Ok(frames) => (Ok(Sym("ok")), st1.(frames := frames))
         case Err(err) => (Err(err), st1)
         case Timeout => (Timeout, st1))
    case Define(x, rhs) =>
      var (r, st1) := Eval(rhs, env, st, fuel);
      if !r.Ok? then (r, st1) else (Ok(Sym("ok")), st1.(frames := DefineVariable(x, r.value, env, st1.frames)))
    case If(p, c, a) =>
      var (r, st1) := ActualValue(p, env, st, fuel);
      if !r.Ok? then (r, st1)
      else if True(r.value) then Eval(c, env, st1, fuel) else Eval(a, env, st1, fuel)
    case Lambda(ps, b) => (Ok(Obj(Proc(ps, b, env))), st)
    case Begin(b) => EvalSequence(b, env, st, fuel)
    case Cond(cs) => Eval(CondToIf(cs), env, st, fuel)
    case App(f, es) =>
      var (r, st1) := ActualValue(f, env, st, fuel);
      if !r.Ok? then (r, st1) else Apply(r.value, es, env, st1, fuel)
  }

  function ActualValue(e: Exp, env: Env, st: State, fuel: nat): (Result<V>, State)
    decreases fuel, Size(e), 1
  {
    var (r, st1) := Eval(e, env, st, fuel);
    if !r.Ok? then (r, st1) else ForceIt(r.value, st1, fuel)
  }

  function ForceIt(v: V, st: State, fuel: nat): (Result<V>, State)
    decreases fuel, 0, 0
  {
    if !(v.Obj? && v.c.ThunkRef? && v.c.t < |st.thunks|) then (Ok(v), st) else
      match st.thunks[v.c.t]
      case EvaluatedThunk(w) => (Ok(w), st)
      case Thunk(e, env) => if fuel == 0 then (Timeout, st) else ActualValue(e, env, st, fuel - 1)
      case MemoizedThunk(e, env) =>
        if fuel == 0 then (Timeout, st) else
          var (r, st1) := ActualValue(e, env, st, fuel - 1);
          if r.Ok? then (r, Memoize(v.c.t, r.value, st1)) else (r, st1)
  }

  function Memoize(t: nat, w: V, st: State): State {
    if t < |st.thunks| then st.(thunks := st.thunks[t := EvaluatedThunk(w)]) else st
  }

  function EvalSequence(b: Body, env: Env, st: State, fuel: nat): (Result<V>, State)
    decreases fuel, BodySize(b), 0
  {
    match b
    case Last(e) => Eval(e, env, st, fuel)
    case More(e, rest) =>
      var (r, st1) := Eval(e, env, st, fuel);
      if !r.Ok? then (r, st1) else EvalSequence(rest, env, st1, fuel)
  }

  function Apply(p: V, operands: List<Exp>, env: Env, st: State, fuel: nat): (Result<V>, State)
    decreases fuel, ListSize(operands), 2
  {
    match p
    case Primitive(op) =>
      var (rs, st1) := ListOfArgValues(operands, env, st, fuel);
      (match rs
       case Ok(vs) => (ApplyPrimitive(op, vs), st1)
       case Err(err) => (Err(err), st1)
       case Timeout => (Timeout, st1))
    case Obj(Proc(ps, b, penv)) =>
      var (rs, st1) := ListOfProcedureArgs(ps, operands, env, st, fuel);
      (match rs
       case Err(err) => (Err(err), st1)
       case Timeout => (Timeout, st1)
       case Ok(vs) =>
         if fuel == 0 then (Timeout, st1) else
           match Extend(StripParameters(ps), vs, st1.frames)
           case Ok(frames) => EvalSequence(b, Cons(|st1.frames|, penv), st1.(frames := frames), fuel - 1)
           case Err(err) => (Err(err), st1)
           case Timeout => (Timeout, st1))
    case _ => (Err(UnknownProcedure), st)
  }

  function ListOfArgValues(es: List<Exp>, env: Env, st: State, fuel: nat): (Result<List<V>>, State)
    decreases fuel, ListSize(es), 0
  {
    match es
    case Nil => (Ok(Nil), st)
    case Cons(e, rest) =>
      var (r, st1) := ActualValue(e, env, st, fuel);
      match r
      case Err(err) => (Err(err), st1)
      case Timeout => (Timeout, st1)
      case Ok(v) =>
        var (rs, st2) := ListOfArgValues(rest, env, st1, fuel);
        (ConsResult(v, rs), st2)
  }

  function ConsResult(v: V, rs: Result<List<V>>): Result<List<V>> {
    match rs
    case Ok(vs) => Ok(Cons(v, vs))
    case Err(e) => Err(e)
    case Timeout => Timeout
  }

  function DelayIt(e: Exp, env: Env, st: State): (V, State) {
    (Obj(ThunkRef(|st.thunks|)), st.(thunks := st.thunks + [Thunk(e, env)]))
  }

  function DelayItWithMemoization(e: Exp, env: Env, st: State): (V, State) {
    (Obj(ThunkRef(|st.thunks|)), st.(thunks := st.thunks + [MemoizedThunk(e, env)]))
  }

  /** One operand of a compound procedure, by the mode of its parameter. */
  function ProcedureArg(m: Mode, e: Exp, env: Env, st: State, fuel: nat): (Result<V>, State)
    decreases fuel, Size(e), 2
  {
    match m
    case Lazy => var (v, st1) := DelayIt(e, env, st); (Ok(v), st1)
    case LazyMemo => var (v, st1) := DelayItWithMemoization(e, env, st); (Ok(v), st1)
    case Strict => ActualValue(e, env, st, fuel)
  }

  /** Running out of parameters takes the car of an empty list. */
  function ListOfProcedureArgs(ps: List<Param>, es: List<Exp>, env: Env, st: State, fuel: nat): (Result<List<V>>, State)
    decreases fuel, ListSize(es), 1
  {
    match es
    case Nil => (Ok(Nil), st)
    case Cons(e, rest) =>
      if ps.Nil? then (Err(BadArguments), st) else
        var (r, st1) := ProcedureArg(ps.head.mode, e, env, st, fuel);
        match r
        case Err(err) => (Err(err), st1)
        case Timeout => (Timeout, st1)
        case Ok(v) =>
          var (rs, st2) := ListOfProcedureArgs(ps.tail, rest, env, st1, fuel);
          (ConsResult(v, rs), st2)
  }

  // ----- a memoised thunk is evaluated once -----

  /** A memoised thunk may come to be evaluated; nothing else happens to a cell. */
  predicate KeptCell(c: Cell, c': Cell) { c' == c || (c.MemoizedThunk? && c'.EvaluatedThunk?) }

  /** Every thunk is still there, those that were evaluated hold the same value, and those that
      are not memoised hold their expression. */
  ghost predicate Keeps(st: State, st': State) {
    |st.thunks| <= |st'.thunks| && forall t :: 0 <= t < |st.thunks| ==> KeptCell(st.thunks[t], st'.thunks[t])
  }

  /** Whatever a program does, assignments and definitions included, an evaluated thunk keeps
      its value, so forcing it again gives that value and evaluates nothing. */
  lemma {:induction false} EvalKeeps(e: Exp, env: Env, st: State, fuel: nat)
    ensures Keeps(st, Eval(e, env, st, fuel).1)
    decreases fuel, Size(e), 0
  {
    match e
    case Assign(x, rhs) => EvalKeeps(rhs, env, st, fuel);
    case Define(x, rhs) => EvalKeeps(rhs, env, st, fuel);
    case If(p, c, a) =>
      ActualValueKeeps(p, env, st, fuel);
      var (r, st1) := ActualValue(p, env, st, fuel);
      EvalKeeps(c, env, st1, fuel);
      EvalKeeps(a, env, st1, fuel);
    case Begin(b) => SequenceKeeps(b, env, st, fuel);
    case Cond(cs) => EvalKeeps(CondToIf(cs), env, st, fuel);
    case App(f, es) =>
      ActualValueKeeps(f, env, st, fuel);
      var (r, st1) := ActualValue(f, env, st, fuel);
      if r.Ok? { ApplyKeeps(r.value, es, env, st1, fuel); }
    case _ =>
  }

  lemma {:induction false} ActualValueKeeps(e: Exp, env: Env, st: State, fuel: nat)
    ensures Keeps(st, ActualValue(e, env, st, fuel).1)
    decreases fuel, Size(e), 1
  {
    EvalKeeps(e, env, st, fuel);
    var (r, st1) := Eval(e, env, st, fuel);
    if r.Ok? { ForceKeeps(r.value, st1, fuel); }
  }

  lemma {:induction false} ForceKeeps(v: V, st: State, fuel: nat)
    ensures Keeps(st, ForceIt(v, st, fuel).1)
    decreases fuel, 0, 0
  {
    if v.Obj? && v.c.ThunkRef? && v.c.t < |st.thunks| && !st.thunks[v.c.t].EvaluatedThunk? && fuel > 0 {
      var c := st.thunks[v.c.t];
      ActualValueKeeps(c.exp, c.env, st, fuel - 1);
    }
  }

  lemma {:induction false} SequenceKeeps(b: Body, env: Env, st: State, fuel: nat)
    ensures Keeps(st, EvalSequence(b, env, st, fuel).1)
    decreases fuel, BodySize(b), 0
  {
    EvalKeeps(b.exp, env, st, fuel);
    if b.More? { SequenceKeeps(b.rest, env, Eval(b.exp, env, st, fuel).1, fuel); }
  }

  lemma {:induction false} ApplyKeeps(p: V, es: List<Exp>, env: Env, st: State, fuel: nat)
    ensures Keeps(st, Apply(p, es, env, st, fuel).1)
    decreases fuel, ListSize(es), 2
  {
    match p
    case Primitive(op) => ArgValuesKeep(es, env, st, fuel);
    case Obj(Proc(ps, b, penv)) =>
      ArgsKeep(ps, es, env, st, fuel);
      var (rs, st1) := ListOfProcedureArgs(ps, es, env, st, fuel);
      if rs.Ok? && fuel > 0 && Extend(StripParameters(ps), rs.value, st1.frames).Ok? {
        SequenceKeeps(b, Cons(|st1.frames|, penv),
          st1.(frames := st1.frames + [Zip(StripParameters(ps), rs.value)]), fuel - 1);
      }
    case _ =>
  }

  lemma {:induction false} ArgValuesKeep(es: List<Exp>, env: Env, st: State, fuel: nat)
    ensures Keeps(st, ListOfArgValues(es, env, st, fuel).1)
    decreases fuel, ListSize(es), 0
  {
    if es.Cons? {
      ActualValueKeeps(es.head, env, st, fuel);
      ArgValuesKeep(es.tail, env, ActualValue(es.head, env, st, fuel).1, fuel);
    }
  }

  lemma {:induction false} ArgsKeep(ps: List<Param>, es: List<Exp>, env: Env, st: State, fuel: nat)
    ensures Keeps(st, ListOfProcedureArgs(ps, es, env, st, fuel).1)
    decreases fuel, ListSize(es), 1
  {
    if es.Cons? && ps.Cons? {
      if ps.head.mode.Strict? { ActualValueKeeps(es.head, env, st, fuel); }
      ArgsKeep(ps.tail, es.tail, env, ProcedureArg(ps.head.mode, es.head, env, st, fuel).1, fuel);
    }
  }

  /** Once a memoised thunk has been forced to w, it answers w after any further run, without
      evaluating anything and without touching the store. */
  lemma {:induction false} ForcedOnce(t: nat, st: State, fuel: nat, w: V, e: Exp, env: Env, more: nat, again: nat)
    requires t < |st.thunks| && st.thunks[t].MemoizedThunk? && ForceIt(Obj(ThunkRef(t)), st, fuel).0 == Ok(w)
    ensures var st1 := ForceIt(Obj(ThunkRef(t)), st, fuel).1; var st2 := Eval(e, env, st1, more).1;
            ForceIt(Obj(ThunkRef(t)), st2, again) == (Ok(w), st2)
  {
    var c := st.thunks[t];
    ActualValueKeeps(c.exp, c.env, st, fuel - 1);
    var st1 := ForceIt(Obj(ThunkRef(t)), st, fuel).1;
    EvalKeeps(e, env, st1, more);
  }
}
