/** Definitions at top level: if neither the defined expression nor any procedure mentions the name,
    backtracking into the expression after the definition goes on as if it had not been made, so the
    driver prints exactly the successes of the reference semantics. */
module AmbDefine {
  import opened Amb
  import opened AmbReference
  import opened AmbSyntax
  import opened Scheme
  import C = AmbCorrect

  // ----- stores that differ in one name -----

  predicate Silent(c: Code, x: Name) {
    match c
    case Const(_) => true
    case VarRef(y) => y != x
    case AssignTo(y, rhs) => y != x && Silent(rhs, x)
    case DefineAs(y, rhs) => y != x && Silent(rhs, x)
    case Choose(cs) => AllSilent(cs, x)
    case Branch(p, c1, c2) => Silent(p, x) && Silent(c1, x) && Silent(c2, x)
    case MakeProc(_, b) => Silent(b, x)
    case Sequentially(p1, p2) => Silent(p1, x) && Silent(p2, x)
    case Call(f, cs) => Silent(f, x) && AllSilent(cs, x)
  }

  predicate AllSilent(cs: List<Code>, x: Name) {
    match cs
    case Nil => true
    case Cons(c, t) => Silent(c, x) && AllSilent(t, x)
  }

  /** No procedure in v mentions x. */
  predicate Quiet(v: CV, x: Name) {
    match v
    case Pair(a, d) => Quiet(a, x) && Quiet(d, x)
    case Obj(p) => Silent(p.body, x)
    case _ => true
  }

  predicate AllQuiet(vs: List<CV>, x: Name) {
    match vs
    case Nil => true
    case Cons(v, t) => Quiet(v, x) && AllQuiet(t, x)
  }

  ghost predicate QuietFrame(frame: Frame<CProc>, x: Name) {
    forall y :: Scan(y, frame).Found? ==> Quiet(Scan(y, frame).value, x)
  }

  ghost predicate QuietStore(st: CSt, x: Name) { forall a :: 0 <= a < |st| ==> QuietFrame(st[a], x) }

  ghost predicate SameBut(frame: Frame<CProc>, frame': Frame<CProc>, x: Name) {
    forall y :: y != x ==> Scan(y, frame) == Scan(y, frame')
  }

  /** The stores bind every name but x to the same values, in the same frames. */
  ghost predicate Near(st: CSt, st': CSt, x: Name) {
    && |st| == |st'| && QuietStore(st, x) && QuietStore(st', x)
    && forall a :: 0 <= a < |st| ==> SameBut(st[a], st'[a], x)
  }

  // ----- continuations that do not notice the name -----

  ghost predicate AlikeFail(fail: Fail, fail': Fail, x: Name) {
    forall st, st' {:trigger fail(st), fail'(st')} :: Near(st, st', x) ==> fail(st) == fail'(st')
  }

  ghost predicate AlikeSucc(succ: Succ, succ': Succ, x: Name) {
    forall v, st, st', fl, fl' {:trigger succ(v, st, fl), succ'(v, st', fl')} ::
      Quiet(v, x) && Near(st, st', x) && AlikeFail(fl, fl', x) ==> succ(v, st, fl) == succ'(v, st', fl')
  }

  ghost predicate AlikeListSucc(succ: ListSucc, succ': ListSucc, x: Name) {
    forall vs, st, st', fl, fl' {:trigger succ(vs, st, fl), succ'(vs, st', fl')} ::
      AllQuiet(vs, x) && Near(st, st', x) && AlikeFail(fl, fl', x) ==> succ(vs, st, fl) == succ'(vs, st', fl')
  }

  // ----- environments -----

  lemma {:induction false} LookupNear(y: Name, env: Env, st: CSt, st': CSt, x: Name)
    requires Near(st, st', x) && y != x
    ensures Lookup(y, env, st) == Lookup(y, env, st')
    ensures Lookup(y, env, st).Ok? ==> Quiet(Lookup(y, env, st).value, x)
  {
    if env.Cons? { LookupNear(y, env.tail, st, st', x); }
  }

  lemma {:induction false} ScanSet(z: Name, y: Name, v: CV, frame: Frame<CProc>)
    ensures Scan(z, SetInFrame(y, v, frame)) ==
            if z == y && Scan(y, frame).Found? then Found(v) else Scan(z, frame)
  {
    if frame.Cons? { ScanSet(z, y, v, frame.tail); }
  }

  lemma {:induction false} ScanDefine(z: Name, y: Name, v: CV, frame: Frame<CProc>)
    ensures Scan(z, DefineInFrame(y, v, frame)) == if z == y then Found(v) else Scan(z, frame)
  {
    ScanSet(z, y, v, frame);
  }

  /** The same binding may be written in both stores. */
  lemma {:induction false} UpdateNear(st: CSt, st': CSt, a: nat, y: Name, v: CV, frame: Frame<CProc>,
                                      frame': Frame<CProc>, x: Name)
    requires Near(st, st', x) && a < |st| && Quiet(v, x)
    requires forall z :: Scan(z, frame) == if z == y then Found(v) else Scan(z, st[a])
    requires forall z :: Scan(z, frame') == if z == y then Found(v) else Scan(z, st'[a])
    ensures Near(st[a := frame], st'[a := frame'], x)
  {
  }

  lemma {:induction false} SetNear(y: Name, v: CV, env: Env, st: CSt, st': CSt, x: Name)
    requires Near(st, st', x) && y != x && Quiet(v, x)
    ensures match SetVariable(y, v, env, st)
            case Ok(next) => var r := SetVariable(y, v, env, st'); r.Ok? && Near(next, r.value, x)
            case Err(e) => SetVariable(y, v, env, st') == Err(e)
            case Timeout => false
  {
    if env.Cons? {
      var a := env.head;
      if Scan(y, FrameAt(st, a)).Missing? {
        SetNear(y, v, env.tail, st, st', x);
      } else {
        forall z ensures Scan(z, SetInFrame(y, v, st[a])) == if z == y then Found(v) else Scan(z, st[a]) {
          ScanSet(z, y, v, st[a]);
        }
        forall z ensures Scan(z, SetInFrame(y, v, st'[a])) == if z == y then Found(v) else Scan(z, st'[a]) {
          ScanSet(z, y, v, st'[a]);
        }
        UpdateNear(st, st', a, y, v, SetInFrame(y, v, st[a]), SetInFrame(y, v, st'[a]), x);
      }
    }
  }

  lemma {:induction false} DefineNear(y: Name, v: CV, env: Env, st: CSt, st': CSt, x: Name)
    requires Near(st, st', x) && Quiet(v, x)
    ensures Near(DefineVariable(y, v, env, st), DefineVariable(y, v, env, st'), x)
  {
    if env.Cons? && env.head < |st| {
      var a := env.head;
      forall z ensures Scan(z, DefineInFrame(y, v, st[a])) == if z == y then Found(v) else Scan(z, st[a]) {
        ScanDefine(z, y, v, st[a]);
      }
      forall z ensures Scan(z, DefineInFrame(y, v, st'[a])) == if z == y then Found(v) else Scan(z, st'[a]) {
        ScanDefine(z, y, v, st'[a]);
      }
      UpdateNear(st, st', a, y, v, DefineInFrame(y, v, st[a]), DefineInFrame(y, v, st'[a]), x);
    }
  }

  /** A definition of x itself leaves the store near to what it was. */
  lemma {:induction false} DefinedNear(v: CV, env: Env, st: CSt, st': CSt, x: Name)
    requires Near(st, st', x) && Quiet(v, x)
    ensures Near(DefineVariable(x, v, env, st), st', x)
  {
    if env.Cons? && env.head < |st| {
      var frame := st[env.head];
      forall z ensures Scan(z, DefineInFrame(x, v, frame)) == if z == x then Found(v) else Scan(z, frame) {
        ScanDefine(z, x, v, frame);
      }
    }
  }

  lemma {:induction false} ZipQuiet(xs: List<Name>, vs: List<CV>, y: Name, x: Name)
    requires AllQuiet(vs, x)
    ensures Scan(y, Zip(xs, vs)).Found? ==> Quiet(Scan(y, Zip(xs, vs)).value, x)
  {
    if xs.Cons? && vs.Cons? { ZipQuiet(xs.tail, vs.tail, y, x); }
  }

  lemma {:induction false} NewFrameNear(xs: List<Name>, vs: List<CV>, st: CSt, st': CSt, x: Name)
    requires Near(st, st', x) && AllQuiet(vs, x)
    ensures Near(st + [Zip(xs, vs)], st' + [Zip(xs, vs)], x)
  {
    forall y ensures Scan(y, Zip(xs, vs)).Found? ==> Quiet(Scan(y, Zip(xs, vs)).value, x) { ZipQuiet(xs, vs, y, x); }
  }

  lemma {:induction false} DatumQuiet(d: Datum, x: Name)
    ensures Quiet(FromDatum(d), x)
  {
    match d
    case DPair(a, b) => DatumQuiet(a, x); DatumQuiet(b, x);
    case _ =>
  }

  lemma {:induction false} ListQuiet(vs: List<CV>, x: Name)
    requires AllQuiet(vs, x)
    ensures Quiet(ToSchemeList(vs), x)
  {
    if vs.Cons? { ListQuiet(vs.tail, x); }
  }

  lemma {:induction false} PrimitiveQuiet(op: Prim, vs: List<CV>, x: Name)
    requires AllQuiet(vs, x) && ApplyPrimitive(op, vs).Ok?
    ensures Quiet(ApplyPrimitive(op, vs).value, x)
  {
    if op.MakeList? { ListQuiet(vs, x); }
  }

  // ----- continuations -----

  lemma {:induction false} UndoAlike(y: Name, v: CV, env: Env, fl: Fail, fl': Fail, x: Name)
    requires y != x && Quiet(v, x) && AlikeFail(fl, fl', x)
    ensures AlikeFail(Undo(y, v, env, fl), Undo(y, v, env, fl'), x)
  {
    forall st, st' | Near(st, st', x) ensures Undo(y, v, env, fl)(st) == Undo(y, v, env, fl')(st') {
      SetNear(y, v, env, st, st', x);
    }
  }

  lemma {:induction false} AssignAlike(y: Name, env: Env, succ: Succ, succ': Succ, x: Name)
    requires y != x && AlikeSucc(succ, succ', x)
    ensures AlikeSucc(AssignSucc(y, env, succ), AssignSucc(y, env, succ'), x)
  {
    forall v, st, st', fl, fl' | Quiet(v, x) && Near(st, st', x) && AlikeFail(fl, fl', x)
      ensures AssignSucc(y, env, succ)(v, st, fl) == AssignSucc(y, env, succ')(v, st', fl')
    {
      LookupNear(y, env, st, st', x);
      SetNear(y, v, env, st, st', x);
      var existing := Lookup(y, env, st);
      if existing.Ok? { UndoAlike(y, existing.value, env, fl, fl', x); }
    }
  }

  lemma {:induction false} DefineAlike(y: Name, env: Env, succ: Succ, succ': Succ, x: Name)
    requires AlikeSucc(succ, succ', x)
    ensures AlikeSucc(DefineSucc(y, env, succ), DefineSucc(y, env, succ'), x)
  {
    forall v, st, st', fl, fl' | Quiet(v, x) && Near(st, st', x) && AlikeFail(fl, fl', x)
      ensures DefineSucc(y, env, succ)(v, st, fl) == DefineSucc(y, env, succ')(v, st', fl')
    {
      DefineNear(y, v, env, st, st', x);
    }
  }

  lemma {:induction false} ConsAlike(v: CV, succ: ListSucc, succ': ListSucc, x: Name)
    requires Quiet(v, x) && AlikeListSucc(succ, succ', x)
    ensures AlikeListSucc(ConsSucc(v, succ), ConsSucc(v, succ'), x)
  {
    forall vs, st, st', fl, fl' | AllQuiet(vs, x) && Near(st, st', x) && AlikeFail(fl, fl', x)
      ensures ConsSucc(v, succ)(vs, st, fl) == ConsSucc(v, succ')(vs, st', fl')
    {
      assert AllQuiet(Cons(v, vs), x);
    }
  }

  lemma {:induction false} RetryAlike(cs: List<Code>, env: Env, succ: Succ, succ': Succ, fl: Fail, fl': Fail,
                                      fuel: nat, x: Name)
    requires AllSilent(cs, x) && AlikeSucc(succ, succ', x) && AlikeFail(fl, fl', x)
    ensures AlikeFail(Retry(cs, env, succ, fl, fuel), Retry(cs, env, succ', fl', fuel), x)
    decreases fuel, CodesSize(cs), 1
  {
    forall st, st' | Near(st, st', x)
      ensures Retry(cs, env, succ, fl, fuel)(st) == Retry(cs, env, succ', fl', fuel)(st')
    {
      TryAlike(cs, env, st, st', succ, succ', fl, fl', fuel, x);
    }
  }

  lemma {:induction false} BranchAlike(c1: Code, c2: Code, env: Env, succ: Succ, succ': Succ, fuel: nat, x: Name)
    requires Silent(c1, x) && Silent(c2, x) && AlikeSucc(succ, succ', x)
    ensures AlikeSucc(BranchSucc(c1, c2, env, succ, fuel), BranchSucc(c1, c2, env, succ', fuel), x)
    decreases fuel, CodeSize(c1) + CodeSize(c2), 3
  {
    forall v, st, st', fl, fl' | Quiet(v, x) && Near(st, st', x) && AlikeFail(fl, fl', x)
      ensures BranchSucc(c1, c2, env, succ, fuel)(v, st, fl) == BranchSucc(c1, c2, env, succ', fuel)(v, st', fl')
    {
      ChosenAlike(v, c1, c2, env, st, st', succ, succ', fl, fl', fuel, x);
    }
  }

  lemma {:induction false} ChosenAlike(v: CV, c1: Code, c2: Code, env: Env, st: CSt, st': CSt, succ: Succ, succ': Succ,
                                       fl: Fail, fl': Fail, fuel: nat, x: Name)
    requires Silent(c1, x) && Silent(c2, x) && Near(st, st', x) && AlikeSucc(succ, succ', x) && AlikeFail(fl, fl', x)
    ensures BranchSucc(c1, c2, env, succ, fuel)(v, st, fl) == BranchSucc(c1, c2, env, succ', fuel)(v, st', fl')
    decreases fuel, CodeSize(c1) + CodeSize(c2), 2
  {
    if True(v) {
      ExecAlike(c1, env, st, st', succ, succ', fl, fl', fuel, x);
    } else {
      ExecAlike(c2, env, st, st', succ, succ', fl, fl', fuel, x);
    }
  }

  lemma {:induction false} SequenceAlike(c: Code, env: Env, succ: Succ, succ': Succ, fuel: nat, x: Name)
    requires Silent(c, x) && AlikeSucc(succ, succ', x)
    ensures AlikeSucc(SequenceSucc(c, env, succ, fuel), SequenceSucc(c, env, succ', fuel), x)
    decreases fuel, CodeSize(c), 2
  {
    forall v, st, st', fl, fl' | Quiet(v, x) && Near(st, st', x) && AlikeFail(fl, fl', x)
      ensures SequenceSucc(c, env, succ, fuel)(v, st, fl) == SequenceSucc(c, env, succ', fuel)(v, st', fl')
    {
      ExecAlike(c, env, st, st', succ, succ', fl, fl', fuel, x);
    }
  }

  lemma {:induction false} OperatorAlike(cs: List<Code>, env: Env, succ: Succ, succ': Succ, fuel: nat, x: Name)
    requires AllSilent(cs, x) && AlikeSucc(succ, succ', x)
    ensures AlikeSucc(OperatorSucc(cs, env, succ, fuel), OperatorSucc(cs, env, succ', fuel), x)
    decreases fuel, CodesSize(cs), 3
  {
    forall v, st, st', fl, fl' | Quiet(v, x) && Near(st, st', x) && AlikeFail(fl, fl', x)
      ensures OperatorSucc(cs, env, succ, fuel)(v, st, fl) == OperatorSucc(cs, env, succ', fuel)(v, st', fl')
    {
      OperandsAlike(v, succ, succ', fuel, x);
      ArgsAlike(cs, env, st, st', OperandsSucc(v, succ, fuel), OperandsSucc(v, succ', fuel), fl, fl', fuel, x);
    }
  }

  lemma {:induction false} OperandsAlike(p: CV, succ: Succ, succ': Succ, fuel: nat, x: Name)
    requires Quiet(p, x) && AlikeSucc(succ, succ', x)
    ensures AlikeListSucc(OperandsSucc(p, succ, fuel), OperandsSucc(p, succ', fuel), x)
    decreases fuel, 0, 2
  {
    forall vs, st, st', fl, fl' | AllQuiet(vs, x) && Near(st, st', x) && AlikeFail(fl, fl', x)
      ensures OperandsSucc(p, succ, fuel)(vs, st, fl) == OperandsSucc(p, succ', fuel)(vs, st', fl')
    {
      ApplyAlike(p, vs, st, st', succ, succ', fl, fl', fuel, x);
    }
  }

  lemma {:induction false} ArgAlike(cs: List<Code>, env: Env, succ: ListSucc, succ': ListSucc, fuel: nat, x: Name)
    requires AllSilent(cs, x) && AlikeListSucc(succ, succ', x)
    ensures AlikeSucc(ArgSucc(cs, env, succ, fuel), ArgSucc(cs, env, succ', fuel), x)
    decreases fuel, CodesSize(cs), 1
  {
    forall v, st, st', fl, fl' | Quiet(v, x) && Near(st, st', x) && AlikeFail(fl, fl', x)
      ensures ArgSucc(cs, env, succ, fuel)(v, st, fl) == ArgSucc(cs, env, succ', fuel)(v, st', fl')
    {
      ConsAlike(v, succ, succ', x);
      ArgsAlike(cs, env, st, st', ConsSucc(v, succ), ConsSucc(v, succ'), fl, fl', fuel, x);
    }
  }

  // ----- execution -----

  /** Code that does not mention x runs alike in stores that differ in x only. */
  lemma {:induction false} ExecAlike(c: Code, env: Env, st: CSt, st': CSt, succ: Succ, succ': Succ, fl: Fail, fl': Fail,
                                     fuel: nat, x: Name)
    requires Silent(c, x) && Near(st, st', x) && AlikeSucc(succ, succ', x) && AlikeFail(fl, fl', x)
    ensures Exec(c, env, st, succ, fl, fuel) == Exec(c, env, st', succ', fl', fuel)
    decreases fuel, CodeSize(c), 1
  {
    match c
    case Const(d) => DatumQuiet(d, x);
    case VarRef(y) => LookupNear(y, env, st, st', x);
    case AssignTo(y, rhs) =>
      AssignAlike(y, env, succ, succ', x);
      ExecAlike(rhs, env, st, st', AssignSucc(y, env, succ), AssignSucc(y, env, succ'), fl, fl', fuel, x);
    case DefineAs(y, rhs) =>
      DefineAlike(y, env, succ, succ', x);
      ExecAlike(rhs, env, st, st', DefineSucc(y, env, succ), DefineSucc(y, env, succ'), fl, fl', fuel, x);
    case Choose(cs) => TryAlike(cs, env, st, st', succ, succ', fl, fl', fuel, x);
    case Branch(p, c1, c2) =>
      BranchAlike(c1, c2, env, succ, succ', fuel, x);
      ExecAlike(p, env, st, st', BranchSucc(c1, c2, env, succ, fuel), BranchSucc(c1, c2, env, succ', fuel), fl, fl',
        fuel, x);
    case MakeProc(ps, b) =>
    case Sequentially(p1, p2) =>
      SequenceAlike(p2, env, succ, succ', fuel, x);
      ExecAlike(p1, env, st, st', SequenceSucc(p2, env, succ, fuel), SequenceSucc(p2, env, succ', fuel), fl, fl',
        fuel, x);
    case Call(f, cs) =>
      OperatorAlike(cs, env, succ, succ', fuel, x);
      ExecAlike(f, env, st, st', OperatorSucc(cs, env, succ, fuel), OperatorSucc(cs, env, succ', fuel), fl, fl',
        fuel, x);
  }

  lemma {:induction false} TryAlike(cs: List<Code>, env: Env, st: CSt, st': CSt, succ: Succ, succ': Succ, fl: Fail,
                                    fl': Fail, fuel: nat, x: Name)
    requires AllSilent(cs, x) && Near(st, st', x) && AlikeSucc(succ, succ', x) && AlikeFail(fl, fl', x)
    ensures TryNext(cs, env, st, succ, fl, fuel) == TryNext(cs, env, st', succ', fl', fuel)
    decreases fuel, CodesSize(cs), 0
  {
    if cs.Cons? {
      var retry, retry' := Retry(cs.tail, env, succ, fl, fuel), Retry(cs.tail, env, succ', fl', fuel);
      RetryAlike(cs.tail, env, succ, succ', fl, fl', fuel, x);
      ExecAlike(cs.head, env, st, st', succ, succ', retry, retry', fuel, x);
    }
  }

  lemma {:induction false} ArgsAlike(cs: List<Code>, env: Env, st: CSt, st': CSt, succ: ListSucc, succ': ListSucc,
                                     fl: Fail, fl': Fail, fuel: nat, x: Name)
    requires AllSilent(cs, x) && Near(st, st', x) && AlikeListSucc(succ, succ', x) && AlikeFail(fl, fl', x)
    ensures GetArgs(cs, env, st, succ, fl, fuel) == GetArgs(cs, env, st', succ', fl', fuel)
    decreases fuel, CodesSize(cs), 0
  {
    if cs.Cons? {
      ArgAlike(cs.tail, env, succ, succ', fuel, x);
      ExecAlike(cs.head, env, st, st', ArgSucc(cs.tail, env, succ, fuel), ArgSucc(cs.tail, env, succ', fuel), fl, fl',
        fuel, x);
    }
  }

  lemma {:induction false} ApplyAlike(p: CV, args: List<CV>, st: CSt, st': CSt, succ: Succ, succ': Succ, fl: Fail,
                                      fl': Fail, fuel: nat, x: Name)
    requires Quiet(p, x) && AllQuiet(args, x) && Near(st, st', x) && AlikeSucc(succ, succ', x) && AlikeFail(fl, fl', x)
    ensures ExecuteApplication(p, args, st, succ, fl, fuel) == ExecuteApplication(p, args, st', succ', fl', fuel)
    decreases fuel, 0, 1
  {
    match p
    case Primitive(op) => if ApplyPrimitive(op, args).Ok? { PrimitiveQuiet(op, args, x); }
    case Obj(q) =>
      if fuel > 0 && Length(q.params) == Length(args) {
        var frame := Zip(q.params, args);
        NewFrameNear(q.params, args, st, st', x);
        ExecAlike(q.body, Cons(|st|, q.env), st + [frame], st' + [frame], succ, succ', fl, fl', fuel - 1, x);
      }
    case _ =>
  }

  // ----- the driver -----

  /** What the driver would do without the definition. */
  function OkSucc(): Succ {
    (v: CV, st: CSt, next: Fail) => Append(One(Show(Sym("ok"))), next(st))
  }

  lemma {:induction false} DefineLikeOk(x: Name, env: Env)
    ensures AlikeSucc(DefineSucc(x, env, DriverSucc()), OkSucc(), x)
  {
    forall v, st, st', fl, fl' | Quiet(v, x) && Near(st, st', x) && AlikeFail(fl, fl', x)
      ensures DefineSucc(x, env, DriverSucc())(v, st, fl) == OkSucc()(v, st', fl')
    {
      DefinedNear(v, env, st, st', x);
    }
  }

  lemma {:induction false} OkGood(x: Name, env: Env, ren: C.Renaming)
    ensures C.GoodSucc(OkSucc(), ren, Then(Defining(x, env), C.Showing()))
  {
    forall v, st', ren', cst', fl, dfl | C.Reaches(ren, v, st', ren', cst') && C.GoodFail(fl, st', ren', dfl)
      ensures OkSucc()(C.RV(v, ren'), cst', fl) == Append(Then(Defining(x, env), C.Showing())((v, st')), dfl)
    {
      BindOne((Sym("ok"), DefineVariable(x, v, env, st')), C.Showing());
    }
  }

  /** Under repeated try-again the driver prints exactly the successes of a definition, if neither its
      expression nor any procedure in the store mentions the name. */
  lemma {:induction false} DriverPrintsDefinitions(x: Name, rhs: Exp, env: Env, st: St, fuel: nat)
    requires Plain(rhs) && C.ValidStore(st) && ValidEnv(env, |st|)
    requires Silent(Analyze(rhs), x) && QuietStore(C.Load(st), x)
    ensures Drive(Define(x, rhs), env, C.Load(st), fuel) == Bind(Solve(Define(x, rhs), env, st, fuel), C.Showing())
  {
    var cst, ren, none: Obs := C.Load(st), C.Identity(|st|), Outcome(Nil, NoMore);
    var d := Then(Defining(x, env), C.Showing());
    C.LoadRel(st);
    C.IdentityEnv(env, |st|);
    DefineLikeOk(x, env);
    assert Near(cst, cst, x);
    ExecAlike(Analyze(rhs), env, cst, cst, DefineSucc(x, env, DriverSucc()), OkSucc(), DriverFail(), DriverFail(),
      fuel, x);
    OkGood(x, env, ren);
    C.ExecDelivers(rhs, env, st, ren, cst, OkSucc(), DriverFail(), d, none, fuel);
    BindBind(Solve(rhs, env, st, fuel), Defining(x, env), C.Showing());
    ConcatNil(Bind(Solve(rhs, env, st, fuel), d).answers);
  }

  const EMPTY: St := [Nil]
  const TOP: Env := Cons(0, Nil)

  /** (define x (amb 1 x)) */
  function Itself(): Exp { Define("x", Amb(Cons(Self(DNum(1.0)), Cons(Var("x"), Nil)))) }

  /** Otherwise it may not: here the second choice finds the definition made by the first, where the
      reference semantics stops at an unbound variable. */
  lemma {:induction false} DefinitionSeen(fuel: nat)
    ensures Drive(Itself(), TOP, C.Load(EMPTY), fuel) == Outcome(Cons(Sym("ok"), Cons(Sym("ok"), Nil)), NoMore)
    ensures Bind(Solve(Itself(), TOP, EMPTY, fuel), C.Showing()) ==
            Outcome(Cons(Sym("ok"), Nil), Stopped(UnboundVariable("x")))
  {
    var one, x := Self(DNum(1.0)), Var("x");
    var cst: CSt, succ, fail := [Nil], DefineSucc("x", TOP, DriverSucc()), DriverFail();
    var defined: CSt := [Cons(Binding("x", Num(1.0)), Nil)];
    assert C.Load(EMPTY) == cst;
    assert AnalyzeAll(Cons(x, Nil)) == Cons(VarRef("x"), Nil) by { assert AnalyzeAll(Nil) == Nil; }
    assert Analyze(Amb(Cons(one, Cons(x, Nil)))) == Choose(Cons(Const(DNum(1.0)), Cons(VarRef("x"), Nil)));
    var retry := Retry(Cons(VarRef("x"), Nil), TOP, succ, fail, fuel);
    var last := Retry(Nil, TOP, succ, fail, fuel);
    assert last(defined) == TryNext(Nil, TOP, defined, succ, fail, fuel) == Outcome(Nil, NoMore);
    assert DefineVariable("x", Num(1.0), TOP, cst) == defined;
    assert DefineVariable("x", Num(1.0), TOP, defined) == defined;
    assert Lookup("x", TOP, defined) == Ok(Num(1.0));
    assert retry(defined) == TryNext(Cons(VarRef("x"), Nil), TOP, defined, succ, fail, fuel)
        == Exec(VarRef("x"), TOP, defined, succ, last, fuel) == succ(Num(1.0), defined, last);
    assert succ(Num(1.0), defined, last) == Append(One(Show(Sym("ok"))), last(defined));
    assert succ(Num(1.0), cst, retry) == Append(One(Show(Sym("ok"))), retry(defined));
    var choices := Cons(Const(DNum(1.0)), Cons(VarRef("x"), Nil));
    assert Drive(Itself(), TOP, cst, fuel) == Exec(Choose(choices), TOP, cst, succ, fail, fuel)
        == TryNext(choices, TOP, cst, succ, fail, fuel) == Exec(Const(DNum(1.0)), TOP, cst, succ, retry, fuel)
        == succ(Num(1.0), cst, retry);
    SolvesOnce(fuel);
  }

  lemma {:induction false} SolvesOnce(fuel: nat)
    ensures Bind(Solve(Itself(), TOP, EMPTY, fuel), C.Showing()) ==
            Outcome(Cons(Sym("ok"), Nil), Stopped(UnboundVariable("x")))
  {
    var one, x := Self(DNum(1.0)), Var("x");
    var first: Answer := (Num(1.0), EMPTY);
    var stop: Outcome<Answer> := Stop(UnboundVariable("x"));
    assert Lookup("x", TOP, EMPTY) == Err(UnboundVariable("x")) by { assert Lookup("x", Nil, EMPTY).Err?; }
    assert SolveAny(Cons(x, Nil), TOP, EMPTY, fuel) == stop by { assert SolveAny(Nil, TOP, EMPTY, fuel).end.NoMore?; }
    assert SolveAny(Cons(one, Cons(x, Nil)), TOP, EMPTY, fuel) == Append(One(first), stop) by {
      assert Solve(one, TOP, EMPTY, fuel) == One(first);
    }
    assert Solve(Amb(Cons(one, Cons(x, Nil))), TOP, EMPTY, fuel) == Append(One(first), stop);
    BindAppend(One(first), stop, Defining("x", TOP));
    BindOne(first, Defining("x", TOP));
    var ok := One((Sym("ok"), DefineVariable("x", Num(1.0), TOP, EMPTY)));
    assert Solve(Itself(), TOP, EMPTY, fuel) == Append(ok, Stop(UnboundVariable("x")));
    BindAppend(ok, Stop(UnboundVariable("x")), C.Showing());
    BindOne((Sym("ok"), DefineVariable("x", Num(1.0), TOP, EMPTY)), C.Showing());
  }
}
