/** Making strict parameters lazy loses no answer: in programs without set! and define, whatever
    a program answers it still answers when any of its strict parameters are made lazy or
    lazy-memo, although operands are then evaluated later, several times, or not at all. */
module Laziness {
  import opened ByName
  import opened LazySyntax
  import opened Scheme
  import C = LazyCorrect
  import L = LazyInterp
  import P = LazyPrograms

  type Globals = Frame<Object>

  // ----- the same program with fewer strict parameters -----

  predicate LazierParams(ps: List<Param>, ss: List<Param>) {
    match ss
    case Nil => ps.Nil?
    case Cons(s, t) =>
      ps.Cons? && ps.head.name == s.name && (ps.head.mode.Strict? ==> s.mode.Strict?) && LazierParams(ps.tail, t)
  }

  predicate Lazier(e: Exp, s: Exp) {
    match s
    case If(p, c, a) => e.If? && Lazier(e.pred, p) && Lazier(e.conseq, c) && Lazier(e.alt, a)
    case Lambda(ps, b) => e.Lambda? && LazierParams(e.params, ps) && LazierBody(e.body, b)
    case Begin(b) => e.Begin? && LazierBody(e.actions, b)
    case Cond(cs) => e.Cond? && LazierClauses(e.clauses, cs)
    case App(h, es) => e.App? && Lazier(e.operator, h) && LazierList(e.operands, es)
    case _ => e == s
  }

  predicate LazierBody(b: Body, s: Body) {
    match s
    case Last(e) => b.Last? && Lazier(b.exp, e)
    case More(e, r) => b.More? && Lazier(b.exp, e) && LazierBody(b.rest, r)
  }

  predicate LazierClauses(cs: Clauses, s: Clauses) {
    match s
    case NoClause => cs.NoClause?
    case Else(b) => cs.Else? && LazierBody(cs.actions, b)
    case Clause(p, b, r) => cs.Clause? && Lazier(cs.test, p) && LazierBody(cs.actions, b) && LazierClauses(cs.rest, r)
  }

  predicate LazierList(es: List<Exp>, s: List<Exp>) {
    match s
    case Nil => es.Nil?
    case Cons(e, t) => es.Cons? && Lazier(es.head, e) && LazierList(es.tail, t)
  }

  // ----- values of the lazier program that stand for values of the stricter one -----

  predicate IsThunk(v: V) { v.Obj? && v.c.Thunk? }

  /** u stands for v; where v was computed and u is still a thunk, forcing u ends and gives
      something that stands for v. */
  ghost predicate StandsFor(u: V, v: V, g: Globals)
    decreases v, if IsThunk(u) then 1 else 0
  {
    if IsThunk(u) && !IsThunk(v) then
      exists k: nat, u': V :: ActualValue(u.c.exp, u.c.env, g, k) == Ok(u') && !IsThunk(u') && StandsFor(u', v, g)
    else
      match v
      case Pair(a, d) =>
        u.Pair? && !IsThunk(u.car) && !IsThunk(u.cdr) && StandsFor(u.car, a, g) && StandsFor(u.cdr, d, g)
      case Obj(Proc(ss, b, senv)) =>
        u.Obj? && u.c.Proc? && LazierParams(u.c.params, ss) && LazierBody(u.c.body, b) && EnvStandsFor(u.c.env, senv, g)
      case Obj(Thunk(s, senv)) => IsThunk(u) && Lazier(u.c.exp, s) && EnvStandsFor(u.c.env, senv, g)
      case _ => u == v
  }

  ghost predicate EnvStandsFor(env: PEnv, senv: PEnv, g: Globals)
    decreases senv, 0
  {
    match senv
    case Nil => env.Nil?
    case Cons(Global, rest) => env.Cons? && env.head.Global? && EnvStandsFor(env.tail, rest, g)
    case Cons(Local(sf), rest) =>
      env.Cons? && env.head.Local? && FrameStandsFor(env.head.frame, sf, g) && EnvStandsFor(env.tail, rest, g)
  }

  ghost predicate FrameStandsFor(frame: Frame<Object>, sframe: Frame<Object>, g: Globals)
    decreases sframe, 0
  {
    match sframe
    case Nil => frame.Nil?
    case Cons(Binding(x, v), t) =>
      frame.Cons? && frame.head.name == x && StandsFor(frame.head.value, v, g) && FrameStandsFor(frame.tail, t, g)
  }

  ghost predicate ListStandsFor(us: List<V>, vs: List<V>, g: Globals) {
    match vs
    case Nil => us.Nil?
    case Cons(v, t) => us.Cons? && StandsFor(us.head, v, g) && ListStandsFor(us.tail, t, g)
  }

  predicate NoThunks(vs: List<V>) {
    match vs
    case Nil => true
    case Cons(v, t) => !IsThunk(v) && NoThunks(t)
  }

  lemma {:induction false} ScanStandsFor(x: Name, frame: Frame<Object>, sframe: Frame<Object>, g: Globals)
    requires FrameStandsFor(frame, sframe, g)
    ensures match Scan(x, sframe)
            case Missing => Scan(x, frame).Missing?
            case Found(v) => Scan(x, frame).Found? && StandsFor(Scan(x, frame).value, v, g)
  {
    if sframe.Cons? { ScanStandsFor(x, frame.tail, sframe.tail, g); }
  }

  /** A variable holds what stands for its value, unless that is the mark of an unassigned one. */
  lemma {:induction false} FindStandsFor(x: Name, env: PEnv, senv: PEnv, g: Globals, sg: Globals)
    requires EnvStandsFor(env, senv, g) && FrameStandsFor(g, sg, g) && Find(x, senv, sg).Ok?
    ensures Find(x, env, g).Ok? && StandsFor(Find(x, env, g).value, Find(x, senv, sg).value, g)
  {
    if senv.Cons? {
      ScanStandsFor(x, Bindings(env.head, g), Bindings(senv.head, sg), g);
      if Scan(x, Bindings(senv.head, sg)).Missing? { FindStandsFor(x, env.tail, senv.tail, g, sg); }
    }
  }

  lemma {:induction false} DatumStandsFor(d: Datum, g: Globals)
    ensures StandsFor(FromDatum(d), FromDatum(d), g) && !IsThunk(FromDatum(d))
  {
    match d
    case DPair(a, b) => DatumStandsFor(a, g); DatumStandsFor(b, g);
    case _ =>
  }

  // ----- primitive procedures -----

  lemma {:induction false} NumsStandFor(us: List<V>, vs: List<V>, g: Globals)
    requires ListStandsFor(us, vs, g) && NoThunks(us) && AllNums(vs)
    ensures us == vs
  {
    if vs.Cons? { NumsStandFor(us.tail, vs.tail, g); }
  }

  lemma {:induction false} SchemeListStandsFor(us: List<V>, vs: List<V>, g: Globals)
    requires ListStandsFor(us, vs, g) && NoThunks(us)
    ensures StandsFor(ToSchemeList(us), ToSchemeList(vs), g) && !IsThunk(ToSchemeList(us))
  {
    if vs.Cons? { SchemeListStandsFor(us.tail, vs.tail, g); }
  }

  lemma {:induction false} PrimitiveStandsFor(op: Prim, us: List<V>, vs: List<V>, g: Globals)
    requires ListStandsFor(us, vs, g) && NoThunks(us) && ApplyPrimitive(op, vs).Ok?
    ensures ApplyPrimitive(op, us).Ok? && !IsThunk(ApplyPrimitive(op, us).value)
    ensures StandsFor(ApplyPrimitive(op, us).value, ApplyPrimitive(op, vs).value, g)
  {
    match op
    case MakeList => SchemeListStandsFor(us, vs, g);
    case Add => NumsStandFor(us, vs, g);
    case Mul => NumsStandFor(us, vs, g);
    case Sub => NumsStandFor(us, vs, g);
    case Div => NumsStandFor(us, vs, g);
    case NumEq => NumsStandFor(us, vs, g);
    case ConsPair =>
      assert ListStandsFor(us.tail, vs.tail, g) && NoThunks(us.tail);
      assert ListStandsFor(us.tail.tail, vs.tail.tail, g);
    case _ =>
  }

  // ----- evaluation -----

  lemma {:induction false} EvalLazier(e: Exp, s: Exp, env: PEnv, senv: PEnv, g: Globals, sg: Globals, f: nat)
    returns (k: nat, u: V)
    requires Lazier(e, s) && EnvStandsFor(env, senv, g) && FrameStandsFor(g, sg, g) && Eval(s, senv, sg, f).Ok?
    ensures Eval(e, env, g, k) == Ok(u) && StandsFor(u, Eval(s, senv, sg, f).value, g)
    decreases f, Size(s), 0
  {
    match s
    case Self(d) => DatumStandsFor(d, g); k, u := 0, FromDatum(d);
    case Quote(d) => DatumStandsFor(d, g); k, u := 0, FromDatum(d);
    case Var(x) =>
      FindStandsFor(x, env, senv, g, sg);
      k, u := 0, Find(x, env, g).value;
    case If(p, c, a) => k, u := IfLazier(e, p, c, a, env, senv, g, sg, f);
    case Lambda(ps, b) => k, u := 0, Obj(Proc(e.params, e.body, env));
    case Begin(b) => k, u := BodyLazier(e.actions, b, env, senv, g, sg, f);
    case Cond(cs) => k, u := ClausesLazier(e.clauses, cs, env, senv, g, sg, f);
    case App(h, es) =>
      var k1, v := ValueLazier(e.operator, h, env, senv, g, sg, f);
      var k2;
      k2, u := ApplyLazier(v, ActualValue(h, senv, sg, f).value, e.operands, es, env, senv, g, sg, f);
      AppParts(e.operator, e.operands, env, g, v, k1, k2);
      k := Max(k1, k2);
  }

  lemma {:induction false} IfLazier(e: Exp, p: Exp, c: Exp, a: Exp, env: PEnv, senv: PEnv, g: Globals, sg: Globals,
                                    f: nat)
    returns (k: nat, u: V)
    requires Lazier(e, If(p, c, a)) && EnvStandsFor(env, senv, g) && FrameStandsFor(g, sg, g)
    requires Eval(If(p, c, a), senv, sg, f).Ok?
    ensures Eval(e, env, g, k) == Ok(u) && StandsFor(u, Eval(If(p, c, a), senv, sg, f).value, g)
    decreases f, Size(p) + Size(c) + Size(a), 2
  {
    var k1, v := ValueLazier(e.pred, p, env, senv, g, sg, f);
    var k2;
    if True(v) {
      k2, u := EvalLazier(e.conseq, c, env, senv, g, sg, f);
    } else {
      k2, u := EvalLazier(e.alt, a, env, senv, g, sg, f);
    }
    IfParts(e.pred, e.conseq, e.alt, env, g, v, k1, k2);
    k := Max(k1, k2);
  }

  lemma {:induction false} ValueLazier(e: Exp, s: Exp, env: PEnv, senv: PEnv, g: Globals, sg: Globals, f: nat)
    returns (k: nat, u: V)
    requires Lazier(e, s) && EnvStandsFor(env, senv, g) && FrameStandsFor(g, sg, g) && ActualValue(s, senv, sg, f).Ok?
    ensures ActualValue(e, env, g, k) == Ok(u) && !IsThunk(u)
    ensures StandsFor(u, ActualValue(s, senv, sg, f).value, g) && !IsThunk(ActualValue(s, senv, sg, f).value)
    decreases f, Size(s), 1
  {
    var k1, v := EvalLazier(e, s, env, senv, g, sg, f);
    var k2;
    k2, u := ForceLazier(v, Eval(s, senv, sg, f).value, g, sg, f);
    ValueParts(e, env, g, v, k1, k2);
    k := Max(k1, k2);
  }

  lemma {:induction false} ForceLazier(v: V, w: V, g: Globals, sg: Globals, f: nat) returns (k: nat, u: V)
    requires StandsFor(v, w, g) && FrameStandsFor(g, sg, g) && Force(w, sg, f).Ok?
    ensures Force(v, g, k) == Ok(u) && !IsThunk(u)
    ensures StandsFor(u, Force(w, sg, f).value, g) && !IsThunk(Force(w, sg, f).value)
    decreases f, 0, 0
  {
    if IsThunk(w) {
      var k';
      k', u := ValueLazier(v.c.exp, w.c.exp, v.c.env, w.c.env, g, sg, f - 1);
      k := k' + 1;
    } else if IsThunk(v) {
      var k': nat, u': V :| ActualValue(v.c.exp, v.c.env, g, k') == Ok(u') && !IsThunk(u') && StandsFor(u', w, g);
      k, u := k' + 1, u';
    } else {
      k, u := 0, v;
    }
  }

  lemma {:induction false} BodyLazier(b: Body, s: Body, env: PEnv, senv: PEnv, g: Globals, sg: Globals, f: nat)
    returns (k: nat, u: V)
    requires LazierBody(b, s) && EnvStandsFor(env, senv, g) && FrameStandsFor(g, sg, g) && EvalBody(s, senv, sg, f).Ok?
    ensures EvalBody(b, env, g, k) == Ok(u) && StandsFor(u, EvalBody(s, senv, sg, f).value, g)
    decreases f, BodySize(s), 0
  {
    k, u := EvalLazier(b.exp, s.exp, env, senv, g, sg, f);
    if s.More? {
      var k1 := k;
      var k2;
      k2, u := BodyLazier(b.rest, s.rest, env, senv, g, sg, f);
      BodyParts(b, env, g, k1, k2);
      k := Max(k1, k2);
    }
  }

  lemma {:induction false} ClausesLazier(cs: Clauses, s: Clauses, env: PEnv, senv: PEnv, g: Globals, sg: Globals,
                                         f: nat)
    returns (k: nat, u: V)
    requires LazierClauses(cs, s) && EnvStandsFor(env, senv, g) && FrameStandsFor(g, sg, g)
    requires FirstTrue(s, senv, sg, f).Ok?
    ensures FirstTrue(cs, env, g, k) == Ok(u) && StandsFor(u, FirstTrue(s, senv, sg, f).value, g)
    decreases f, ClausesSize(s), 0
  {
    match s
    case NoClause =>
      FindStandsFor("false", env, senv, g, sg);
      k, u := 0, Find("false", env, g).value;
    case Else(b) => k, u := BodyLazier(cs.actions, b, env, senv, g, sg, f);
    case Clause(p, b, rest) =>
      var k1, v := ValueLazier(cs.test, p, env, senv, g, sg, f);
      var k2;
      if True(v) {
        k2, u := BodyLazier(cs.actions, b, env, senv, g, sg, f);
        MoreFuelBody(cs.actions, env, g, k2, Max(k1, k2));
      } else {
        k2, u := ClausesLazier(cs.rest, rest, env, senv, g, sg, f);
        MoreFuelClauses(cs.rest, env, g, k2, Max(k1, k2));
      }
      MoreFuelValue(cs.test, env, g, k1, Max(k1, k2));
      k := Max(k1, k2);
  }

  lemma {:induction false} ApplyLazier(p: V, q: V, es: List<Exp>, ss: List<Exp>, env: PEnv, senv: PEnv, g: Globals,
                                       sg: Globals, f: nat)
    returns (k: nat, u: V)
    requires StandsFor(p, q, g) && !IsThunk(p) && LazierList(es, ss)
    requires EnvStandsFor(env, senv, g) && FrameStandsFor(g, sg, g) && Apply(q, ss, senv, sg, f).Ok?
    ensures Apply(p, es, env, g, k) == Ok(u) && StandsFor(u, Apply(q, ss, senv, sg, f).value, g)
    decreases f, ListSize(ss), 2
  {
    match q
    case Primitive(op) =>
      var us;
      k, us := ValuesLazier(es, ss, env, senv, g, sg, f);
      PrimitiveStandsFor(op, us, Values(ss, senv, sg, f).value, g);
      u := ApplyPrimitive(op, us).value;
    case Obj(Proc(qs, b, qenv)) =>
      var k1, us := ArgsLazier(p.c.params, qs, es, ss, env, senv, g, sg, f);
      var vs := Args(qs, ss, senv, sg, f).value;
      ZipStandsFor(p.c.params, qs, us, vs, g);
      var callee, scallee := Zip(StripParameters(p.c.params), us), Zip(StripParameters(qs), vs);
      var k2;
      k2, u := BodyLazier(p.c.body, b, Cons(Local(callee), p.c.env), Cons(Local(scallee), qenv), g, sg, f - 1);
      CallParts(p.c.params, p.c.body, p.c.env, es, env, g, us, k1, k2);
      k := Max(k1, k2 + 1);
  }

  lemma {:induction false} ZipStandsFor(ps: List<Param>, ss: List<Param>, us: List<V>, vs: List<V>, g: Globals)
    requires LazierParams(ps, ss) && ListStandsFor(us, vs, g)
    ensures FrameStandsFor(Zip(StripParameters(ps), us), Zip(StripParameters(ss), vs), g)
    ensures Length(ps) == Length(ss) && Length(us) == Length(vs)
  {
    if ss.Cons? && vs.Cons? {
      ZipStandsFor(ps.tail, ss.tail, us.tail, vs.tail, g);
    } else if ss.Cons? {
      ZipStandsFor(ps.tail, ss.tail, us, vs, g);
    } else if vs.Cons? {
      ZipStandsFor(ps, ss, us.tail, vs.tail, g);
    }
  }

  lemma {:induction false} ValuesLazier(es: List<Exp>, ss: List<Exp>, env: PEnv, senv: PEnv, g: Globals, sg: Globals,
                                        f: nat)
    returns (k: nat, us: List<V>)
    requires LazierList(es, ss) && EnvStandsFor(env, senv, g) && FrameStandsFor(g, sg, g) && Values(ss, senv, sg, f).Ok?
    ensures Values(es, env, g, k) == Ok(us) && NoThunks(us) && ListStandsFor(us, Values(ss, senv, sg, f).value, g)
    decreases f, ListSize(ss), 0
  {
    if ss.Nil? { return 0, Nil; }
    var k1, v := ValueLazier(es.head, ss.head, env, senv, g, sg, f);
    var k2, vs := ValuesLazier(es.tail, ss.tail, env, senv, g, sg, f);
    ValuesParts(es.head, es.tail, env, g, v, k1, k2);
    k, us := Max(k1, k2), Cons(v, vs);
  }

  /** An operand that was evaluated and now is not stands for its value: evaluating it ends. */
  lemma {:induction false} ArgLazier(p: Param, q: Param, e: Exp, s: Exp, env: PEnv, senv: PEnv, g: Globals, sg: Globals,
                                     f: nat)
    returns (k: nat, u: V)
    requires (p.mode.Strict? ==> q.mode.Strict?) && Lazier(e, s)
    requires EnvStandsFor(env, senv, g) && FrameStandsFor(g, sg, g) && Arg(q.mode, s, senv, sg, f).Ok?
    ensures Arg(p.mode, e, env, g, k) == Ok(u) && StandsFor(u, Arg(q.mode, s, senv, sg, f).value, g)
    decreases f, Size(s), 2
  {
    k, u := 0, Obj(Thunk(e, env));
    if q.mode.Strict? {
      var k', u' := ValueLazier(e, s, env, senv, g, sg, f);
      if p.mode.Strict? { k, u := k', u'; }
    }
  }

  lemma {:induction false} ArgsLazier(ps: List<Param>, qs: List<Param>, es: List<Exp>, ss: List<Exp>, env: PEnv,
                                      senv: PEnv, g: Globals, sg: Globals, f: nat)
    returns (k: nat, us: List<V>)
    requires LazierParams(ps, qs) && LazierList(es, ss) && EnvStandsFor(env, senv, g) && FrameStandsFor(g, sg, g)
    requires Args(qs, ss, senv, sg, f).Ok?
    ensures Args(ps, es, env, g, k) == Ok(us) && ListStandsFor(us, Args(qs, ss, senv, sg, f).value, g)
    decreases f, ListSize(ss), 1
  {
    if ss.Nil? { return 0, Nil; }
    var k1, v := ArgLazier(ps.head, qs.head, es.head, ss.head, env, senv, g, sg, f);
    var k2, vs := ArgsLazier(ps.tail, qs.tail, es.tail, ss.tail, env, senv, g, sg, f);
    ArgsParts(ps.head, ps.tail, es.head, es.tail, env, g, v, k1, k2);
    k, us := Max(k1, k2), Cons(v, vs);
  }

  // ----- whole programs -----

  predicate LazierDefs(ds: List<P.Definition>, ss: List<P.Definition>) {
    match ss
    case Nil => ds.Nil?
    case Cons(s, t) =>
      && ds.Cons? && ds.head.name == s.name && LazierParams(ds.head.params, s.params)
      && LazierBody(ds.head.body, s.body) && LazierDefs(ds.tail, t)
  }

  /** The same program, except that parameters which are not strict in s are not strict in p. */
  predicate LazierProgram(p: P.Program, s: P.Program) {
    LazierDefs(p.defs, s.defs) && Lazier(p.main, s.main)
  }

  lemma {:induction false} EraseLazierParams(ps: List<Param>, ss: List<Param>)
    requires LazierParams(ps, ss)
    ensures LazierParams(EraseParams(ps), EraseParams(ss))
  {
    if ss.Cons? { EraseLazierParams(ps.tail, ss.tail); }
  }

  lemma {:induction false} EraseLazier(e: Exp, s: Exp)
    requires Lazier(e, s)
    ensures Lazier(Erase(e), Erase(s))
    decreases s
  {
    match s
    case If(p, c, a) => EraseLazier(e.pred, p); EraseLazier(e.conseq, c); EraseLazier(e.alt, a);
    case Lambda(ps, b) => EraseLazierParams(e.params, ps); EraseLazierBody(e.body, b);
    case Begin(b) => EraseLazierBody(e.actions, b);
    case Cond(cs) => EraseLazierClauses(e.clauses, cs);
    case App(h, es) => EraseLazier(e.operator, h); EraseLazierList(e.operands, es);
    case _ =>
  }

  lemma {:induction false} EraseLazierBody(b: Body, s: Body)
    requires LazierBody(b, s)
    ensures LazierBody(EraseBody(b), EraseBody(s))
    decreases s
  {
    EraseLazier(b.exp, s.exp);
    if s.More? { EraseLazierBody(b.rest, s.rest); }
  }

  lemma {:induction false} EraseLazierClauses(cs: Clauses, s: Clauses)
    requires LazierClauses(cs, s)
    ensures LazierClauses(EraseClauses(cs), EraseClauses(s))
    decreases s
  {
    if s.Else? { EraseLazierBody(cs.actions, s.actions); }
    if s.Clause? {
      EraseLazier(cs.test, s.test);
      EraseLazierBody(cs.actions, s.actions);
      EraseLazierClauses(cs.rest, s.rest);
    }
  }

  lemma {:induction false} EraseLazierList(es: List<Exp>, ss: List<Exp>)
    requires LazierList(es, ss)
    ensures LazierList(EraseList(es), EraseList(ss))
    decreases ss
  {
    if ss.Cons? { EraseLazier(es.head, ss.head); EraseLazierList(es.tail, ss.tail); }
  }

  lemma {:induction false} SetStandsFor(x: Name, u: V, v: V, frame: Globals, sframe: Globals, g: Globals)
    requires FrameStandsFor(frame, sframe, g) && StandsFor(u, v, g)
    ensures FrameStandsFor(SetInFrame(x, u, frame), SetInFrame(x, v, sframe), g)
  {
    if sframe.Cons? { SetStandsFor(x, u, v, frame.tail, sframe.tail, g); }
  }

  lemma {:induction false} DefineStandsFor(x: Name, u: V, v: V, frame: Globals, sframe: Globals, g: Globals)
    requires FrameStandsFor(frame, sframe, g) && StandsFor(u, v, g)
    ensures FrameStandsFor(DefineInFrame(x, u, frame), DefineInFrame(x, v, sframe), g)
  {
    ScanStandsFor(x, frame, sframe, g);
    SetStandsFor(x, u, v, frame, sframe, g);
  }

  lemma {:induction false} GlobalFrameStandsFor(g: Globals)
    ensures FrameStandsFor(GlobalFrame(), GlobalFrame(), g)
  {
  }

  lemma {:induction false} ProcStandsFor(d: P.Definition, s: P.Definition, g: Globals)
    requires LazierParams(d.params, s.params) && LazierBody(d.body, s.body)
    ensures StandsFor(Obj(Proc(EraseParams(d.params), EraseBody(d.body), Cons(Global, Nil))),
              Obj(Proc(EraseParams(s.params), EraseBody(s.body), Cons(Global, Nil))), g)
  {
    EraseLazierParams(d.params, s.params);
    EraseLazierBody(d.body, s.body);
  }

  lemma {:induction false} GlobalsStandFor(ds: List<P.Definition>, ss: List<P.Definition>, g: Globals)
    requires LazierDefs(ds, ss)
    ensures FrameStandsFor(P.GlobalBindings(P.EraseDefs(ds)), P.GlobalBindings(P.EraseDefs(ss)), g)
  {
    match ss
    case Nil => GlobalFrameStandsFor(g);
    case Cons(s, t) =>
      var d := ds.head;
      GlobalsStandFor(ds.tail, t, g);
      ProcStandsFor(d, s, g);
      DefineStandsFor(s.name, Obj(Proc(EraseParams(d.params), EraseBody(d.body), Cons(Global, Nil))),
        Obj(Proc(EraseParams(s.params), EraseBody(s.body), Cons(Global, Nil))),
        P.GlobalBindings(P.EraseDefs(ds.tail)), P.GlobalBindings(P.EraseDefs(t)), g);
  }

  /** The same data, or procedures of which the first has no more strict parameters. */
  predicate AnswersLike(x: L.V, y: L.V) {
    match y
    case Pair(a, d) => x.Pair? && AnswersLike(x.car, a) && AnswersLike(x.cdr, d)
    case Obj(Proc(ss, b, _)) =>
      && x.Obj? && x.c.Proc? && LazierParams(EraseParams(x.c.params), EraseParams(ss))
      && LazierBody(EraseBody(x.c.body), EraseBody(b))
    case Obj(ThunkRef(_)) => x.Obj? && x.c.ThunkRef?
    case _ => x == y
  }

  lemma {:induction false} StandsForIsLike(x: L.V, y: L.V, w: C.World, w': C.World, g: Globals)
    requires StandsFor(C.FV(x, w), C.FV(y, w'), g) && !IsThunk(C.FV(x, w))
    ensures AnswersLike(x, y) && (Data(y) ==> x == y)
  {
    match y
    case Pair(a, d) =>
      StandsForIsLike(x.car, a, w, w', g);
      StandsForIsLike(x.cdr, d, w, w', g);
    case _ =>
  }

  /** Where s answers, p answers too: with the same numbers, strings, symbols, booleans and lists
      of them, and with a procedure where s does. */
  lemma {:induction false} LazierKeepsAnswers(p: P.Program, s: P.Program, fuel: nat) returns (k: nat)
    requires P.PureProgram(p) && P.PureProgram(s) && LazierProgram(p, s) && P.Run(s, fuel).Ok?
    ensures !P.Run(p, k).Timeout?
    ensures forall h :: !P.Run(p, h).Timeout? ==>
              && P.Run(p, h).Ok? && AnswersLike(P.Run(p, h).value, P.Run(s, fuel).value)
              && (Data(P.Run(s, fuel).value) ==> P.Run(p, h) == P.Run(s, fuel))
  {
    var w, f := P.RunIsByName(s, fuel);
    var e, t := P.EraseProgram(p), P.EraseProgram(s);
    var g, sg := P.GlobalBindings(e.defs), P.GlobalBindings(t.defs);
    EraseLazier(p.main, s.main);
    GlobalsStandFor(p.defs, s.defs, g);
    var u;
    k, u := ValueLazier(e.main, t.main, Cons(Global, Nil), Cons(Global, Nil), g, sg, f);
    P.ByNameEndsRun(p, k);
    forall h | !P.Run(p, h).Timeout?
      ensures P.Run(p, h).Ok? && AnswersLike(P.Run(p, h).value, P.Run(s, fuel).value)
      ensures Data(P.Run(s, fuel).value) ==> P.Run(p, h) == P.Run(s, fuel)
    {
      var w', k' := P.RunIsByName(p, h);
      C.SameValue(e.main, Cons(Global, Nil), g, k, k');
      StandsForIsLike(P.Run(p, h).value, P.Run(s, fuel).value, w', w, g);
    }
  }

  /** ((lambda (x) 1) nothing), where x has the given mode and nothing is not bound. */
  function Unused(m: Mode): P.Program {
    P.Program(Nil, App(Lambda(Cons(Param("x", m), Nil), Last(Self(DNum(1.0)))), Cons(Var("nothing"), Nil)))
  }

  /** The other way round answers are lost: an operand that is not used may have none. */
  lemma {:induction false} LazierAnswersMore(m: Mode, fuel: nat)
    requires fuel > 0
    ensures P.Run(Unused(m), fuel) == if m.Strict? then Err(UnboundVariable("nothing")) else Ok(Num(1.0))
  {
    var st := P.Load(Nil);
    assert Scan("nothing", st.frames[0]).Missing?;
    var x, b := Cons(Param("x", m), Nil), Last(Self(DNum(1.0)));
    var e := Var("nothing");
    assert L.ActualValue(e, P.TOP, st, fuel).0 == Err(UnboundVariable("nothing"));
    var f := Obj(L.Proc(x, b, P.TOP));
    assert L.ActualValue(Lambda(x, b), P.TOP, st, fuel) == (Ok(f), st);
    var (r, st1) := L.ProcedureArg(m, e, P.TOP, st, fuel);
    if !m.Strict? {
      assert L.ListOfProcedureArgs(Nil, Nil, P.TOP, st1, fuel) == (Ok(Nil), st1);
      assert L.ListOfProcedureArgs(x, Cons(e, Nil), P.TOP, st, fuel) == (Ok(Cons(r.value, Nil)), st1);
      assert StripParameters(x) == Cons("x", Nil);
      var st2 := st1.(frames := st1.frames + [Zip(StripParameters(x), Cons(r.value, Nil))]);
      assert L.EvalSequence(b, Cons(|st1.frames|, P.TOP), st2, fuel - 1).0 == Ok(Num(1.0));
    }
    var main := App(Lambda(x, b), Cons(e, Nil));
    assert L.Eval(main, P.TOP, st, fuel) == L.Apply(f, Cons(e, Nil), P.TOP, st, fuel);
    var answer := if m.Strict? then Err(UnboundVariable("nothing")) else Ok(Num(1.0));
    assert L.Apply(f, Cons(e, Nil), P.TOP, st, fuel).0 == answer;
    assert L.ActualValue(main, P.TOP, st, fuel).0 == answer;
    assert P.Run(Unused(m), fuel) == L.ActualValue(main, P.TOP, st, fuel).0;
  }
}
