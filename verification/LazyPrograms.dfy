/** Whole programs for the evaluator with lazy parameters: procedure definitions at top level
    and a main expression. Marking a parameter lazy-memo instead of lazy, or back, changes
    nothing that can be observed. */
module LazyPrograms {
  import opened Scheme
  import opened LazySyntax
  import opened LazyInterp
  import opened LazyCorrect
  import N = ByName

  /** (define (name . params) . body) */
  datatype Definition = Definition(name: Name, params: List<Param>, body: Body)
  datatype Program = Program(defs: List<Definition>, main: Exp)

  const TOP: Env := Cons(0, Nil)

  /** Evaluates the definitions in the global environment, the last of the list first. */
  function Load(defs: List<Definition>): State {
    match defs
    case Nil => State([GlobalFrame()], [])
    case Cons(d, rest) => Eval(Define(d.name, Lambda(d.params, d.body)), TOP, Load(rest), 0).1
  }

  /** The driver forces the value of the main expression. */
  function Run(p: Program, fuel: nat): Result<V> {
    ActualValue(p.main, TOP, Load(p.defs), fuel).0
  }

  function EraseDefs(defs: List<Definition>): List<Definition> {
    match defs
    case Nil => Nil
    case Cons(d, rest) => Cons(Definition(d.name, EraseParams(d.params), EraseBody(d.body)), EraseDefs(rest))
  }

  /** The program with every lazy-memo parameter made lazy. */
  function EraseProgram(p: Program): Program { Program(EraseDefs(p.defs), Erase(p.main)) }

  predicate PureDefs(defs: List<Definition>) {
    match defs
    case Nil => true
    case Cons(d, rest) => PureBody(d.body) && PureDefs(rest)
  }

  predicate PureProgram(p: Program) { PureDefs(p.defs) && Pure(p.main) }

  // ----- the same program by name -----

  function GlobalBindings(defs: List<Definition>): Globals {
    match defs
    case Nil => GlobalFrame()
    case Cons(d, rest) =>
      DefineInFrame(d.name, Obj(N.Proc(d.params, d.body, Cons(N.Global, Nil))), GlobalBindings(rest))
  }

  function RunByName(p: Program, fuel: nat): Result<N.V> {
    N.ActualValue(p.main, Cons(N.Global, Nil), GlobalBindings(p.defs), fuel)
  }

  const START: World := World([N.Global], [])

  lemma {:induction false} SetInFrameValid(x: Name, v: V, frame: Frame<Object>, w: World)
    requires ValidFrame(frame, w) && ValidValue(v, w)
    ensures ValidFrame(SetInFrame(x, v, frame), w)
  {
    if frame.Cons? { SetInFrameValid(x, v, frame.tail, w); }
  }

  lemma {:induction false} LoadDefines(d: Definition, rest: List<Definition>)
    requires |Load(rest).frames| == 1
    ensures var v := Obj(Proc(d.params, d.body, TOP));
            Load(Cons(d, rest)) == Load(rest).(frames := [DefineInFrame(d.name, v, Load(rest).frames[0])])
  {
    var st, v := Load(rest), Obj(Proc(d.params, d.body, TOP));
    assert Eval(Lambda(d.params, d.body), TOP, st, 0) == (Ok(v), st);
    assert DefineVariable(d.name, v, TOP, st.frames) == [DefineInFrame(d.name, v, st.frames[0])];
  }

  lemma {:induction false} DefineInv(d: Definition, frame: Frame<Object>, globals: Globals)
    requires PureBody(d.body) && FrameStandsFor(frame, N.Global, START, globals)
    ensures FrameStandsFor(DefineInFrame(d.name, Obj(Proc(d.params, d.body, TOP)), frame), N.Global, START,
              DefineInFrame(d.name, Obj(N.Proc(EraseParams(d.params), EraseBody(d.body), Cons(N.Global, Nil))),
                globals))
  {
    var v := Obj(Proc(d.params, d.body, TOP));
    assert ForgetEnv(TOP, START) == Cons(N.Global, Nil);
    MapScan(Forget(START), d.name, frame);
    MapSetInFrame(Forget(START), d.name, v, frame);
    SetInFrameValid(d.name, v, frame, START);
  }

  lemma {:induction false} LoadInv(defs: List<Definition>)
    requires PureDefs(defs)
    ensures Inv(Load(defs), START, GlobalBindings(EraseDefs(defs))) && |Load(defs).frames| == 1
  {
    match defs
    case Nil => assert FrameStandsFor(GlobalFrame(), N.Global, START, GlobalFrame());
    case Cons(d, rest) =>
      LoadInv(rest);
      assert FrameStandsFor(Load(rest).frames[0], START.frames[0], START, GlobalBindings(EraseDefs(rest)));
      LoadDefines(d, rest);
      DefineInv(d, Load(rest).frames[0], GlobalBindings(EraseDefs(rest)));
  }

  /** A run that ends is answered by call by name. */
  lemma {:induction false} RunIsByName(p: Program, fuel: nat) returns (w: World, k: nat)
    requires PureProgram(p) && !Run(p, fuel).Timeout?
    ensures RunByName(EraseProgram(p), k) == FR(Run(p, fuel), w)
  {
    LoadInv(p.defs);
    w, k := ValueByName(p.main, TOP, Load(p.defs), START, GlobalBindings(EraseDefs(p.defs)), fuel);
  }

  lemma {:induction false} ByNameEndsRun(p: Program, fuel: nat)
    requires PureProgram(p) && !RunByName(EraseProgram(p), fuel).Timeout?
    ensures !Run(p, fuel).Timeout?
  {
    LoadInv(p.defs);
    ValueEnds(p.main, TOP, Load(p.defs), START, GlobalBindings(EraseDefs(p.defs)), fuel);
  }

  // ----- lazy and lazy-memo cannot be told apart -----

  /** Equal, except that the parameters of a procedure may differ in lazy against lazy-memo, and
      that a thunk may be another one. */
  predicate SameUpToModes(v: V, u: V) {
    match v
    case Pair(a, d) => u.Pair? && SameUpToModes(a, u.car) && SameUpToModes(d, u.cdr)
    case Obj(Proc(ps, b, _)) =>
      u.Obj? && u.c.Proc? && EraseParams(ps) == EraseParams(u.c.params) && EraseBody(b) == EraseBody(u.c.body)
    case Obj(ThunkRef(_)) => u.Obj? && u.c.ThunkRef?
    case _ => u == v
  }

  lemma {:induction false} SameForgotten(v: V, u: V, w: World, w': World)
    requires FV(v, w) == FV(u, w')
    ensures SameUpToModes(v, u)
    ensures Data(v) ==> v == u
  {
    match v
    case Pair(a, d) => SameForgotten(a, u.car, w, w'); SameForgotten(d, u.cdr, w, w');
    case _ =>
  }

  /** Two programs that differ only in which lazy parameters are memoised: if one ends the other
      does, with the same error or the same data. */
  lemma {:induction false} LazyMemoUnobservable(p: Program, q: Program, fuel: nat) returns (k: nat)
    requires PureProgram(p) && PureProgram(q) && EraseProgram(p) == EraseProgram(q)
    requires !Run(p, fuel).Timeout?
    ensures !Run(q, k).Timeout?
    ensures forall g :: !Run(q, g).Timeout? ==>
              match Run(p, fuel)
              case Err(e) => Run(q, g) == Err(e)
              case Ok(v) => Run(q, g).Ok? && SameUpToModes(v, Run(q, g).value) && (Data(v) ==> Run(q, g) == Ok(v))
              case Timeout => false
  {
    var w;
    w, k := RunIsByName(p, fuel);
    ByNameEndsRun(q, k);
    forall g | !Run(q, g).Timeout?
      ensures FR(Run(p, fuel), w).Err? ==> Run(q, g) == Run(p, fuel)
      ensures Run(p, fuel).Ok? ==> Run(q, g).Ok? && SameUpToModes(Run(p, fuel).value, Run(q, g).value)
      ensures Run(p, fuel).Ok? && Data(Run(p, fuel).value) ==> Run(q, g) == Run(p, fuel)
    {
      var w', k' := RunIsByName(q, g);
      var r := EraseProgram(p);
      SameValue(r.main, Cons(N.Global, Nil), GlobalBindings(r.defs), k, k');
      if Run(p, fuel).Ok? { SameForgotten(Run(p, fuel).value, Run(q, g).value, w, w'); }
    }
  }
}
