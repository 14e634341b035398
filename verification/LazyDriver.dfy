/** The driver of the evaluator with lazy parameters: it sets up the global environment, evaluates
    the definitions of a program in it, and forces the value of its main expression, all in place. */
module LazyDriver {
  import opened LazyMachine
  import opened LazySyntax
  import opened Scheme
  import C = LazyCorrect
  import N = ByName
  import P = LazyPrograms

  method NewMachine() returns (m: Machine)
    ensures fresh(m) && fresh(m.Repr) && m.IsGlobal(GlobalFrame())
  {
    m := new Machine();
    PrimitiveFrame();
    TruthIsDefined();
    m.SetupEnvironment(PRIMITIVE_NAMES, PRIMITIVE_OBJECTS);
  }

  method Load(defs: List<P.Definition>) returns (m: Machine)
    ensures fresh(m) && fresh(m.Repr) && m.Valid() && KnownChain(m.global, m.heap)
    ensures EnvOf(m.global) == P.TOP && m.Snapshot() == P.Load(defs)
  {
    if defs.Nil? {
      m := NewMachine();
    } else {
      m := Load(defs.tail);
      var r := m.Eval(Define(defs.head.name, Lambda(defs.head.params, defs.head.body)), m.global, 0);
    }
  }

  /** Run in place, a program without assignments answers what it answers by name, where nothing
      is delayed, shared or overwritten: whenever one of the two ends, with the answer of the other. */
  method Run(p: P.Program, fuel: nat) returns (r: Result<V>, ghost w: C.World)
    ensures ResultOf(r) == P.Run(p, fuel)
    ensures P.PureProgram(p) && !P.RunByName(P.EraseProgram(p), fuel).Timeout? ==> !r.Timeout?
    ensures P.PureProgram(p) && !r.Timeout? ==>
              && (exists k :: P.RunByName(P.EraseProgram(p), k) == C.FR(ResultOf(r), w))
              && forall k :: P.RunByName(P.EraseProgram(p), k) in {Timeout, C.FR(ResultOf(r), w)}
  {
    var m := Load(p.defs);
    r := m.ActualValue(p.main, m.global, fuel);
    w := ByName(p, fuel);
  }

  lemma {:induction false} ByName(p: P.Program, fuel: nat) returns (w: C.World)
    ensures P.PureProgram(p) && !P.RunByName(P.EraseProgram(p), fuel).Timeout? ==> !P.Run(p, fuel).Timeout?
    ensures P.PureProgram(p) && !P.Run(p, fuel).Timeout? ==>
              && (exists k :: P.RunByName(P.EraseProgram(p), k) == C.FR(P.Run(p, fuel), w))
              && forall k :: P.RunByName(P.EraseProgram(p), k) in {Timeout, C.FR(P.Run(p, fuel), w)}
  {
    var q := P.EraseProgram(p);
    w := P.START;
    if !P.PureProgram(p) { return; }
    if !P.RunByName(q, fuel).Timeout? { P.ByNameEndsRun(p, fuel); }
    if !P.Run(p, fuel).Timeout? {
      var k;
      w, k := P.RunIsByName(p, fuel);
      forall k' ensures P.RunByName(q, k') in {Timeout, C.FR(P.Run(p, fuel), w)} {
        if !P.RunByName(q, k').Timeout? {
          C.SameValue(q.main, Cons(N.Global, Nil), P.GlobalBindings(q.defs), k, k');
        }
      }
    }
  }
}
