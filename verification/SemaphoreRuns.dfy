/** A semaphore on its own, used by any number of threads that wait and signal as they like. */
module SemaphoreRuns {
  import opened Interleaving
  import opened Semaphore

  /** Any number of threads that wait and signal as they like. `waits` counts the waits that
      returned and `signals` the signals that raised the counter. */
  datatype State = State(sem: Sem, at: seq<At>, waits: nat, signals: nat)

  datatype Action = Go(i: nat) | StartWait(i: nat) | StartSignal(i: nat)

  function Initial(n0: int, threads: nat): State {
    State(NewSem(n0), seq(threads, _ => Done), 0, 0)
  }

  /** The state after an action; an action that is not possible changes nothing. */
  function Step(s: State, a: Action): State {
    if a.i >= |s.at| then s else
      match a
      case StartWait(i) => if s.at[i].Done? then s.(at := s.at[i := WLock]) else s
      case StartSignal(i) => if s.at[i].Done? then s.(at := s.at[i := SLock]) else s
      case Go(i) =>
        match Advance(s.sem, s.at[i])
        case Blocked => s
        case To(sem, p) =>
          State(sem, s.at[i := p],
                s.waits + (if p.Done? && (s.at[i].WQueue? || s.at[i].WUnlockPos?) then 1 else 0),
                s.signals + (if s.at[i].SInc? then 1 else 0))
  }

  function Run(s: State, actions: seq<Action>): State { RunOf(Step, s, actions) }

  ghost predicate Inv(s: State, n0: int) {
    && Sum(s.at, Holds) == Locked(s.sem)
    && (forall i :: 0 <= i < |s.at| ==> Fresh(s.at[i], s.sem.n))
    && s.sem.n == n0 + s.signals - s.waits - Sum(s.at, Neg) - Sum(s.at, Passed)
    && Deficit(s.sem) == Sum(s.at, Neg) - Sum(s.at, Wake) - Unlocked(s.sem) - Sum(s.at, Lost)
  }

  lemma {:induction false} InitialInv(n0: nat, threads: nat)
    ensures Inv(Initial(n0, threads), n0)
  {
    var at := Initial(n0, threads).at;
    SumZero(at, Holds);
    SumZero(at, Neg);
    SumZero(at, Passed);
    SumZero(at, Wake);
    SumZero(at, Lost);
  }

  lemma {:induction false} StepInv(s: State, a: Action, n0: int)
    requires Inv(s, n0)
    ensures Inv(Step(s, a), n0)
  {
    if a.i < |s.at| && Step(s, a) != s {
      var s' := Step(s, a);
      var i, p := a.i, s'.at[a.i];
      SumUpdate(s.at, i, p, Holds);
      SumUpdate(s.at, i, p, Neg);
      SumUpdate(s.at, i, p, Passed);
      SumUpdate(s.at, i, p, Wake);
      SumUpdate(s.at, i, p, Lost);
      if a.Go? {
        SumAtLeast(s.at, i, Holds);
        StaysFresh(s.sem, s.at, i);
        AdvanceBalance(s.sem, s.at[i]);
      }
    }
  }

  lemma {:induction false} RunInv(s: State, actions: seq<Action>, n0: int)
    requires Inv(s, n0)
    ensures Inv(Run(s, actions), n0)
    decreases |actions|
  {
    if |actions| > 0 {
      StepInv(s, actions[0], n0);
      RunInv(Step(s, actions[0]), actions[1..], n0);
    }
  }

  /** In every run the waits that have returned are at most the initial permits and the signals. */
  lemma {:induction false} WaitsNeverExceedSignals(n0: nat, threads: nat, actions: seq<Action>)
    ensures var s := Run(Initial(n0, threads), actions); s.waits <= n0 + s.signals
  {
    var s := Run(Initial(n0, threads), actions);
    InitialInv(n0, threads);
    RunInv(Initial(n0, threads), actions, n0);
    SumNonNegative(s.at, Neg);
    SumNonNegative(s.at, Passed);
    SumNonNegative(s.at, Wake);
    SumNonNegative(s.at, Lost);
  }

  // ----- the calls of a run -----

  /** The waits and the signals that a run begins. */
  function WaitsBegun(s: State, actions: seq<Action>): nat
    decreases |actions|
  {
    if |actions| == 0 then 0 else
      (if actions[0].StartWait? && Step(s, actions[0]) != s then 1 else 0)
      + WaitsBegun(Step(s, actions[0]), actions[1..])
  }

  function SignalsBegun(s: State, actions: seq<Action>): nat
    decreases |actions|
  {
    if |actions| == 0 then 0 else
      (if actions[0].StartSignal? && Step(s, actions[0]) != s then 1 else 0)
      + SignalsBegun(Step(s, actions[0]), actions[1..])
  }

  /** In wait, and in signal with the counter not yet raised. */
  function Waiting(p: At): int {
    if p.WLock? || p.WDec? || p.WTest? || p.WUnlockNeg? || p.WQueue? || p.WUnlockPos? then 1 else 0
  }

  function Raising(p: At): int { if p.SLock? || p.SInc? then 1 else 0 }

  lemma {:induction false} StepCalls(s: State, a: Action)
    ensures Step(s, a).waits + Sum(Step(s, a).at, Waiting)
            == s.waits + Sum(s.at, Waiting) + (if a.StartWait? && Step(s, a) != s then 1 else 0)
    ensures Step(s, a).signals + Sum(Step(s, a).at, Raising)
            == s.signals + Sum(s.at, Raising) + (if a.StartSignal? && Step(s, a) != s then 1 else 0)
  {
    if a.i < |s.at| && Step(s, a) != s {
      SumUpdate(s.at, a.i, Step(s, a).at[a.i], Waiting);
      SumUpdate(s.at, a.i, Step(s, a).at[a.i], Raising);
    }
  }

  lemma {:induction false} RunCalls(s: State, actions: seq<Action>)
    ensures var s' := Run(s, actions);
            && s'.waits + Sum(s'.at, Waiting) == s.waits + Sum(s.at, Waiting) + WaitsBegun(s, actions)
            && s'.signals + Sum(s'.at, Raising) == s.signals + Sum(s.at, Raising) + SignalsBegun(s, actions)
    decreases |actions|
  {
    if |actions| > 0 {
      StepCalls(s, actions[0]);
      RunCalls(Step(s, actions[0]), actions[1..]);
    }
  }

  /** Every wait that was begun has returned or is still at work, and every signal that was begun
      has raised the counter or is still about to. */
  lemma {:induction false} CallsBegun(n0: nat, threads: nat, actions: seq<Action>)
    ensures var s0 := Initial(n0, threads); var s := Run(s0, actions);
            && WaitsBegun(s0, actions) == s.waits + Sum(s.at, Waiting)
            && SignalsBegun(s0, actions) == s.signals + Sum(s.at, Raising)
  {
    var s0 := Initial(n0, threads);
    RunCalls(s0, actions);
    SumZero(s0.at, Waiting);
    SumZero(s0.at, Raising);
  }

  /** When every call has returned, the semaphore is as one newly made with the permits that the
      signals have added to the initial ones and the waits have taken from them. */
  lemma {:induction false} AllReturned(n0: nat, threads: nat, actions: seq<Action>)
    requires var s := Run(Initial(n0, threads), actions); forall i :: 0 <= i < |s.at| ==> s.at[i].Done?
    ensures var s0 := Initial(n0, threads); var s := Run(s0, actions);
            && s.sem == NewSem(n0 + SignalsBegun(s0, actions) - WaitsBegun(s0, actions))
            && WaitsBegun(s0, actions) <= n0 + SignalsBegun(s0, actions)
  {
    var s := Run(Initial(n0, threads), actions);
    InitialInv(n0, threads);
    RunInv(Initial(n0, threads), actions, n0);
    CallsBegun(n0, threads, actions);
    SumZero(s.at, Holds);
    SumZero(s.at, Neg);
    SumZero(s.at, Passed);
    SumZero(s.at, Wake);
    SumZero(s.at, Lost);
    SumZero(s.at, Waiting);
    SumZero(s.at, Raising);
  }

  /** A signal about to unlock the queue mutex unlocks an unlocked mutex exactly when an earlier
      wake-up has not been taken: more waits are past the test than the counter and the signals
      at work account for. */
  lemma {:induction false} SignalCrashesIff(n0: nat, threads: nat, actions: seq<Action>, i: nat)
    requires var s := Run(Initial(n0, threads), actions); i < |s.at| && s.at[i].SUnlockQueue?
    ensures var s := Run(Initial(n0, threads), actions);
            Step(s, Go(i)).at[i].Crashed? <==> Sum(s.at, Neg) > Deficit(s.sem) + Sum(s.at, Wake) + Sum(s.at, Lost)
  {
    InitialInv(n0, threads);
    RunInv(Initial(n0, threads), actions, n0);
  }

  ghost predicate CrashFree(s: State) { forall i :: 0 <= i < |s.at| ==> !s.at[i].Crashed? }

  // ----- no permit is lost -----

  ghost predicate Stuck(s: State) { forall i :: 0 <= i < |s.at| ==> Advance(s.sem, s.at[i]).Blocked? }

  /** In a run without a crash that has come to rest with a wait blocked, as many waits have
      returned as there were permits and signals: no permit is lost. */
  lemma {:induction false} NoPermitIsLost(n0: nat, threads: nat, actions: seq<Action>, i: nat)
    requires var s := Run(Initial(n0, threads), actions); CrashFree(s) && Stuck(s) && i < |s.at| && s.at[i].WQueue?
    ensures var s := Run(Initial(n0, threads), actions); s.waits == n0 + s.signals
  {
    var s := Run(Initial(n0, threads), actions);
    InitialInv(n0, threads);
    RunInv(Initial(n0, threads), actions, n0);
    forall j | 0 <= j < |s.at| ensures Holds(s.at[j]) == 0 {}
    SumZero(s.at, Holds);
    forall j | 0 <= j < |s.at| ensures s.at[j].Done? || s.at[j].WQueue? {}
    SumZero(s.at, Passed);
    SumZero(s.at, Wake);
    SumZero(s.at, Lost);
    SumAtLeast(s.at, i, Neg);
    assert s.sem.queueLocked;
  }

  // ----- three threads are enough for a crash, and two are not -----

  lemma {:induction false} SumBelow(at: seq<At>, i: nat)
    requires i < |at| && Neg(at[i]) == 0
    ensures Sum(at, Neg) <= |at| - 1
  {
    if i > 0 {
      SumBelow(at[1..], i - 1);
    } else {
      SumAtMost(at[1..]);
    }
  }

  lemma {:induction false} SumAtMost(at: seq<At>)
    ensures Sum(at, Neg) <= |at|
  {
    if |at| > 0 { SumAtMost(at[1..]); }
  }

  /** A thread that crashes leaves two others that went below zero and have not passed. */
  lemma {:induction false} TwoAreSafe(s: State, a: Action, n0: int)
    requires Inv(s, n0) && CrashFree(s) && |s.at| <= 2
    ensures CrashFree(Step(s, a))
  {
    if a.Go? && a.i < |s.at| && s.at[a.i].SUnlockQueue? && !s.sem.queueLocked {
      SumAtLeast(s.at, a.i, Wake);
      SumNonNegative(s.at, Lost);
      SumBelow(s.at, a.i);
      assert false;
    }
  }

  lemma {:induction false} TwoNeverCrash(s: State, actions: seq<Action>, n0: int)
    requires Inv(s, n0) && CrashFree(s) && |s.at| <= 2
    ensures CrashFree(Run(s, actions))
    decreases |actions|
  {
    if |actions| > 0 {
      StepInv(s, actions[0], n0);
      TwoAreSafe(s, actions[0], n0);
      TwoNeverCrash(Step(s, actions[0]), actions[1..], n0);
    }
  }

  /** What actions has become after thread i has taken its next step. */
  lemma {:induction false} OneStep(s: State, actions: seq<Action>, i: nat) returns (more: seq<Action>)
    ensures more == actions + [Go(i)] && Run(s, more) == Step(Run(s, actions), Go(i))
  {
    more := actions + [Go(i)];
    OneMoreAction(Step, s, actions, Go(i));
  }

  /** A wait that finds a permit takes it. */
  lemma {:induction false} WaitPasses(s0: State, actions: seq<Action>, i: nat) returns (more: seq<Action>)
    requires var s := Run(s0, actions); i < |s.at| && s.at[i].Done? && !s.sem.opLocked && s.sem.n > 0
    ensures var s := Run(s0, actions);
            Run(s0, more) == s.(sem := s.sem.(n := s.sem.n - 1), waits := s.waits + 1)
  {
    var s := Run(s0, actions);
    var s1 := s.(at := s.at[i := WLock]);
    var s2 := s.(sem := s.sem.(opLocked := true), at := s.at[i := WDec]);
    var s3 := s.(sem := s2.sem.(n := s.sem.n - 1), at := s.at[i := WTest(s.sem.n - 1)]);
    var s4 := s3.(at := s.at[i := WUnlockPos]);
    assert Step(s, StartWait(i)) == s1 && Step(s1, Go(i)) == s2 && Step(s2, Go(i)) == s3 && Step(s3, Go(i)) == s4;
    OneMoreAction(Step, s0, actions, StartWait(i));
    more := OneStep(s0, actions + [StartWait(i)], i);
    more := OneStep(s0, more, i);
    more := OneStep(s0, more, i);
    more := OneStep(s0, more, i);
    assert s.at[i := Done] == s.at;
  }

  /** A wait that finds none ends up at the queue mutex. */
  lemma {:induction false} WaitBlocks(s0: State, actions: seq<Action>, i: nat) returns (more: seq<Action>)
    requires var s := Run(s0, actions); i < |s.at| && s.at[i].Done? && !s.sem.opLocked && s.sem.n <= 0
    ensures var s := Run(s0, actions);
            Run(s0, more) == s.(sem := s.sem.(n := s.sem.n - 1), at := s.at[i := WQueue])
  {
    var s := Run(s0, actions);
    var s1 := s.(at := s.at[i := WLock]);
    var s2 := s.(sem := s.sem.(opLocked := true), at := s.at[i := WDec]);
    var s3 := s.(sem := s2.sem.(n := s.sem.n - 1), at := s.at[i := WTest(s.sem.n - 1)]);
    var s4 := s3.(at := s.at[i := WUnlockNeg]);
    assert Step(s, StartWait(i)) == s1 && Step(s1, Go(i)) == s2 && Step(s2, Go(i)) == s3 && Step(s3, Go(i)) == s4;
    OneMoreAction(Step, s0, actions, StartWait(i));
    more := OneStep(s0, actions + [StartWait(i)], i);
    more := OneStep(s0, more, i);
    more := OneStep(s0, more, i);
    more := OneStep(s0, more, i);
  }

  /** A signal below zero is about to unlock the queue mutex after three steps. */
  lemma {:induction false} SignalReachesQueue(s0: State, actions: seq<Action>, i: nat) returns (more: seq<Action>)
    requires var s := Run(s0, actions); i < |s.at| && s.at[i].Done? && !s.sem.opLocked && s.sem.n < 0
    ensures var s := Run(s0, actions);
            Run(s0, more) ==
            State(Sem(s.sem.n + 1, true, s.sem.queueLocked), s.at[i := SUnlockQueue], s.waits, s.signals + 1)
  {
    var s := Run(s0, actions);
    var s1 := s.(at := s.at[i := SLock]);
    var s2 := s.(sem := s.sem.(opLocked := true), at := s.at[i := SInc]);
    var s3 := State(s2.sem.(n := s.sem.n + 1), s.at[i := STest(s.sem.n + 1)], s.waits, s.signals + 1);
    assert Step(s, StartSignal(i)) == s1 && Step(s1, Go(i)) == s2 && Step(s2, Go(i)) == s3;
    OneMoreAction(Step, s0, actions, StartSignal(i));
    more := OneStep(s0, actions + [StartSignal(i)], i);
    more := OneStep(s0, more, i);
    more := OneStep(s0, more, i);
  }

  lemma {:induction false} SignalWakes(s0: State, actions: seq<Action>, i: nat) returns (more: seq<Action>)
    requires var s := Run(s0, actions);
             i < |s.at| && s.at[i].Done? && !s.sem.opLocked && s.sem.n < 0 && s.sem.queueLocked
    ensures var s := Run(s0, actions);
            Run(s0, more) == State(Sem(s.sem.n + 1, false, false), s.at, s.waits, s.signals + 1)
  {
    more := SignalReachesQueue(s0, actions, i);
    more := OneStep(s0, more, i);
    more := OneStep(s0, more, i);
    assert Run(s0, actions).at[i := Done] == Run(s0, actions).at;
  }

  /** Uses up the permits. */
  lemma {:induction false} NoPermitLeft(n0: nat, threads: nat, n: nat) returns (actions: seq<Action>)
    requires n <= n0 && threads > 0
    ensures Run(Initial(n0, threads), actions) == Initial(n0, threads).(sem := NewSem(n), waits := n0 - n)
    decreases n0 - n
  {
    if n == n0 {
      actions := [];
    } else {
      actions := NoPermitLeft(n0, threads, n + 1);
      actions := WaitPasses(Initial(n0, threads), actions, 0);
    }
  }

  /** Two threads go below zero; a third signals twice before either has woken. */
  lemma {:induction false} ThreeCanCrash(n0: nat, threads: nat) returns (actions: seq<Action>)
    requires threads >= 3
    ensures !CrashFree(Run(Initial(n0, threads), actions))
  {
    var s0 := Initial(n0, threads);
    actions := NoPermitLeft(n0, threads, 0);
    actions := WaitBlocks(s0, actions, 0);
    actions := WaitBlocks(s0, actions, 1);
    actions := SignalWakes(s0, actions, 2);
    actions := SignalReachesQueue(s0, actions, 2);
    actions := OneStep(s0, actions, 2);
    assert Run(s0, actions).at[2].Crashed?;
  }

  /** For every initial count, some run unlocks an unlocked mutex if and only if there are three
      threads or more. */
  lemma {:induction false} CrashesIffThreeThreads(n0: nat, threads: nat)
    ensures (exists actions {:trigger Run(Initial(n0, threads), actions)} ::
               !CrashFree(Run(Initial(n0, threads), actions))) <==> threads >= 3
  {
    var s0 := Initial(n0, threads);
    if threads >= 3 {
      var actions := ThreeCanCrash(n0, threads);
    } else {
      InitialInv(n0, threads);
      forall actions ensures CrashFree(Run(s0, actions)) { TwoNeverCrash(s0, actions, n0); }
    }
  }
}
