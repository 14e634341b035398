/** A queue of one slot shared by any number of producers and consumers, built from two
    semaphores. Each thread has its own program counter; a step of any one of them is a step
    of the whole. */
module BlockingQueue {
  import opened Interleaving
  import opened Semaphore

  type Elem = int

  /** Where a thread is inside `enqueue` or `dequeue`. `NoElement` is the error of taking the
      car of an empty list. */
  datatype PC =
    | Idle
    | EnqWait(e: Elem, p: At) | EnqAppend(e: Elem) | EnqSignal(p: At)
    | DeqWait(p: At) | DeqCar | DeqCdr | DeqSignal(p: At) | DeqReturn
    | NoElement

  /** `appended`, `taken` and `returned` record what every enqueue added, what every dequeue
      stored in x, and what every dequeue answered, in the order in which it happened. */
  datatype State = Queue(
    pushing: Sem, pulling: Sem, lis: seq<Elem>, x: Elem, pc: seq<PC>,
    appended: seq<Elem>, taken: seq<Elem>, returned: seq<Elem>)

  function Initial(threads: nat, x: Elem): State {
    Queue(NewSem(1), NewSem(0), [], x, seq(threads, _ => Idle), [], [], [])
  }

  datatype Action = Go(i: nat) | StartEnqueue(i: nat, e: Elem) | StartDequeue(i: nat)

  /** Whether thread i has a step to take. */
  predicate CanGo(s: State, i: nat)
    requires i < |s.pc|
  {
    match s.pc[i]
    case Idle => false
    case NoElement => false
    case EnqWait(_, p) => Advance(s.pushing, p).To?
    case EnqSignal(p) => Advance(s.pulling, p).To?
    case DeqWait(p) => Advance(s.pulling, p).To?
    case DeqSignal(p) => Advance(s.pushing, p).To?
    case _ => true
  }

  function GoStep(s: State, i: nat): State
    requires i < |s.pc| && CanGo(s, i)
  {
    match s.pc[i]
    case EnqWait(e, p) =>
      var m := Advance(s.pushing, p);
      s.(pushing := m.s, pc := s.pc[i := if m.at.Done? then EnqAppend(e) else EnqWait(e, m.at)])
    case EnqAppend(e) => s.(lis := s.lis + [e], appended := s.appended + [e], pc := s.pc[i := EnqSignal(SLock)])
    case EnqSignal(p) =>
      var m := Advance(s.pulling, p);
      s.(pulling := m.s, pc := s.pc[i := if m.at.Done? then Idle else EnqSignal(m.at)])
    case DeqWait(p) =>
      var m := Advance(s.pulling, p);
      s.(pulling := m.s, pc := s.pc[i := if m.at.Done? then DeqCar else DeqWait(m.at)])
    case DeqCar =>
      if s.lis == [] then s.(pc := s.pc[i := NoElement])
      else s.(x := s.lis[0], taken := s.taken + [s.lis[0]], pc := s.pc[i := DeqCdr])
    case DeqCdr =>
      if s.lis == [] then s.(pc := s.pc[i := NoElement])
      else s.(lis := s.lis[1..], pc := s.pc[i := DeqSignal(SLock)])
    case DeqSignal(p) =>
      var m := Advance(s.pushing, p);
      s.(pushing := m.s, pc := s.pc[i := if m.at.Done? then DeqReturn else DeqSignal(m.at)])
    case _ => s.(returned := s.returned + [s.x], pc := s.pc[i := Idle])
  }

  /** The state after an action; an action that is not possible changes nothing. */
  function Step(s: State, a: Action): State {
    if a.i >= |s.pc| then s else
      match a
      case StartEnqueue(i, e) => if s.pc[i].Idle? then s.(pc := s.pc[i := EnqWait(e, WLock)]) else s
      case StartDequeue(i) => if s.pc[i].Idle? then s.(pc := s.pc[i := DeqWait(WLock)]) else s
      case Go(i) => if CanGo(s, i) then GoStep(s, i) else s
  }

  function Run(s: State, actions: seq<Action>): State { RunOf(Step, s, actions) }

  // ----- what a program counter contributes -----

  function OnPush(c: PC): At {
    match c
    case EnqWait(_, p) => p
    case DeqSignal(p) => p
    case _ => Done
  }

  function OnPull(c: PC): At {
    match c
    case DeqWait(p) => p
    case EnqSignal(p) => p
    case _ => Done
  }

  function HoldsPush(c: PC): int { Holds(OnPush(c)) }
  function HoldsPull(c: PC): int { Holds(OnPull(c)) }
  function NegPush(c: PC): int { Neg(OnPush(c)) }
  function NegPull(c: PC): int { Neg(OnPull(c)) }
  function WakePush(c: PC): int { Wake(OnPush(c)) }
  function WakePull(c: PC): int { Wake(OnPull(c)) }

  /** A signal that still owes its permit: before it raises the counter, or between raising it
      for a waiter and unlocking the queue mutex. */
  function Owes(p: At): int { if p.SLock? || p.SInc? then 1 else Wake(p) }

  /** The permit to append, in the hands of a thread. */
  function PushToken(c: PC): int {
    match c
    case EnqWait(_, p) => Passed(p)
    case EnqAppend(_) => 1
    case DeqSignal(p) => Owes(p)
    case _ => 0
  }

  /** The permit to take, in the hands of a thread. */
  function PullToken(c: PC): int {
    match c
    case DeqWait(p) => Passed(p)
    case DeqCar => 1
    case DeqCdr => 1
    case EnqSignal(p) => Owes(p)
    case _ => 0
  }

  function AtCdr(c: PC): int { if c.DeqCdr? then 1 else 0 }

  function Surplus(s: Sem): int { if s.n > 0 then s.n else 0 }

  function PushTokens(s: State): int { Surplus(s.pushing) + Unlocked(s.pushing) + Sum(s.pc, PushToken) }
  function PullTokens(s: State): int { Surplus(s.pulling) + Unlocked(s.pulling) + Sum(s.pc, PullToken) }

  /** No error has happened in thread c. */
  predicate Sound(c: PC) {
    !c.NoElement? && !OnPush(c).Crashed? && !OnPull(c).Crashed?
  }

  predicate WaitAt(p: At) { p.WLock? || p.WDec? || p.WTest? || p.WUnlockNeg? || p.WQueue? || p.WUnlockPos? }

  predicate SignalAt(p: At) { p.SLock? || p.SInc? || p.STest? || p.SUnlockQueue? || p.SUnlock? }

  /** The sub-counter of a wait or a signal is one of its own. */
  predicate Proper(c: PC) {
    match c
    case EnqWait(_, p) => WaitAt(p)
    case DeqWait(p) => WaitAt(p)
    case EnqSignal(p) => SignalAt(p)
    case DeqSignal(p) => SignalAt(p)
    case _ => true
  }

  ghost predicate MutexInv(s: State) {
    && Sum(s.pc, HoldsPush) == Locked(s.pushing) && Sum(s.pc, HoldsPull) == Locked(s.pulling)
    && forall i :: 0 <= i < |s.pc| ==> Fresh(OnPush(s.pc[i]), s.pushing.n) && Fresh(OnPull(s.pc[i]), s.pulling.n)
  }

  ghost predicate WaiterInv(s: State) {
    && Deficit(s.pushing) == Sum(s.pc, NegPush) - Sum(s.pc, WakePush) - Unlocked(s.pushing)
    && Deficit(s.pulling) == Sum(s.pc, NegPull) - Sum(s.pc, WakePull) - Unlocked(s.pulling)
  }

  /** Exactly one permit exists, and it is on the pulling side exactly when the list holds an element. */
  ghost predicate TokenInv(s: State) {
    && PushTokens(s) + PullTokens(s) == 1
    && |s.lis| == PullTokens(s)
  }

  ghost predicate HistoryInv(s: State) {
    && 0 <= Sum(s.pc, AtCdr) <= |s.lis|
    && s.appended == s.taken + s.lis[Sum(s.pc, AtCdr)..]
  }

  ghost predicate Inv(s: State) {
    && MutexInv(s) && WaiterInv(s) && TokenInv(s) && HistoryInv(s)
    && forall i :: 0 <= i < |s.pc| ==> Sound(s.pc[i]) && Proper(s.pc[i])
  }

  // ----- every run keeps the invariant -----

  lemma {:induction false} InitialInv(threads: nat, x: Elem)
    ensures Inv(Initial(threads, x))
  {
    var pc := Initial(threads, x).pc;
    SumZero(pc, HoldsPush); SumZero(pc, HoldsPull);
    SumZero(pc, NegPush); SumZero(pc, NegPull);
    SumZero(pc, WakePush); SumZero(pc, WakePull);
    SumZero(pc, PushToken); SumZero(pc, PullToken);
    SumZero(pc, AtCdr);
  }

  /** A thread with the permit in hand holds the only one. */
  lemma {:induction false} OnlyToken(s: State, i: nat)
    requires Inv(s) && i < |s.pc|
    ensures PushTokens(s) >= Surplus(s.pushing) + Unlocked(s.pushing) + PushToken(s.pc[i]) >= 0
    ensures PullTokens(s) >= Surplus(s.pulling) + Unlocked(s.pulling) + PullToken(s.pc[i]) >= 0
    ensures 0 <= AtCdr(s.pc[i]) <= Sum(s.pc, AtCdr)
    ensures PullToken(s.pc[i]) == 1 && AtCdr(s.pc[i]) == 0 ==> Sum(s.pc, AtCdr) == 0
  {
    SumAtLeast(s.pc, i, PushToken);
    SumAtLeast(s.pc, i, PullToken);
    SumAtLeast(s.pc, i, AtCdr);
    if PullToken(s.pc[i]) == 1 && AtCdr(s.pc[i]) == 0 {
      HolderIsAlone(s.pc, i, PullToken);
      SumZero(s.pc, AtCdr);
    }
  }

  lemma {:induction false} StaysFreshPush(s: State, i: nat)
    requires Inv(s) && i < |s.pc| && Advance(s.pushing, OnPush(s.pc[i])).To?
    ensures var m := Advance(s.pushing, OnPush(s.pc[i]));
            Fresh(m.at, m.s.n) && forall j :: 0 <= j < |s.pc| && j != i ==> Fresh(OnPush(s.pc[j]), m.s.n)
  {
    SumAtLeast(s.pc, i, HoldsPush);
    if HoldsPush(s.pc[i]) == 1 { HolderIsAlone(s.pc, i, HoldsPush); }
    forall j | 0 <= j < |s.pc| && j != i
      ensures Fresh(OnPush(s.pc[j]), Advance(s.pushing, OnPush(s.pc[i])).s.n)
    {
      assert HoldsPush(s.pc[i]) == 1 ==> HoldsPush(s.pc[j]) == 0;
    }
  }

  lemma {:induction false} StaysFreshPull(s: State, i: nat)
    requires Inv(s) && i < |s.pc| && Advance(s.pulling, OnPull(s.pc[i])).To?
    ensures var m := Advance(s.pulling, OnPull(s.pc[i]));
            Fresh(m.at, m.s.n) && forall j :: 0 <= j < |s.pc| && j != i ==> Fresh(OnPull(s.pc[j]), m.s.n)
  {
    SumAtLeast(s.pc, i, HoldsPull);
    if HoldsPull(s.pc[i]) == 1 { HolderIsAlone(s.pc, i, HoldsPull); }
    forall j | 0 <= j < |s.pc| && j != i
      ensures Fresh(OnPull(s.pc[j]), Advance(s.pulling, OnPull(s.pc[i])).s.n)
    {
      assert HoldsPull(s.pc[i]) == 1 ==> HoldsPull(s.pc[j]) == 0;
    }
  }

  /** A step of wait neither makes nor loses a permit; at its end the thread has one. */
  lemma {:induction false} WaitBalance(s: Sem, p: At)
    requires WaitAt(p) && Fresh(p, s.n) && Advance(s, p).To?
    ensures var m := Advance(s, p);
            && (WaitAt(m.at) || m.at.Done?)
            && Surplus(m.s) + Unlocked(m.s) + (if m.at.Done? then 1 else Passed(m.at))
               == Surplus(s) + Unlocked(s) + Passed(p)
  {
  }

  /** Nor does a step of signal, and it unlocks a locked mutex as long as it owes the only permit. */
  lemma {:induction false} SignalBalance(s: Sem, p: At)
    requires SignalAt(p) && Fresh(p, s.n) && Advance(s, p).To? && Unlocked(s) + Owes(p) <= 1
    ensures var m := Advance(s, p);
            && (SignalAt(m.at) || m.at.Done?)
            && Surplus(m.s) + Unlocked(m.s) + Owes(m.at) == Surplus(s) + Unlocked(s) + Owes(p)
  {
  }

  /** What a step on the pushing semaphore adds to every sum. */
  lemma {:induction false} PushBalance(s: Sem, c: PC, c': PC)
    requires c.EnqWait? || c.DeqSignal?
    requires Proper(c) && Fresh(OnPush(c), s.n) && Advance(s, OnPush(c)).To?
    requires Locked(s) >= HoldsPush(c) && Unlocked(s) + PushToken(c) <= 1
    requires var at := Advance(s, OnPush(c)).at;
             c' == if c.EnqWait? then (if at.Done? then EnqAppend(c.e) else EnqWait(c.e, at))
                   else if at.Done? then DeqReturn else DeqSignal(at)
    ensures var m := Advance(s, OnPush(c)).s;
            && Sound(c') && Proper(c')
            && HoldsPush(c') - HoldsPush(c) == Locked(m) - Locked(s)
            && Deficit(m) - Deficit(s)
               == (NegPush(c') - NegPush(c)) - (WakePush(c') - WakePush(c)) - (Unlocked(m) - Unlocked(s))
            && Surplus(m) + Unlocked(m) + PushToken(c') == Surplus(s) + Unlocked(s) + PushToken(c)
    ensures OnPull(c) == OnPull(c') == Done && PullToken(c) == PullToken(c') == AtCdr(c) == AtCdr(c') == 0
  {
    AdvanceBalance(s, OnPush(c));
    if c.EnqWait? { WaitBalance(s, c.p); } else { SignalBalance(s, c.p); }
  }

  lemma {:induction false} PullBalance(s: Sem, c: PC, c': PC)
    requires c.DeqWait? || c.EnqSignal?
    requires Proper(c) && Fresh(OnPull(c), s.n) && Advance(s, OnPull(c)).To?
    requires Locked(s) >= HoldsPull(c) && Unlocked(s) + PullToken(c) <= 1
    requires var at := Advance(s, OnPull(c)).at;
             c' == if c.DeqWait? then (if at.Done? then DeqCar else DeqWait(at))
                   else if at.Done? then Idle else EnqSignal(at)
    ensures var m := Advance(s, OnPull(c)).s;
            && Sound(c') && Proper(c')
            && HoldsPull(c') - HoldsPull(c) == Locked(m) - Locked(s)
            && Deficit(m) - Deficit(s)
               == (NegPull(c') - NegPull(c)) - (WakePull(c') - WakePull(c)) - (Unlocked(m) - Unlocked(s))
            && Surplus(m) + Unlocked(m) + PullToken(c') == Surplus(s) + Unlocked(s) + PullToken(c)
    ensures OnPush(c) == OnPush(c') == Done && PushToken(c) == PushToken(c') == AtCdr(c) == AtCdr(c') == 0
  {
    AdvanceBalance(s, OnPull(c));
    if c.DeqWait? { WaitBalance(s, c.p); } else { SignalBalance(s, c.p); }
  }

  /** Thread i moves to c, and each mutex is taken or released as c holds it or not. */
  lemma {:induction false} MutexKept(s: State, s': State, i: nat, c: PC)
    requires MutexInv(s) && i < |s.pc| && s'.pc == s.pc[i := c]
    requires HoldsPush(c) - HoldsPush(s.pc[i]) == Locked(s'.pushing) - Locked(s.pushing)
    requires HoldsPull(c) - HoldsPull(s.pc[i]) == Locked(s'.pulling) - Locked(s.pulling)
    requires Fresh(OnPush(c), s'.pushing.n) && Fresh(OnPull(c), s'.pulling.n)
    requires s'.pushing.n == s.pushing.n ||
             forall j :: 0 <= j < |s.pc| && j != i ==> Fresh(OnPush(s.pc[j]), s'.pushing.n)
    requires s'.pulling.n == s.pulling.n ||
             forall j :: 0 <= j < |s.pc| && j != i ==> Fresh(OnPull(s.pc[j]), s'.pulling.n)
    ensures MutexInv(s')
  {
    SumUpdate(s.pc, i, c, HoldsPush);
    SumUpdate(s.pc, i, c, HoldsPull);
  }

  lemma {:induction false} WaiterKept(s: State, s': State, i: nat, c: PC)
    requires WaiterInv(s) && i < |s.pc| && s'.pc == s.pc[i := c]
    requires Deficit(s'.pushing) - Deficit(s.pushing) == (NegPush(c) - NegPush(s.pc[i]))
             - (WakePush(c) - WakePush(s.pc[i])) - (Unlocked(s'.pushing) - Unlocked(s.pushing))
    requires Deficit(s'.pulling) - Deficit(s.pulling) == (NegPull(c) - NegPull(s.pc[i]))
             - (WakePull(c) - WakePull(s.pc[i])) - (Unlocked(s'.pulling) - Unlocked(s.pulling))
    ensures WaiterInv(s')
  {
    SumUpdate(s.pc, i, c, NegPush);
    SumUpdate(s.pc, i, c, NegPull);
    SumUpdate(s.pc, i, c, WakePush);
    SumUpdate(s.pc, i, c, WakePull);
  }

  /** The sums that count the permits and the elements taken and not removed. */
  lemma {:induction false} TokenSums(pc: seq<PC>, i: nat, c: PC)
    requires i < |pc|
    ensures Sum(pc[i := c], PushToken) == Sum(pc, PushToken) - PushToken(pc[i]) + PushToken(c)
    ensures Sum(pc[i := c], PullToken) == Sum(pc, PullToken) - PullToken(pc[i]) + PullToken(c)
    ensures Sum(pc[i := c], AtCdr) == Sum(pc, AtCdr) - AtCdr(pc[i]) + AtCdr(c)
  {
    SumUpdate(pc, i, c, PushToken);
    SumUpdate(pc, i, c, PullToken);
    SumUpdate(pc, i, c, AtCdr);
  }

  lemma {:induction false} PushStep(s: State, i: nat)
    requires Inv(s) && i < |s.pc| && CanGo(s, i) && (s.pc[i].EnqWait? || s.pc[i].DeqSignal?)
    ensures Inv(GoStep(s, i))
  {
    var s' := GoStep(s, i);
    OnlyToken(s, i);
    SumAtLeast(s.pc, i, HoldsPush);
    PushBalance(s.pushing, s.pc[i], s'.pc[i]);
    StaysFreshPush(s, i);
    MutexKept(s, s', i, s'.pc[i]);
    WaiterKept(s, s', i, s'.pc[i]);
    TokenSums(s.pc, i, s'.pc[i]);
  }

  lemma {:induction false} PullStep(s: State, i: nat)
    requires Inv(s) && i < |s.pc| && CanGo(s, i) && (s.pc[i].DeqWait? || s.pc[i].EnqSignal?)
    ensures Inv(GoStep(s, i))
  {
    var s' := GoStep(s, i);
    OnlyToken(s, i);
    SumAtLeast(s.pc, i, HoldsPull);
    PullBalance(s.pulling, s.pc[i], s'.pc[i]);
    StaysFreshPull(s, i);
    MutexKept(s, s', i, s'.pc[i]);
    WaiterKept(s, s', i, s'.pc[i]);
    TokenSums(s.pc, i, s'.pc[i]);
  }

  lemma {:induction false} AppendStep(s: State, i: nat)
    requires Inv(s) && i < |s.pc| && s.pc[i].EnqAppend?
    ensures Inv(GoStep(s, i))
  {
    var s' := GoStep(s, i);
    OnlyToken(s, i);
    assert s.lis == [] && Sum(s.pc, AtCdr) == 0;
    MutexKept(s, s', i, s'.pc[i]);
    WaiterKept(s, s', i, s'.pc[i]);
    TokenSums(s.pc, i, s'.pc[i]);
  }

  /** The list is not empty when its car or cdr is taken. */
  lemma {:induction false} HasElement(s: State, i: nat)
    requires Inv(s) && i < |s.pc| && (s.pc[i].DeqCar? || s.pc[i].DeqCdr?)
    ensures |s.lis| == 1 && Sum(s.pc, AtCdr) == AtCdr(s.pc[i])
  {
    OnlyToken(s, i);
  }

  lemma {:induction false} CarStep(s: State, i: nat)
    requires Inv(s) && i < |s.pc| && s.pc[i].DeqCar?
    ensures Inv(GoStep(s, i))
  {
    HasElement(s, i);
    var s' := GoStep(s, i);
    MutexKept(s, s', i, s'.pc[i]);
    WaiterKept(s, s', i, s'.pc[i]);
    TokenSums(s.pc, i, s'.pc[i]);
    assert s.lis == [s.lis[0]] && s.appended == s.taken + s.lis;
  }

  lemma {:induction false} CdrStep(s: State, i: nat)
    requires Inv(s) && i < |s.pc| && s.pc[i].DeqCdr?
    ensures Inv(GoStep(s, i))
  {
    HasElement(s, i);
    var s' := GoStep(s, i);
    MutexKept(s, s', i, s'.pc[i]);
    WaiterKept(s, s', i, s'.pc[i]);
    TokenSums(s.pc, i, s'.pc[i]);
  }

  /** A move between places that hold no mutex and no permit. */
  lemma {:induction false} QuietStep(s: State, s': State, i: nat, c: PC)
    requires Inv(s) && i < |s.pc| && s' == s.(pc := s.pc[i := c], returned := s'.returned)
    requires (s.pc[i].DeqReturn? && c.Idle?) || (s.pc[i].Idle? && ((c.EnqWait? && c.p == WLock) || c == DeqWait(WLock)))
    ensures Inv(s')
  {
    MutexKept(s, s', i, c);
    WaiterKept(s, s', i, c);
    TokenSums(s.pc, i, c);
  }

  lemma {:induction false} GoInv(s: State, i: nat)
    requires Inv(s) && i < |s.pc| && CanGo(s, i)
    ensures Inv(GoStep(s, i))
  {
    match s.pc[i]
    case EnqWait(_, _) => PushStep(s, i);
    case DeqSignal(_) => PushStep(s, i);
    case DeqWait(_) => PullStep(s, i);
    case EnqSignal(_) => PullStep(s, i);
    case EnqAppend(_) => AppendStep(s, i);
    case DeqCar => CarStep(s, i);
    case DeqCdr => CdrStep(s, i);
    case DeqReturn => QuietStep(s, GoStep(s, i), i, Idle);
  }

  lemma {:induction false} StepInv(s: State, a: Action)
    requires Inv(s)
    ensures Inv(Step(s, a))
  {
    if a.i < |s.pc| {
      match a
      case StartEnqueue(i, e) => if s.pc[i].Idle? { QuietStep(s, Step(s, a), i, EnqWait(e, WLock)); }
      case StartDequeue(i) => if s.pc[i].Idle? { QuietStep(s, Step(s, a), i, DeqWait(WLock)); }
      case Go(i) => if CanGo(s, i) { GoInv(s, i); }
    }
  }

  lemma {:induction false} RunInv(s: State, actions: seq<Action>)
    requires Inv(s)
    ensures Inv(Run(s, actions))
    decreases |actions|
  {
    if |actions| > 0 {
      StepInv(s, actions[0]);
      RunInv(Step(s, actions[0]), actions[1..]);
    }
  }

  // ----- safety -----

  /** Between returning from wait and signalling. */
  predicate InBody(c: PC) { c.EnqAppend? || c.DeqCar? || c.DeqCdr? }

  /** In every run: one thread at most is in the body of enqueue or dequeue, the list has at
      most one element, no car or cdr is taken of an empty list, no unlocked mutex is unlocked,
      and the values taken are the values appended, in order, all but at most the last. */
  lemma {:induction false} QueueIsSafe(threads: nat, x: Elem, actions: seq<Action>)
    ensures var s := Run(Initial(threads, x), actions);
            && (forall i, j :: 0 <= i < j < |s.pc| ==> !(InBody(s.pc[i]) && InBody(s.pc[j])))
            && |s.lis| <= 1
            && (forall i :: 0 <= i < |s.pc| ==> Sound(s.pc[i]))
            && s.taken <= s.appended && |s.appended| <= |s.taken| + 1
  {
    InitialInv(threads, x);
    RunInv(Initial(threads, x), actions);
    var s := Run(Initial(threads, x), actions);
    SumNonNegative(s.pc, PushToken);
    SumNonNegative(s.pc, PullToken);
    forall i, j | 0 <= i < j < |s.pc|
      ensures !(InBody(s.pc[i]) && InBody(s.pc[j]))
    {
      BodiesExclude(s, i, j);
    }
  }

  lemma {:induction false} BodiesExclude(s: State, i: nat, j: nat)
    requires Inv(s) && i < j < |s.pc|
    ensures !(InBody(s.pc[i]) && InBody(s.pc[j]))
  {
    OnlyToken(s, i);
    OnlyToken(s, j);
    SumTwo(s.pc, i, j, PushToken);
    SumTwo(s.pc, i, j, PullToken);
  }

  // ----- progress -----

  predicate Enqueuing(c: PC) { c.EnqWait? || c.EnqAppend? || c.EnqSignal? }
  predicate Dequeuing(c: PC) { c.DeqWait? || c.DeqCar? || c.DeqCdr? || c.DeqSignal? || c.DeqReturn? }

  predicate Stuck(s: State) { forall k :: 0 <= k < |s.pc| ==> !CanGo(s, k) }

  /** A blocked thread waits for a mutex; when all threads are blocked or idle, the operation
      mutexes are free, so every pending thread waits at a queue mutex. */
  lemma {:induction false} StuckAtQueue(s: State)
    requires Inv(s) && Stuck(s)
    ensures !s.pushing.opLocked && !s.pulling.opLocked
    ensures forall k :: 0 <= k < |s.pc| ==>
              s.pc[k].Idle? || (s.pc[k].EnqWait? && s.pc[k].p.WQueue? && s.pushing.queueLocked)
              || (s.pc[k].DeqWait? && s.pc[k].p.WQueue? && s.pulling.queueLocked)
  {
    forall k | 0 <= k < |s.pc|
      ensures HoldsPush(s.pc[k]) == 0 && HoldsPull(s.pc[k]) == 0
    {
      assert !CanGo(s, k) && Sound(s.pc[k]) && Proper(s.pc[k]);
    }
    SumZero(s.pc, HoldsPush);
    SumZero(s.pc, HoldsPull);
    forall k | 0 <= k < |s.pc|
      ensures s.pc[k].Idle? || (s.pc[k].EnqWait? && s.pc[k].p.WQueue? && s.pushing.queueLocked)
              || (s.pc[k].DeqWait? && s.pc[k].p.WQueue? && s.pulling.queueLocked)
    {
      assert !CanGo(s, k) && Sound(s.pc[k]) && Proper(s.pc[k]);
    }
  }

  /** With an enqueue and a dequeue both pending, some thread can take a step. */
  lemma {:induction false} NotStuck(s: State, i: nat, j: nat)
    requires Inv(s) && i < |s.pc| && j < |s.pc| && Enqueuing(s.pc[i]) && Dequeuing(s.pc[j])
    ensures exists k :: 0 <= k < |s.pc| && CanGo(s, k)
  {
    if Stuck(s) {
      StuckAtQueue(s);
      SumZero(s.pc, WakePush); SumZero(s.pc, WakePull);
      SumZero(s.pc, PushToken); SumZero(s.pc, PullToken);
      SumAtLeast(s.pc, i, NegPush);
      SumAtLeast(s.pc, j, NegPull);
    }
  }

  lemma {:induction false} QueueNeverDeadlocks(threads: nat, x: Elem, actions: seq<Action>, i: nat, j: nat)
    requires var s := Run(Initial(threads, x), actions);
             i < |s.pc| && j < |s.pc| && Enqueuing(s.pc[i]) && Dequeuing(s.pc[j])
    ensures var s := Run(Initial(threads, x), actions); exists k :: 0 <= k < |s.pc| && CanGo(s, k)
  {
    InitialInv(threads, x);
    RunInv(Initial(threads, x), actions);
    NotStuck(Run(Initial(threads, x), actions), i, j);
  }

  // ----- what dequeue returns -----

  /** No other thread than c dequeues. */
  predicate SingleConsumer(actions: seq<Action>, c: nat, threads: nat) {
    forall k :: 0 <= k < |actions| ==> actions[k].StartDequeue? ==> actions[k].i == c || actions[k].i >= threads
  }

  /** Between storing x and returning it. */
  predicate Returning(p: PC) { p.DeqCdr? || p.DeqSignal? || p.DeqReturn? }

  /** Thread c alone is inside dequeue; what it has taken and not returned is in x. */
  ghost predicate ConsumerInv(s: State, c: nat) {
    && (forall i :: 0 <= i < |s.pc| && i != c ==> !Dequeuing(s.pc[i]))
    && (if c < |s.pc| && Returning(s.pc[c]) then s.taken == s.returned + [s.x] else s.taken == s.returned)
  }

  lemma {:induction false} ConsumerGo(s: State, i: nat, c: nat)
    requires ConsumerInv(s, c) && i < |s.pc| && CanGo(s, i)
    requires s.pc[i].DeqCar? || s.pc[i].DeqCdr? ==> s.lis != []
    ensures ConsumerInv(GoStep(s, i), c)
  {
    var s' := GoStep(s, i);
    assert s'.pc == s.pc[i := s'.pc[i]];
    assert i != c ==> !Dequeuing(s.pc[i]);
  }

  lemma {:induction false} ConsumerStep(s: State, a: Action, c: nat)
    requires Inv(s) && ConsumerInv(s, c) && (a.StartDequeue? ==> a.i == c || a.i >= |s.pc|)
    ensures ConsumerInv(Step(s, a), c)
  {
    if a.Go? && a.i < |s.pc| && CanGo(s, a.i) {
      if s.pc[a.i].DeqCar? || s.pc[a.i].DeqCdr? { HasElement(s, a.i); }
      ConsumerGo(s, a.i, c);
    }
  }

  lemma {:induction false} SameThreads(s: State, a: Action)
    ensures |Step(s, a).pc| == |s.pc|
  {
  }

  lemma {:induction false} RestSingle(actions: seq<Action>, c: nat, threads: nat)
    requires SingleConsumer(actions, c, threads) && |actions| > 0
    ensures SingleConsumer(actions[1..], c, threads)
  {
  }

  lemma {:induction false} ConsumerRun(s: State, actions: seq<Action>, c: nat)
    requires Inv(s) && ConsumerInv(s, c) && SingleConsumer(actions, c, |s.pc|)
    ensures ConsumerInv(Run(s, actions), c)
    decreases |actions|
  {
    if |actions| > 0 {
      ConsumerStep(s, actions[0], c);
      StepInv(s, actions[0]);
      SameThreads(s, actions[0]);
      RestSingle(actions, c, |s.pc|);
      ConsumerRun(Step(s, actions[0]), actions[1..], c);
    }
  }

  /** With one consumer and any number of producers, the values returned are the values appended, in order. */
  lemma {:induction false} SingleConsumerReturnsInOrder(threads: nat, x: Elem, actions: seq<Action>, c: nat)
    requires SingleConsumer(actions, c, threads)
    ensures var s := Run(Initial(threads, x), actions); s.returned <= s.appended
  {
    InitialInv(threads, x);
    ConsumerRun(Initial(threads, x), actions, c);
    QueueIsSafe(threads, x, actions);
  }

  // ----- two consumers share x -----

  /** What actions has become after thread i has taken its next step. */
  lemma {:induction false} OneStep(s: State, actions: seq<Action>, i: nat) returns (more: seq<Action>)
    ensures more == actions + [Go(i)] && Run(s, more) == Step(Run(s, actions), Go(i))
  {
    more := actions + [Go(i)];
    OneMoreAction(Step, s, actions, Go(i));
  }

  /** Only threads of C dequeue. */
  predicate ConsumersIn(actions: seq<Action>, C: set<nat>) {
    forall k :: 0 <= k < |actions| ==> actions[k].StartDequeue? ==> actions[k].i in C
  }

  /** A thread that finds a permit passes through wait in four steps. */
  lemma {:induction false} EnqueueWaits(s0: State, actions: seq<Action>, i: nat, e: Elem, C: set<nat>)
    returns (more: seq<Action>)
    requires ConsumersIn(actions, C)
    requires var s := Run(s0, actions); i < |s.pc| && s.pc[i] == EnqWait(e, WLock) && s.pushing == Sem(1, false, true)
    ensures var s := Run(s0, actions);
            Run(s0, more) == s.(pushing := Sem(0, false, true), pc := s.pc[i := EnqAppend(e)]) && ConsumersIn(more, C)
  {
    var s := Run(s0, actions);
    var s1 := s.(pushing := Sem(1, true, true), pc := s.pc[i := EnqWait(e, WDec)]);
    var s2 := s.(pushing := Sem(0, true, true), pc := s.pc[i := EnqWait(e, WTest(0))]);
    var s3 := s.(pushing := Sem(0, true, true), pc := s.pc[i := EnqWait(e, WUnlockPos)]);
    assert Step(s, Go(i)) == s1 && Step(s1, Go(i)) == s2 && Step(s2, Go(i)) == s3;
    more := OneStep(s0, actions, i);
    more := OneStep(s0, more, i);
    more := OneStep(s0, more, i);
    more := OneStep(s0, more, i);
  }

  lemma {:induction false} EnqueueSignals(s0: State, actions: seq<Action>, i: nat, C: set<nat>)
    returns (more: seq<Action>)
    requires ConsumersIn(actions, C)
    requires var s := Run(s0, actions); i < |s.pc| && s.pc[i] == EnqSignal(SLock) && s.pulling == Sem(0, false, true)
    ensures var s := Run(s0, actions);
            Run(s0, more) == s.(pulling := Sem(1, false, true), pc := s.pc[i := Idle]) && ConsumersIn(more, C)
  {
    var s := Run(s0, actions);
    var s1 := s.(pulling := Sem(0, true, true), pc := s.pc[i := EnqSignal(SInc)]);
    var s2 := s.(pulling := Sem(1, true, true), pc := s.pc[i := EnqSignal(STest(1))]);
    var s3 := s.(pulling := Sem(1, true, true), pc := s.pc[i := EnqSignal(SUnlock)]);
    assert Step(s, Go(i)) == s1 && Step(s1, Go(i)) == s2 && Step(s2, Go(i)) == s3;
    more := OneStep(s0, actions, i);
    more := OneStep(s0, more, i);
    more := OneStep(s0, more, i);
    more := OneStep(s0, more, i);
  }

  lemma {:induction false} DequeueWaits(s0: State, actions: seq<Action>, i: nat, C: set<nat>)
    returns (more: seq<Action>)
    requires ConsumersIn(actions, C)
    requires var s := Run(s0, actions); i < |s.pc| && s.pc[i] == DeqWait(WLock) && s.pulling == Sem(1, false, true)
    ensures var s := Run(s0, actions);
            Run(s0, more) == s.(pulling := Sem(0, false, true), pc := s.pc[i := DeqCar]) && ConsumersIn(more, C)
  {
    var s := Run(s0, actions);
    var s1 := s.(pulling := Sem(1, true, true), pc := s.pc[i := DeqWait(WDec)]);
    var s2 := s.(pulling := Sem(0, true, true), pc := s.pc[i := DeqWait(WTest(0))]);
    var s3 := s.(pulling := Sem(0, true, true), pc := s.pc[i := DeqWait(WUnlockPos)]);
    assert Step(s, Go(i)) == s1 && Step(s1, Go(i)) == s2 && Step(s2, Go(i)) == s3;
    more := OneStep(s0, actions, i);
    more := OneStep(s0, more, i);
    more := OneStep(s0, more, i);
    more := OneStep(s0, more, i);
  }

  lemma {:induction false} DequeueSignals(s0: State, actions: seq<Action>, i: nat, C: set<nat>)
    returns (more: seq<Action>)
    requires ConsumersIn(actions, C)
    requires var s := Run(s0, actions); i < |s.pc| && s.pc[i] == DeqSignal(SLock) && s.pushing == Sem(0, false, true)
    ensures var s := Run(s0, actions);
            Run(s0, more) == s.(pushing := Sem(1, false, true), pc := s.pc[i := DeqReturn]) && ConsumersIn(more, C)
  {
    var s := Run(s0, actions);
    var s1 := s.(pushing := Sem(0, true, true), pc := s.pc[i := DeqSignal(SInc)]);
    var s2 := s.(pushing := Sem(1, true, true), pc := s.pc[i := DeqSignal(STest(1))]);
    var s3 := s.(pushing := Sem(1, true, true), pc := s.pc[i := DeqSignal(SUnlock)]);
    assert Step(s, Go(i)) == s1 && Step(s1, Go(i)) == s2 && Step(s2, Go(i)) == s3;
    more := OneStep(s0, actions, i);
    more := OneStep(s0, more, i);
    more := OneStep(s0, more, i);
    more := OneStep(s0, more, i);
  }

  predicate Empty(s: State) { s.lis == [] && s.pushing == Sem(1, false, true) && s.pulling == Sem(0, false, true) }

  predicate Full(s: State, e: Elem) {
    s.lis == [e] && s.pushing == Sem(0, false, true) && s.pulling == Sem(1, false, true)
  }

  function Enqueued(s: State, e: Elem): State {
    s.(pushing := Sem(0, false, true), pulling := Sem(1, false, true), lis := [e], appended := s.appended + [e])
  }

  function Dequeued(s: State, i: nat, e: Elem): State
    requires i < |s.pc|
  {
    s.(pushing := Sem(1, false, true), pulling := Sem(0, false, true), lis := [], x := e,
       taken := s.taken + [e], pc := s.pc[i := DeqReturn])
  }

  /** An enqueue that nobody interrupts, on the empty queue. */
  lemma {:induction false} EnqueueAlone(s0: State, actions: seq<Action>, i: nat, e: Elem, C: set<nat>)
    returns (more: seq<Action>)
    requires ConsumersIn(actions, C)
    requires var s := Run(s0, actions); i < |s.pc| && s.pc[i].Idle? && Empty(s)
    ensures Run(s0, more) == Enqueued(Run(s0, actions), e) && ConsumersIn(more, C)
  {
    var s := Run(s0, actions);
    OneMoreAction(Step, s0, actions, StartEnqueue(i, e));
    more := EnqueueWaits(s0, actions + [StartEnqueue(i, e)], i, e, C);
    more := OneStep(s0, more, i);
    more := EnqueueSignals(s0, more, i, C);
    assert s.pc[i := Idle] == s.pc;
  }

  /** A dequeue that nobody interrupts until it is about to return x. */
  lemma {:induction false} DequeueAlone(s0: State, actions: seq<Action>, i: nat, e: Elem, C: set<nat>)
    returns (more: seq<Action>)
    requires ConsumersIn(actions, C) && i in C
    requires var s := Run(s0, actions); i < |s.pc| && s.pc[i].Idle? && Full(s, e)
    ensures Run(s0, more) == Dequeued(Run(s0, actions), i, e) && ConsumersIn(more, C)
  {
    OneMoreAction(Step, s0, actions, StartDequeue(i));
    more := DequeueWaits(s0, actions + [StartDequeue(i)], i, C);
    more := OneStep(s0, more, i);
    more := OneStep(s0, more, i);
    more := DequeueSignals(s0, more, i, C);
  }

  /** Any two threads i and j that may dequeue: i enqueues an element and dequeues up to reading
      x, j does the same with another element, and i reads x. */
  lemma {:induction false} TwoConsumersOvertake(threads: nat, x: Elem, i: nat, j: nat, d: Elem, e: Elem, C: set<nat>)
    returns (actions: seq<Action>)
    requires i != j && i < threads && j < threads && i in C && j in C
    ensures ConsumersIn(actions, C)
    ensures var s := Run(Initial(threads, x), actions);
            s.appended == s.taken == [d, e] && s.returned == [e] && |s.pc| == threads && s.pc[j].DeqReturn? && s.x == e
  {
    var s0 := Initial(threads, x);
    actions := EnqueueAlone(s0, [], i, d, C);
    actions := DequeueAlone(s0, actions, i, d, C);
    actions := EnqueueAlone(s0, actions, j, e, C);
    actions := DequeueAlone(s0, actions, j, e, C);
    actions := OneStep(s0, actions, i);
  }

  ghost predicate InOrder(threads: nat, x: Elem, actions: seq<Action>) {
    var s := Run(Initial(threads, x), actions); s.returned <= s.appended
  }

  ghost predicate AtMostOne(C: set<nat>, threads: nat) {
    forall i, j :: i in C && j in C && i < threads && j < threads ==> i == j
  }

  /** In every run in which only threads of C dequeue, the values returned are the values
      appended, in order, if and only if C holds at most one thread; of any two it can happen
      that they return the same element, and another is returned by nobody. */
  lemma {:induction false} ReturnsInOrderIffOneConsumer(threads: nat, x: Elem, C: set<nat>)
    ensures (forall actions {:trigger InOrder(threads, x, actions)} ::
               ConsumersIn(actions, C) ==> InOrder(threads, x, actions)) <==> AtMostOne(C, threads)
  {
    if AtMostOne(C, threads) {
      var c: nat := 0;
      if i :| i in C && i < threads { c := i; }
      forall actions | ConsumersIn(actions, C) ensures InOrder(threads, x, actions) {
        SingleConsumerReturnsInOrder(threads, x, actions, c);
      }
    } else {
      var i, j :| i in C && j in C && i < threads && j < threads && i != j;
      var actions := TwoConsumersOvertake(threads, x, i, j, 10, 20, C);
      var s := Run(Initial(threads, x), actions);
      assert s.returned[0] == 20 && s.appended[0] == 10;
      assert !InOrder(threads, x, actions);
    }
  }

  /** Two consumers can be given the same element, and another element to nobody: the values
      taken are in order, the values returned are not. */
  lemma {:induction false} TwoConsumersReturnTheSame(threads: nat, x: Elem, i: nat, j: nat, d: Elem, e: Elem)
    returns (actions: seq<Action>)
    requires i != j && i < threads && j < threads
    ensures var s := Run(Initial(threads, x), actions); s.taken == [d, e] && s.returned == [e, e]
  {
    var s0 := Initial(threads, x);
    actions := TwoConsumersOvertake(threads, x, i, j, d, e, {i, j});
    actions := OneStep(s0, actions, j);
  }
}
