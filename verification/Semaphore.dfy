/** A counting semaphore made of two mutexes, as a state machine with one program counter
    per thread. A mutex may be unlocked by any thread; unlocking one that is not locked is an
    error of the thread that does it. */
module Semaphore {

  datatype Sem = Sem(n: int, opLocked: bool, queueLocked: bool)

  /** The creator locks the queue mutex. */
  function NewSem(n0: int): Sem { Sem(n0, false, true) }

  /** Where a thread is inside `wait` (W) or `signal` (S). The tests read the shared counter;
      the number they carry records the value the thread has just written. */
  datatype At =
    | WLock | WDec | WTest(v: int) | WUnlockNeg | WQueue | WUnlockPos
    | SLock | SInc | STest(v: int) | SUnlockQueue | SUnlock
    | Done | Crashed

  datatype Move = Blocked | To(s: Sem, at: At)

  /** One atomic step of a thread. */
  function Advance(s: Sem, p: At): Move {
    match p
    case WLock => if s.opLocked then Blocked else To(s.(opLocked := true), WDec)
    case WDec => To(s.(n := s.n - 1), WTest(s.n - 1))
    case WTest(_) => To(s, if s.n < 0 then WUnlockNeg else WUnlockPos)
    case WUnlockNeg => To(s.(opLocked := false), WQueue)
    case WQueue => if s.queueLocked then Blocked else To(s.(queueLocked := true), Done)
    case WUnlockPos => To(s.(opLocked := false), Done)
    case SLock => if s.opLocked then Blocked else To(s.(opLocked := true), SInc)
    case SInc => To(s.(n := s.n + 1), STest(s.n + 1))
    case STest(_) => To(s, if s.n <= 0 then SUnlockQueue else SUnlock)
    case SUnlockQueue => if s.queueLocked then To(s.(queueLocked := false), SUnlock) else To(s, Crashed)
    case SUnlock => To(s.(opLocked := false), Done)
    case Done => Blocked
    case Crashed => Blocked
  }

  // ----- what a program counter contributes -----

  /** Holds the operation mutex. */
  function Holds(p: At): int {
    match p
    case WLock => 0
    case WQueue => 0
    case SLock => 0
    case Done => 0
    case _ => 1
  }

  /** A wait that took the counter below zero and has not got past the queue mutex. */
  function Neg(p: At): int {
    match p
    case WTest(v) => if v < 0 then 1 else 0
    case WUnlockNeg => 1
    case WQueue => 1
    case _ => 0
  }

  /** A signal that has raised the counter for a waiter and not yet unlocked the queue mutex. */
  function Wake(p: At): int {
    match p
    case STest(v) => if v <= 0 then 1 else 0
    case SUnlockQueue => 1
    case _ => 0
  }

  /** A wait that found a permit and is about to return with it. */
  function Passed(p: At): int {
    match p
    case WTest(v) => if v >= 0 then 1 else 0
    case WUnlockPos => 1
    case _ => 0
  }

  function Lost(p: At): int { if p.Crashed? then 1 else 0 }

  function Deficit(s: Sem): int { if s.n < 0 then -s.n else 0 }
  function Unlocked(s: Sem): int { if s.queueLocked then 0 else 1 }
  function Locked(s: Sem): int { if s.opLocked then 1 else 0 }

  /** A test reads the value its thread has written. */
  predicate Fresh(p: At, n: int) {
    (p.WTest? || p.STest?) ==> p.v == n
  }

  // ----- sums over threads -----

  function Sum<P>(ts: seq<P>, w: P -> int): int {
    if |ts| == 0 then 0 else w(ts[0]) + Sum(ts[1..], w)
  }

  lemma {:induction false} SumUpdate<P>(ts: seq<P>, i: nat, p: P, w: P -> int)
    requires i < |ts|
    ensures Sum(ts[i := p], w) == Sum(ts, w) - w(ts[i]) + w(p)
  {
    if i == 0 {
      assert ts[0 := p][1..] == ts[1..];
    } else {
      assert ts[i := p][1..] == ts[1..][i - 1 := p];
      SumUpdate(ts[1..], i - 1, p, w);
    }
  }

  lemma {:induction false} SumAtLeast<P>(ts: seq<P>, i: nat, w: P -> int)
    requires i < |ts| && forall p :: w(p) >= 0
    ensures 0 <= w(ts[i]) <= Sum(ts, w)
  {
    if i > 0 { SumAtLeast(ts[1..], i - 1, w); } else { SumNonNegative(ts[1..], w); }
  }

  lemma {:induction false} SumNonNegative<P>(ts: seq<P>, w: P -> int)
    requires forall p :: w(p) >= 0
    ensures Sum(ts, w) >= 0
  {
    if |ts| > 0 { SumNonNegative(ts[1..], w); }
  }

  lemma {:induction false} SumTwo<P>(ts: seq<P>, i: nat, j: nat, w: P -> int)
    requires i < j < |ts| && forall p :: w(p) >= 0
    ensures Sum(ts, w) >= w(ts[i]) + w(ts[j])
  {
    if i > 0 { SumTwo(ts[1..], i - 1, j - 1, w); } else { SumAtLeast(ts[1..], j - 1, w); }
  }

  lemma {:induction false} SumZero<P>(ts: seq<P>, w: P -> int)
    requires forall i :: 0 <= i < |ts| ==> w(ts[i]) == 0
    ensures Sum(ts, w) == 0
  {
    if |ts| > 0 { SumZero(ts[1..], w); }
  }

  /** Two threads never hold the operation mutex together. */
  lemma {:induction false} HolderIsAlone<P>(ts: seq<P>, i: nat, w: P -> int)
    requires i < |ts| && (forall p :: w(p) >= 0) && Sum(ts, w) <= 1 && w(ts[i]) == 1
    ensures forall j :: 0 <= j < |ts| && j != i ==> w(ts[j]) == 0
  {
    forall j | 0 <= j < |ts| && j != i
      ensures w(ts[j]) == 0
    {
      if j < i { SumTwo(ts, j, i, w); } else { SumTwo(ts, i, j, w); }
    }
  }

  /** No step changes a counter that another thread has written and not yet tested. */
  lemma {:induction false} StaysFresh(s: Sem, at: seq<At>, i: nat)
    requires i < |at| && Sum(at, Holds) == Locked(s) && forall j :: 0 <= j < |at| ==> Fresh(at[j], s.n)
    requires Advance(s, at[i]).To?
    ensures var m := Advance(s, at[i]); var at' := at[i := m.at]; forall j :: 0 <= j < |at'| ==> Fresh(at'[j], m.s.n)
  {
    SumAtLeast(at, i, Holds);
    if Holds(at[i]) == 1 { HolderIsAlone(at, i, Holds); }
  }

  /** What one step adds to the two balances of the invariant. */
  lemma {:induction false} AdvanceBalance(s: Sem, p: At)
    requires Fresh(p, s.n) && Advance(s, p).To? && Locked(s) >= Holds(p)
    ensures var m := Advance(s, p);
            && Holds(m.at) - Holds(p) == Locked(m.s) - Locked(s)
            && m.s.n - s.n == (if p.SInc? then 1 else 0) - (if p.WUnlockPos? || p.WQueue? then 1 else 0)
                              - (Neg(m.at) - Neg(p)) - (Passed(m.at) - Passed(p))
            && Deficit(m.s) - Deficit(s) ==
               (Neg(m.at) - Neg(p)) - (Wake(m.at) - Wake(p)) - (Unlocked(m.s) - Unlocked(s)) - (Lost(m.at) - Lost(p))
  {
  }
}
