/** What the calls of a run of the queue were given and what became of it, read off the actions
    of the run and the list that the threads share. */
module QueueCalls {
  import opened BlockingQueue
  import opened Interleaving

  /** The element that an action hands to an enqueue of thread i. */
  function GivenIn(s: State, a: Action, i: nat): seq<Elem> {
    if a.StartEnqueue? && a.i == i && i < |s.pc| && s.pc[i].Idle? then [a.e] else []
  }

  /** What the enqueues of thread i were given, in order. */
  function Given(s: State, actions: seq<Action>, i: nat): seq<Elem>
    decreases |actions|
  {
    if |actions| == 0 then [] else GivenIn(s, actions[0], i) + Given(Step(s, actions[0]), actions[1..], i)
  }

  datatype Addition = By(i: nat, e: Elem)

  /** The element that an action puts at the end of the list, with the thread that does it. */
  function AddedIn(s: State, a: Action): seq<Addition> {
    var s' := Step(s, a);
    if |s'.lis| > |s.lis| then [By(a.i, s'.lis[|s'.lis| - 1])] else []
  }

  function Added(s: State, actions: seq<Action>): seq<Addition>
    decreases |actions|
  {
    if |actions| == 0 then [] else AddedIn(s, actions[0]) + Added(Step(s, actions[0]), actions[1..])
  }

  function Elements(log: seq<Addition>): seq<Elem> {
    if |log| == 0 then [] else [log[0].e] + Elements(log[1..])
  }

  function Of(log: seq<Addition>, i: nat): seq<Elem> {
    if |log| == 0 then [] else (if log[0].i == i then [log[0].e] else []) + Of(log[1..], i)
  }

  /** What a thread has been given and not put into the list. */
  function Pending(c: PC): seq<Elem> {
    match c
    case EnqWait(e, _) => [e]
    case EnqAppend(e) => [e]
    case _ => []
  }

  lemma {:induction false} OfFirst(a: seq<Addition>, rest: seq<Addition>, i: nat)
    requires |a| <= 1
    ensures Of(a + rest, i) == Of(a, i) + Of(rest, i) && Elements(a + rest) == Elements(a) + Elements(rest)
  {
    if |a| == 0 { assert a + rest == rest; } else { assert (a + rest)[1..] == rest; }
  }

  lemma {:induction false} StepAddsGiven(s: State, a: Action, i: nat)
    requires i < |s.pc|
    ensures Pending(s.pc[i]) + GivenIn(s, a, i) == Of(AddedIn(s, a), i) + Pending(Step(s, a).pc[i])
  {
    StepAppends(s, a);
    if a.i != i {
      assert Step(s, a).pc[i] == s.pc[i];
    }
  }

  lemma {:induction false} StepAppends(s: State, a: Action)
    ensures AddedIn(s, a) == if a.Go? && a.i < |s.pc| && s.pc[a.i].EnqAppend? then [By(a.i, s.pc[a.i].e)] else []
    ensures Step(s, a).appended == s.appended + Elements(AddedIn(s, a))
  {
  }

  lemma {:induction false} Rejoin(p: seq<Elem>, g: seq<Elem>, o: seq<Elem>, p1: seq<Elem>, gs: seq<Elem>, os: seq<Elem>,
                                  p2: seq<Elem>)
    requires p + g == o + p1 && p1 + gs == os + p2
    ensures p + (g + gs) == (o + os) + p2
  {
    assert p + (g + gs) == (p + g) + gs;
    assert (o + p1) + gs == o + (p1 + gs);
    assert o + (os + p2) == (o + os) + p2;
  }

  lemma {:induction false} RunAdds(s: State, actions: seq<Action>, i: nat)
    requires i < |s.pc|
    ensures |Run(s, actions).pc| == |s.pc|
    ensures Pending(s.pc[i]) + Given(s, actions, i) == Of(Added(s, actions), i) + Pending(Run(s, actions).pc[i])
    decreases |actions|
  {
    if |actions| > 0 {
      var a, rest, s' := actions[0], actions[1..], Step(s, actions[0]);
      RunAdds(s', rest, i);
      StepAddsGiven(s, a, i);
      OfFirst(AddedIn(s, a), Added(s', rest), i);
      Rejoin(Pending(s.pc[i]), GivenIn(s, a, i), Of(AddedIn(s, a), i), Pending(s'.pc[i]), Given(s', rest, i),
             Of(Added(s', rest), i), Pending(Run(s', rest).pc[i]));
    }
  }

  lemma {:induction false} RunAppends(s: State, actions: seq<Action>)
    ensures Run(s, actions).appended == s.appended + Elements(Added(s, actions))
    decreases |actions|
  {
    if |actions| > 0 {
      var a, rest, s' := actions[0], actions[1..], Step(s, actions[0]);
      RunAppends(s', rest);
      StepAppends(s, a);
      OfFirst(AddedIn(s, a), Added(s', rest), 0);
    }
  }

  /** In every run each thread adds to the list the elements its enqueues were given, in the order
      in which they were given, all but at most the one still on its way; and what has been
      appended is what the threads have added. */
  lemma {:induction false} EnqueuesAddTheirOwn(threads: nat, x: Elem, actions: seq<Action>, i: nat)
    requires i < threads
    ensures var s0 := Initial(threads, x); var s := Run(s0, actions);
            && |s.pc| == threads
            && Given(s0, actions, i) == Of(Added(s0, actions), i) + Pending(s.pc[i])
            && s.appended == Elements(Added(s0, actions))
  {
    RunAdds(Initial(threads, x), actions, i);
    RunAppends(Initial(threads, x), actions);
  }

  // ----- what is returned was given -----

  predicate HasTaken(c: PC) { c.DeqCdr? || c.DeqSignal? || c.DeqReturn? }

  ghost predicate ReturnsTaken(s: State) {
    && (forall e :: e in s.returned ==> e in s.taken)
    && ((exists i :: 0 <= i < |s.pc| && HasTaken(s.pc[i])) ==> s.x in s.taken)
  }

  lemma {:induction false} StepReturnsTaken(s: State, a: Action)
    requires ReturnsTaken(s)
    ensures ReturnsTaken(Step(s, a))
  {
    var s' := Step(s, a);
    assert forall e :: e in s.taken ==> e in s'.taken;
    if a.Go? && a.i < |s.pc| && CanGo(s, a.i) {
      assert s.pc[a.i].DeqReturn? ==> HasTaken(s.pc[a.i]);
      if s.pc[a.i].DeqCar? && s.lis != [] { assert s'.taken[|s.taken|] == s'.x; }
    }
    if i :| 0 <= i < |s'.pc| && HasTaken(s'.pc[i]) {
      assert s'.x in s'.taken by {
        if i == a.i && !HasTaken(s.pc[i]) { assert s.pc[i].DeqCar?; }
      }
    }
  }

  lemma {:induction false} RunReturnsTaken(s: State, actions: seq<Action>)
    requires ReturnsTaken(s)
    ensures ReturnsTaken(Run(s, actions))
    decreases |actions|
  {
    if |actions| > 0 {
      StepReturnsTaken(s, actions[0]);
      RunReturnsTaken(Step(s, actions[0]), actions[1..]);
    }
  }

  lemma {:induction false} ElementHasThread(log: seq<Addition>, e: Elem) returns (k: nat)
    requires e in Elements(log)
    ensures k < |log| && e in Of(log, log[k].i)
  {
    k := 0;
    if e != log[0].e {
      var j := ElementHasThread(log[1..], e);
      k := j + 1;
    }
  }

  lemma {:induction false} ThreadsAdd(s: State, actions: seq<Action>)
    ensures forall k :: 0 <= k < |Added(s, actions)| ==> Added(s, actions)[k].i < |s.pc|
    decreases |actions|
  {
    if |actions| > 0 {
      StepAppends(s, actions[0]);
      ThreadsAdd(Step(s, actions[0]), actions[1..]);
    }
  }

  /** In every run, whatever a dequeue returns was given to some thread's enqueue. */
  lemma {:induction false} ReturnedWasGiven(threads: nat, x: Elem, actions: seq<Action>, e: Elem) returns (i: nat)
    requires e in Run(Initial(threads, x), actions).returned
    ensures i < threads && e in Given(Initial(threads, x), actions, i)
  {
    var s0 := Initial(threads, x);
    RunReturnsTaken(s0, actions);
    QueueIsSafe(threads, x, actions);
    assert e in Run(s0, actions).appended;
    RunAppends(s0, actions);
    var k := ElementHasThread(Added(s0, actions), e);
    ThreadsAdd(s0, actions);
    i := Added(s0, actions)[k].i;
    EnqueuesAddTheirOwn(threads, x, actions, i);
  }

  // ----- every dequeue takes one element and returns once -----

  function BegunIn(s: State, a: Action, i: nat): nat {
    if a == StartDequeue(i) && i < |s.pc| && s.pc[i].Idle? then 1 else 0
  }

  /** How many dequeues thread i has begun. */
  function Begun(s: State, actions: seq<Action>, i: nat): nat
    decreases |actions|
  {
    if |actions| == 0 then 0 else BegunIn(s, actions[0], i) + Begun(Step(s, actions[0]), actions[1..], i)
  }

  function TakenIn(s: State, a: Action, i: nat): nat {
    if a.i == i && |Step(s, a).taken| > |s.taken| then 1 else 0
  }

  function AnsweredIn(s: State, a: Action, i: nat): nat {
    if a.i == i && |Step(s, a).returned| > |s.returned| then 1 else 0
  }

  /** How many elements the dequeues of thread i have taken. */
  function Taken(s: State, actions: seq<Action>, i: nat): nat
    decreases |actions|
  {
    if |actions| == 0 then 0 else TakenIn(s, actions[0], i) + Taken(Step(s, actions[0]), actions[1..], i)
  }

  /** How many of the dequeues of thread i have answered. */
  function Answered(s: State, actions: seq<Action>, i: nat): nat
    decreases |actions|
  {
    if |actions| == 0 then 0 else AnsweredIn(s, actions[0], i) + Answered(Step(s, actions[0]), actions[1..], i)
  }

  function Untaken(c: PC): nat { if c.DeqWait? || c.DeqCar? then 1 else 0 }
  function Unanswered(c: PC): nat { if Dequeuing(c) then 1 else 0 }

  lemma {:induction false} StepTakes(s: State, a: Action, i: nat)
    requires Inv(s) && i < |s.pc|
    ensures Untaken(s.pc[i]) + BegunIn(s, a, i) == TakenIn(s, a, i) + Untaken(Step(s, a).pc[i])
  {
    if a.i == i && s.pc[i].DeqCar? { HasElement(s, i); }
  }

  lemma {:induction false} StepAnswers(s: State, a: Action, i: nat)
    requires Inv(s) && i < |s.pc|
    ensures Unanswered(s.pc[i]) + BegunIn(s, a, i) == AnsweredIn(s, a, i) + Unanswered(Step(s, a).pc[i])
  {
    if a.i == i && (s.pc[i].DeqCar? || s.pc[i].DeqCdr?) { HasElement(s, i); }
  }

  lemma {:induction false} RunTakes(s: State, actions: seq<Action>, i: nat)
    requires Inv(s) && i < |s.pc|
    ensures |Run(s, actions).pc| == |s.pc|
    ensures Untaken(s.pc[i]) + Begun(s, actions, i) == Taken(s, actions, i) + Untaken(Run(s, actions).pc[i])
    decreases |actions|
  {
    if |actions| > 0 {
      StepTakes(s, actions[0], i);
      StepInv(s, actions[0]);
      RunTakes(Step(s, actions[0]), actions[1..], i);
    }
  }

  lemma {:induction false} RunAnswers(s: State, actions: seq<Action>, i: nat)
    requires Inv(s) && i < |s.pc|
    ensures |Run(s, actions).pc| == |s.pc|
    ensures Unanswered(s.pc[i]) + Begun(s, actions, i) == Answered(s, actions, i) + Unanswered(Run(s, actions).pc[i])
    decreases |actions|
  {
    if |actions| > 0 {
      StepAnswers(s, actions[0], i);
      StepInv(s, actions[0]);
      RunAnswers(Step(s, actions[0]), actions[1..], i);
    }
  }

  /** In every run each dequeue of a thread takes one element and answers once, all but at most
      the one still at work. */
  lemma {:induction false} DequeuesTakeOneEach(threads: nat, x: Elem, actions: seq<Action>, i: nat)
    requires i < threads
    ensures var s0 := Initial(threads, x); var s := Run(s0, actions);
            && |s.pc| == threads
            && Begun(s0, actions, i) == Taken(s0, actions, i) + Untaken(s.pc[i])
            && Begun(s0, actions, i) == Answered(s0, actions, i) + Unanswered(s.pc[i])
  {
    InitialInv(threads, x);
    RunTakes(Initial(threads, x), actions, i);
    RunAnswers(Initial(threads, x), actions, i);
  }
}
