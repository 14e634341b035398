/** Runs of a system of threads: a schedule is the sequence of the actions taken, by whichever
    threads, one at a time. */
module Interleaving {

  function RunOf<S, A>(step: (S, A) -> S, s: S, actions: seq<A>): S
    decreases |actions|
  {
    if |actions| == 0 then s else RunOf(step, step(s, actions[0]), actions[1..])
  }

  lemma {:induction false} OneMoreAction<S, A>(step: (S, A) -> S, s: S, actions: seq<A>, a: A)
    ensures RunOf(step, s, actions + [a]) == step(RunOf(step, s, actions), a)
    decreases |actions|
  {
    if |actions| > 0 {
      assert (actions + [a])[1..] == actions[1..] + [a];
      OneMoreAction(step, step(s, actions[0]), actions[1..], a);
    }
  }
}
