/** Repeating a state transition: what a counting loop of increments computes. */
module Iteration {

  /** `n` applications of `step`, the first one first. */
  function Iterate<S>(step: S -> S, s: S, n: nat): S
    decreases n
  {
    if n == 0 then s else Iterate(step, step(s), n - 1)
  }

  /** One more application is one more step after the others. */
  lemma {:induction false} IterateLast<S>(step: S -> S, s: S, n: nat)
    ensures Iterate(step, s, n + 1) == step(Iterate(step, s, n))
    decreases n
  {
    if n > 0 {
      IterateLast(step, step(s), n - 1);
    }
  }
}
