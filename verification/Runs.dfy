/** Invariants of runs: sequences of states in which each step is taken by a step relation. */
module Runs {

  ghost predicate Preserves<S(!new)>(step: (S, S) -> bool, inv: S -> bool) {
    forall s, s2 :: inv(s) && step(s, s2) ==> inv(s2)
  }

  ghost predicate IsRun<S>(run: seq<S>, step: (S, S) -> bool, start: nat, end: nat)
    requires start <= end < |run|
  {
    forall k :: start <= k < end ==> step(run[k], run[k + 1])
  }

  /** What holds at one state and is kept by every step holds at every later state. */
  lemma {:induction false} Invariant<S(!new)>(run: seq<S>, step: (S, S) -> bool, inv: S -> bool, start: nat, end: nat)
    requires start <= end < |run| && inv(run[start])
    requires IsRun(run, step, start, end)
    requires Preserves(step, inv)
    ensures inv(run[end])
    decreases end
  {
    if start < end {
      Invariant(run, step, inv, start, end - 1);
      assert step(run[end - 1], run[end - 1 + 1]);
    }
  }

  /** What holds at one state and not at a later one stops holding at some step in between. */
  lemma {:induction false} LosingStep<S>(run: seq<S>, p: S -> bool, start: nat, end: nat) returns (k: nat)
    requires start <= end < |run| && p(run[start]) && !p(run[end])
    ensures start <= k < end && p(run[k]) && !p(run[k + 1])
    decreases end
  {
    k := end - 1;
    if !p(run[k]) {
      k := LosingStep(run, p, start, k);
    }
  }
}
