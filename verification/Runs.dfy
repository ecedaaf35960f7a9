/** Runs of a state machine, given by a step function that is defined for the enabled events only. */
module Runs {
  ghost predicate IsRun<S(!new), E(!new)>(step: (S, E) --> S, s: S, es: seq<E>, s': S)
    decreases |es|
  {
    if es == [] then s == s'
    else step.requires(s, es[0]) && IsRun(step, step(s, es[0]), es[1..], s')
  }

  ghost predicate Reachable<S(!new), E(!new)>(step: (S, E) --> S, initial: S, s: S) {
    exists es :: IsRun(step, initial, es, s)
  }

  lemma {:induction false} RunExtend<S(!new), E(!new)>(step: (S, E) --> S, s: S, es: seq<E>, s1: S, e: E)
    requires IsRun(step, s, es, s1) && step.requires(s1, e)
    ensures IsRun(step, s, es + [e], step(s1, e))
    decreases |es|
  {
    if es == [] {
      assert [e][1..] == [];
      assert IsRun(step, step(s1, e), [], step(s1, e));
    } else {
      RunExtend(step, step(s, es[0]), es[1..], s1, e);
      assert (es + [e])[1..] == es[1..] + [e];
    }
  }

  lemma RunFirst<S(!new), E(!new)>(step: (S, E) --> S, s: S, e: E, es: seq<E>, s': S)
    requires step.requires(s, e) && IsRun(step, step(s, e), es, s')
    ensures IsRun(step, s, [e] + es, s')
  {
    assert ([e] + es)[1..] == es;
  }

  lemma InitialIsReachable<S(!new), E(!new)>(step: (S, E) --> S, initial: S)
    ensures Reachable(step, initial, initial)
  {
    assert IsRun(step, initial, [], initial);
  }

  lemma ReachableStep<S(!new), E(!new)>(step: (S, E) --> S, initial: S, s: S, e: E)
    requires Reachable(step, initial, s) && step.requires(s, e)
    ensures Reachable(step, initial, step(s, e))
  {
    var es :| IsRun(step, initial, es, s);
    RunExtend(step, initial, es, s, e);
  }

  /** What every step keeps holds after every run. */
  lemma {:induction false} RunKeeps<S(!new), E(!new)>(step: (S, E) --> S, inv: S -> bool, s: S, es: seq<E>, s': S)
    requires forall t, e :: inv(t) && step.requires(t, e) ==> inv(step(t, e))
    requires inv(s) && IsRun(step, s, es, s')
    ensures inv(s')
    decreases |es|
  {
    if es != [] {
      RunKeeps(step, inv, step(s, es[0]), es[1..], s');
    }
  }
}
