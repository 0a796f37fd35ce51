/** Runs of a transition system, and how what every step keeps carries over to whole runs. */
module Runs {
  ghost predicate Linked<S(!new)>(states: seq<S>, step: (S, S) -> bool, i: nat) {
    i + 1 < |states| && step(states[i], states[i + 1])
  }

  ghost predicate IsRun<S(!new)>(states: seq<S>, init: S -> bool, step: (S, S) -> bool) {
    states != [] && init(states[0]) && forall i: nat :: i + 1 < |states| ==> Linked(states, step, i)
  }

  /** An invariant of every step holds in every state of every run. */
  lemma {:induction false} InvariantHolds<S(!new)>(
    states: seq<S>, init: S -> bool, step: (S, S) -> bool, inv: S -> bool, j: nat)
    requires IsRun(states, init, step) && j < |states|
    requires forall s :: init(s) ==> inv(s)
    requires forall s, t :: inv(s) && step(s, t) ==> inv(t)
    ensures inv(states[j])
  {
    if j > 0 {
      InvariantHolds(states, init, step, inv, j - 1);
      assert Linked(states, step, j - 1);
    }
  }

  /** What relates the two ends of every step, reflexively and transitively, relates any two states of a run. */
  lemma {:induction false} RelationHolds<S(!new)>(
    states: seq<S>, init: S -> bool, step: (S, S) -> bool, inv: S -> bool, rel: (S, S) -> bool, i: nat, j: nat)
    requires IsRun(states, init, step) && i <= j < |states|
    requires forall s :: init(s) ==> inv(s)
    requires forall s, t :: inv(s) && step(s, t) ==> inv(t) && rel(s, t)
    requires forall s :: rel(s, s)
    requires forall s, t, u :: rel(s, t) && rel(t, u) ==> rel(s, u)
    ensures inv(states[i]) && inv(states[j]) && rel(states[i], states[j])
  {
    InvariantHolds(states, init, step, inv, i);
    InvariantHolds(states, init, step, inv, j);
    if i < j {
      RelationHolds(states, init, step, inv, rel, i, j - 1);
      assert Linked(states, step, j - 1);
    }
  }

  lemma RunExtends<S(!new)>(states: seq<S>, init: S -> bool, step: (S, S) -> bool, next: S)
    requires IsRun(states, init, step) && step(states[|states| - 1], next)
    ensures IsRun(states + [next], init, step)
  {
    var longer := states + [next];
    forall i: nat | i + 1 < |longer|
      ensures Linked(longer, step, i)
    {
      assert i + 1 < |states| ==> Linked(states, step, i);
    }
  }

  lemma FourSteps<S(!new)>(init: S -> bool, step: (S, S) -> bool, a: S, b: S, c: S, d: S, e: S)
    requires init(a) && step(a, b) && step(b, c) && step(c, d) && step(d, e)
    ensures IsRun([a, b, c, d, e], init, step)
  {
    var run := [a, b, c, d, e];
    forall i: nat | i + 1 < |run|
      ensures Linked(run, step, i)
    {
      assert i == 0 || i == 1 || i == 2 || i == 3;
    }
  }
}
