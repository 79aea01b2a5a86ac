// Runs of a state machine: what some sequence of steps can lead to.
module Reachability {
  import opened Collections

  ghost predicate StepAt<S(!new), A(!new)>(step: (S, A, S) -> bool, states: seq<S>, actions: seq<A>, i: nat)
    requires |states| == |actions| + 1
  {
    i < |actions| && step(states[i], actions[i], states[i + 1])
  }

  ghost predicate IsRun<S(!new), A(!new)>(step: (S, A, S) -> bool, states: seq<S>, actions: seq<A>) {
    |states| == |actions| + 1 && forall i: nat :: i < |actions| ==> StepAt(step, states, actions, i)
  }

  /** `end` is reached from `start` by taking `actions` one after the other. */
  ghost predicate Leads<S(!new), A(!new)>(step: (S, A, S) -> bool, start: S, actions: seq<A>, end: S) {
    exists states :: IsRun(step, states, actions) && states[0] == start && states[|actions|] == end
  }

  ghost predicate Reaches<S(!new), A(!new)>(step: (S, A, S) -> bool, start: S, end: S) {
    exists actions :: Leads(step, start, actions, end)
  }

  lemma LeadsNowhere<S(!new), A(!new)>(step: (S, A, S) -> bool, start: S)
    ensures Leads(step, start, [], start) && Reaches(step, start, start)
  {
    assert IsRun(step, [start], []);
    assert Leads(step, start, [], start);
  }

  lemma LeadsOn<S(!new), A(!new)>(
    step: (S, A, S) -> bool, start: S, actions: seq<A>, middle: S, action: A, end: S)
    requires Leads(step, start, actions, middle) && step(middle, action, end)
    ensures Leads(step, start, actions + [action], end)
  {
    var states :| IsRun(step, states, actions) && states[0] == start && states[|actions|] == middle;
    var more, longer := states + [end], actions + [action];
    forall i: nat | i < |longer|
      ensures StepAt(step, more, longer, i)
    {
      assert i < |actions| ==> StepAt(step, states, actions, i);
    }
    assert IsRun(step, more, longer);
  }

  lemma ReachesOn<S(!new), A(!new)>(step: (S, A, S) -> bool, start: S, middle: S, action: A, end: S)
    requires Reaches(step, start, middle) && step(middle, action, end)
    ensures Reaches(step, start, end)
  {
    var actions :| Leads(step, start, actions, middle);
    LeadsOn(step, start, actions, middle, action, end);
  }

  /** The last step of a run, and the state before it. */
  lemma LastStep<S(!new), A(!new)>(step: (S, A, S) -> bool, start: S, actions: seq<A>, end: S) returns (middle: S)
    requires Leads(step, start, actions, end) && actions != []
    ensures Leads(step, start, AllButLast(actions), middle) && step(middle, actions[|actions| - 1], end)
  {
    var states :| IsRun(step, states, actions) && states[0] == start && states[|actions|] == end;
    var fewer, shorter := AllButLast(states), AllButLast(actions);
    middle := fewer[|shorter|];
    forall i: nat | i < |shorter|
      ensures StepAt(step, fewer, shorter, i)
    {
      assert StepAt(step, states, actions, i);
    }
    assert IsRun(step, fewer, shorter);
    assert StepAt(step, states, actions, |shorter|);
  }

  ghost predicate IsKept<S(!new), A(!new)>(step: (S, A, S) -> bool, kept: S -> bool) {
    forall s, a, t :: kept(s) && step(s, a, t) ==> kept(t)
  }

  lemma {:induction false} LeadsKeeps<S(!new), A(!new)>(
    step: (S, A, S) -> bool, kept: S -> bool, start: S, actions: seq<A>, end: S)
    requires IsKept(step, kept) && kept(start) && Leads(step, start, actions, end)
    ensures kept(end)
    decreases |actions|
  {
    if actions == [] {
      var states :| IsRun(step, states, actions) && states[0] == start && states[|actions|] == end;
    } else {
      var middle := LastStep(step, start, actions, end);
      LeadsKeeps(step, kept, start, AllButLast(actions), middle);
    }
  }

  /** What holds at the start and is kept by every step holds wherever a run leads. */
  lemma ReachesKeeps<S(!new), A(!new)>(step: (S, A, S) -> bool, kept: S -> bool, start: S, end: S)
    requires IsKept(step, kept) && kept(start) && Reaches(step, start, end)
    ensures kept(end)
  {
    var actions :| Leads(step, start, actions, end);
    LeadsKeeps(step, kept, start, actions, end);
  }
}
