// What a dispatch to the Hue bridge reports when it returns.
module HueOutcomes {
  import opened Wrappers
  import opened Collections
  import opened Reachability
  import opened HueGate
  import opened HueCoalescing

  /** What the actions of a run say of a dispatch that has gone so far. */
  ghost predicate PhaseIsTold(actions: seq<Action>, id: nat, d: Dispatch) {
    match d.phase
    case Answered(ok) => BridgeAnswers(id, ok) in actions
    case Ended(Delivered) => BridgeAnswers(id, true) in actions
    case Ended(BridgeFailed) => BridgeAnswers(id, false) in actions
    case Stale(why) => why in {Superseded, Disappeared}
    case Refused => d.slot.None?
    case Ended(QueueFull) => d.slot.None?
    case _ => true
  }

  lemma {:induction false} StepIsTold(
    fewer: seq<Action>, action: Action, before: State, after: State, policy: Policy, id: nat)
    requires StepsTo(before, action, after, policy) && id in after.dispatches
    requires id in before.dispatches ==> PhaseIsTold(fewer, id, before.dispatches[id])
    ensures PhaseIsTold(fewer + [action], id, after.dispatches[id])
  {
    assert action in fewer + [action] && forall a :: a in fewer ==> a in fewer + [action];
  }

  lemma {:induction false} PhasesAreTold(actions: seq<Action>, start: int, s: State, policy: Policy)
    requires Leads(Steps(policy), Idle(start), actions, s)
    ensures forall id :: id in s.dispatches ==> PhaseIsTold(actions, id, s.dispatches[id])
    decreases |actions|
  {
    if actions == [] {
      var states :| IsRun(Steps(policy), states, actions) && states[0] == Idle(start) && states[|actions|] == s;
    } else {
      var fewer, action := AllButLast(actions), actions[|actions| - 1];
      var before := LastStep(Steps(policy), Idle(start), actions, s);
      PhasesAreTold(fewer, start, before, policy);
      assert actions == fewer + [action];
      forall id | id in s.dispatches
        ensures PhaseIsTold(actions, id, s.dispatches[id])
      {
        StepIsTold(fewer, action, before, s, policy, id);
      }
    }
  }

  /** A dispatch returns what the bridge answered it, or that the queue was full when it was given no slot. */
  lemma OutcomeIsTheAnswer(actions: seq<Action>, start: int, s: State, policy: Policy, id: nat)
    requires Leads(Steps(policy), Idle(start), actions, s) && id in s.dispatches && s.dispatches[id].phase.Ended?
    ensures s.dispatches[id].phase.outcome == Delivered ==> BridgeAnswers(id, true) in actions
    ensures s.dispatches[id].phase.outcome == BridgeFailed ==> BridgeAnswers(id, false) in actions
    ensures s.dispatches[id].phase.outcome == QueueFull ==> s.dispatches[id].slot.None?
  {
    PhasesAreTold(actions, start, s, policy);
  }

  /** A check that fails says that the value was superseded exactly while a newer one of its key is in flight,
      and that it disappeared when that one has returned. */
  lemma FailedCheckSaysWhy(s: State, start: int, policy: Policy, id: nat)
    requires Reachable(s, start, policy) && id in s.dispatches && Inserted(s.dispatches[id])
    requires CurrentValue(s.pending, s.dispatches[id].key, s.dispatches[id].revision).Err?
    ensures s.dispatches[id].key in s.last && s.last[s.dispatches[id].key] in s.dispatches
    ensures
      var d := s.dispatches[id];
      CurrentValue(s.pending, d.key, d.revision).error
      == if InFlight(s.dispatches[s.last[d.key]]) then Superseded else Disappeared
  {
    ReachableFits(s, start, policy);
  }
}
