// What a suspended run waits for, read off its plan, its replies and the last step of its trace.
module Suspension {
  import opened Wrappers
  import opened Plan
  import opened IdempotencyKeys
  import opened FlowRuntime

  /** How long a run pauses behind the last step of its trace; `None` when no time ends the pause. */
  function PauseOf(step: TraceStep): Option<nat> {
    match step
    case Waiting(milliseconds) => Some(milliseconds)
    case Awaiting(_, timeout) => timeout
    case RetryScheduled(_, _, backoff) => Some(backoff)
    case _ => None
  }

  function TriggerOf(step: TraceStep): Option<AwaitTrigger> {
    if step.Awaiting? then Some(step.trigger) else None
  }

  predicate IsPause(step: TraceStep) {
    step.Waiting? || step.Awaiting? || step.RetryScheduled?
  }

  function LastStep(trace: seq<TraceStep>): TraceStep
    requires trace != []
  {
    trace[|trace| - 1]
  }

  /** The switch call of action `index`, outside any retry, was accepted as command `id`. */
  predicate AcceptedAs(calls: seq<Call>, run: string, replies: Replies, index: nat, id: string) {
    exists k :: 0 <= k < |calls| && calls[k].key == Key(run, Tag(index, 0, Switch)) && replies(calls[..k + 1]) == Accepted(id)
  }

  /** Nothing of the last attempt was accepted: its last call was refused, or it could make none. */
  predicate LastCallRefused(action: PlannedAction, calls: seq<Call>, replies: Replies) {
    || (calls != [] && replies(calls).Refused?)
    || (action.Command? && action.verb !in {"turn-on", "turn-off"})
    || !(action.Command? || action.Audit? || action.SetAutomationEnabled?)
  }

  /** A run of the plan is suspended at action `index`, for what that action and the replies make it wait. */
  predicate SuspendedAt(
    actions: seq<PlannedAction>, index: nat, end: SegmentEnd, run: string, replies: Replies)
    requires index < |actions| && end.result.Suspended?
  {
    var result := end.result;
    && result.trace != []
    && match actions[index]
       case Wait(milliseconds) =>
         && LastStep(result.trace) == Waiting(milliseconds)
         && result.afterMilliseconds == Some(milliseconds) && result.awaiting == None
         && !result.awaitTimeoutIsFailure && result.nextAction == index + 1 && result.retryAttempt == None
       case Await(trigger, timeout) =>
         && LastStep(result.trace) == Awaiting(trigger, timeout)
         && result.afterMilliseconds == timeout && result.awaiting == Some(trigger)
         && !result.awaitTimeoutIsFailure && result.nextAction == index + 1 && result.retryAttempt == None
       case Command(_, _, _, Reported(timeout)) =>
         && result.awaiting.Some? && result.awaiting.value.CommandConfirmed?
         && AcceptedAs(end.calls, run, replies, index, result.awaiting.value.commandId)
         && LastStep(result.trace) == Awaiting(result.awaiting.value, Some(timeout))
         && result.afterMilliseconds == Some(timeout)
         && result.awaitTimeoutIsFailure && result.nextAction == index + 1 && result.retryAttempt == None
       case Retry(inner, attempts, backoff) =>
         && LastCallRefused(inner, end.calls, replies)
         && result.nextAction == index && result.retryAttempt.Some? && 1 <= result.retryAttempt.value < attempts
         && LastStep(result.trace) == RetryScheduled(result.retryAttempt.value as nat + 1, attempts as nat, backoff)
         && result.afterMilliseconds == Some(backoff) && result.awaiting == None && !result.awaitTimeoutIsFailure
       case _ => false
  }

  lemma {:induction false} ActionSuspends(
    actions: seq<PlannedAction>, index: nat, retry: Option<u8>, run: string, replies: Replies, w: World)
    requires index < |actions| && (retry.Some? ==> retry.value < 255)
    ensures
      var step := StepAction(actions[index], index, retry, run, replies, w);
      step.Stop? && step.end.result.Suspended? ==> SuspendedAt(actions, index, step.end, run, replies)
  {
    var step := StepAction(actions[index], index, retry, run, replies, w);
    if step.Stop? && step.end.result.Suspended? {
      match actions[index] {
        case Command(entityId, verb, brightness, Reported(_)) =>
          var call := CommandCall(entityId, "switch", SwitchValue(verb).value, Key(run, Tag(index, 0, Switch)));
          assert step.end.calls[..|w.calls| + 1] == w.calls + [call];
          assert step.end.calls[|w.calls|] == call;
        case _ =>
      }
    }
  }

  /** A segment that suspends does so at some action of the plan, for what that action says. */
  lemma {:induction false} SegmentSuspends(
    actions: seq<PlannedAction>, index: nat, retry: Option<u8>, run: string, replies: Replies, w: World)
    returns (at: nat)
    requires retry.Some? ==> retry.value < 255
    ensures
      var end := Segment(actions, index, retry, run, replies, w);
      end.result.Suspended? ==> index <= at < |actions| && SuspendedAt(actions, at, end, run, replies)
    decreases |actions| - index
  {
    at := index;
    if index < |actions| {
      ActionSuspends(actions, index, retry, run, replies, w);
      var step := StepAction(actions[index], index, retry, run, replies, w);
      if step.Continue? {
        at := SegmentSuspends(actions, index + 1, None, run, replies, step.world);
      }
    }
  }

  /** The last step of the trace tells how long a suspended run pauses, and what it awaits. */
  lemma {:induction false} TraceTellsThePause(
    actions: seq<PlannedAction>, index: nat, retry: Option<u8>, run: string, replies: Replies, w: World)
    requires retry.Some? ==> retry.value < 255
    ensures
      var result := Segment(actions, index, retry, run, replies, w).result;
      result.Suspended? ==>
        && result.trace != [] && IsPause(LastStep(result.trace))
        && result.afterMilliseconds == PauseOf(LastStep(result.trace))
        && result.awaiting == TriggerOf(LastStep(result.trace))
  {
    var _ := SegmentSuspends(actions, index, retry, run, replies, w);
  }
}
