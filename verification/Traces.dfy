// What one attempt at an action does, and what the trace of a run tells: the actions of its plan in order,
// each with its retries, up to the first that failed.
module Traces {
  import opened Wrappers
  import opened Plan
  import opened PlanBounds
  import opened FlowRuntime
  import opened Transparency
  import opened CallDiscipline
  import opened StateValues
  import Collections

  // ----- One attempt -----

  /** The calls an attempt added. */
  function Made(w: World, after: World): seq<Call>
    requires w.calls <= after.calls
  {
    after.calls[|w.calls|..]
  }

  /** The step an action leaves when it succeeds at once. */
  function StepOf(action: PlannedAction): TraceStep
    requires IsRetryable(action)
  {
    match action
    case Command(entityId, verb, _, _) => CommandRequested(entityId, verb)
    case Audit(message) => Audited(message)
    case SetAutomationEnabled(flowId, enabled) => AutomationChanged(flowId, enabled)
  }

  predicate Answered(replies: Replies, before: seq<Call>, made: seq<Call>, k: nat)
    requires k < |made|
  {
    replies(before + made[..k + 1]).Accepted?
  }

  /** An attempt makes the calls written for its action, one by one up to the first that is refused. It
      succeeds exactly when the action can be carried out and none is refused; it is traced exactly then, and
      a command is known by the id its first call was answered with. */
  lemma AttemptIsWritten(action: PlannedAction, index: nat, attempt: nat, run: string, replies: Replies, w: World)
    ensures w.calls <= Issue(action, index, attempt, run, replies, w).world.calls
    ensures
      var issued := Issue(action, index, attempt, run, replies, w);
      var made, written := Made(w, issued.world), CommandCalls(action, index, attempt, run);
      var able := IsRetryable(action) && Supported(action);
      && (able ==> made <= written && (written != [] ==> made != []))
      && (!able ==> made == [])
      && (forall k :: 0 <= k < |made| - 1 ==> Answered(replies, w.calls, made, k))
      && (issued.Done? <==> able && made == written && (made != [] ==> Answered(replies, w.calls, made, |made| - 1)))
      && (issued.Rejected? && able ==> made != [] && !Answered(replies, w.calls, made, |made| - 1))
      && issued.world.steps == w.steps + (if issued.Done? then [StepOf(action)] else [])
      && (issued.Done? && action.Command? ==> replies(w.calls + made[..1]) == Accepted(issued.commandId))
  {
    if action.Command? && Supported(action) {
      var written := CommandCalls(action, index, attempt, run);
      assert SwitchValue(action.verb) == Some(BoolValue(action.verb == "turn-on"));
      assert w.calls + [written[0]] == w.calls + written[..1];
      if action.brightness.Some? {
        assert w.calls + [written[0]] + [written[1]] == w.calls + written[..2] && written[..2] == written;
        assert (w.calls + written[..1])[|w.calls|..] == written[..1] && (w.calls + written)[|w.calls|..] == written;
        assert written[..1][..1] == written[..1];
      } else {
        assert (w.calls + written)[|w.calls|..] == written && written[..1] == written;
      }
    } else if action.SetAutomationEnabled? {
      var written := CommandCalls(action, index, attempt, run);
      assert w.calls + [written[0]] == w.calls + written[..1];
    }
  }

  /** What a failed attempt outside a retry is traced as, by the number of calls it came to. */
  function FailureOf(action: PlannedAction, made: nat): string {
    if action.SetAutomationEnabled? then "automation update failed"
    else if made == 0 then "unsupported command verb: " + Verb(action)
    else if made == 1 then "command " + Verb(action) + " failed"
    else "brightness command failed"
  }

  lemma FailureIsNamed(action: PlannedAction, index: nat, attempt: nat, run: string, replies: Replies, w: World)
    requires IsRetryable(action) && Issue(action, index, attempt, run, replies, w).Rejected?
    ensures w.calls <= Issue(action, index, attempt, run, replies, w).world.calls
    ensures
      var issued := Issue(action, index, attempt, run, replies, w);
      FailureText(Verb(action), issued.why) == FailureOf(action, |Made(w, issued.world)|)
  {
  }

  // ----- The trace of a retry -----

  /** The announcements of attempts `from` to `to`. */
  function Scheduled(from: nat, to: nat, attempts: nat, backoff: nat): seq<TraceStep>
    decreases to - from
  {
    if from > to then [] else [RetryScheduled(from, attempts, backoff)] + Scheduled(from + 1, to, attempts, backoff)
  }

  /** A retry that succeeds at attempt `last` tells every attempt after the first, and then the action. */
  predicate TellsRetry(action: PlannedAction, from: nat, last: nat, attempts: nat, backoff: nat, steps: seq<TraceStep>) {
    && IsRetryable(action) && (last <= attempts || last == from)
    && steps == Scheduled(from + 1, last, attempts, backoff) + [StepOf(action)]
  }

  /** A retry fails only behind its last attempt. */
  predicate TellsExhaustion(from: nat, attempts: nat, backoff: nat, steps: seq<TraceStep>) {
    steps == Scheduled(from + 1, attempts, attempts, backoff) + [RetryExhausted(attempts)]
  }

  lemma {:induction false} AttemptsAreTold(
    action: PlannedAction, index: nat, attempt: nat, attempts: nat, backoff: nat, run: string, replies: Replies,
    w: World) returns (steps: seq<TraceStep>, last: nat)
    ensures
      var outcome := RunAttempts(action, index, attempt, attempts, backoff, run, replies, w);
      && outcome.world.steps == w.steps + steps && attempt + 1 <= last
      && (if outcome.Finished? then TellsRetry(action, attempt + 1, last, attempts, backoff, steps)
          else TellsExhaustion(attempt + 1, attempts, backoff, steps))
    decreases attempts - attempt
  {
    AttemptIsWritten(action, index, attempt + 1, run, replies, w);
    var issued := Issue(action, index, attempt + 1, run, replies, w);
    last := attempt + 1;
    if issued.Done? {
      steps := [StepOf(action)];
      NoneScheduled(attempt + 2, attempt + 1, attempts, backoff, StepOf(action));
    } else if attempt + 1 < attempts {
      var scheduled := RetryScheduled(attempt + 2, attempts, backoff);
      var rest, end := AttemptsAreTold(
        action, index, attempt + 1, attempts, backoff, run, replies, issued.world.Record(scheduled));
      steps, last := [scheduled] + rest, end;
      Collections.Associative(w.steps, [scheduled], rest);
      OneMoreTold(action, attempt + 1, last, attempts, backoff, rest);
    } else {
      steps := [RetryExhausted(attempts)];
      NoneScheduled(attempt + 2, attempts, attempts, backoff, RetryExhausted(attempts));
    }
  }

  lemma NoneScheduled(from: nat, to: nat, attempts: nat, backoff: nat, step: TraceStep)
    requires from > to
    ensures Scheduled(from, to, attempts, backoff) + [step] == [step]
  {
  }

  lemma OneMoreTold(action: PlannedAction, from: nat, last: nat, attempts: nat, backoff: nat, steps: seq<TraceStep>)
    requires from < attempts
    ensures
      var more := [RetryScheduled(from + 1, attempts, backoff)] + steps;
      && (from + 1 <= last && TellsRetry(action, from + 1, last, attempts, backoff, steps) ==>
            TellsRetry(action, from, last, attempts, backoff, more))
      && (TellsExhaustion(from + 1, attempts, backoff, steps) ==> TellsExhaustion(from, attempts, backoff, more))
  {
    var scheduled := [RetryScheduled(from + 1, attempts, backoff)];
    if IsRetryable(action) {
      Collections.Associative(scheduled, Scheduled(from + 2, last, attempts, backoff), [StepOf(action)]);
    }
    Collections.Associative(scheduled, Scheduled(from + 2, attempts, attempts, backoff), [RetryExhausted(attempts)]);
  }

  // ----- The trace of a pass -----

  ghost predicate TellsSomeRetry(action: PlannedAction, attempts: nat, backoff: nat, steps: seq<TraceStep>) {
    exists last: nat :: last >= 1 && TellsRetry(action, 1, last, attempts, backoff, steps)
  }

  /** What an action that succeeded leaves in the trace. */
  ghost predicate TellsAction(action: PlannedAction, steps: seq<TraceStep>) {
    match action
    case Wait(milliseconds) => steps == [Waiting(milliseconds)]
    case Await(trigger, timeout) => steps == [Awaiting(trigger, timeout)]
    case Command(_, _, _, Reported(timeout)) =>
      exists id :: steps == [StepOf(action), Awaiting(CommandConfirmed(id), Some(timeout))]
    case Retry(inner, attempts, backoff) => TellsSomeRetry(inner, attempts as nat, backoff, steps)
    case _ => steps == [StepOf(action)]
  }

  /** What an action that failed leaves in the trace. */
  ghost predicate TellsFailure(action: PlannedAction, steps: seq<TraceStep>) {
    match action
    case Wait(_) => false
    case Await(_, _) => false
    case Audit(_) => false
    case Retry(_, attempts, backoff) => TellsExhaustion(1, attempts as nat, backoff, steps)
    case _ => exists made: nat :: made <= 2 && steps == [ActionFailed(FailureOf(action, made))]
  }

  lemma {:induction false} ActionIsTold(action: PlannedAction, index: nat, run: string, replies: Replies, w: World)
    returns (steps: seq<TraceStep>)
    ensures
      var outcome := RunAction(action, index, 0, run, replies, w);
      && outcome.world.steps == w.steps + steps
      && (if outcome.Finished? then TellsAction(action, steps) else TellsFailure(action, steps))
  {
    var outcome := RunAction(action, index, 0, run, replies, w);
    if action.Retry? {
      var last;
      steps, last := AttemptsAreTold(
        action.action, index, 0, action.attempts as nat, action.backoffMilliseconds, run, replies, w);
    } else if IsRetryable(action) {
      AttemptIsWritten(action, index, 0, run, replies, w);
      var issued := Issue(action, index, 0, run, replies, w);
      if issued.Rejected? {
        FailureIsNamed(action, index, 0, run, replies, w);
        assert |Made(w, issued.world)| <= 2;
      }
      steps := outcome.world.steps[|w.steps|..];
    } else {
      steps := outcome.world.steps[|w.steps|..];
    }
  }

  function Flatten(parts: seq<seq<TraceStep>>): seq<TraceStep> {
    if parts == [] then [] else parts[0] + Flatten(parts[1..])
  }

  /** The parts of a trace tell the actions from `index` on, one each: all of them when the pass finished, and
      else up to one that failed, with which the trace ends. */
  ghost predicate TellsPlan(actions: seq<PlannedAction>, index: nat, parts: seq<seq<TraceStep>>, finished: bool) {
    && index + |parts| <= |actions|
    && (finished ==> index + |parts| == |actions|)
    && (!finished ==> parts != [] && TellsFailure(actions[index + |parts| - 1], parts[|parts| - 1]))
    && forall i :: 0 <= i < |parts| && (finished || i < |parts| - 1) ==> TellsAction(actions[index + i], parts[i])
  }

  /** A pass leaves the actions of its plan in its trace, in order and each as it went, and nothing else. */
  lemma {:induction false} PassIsTold(
    actions: seq<PlannedAction>, index: nat, run: string, replies: Replies, w: World)
    returns (parts: seq<seq<TraceStep>>)
    requires index <= |actions|
    ensures
      var outcome := OnePass(actions, index, 0, run, replies, w);
      outcome.world.steps == w.steps + Flatten(parts) && TellsPlan(actions, index, parts, outcome.Finished?)
    decreases |actions| - index
  {
    parts := [];
    if index < |actions| {
      var first := ActionIsTold(actions[index], index, run, replies, w);
      var outcome := RunAction(actions[index], index, 0, run, replies, w);
      if outcome.Finished? {
        var rest := PassIsTold(actions, index + 1, run, replies, outcome.world);
        parts := [first] + rest;
        PlanIsToldFurther(actions, index, first, rest, OnePass(actions, index + 1, 0, run, replies, outcome.world).Finished?);
        Collections.Associative(w.steps, first, Flatten(rest));
      } else {
        parts := [first];
        assert Flatten(parts) == first + [];
      }
    }
  }

  lemma PlanIsToldFurther(
    actions: seq<PlannedAction>, index: nat, first: seq<TraceStep>, rest: seq<seq<TraceStep>>, finished: bool)
    requires index < |actions| && TellsAction(actions[index], first) && TellsPlan(actions, index + 1, rest, finished)
    ensures TellsPlan(actions, index, [first] + rest, finished)
    ensures Flatten([first] + rest) == first + Flatten(rest)
  {
    var parts := [first] + rest;
    assert parts[1..] == rest;
    forall i | 0 <= i < |parts| && (finished || i < |parts| - 1)
      ensures TellsAction(actions[index + i], parts[i])
    {
      assert i > 0 ==> parts[i] == rest[i - 1] && actions[index + 1 + (i - 1)] == actions[index + i];
    }
  }
}
