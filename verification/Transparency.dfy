// Suspending a run is invisible: the segments of a run, chained through their resumption
// points, do what one uninterrupted pass over the plan would have done.
module Transparency {
  import opened Wrappers
  import opened Plan
  import opened IdempotencyKeys
  import opened FlowRuntime

  // ----- The reference: one pass that never suspends -----

  datatype Outcome = Finished(world: World) | Aborted(world: World)

  /** A whole retry, from attempt number `attempt + 1` on: backoffs only leave a trace. */
  function RunAttempts(
    action: PlannedAction, index: nat, attempt: nat, attempts: nat, backoff: nat,
    run: string, replies: Replies, w: World): Outcome
    decreases attempts - attempt
  {
    match Issue(action, index, attempt + 1, run, replies, w)
    case Done(w1, _) => Finished(w1)
    case Rejected(w1, _) =>
      if attempt + 1 < attempts then
        RunAttempts(
          action, index, attempt + 1, attempts, backoff, run, replies,
          w1.Record(RetryScheduled(attempt + 2, attempts, backoff)))
      else Aborted(w1.Record(RetryExhausted(attempts)))
  }

  function RunAction(
    action: PlannedAction, index: nat, attempt: nat, run: string, replies: Replies, w: World): Outcome
  {
    match action
    case Wait(milliseconds) => Finished(w.Record(Waiting(milliseconds)))
    case Await(trigger, timeout) => Finished(w.Record(Awaiting(trigger, timeout)))
    case Retry(inner, attempts, backoff) =>
      RunAttempts(inner, index, attempt, attempts as nat, backoff, run, replies, w)
    case _ =>
      match Issue(action, index, 0, run, replies, w)
      case Rejected(w1, why) => Aborted(w1.Record(ActionFailed(FailureText(Verb(action), why))))
      case Done(w1, id) =>
        if action.Command? && action.confirmation.Reported?
        then Finished(w1.Record(Awaiting(CommandConfirmed(id), Some(action.confirmation.timeoutMilliseconds))))
        else Finished(w1)
  }

  /** The pass over the actions from `index` on, the first one starting at attempt `attempt`. */
  function OnePass(
    actions: seq<PlannedAction>, index: nat, attempt: nat, run: string, replies: Replies, w: World): Outcome
    decreases |actions| - index
  {
    if index >= |actions| then Finished(w)
    else
      match RunAction(actions[index], index, attempt, run, replies, w)
      case Aborted(w1) => Aborted(w1)
      case Finished(w1) => OnePass(actions, index + 1, 0, run, replies, w1)
  }

  function Conclude(outcome: Outcome): SegmentEnd {
    match outcome
    case Finished(w) => SegmentEnd(Completed(w.steps), w.calls)
    case Aborted(w) => SegmentEnd(Failed(w.steps), w.calls)
  }

  // ----- Suspensions left -----

  function Suspensions(action: PlannedAction, attempt: nat): nat {
    match action
    case Wait(_) => 1
    case Await(_, _) => 1
    case Command(_, _, _, confirmation) => if confirmation.Reported? then 1 else 0
    case Retry(_, attempts, _) => if attempt + 1 < attempts as nat then attempts as nat - 1 - attempt else 0
    case _ => 0
  }

  /** At most this many suspensions lie ahead of the resumption point (index, attempt). */
  function SuspensionsLeft(actions: seq<PlannedAction>, index: nat, attempt: nat): nat
    decreases |actions| - index
  {
    if index >= |actions| then 0
    else Suspensions(actions[index], attempt) + SuspensionsLeft(actions, index + 1, 0)
  }

  function Attempt(retry: Option<u8>): nat {
    retry.GetOr(0) as nat
  }

  predicate Resumable(retry: Option<u8>) {
    retry.Some? ==> retry.value < 255
  }

  /** Where a segment that ends at `index` leaves the single pass. */
  predicate EndFollows(
    actions: seq<PlannedAction>, index: nat, attempt: nat, end: SegmentEnd, reference: Outcome,
    run: string, replies: Replies)
  {
    if end.result.Suspended? then
      && reference == OnePass(
           actions, end.result.nextAction, Attempt(end.result.retryAttempt), run, replies,
           World(end.calls, end.result.trace))
      && SuspensionsLeft(actions, end.result.nextAction, Attempt(end.result.retryAttempt))
         < SuspensionsLeft(actions, index, attempt)
      && Resumable(end.result.retryAttempt)
      && end.result.nextAction <= |actions|
    else end == Conclude(reference)
  }

  lemma StepFollowsAction(
    actions: seq<PlannedAction>, index: nat, retry: Option<u8>, run: string, replies: Replies, w: World)
    requires index < |actions| && Resumable(retry)
    ensures
      match StepAction(actions[index], index, retry, run, replies, w)
      case Continue(w1) => RunAction(actions[index], index, Attempt(retry), run, replies, w) == Finished(w1)
      case Stop(end) =>
        EndFollows(
          actions, index, Attempt(retry), end, OnePass(actions, index, Attempt(retry), run, replies, w), run, replies)
  {
    var action := actions[index];
    if action.Retry? {
      var attempt := retry.GetOr(0);
      var issued := Issue(action.action, index, attempt as nat + 1, run, replies, w);
      assert RunAction(action, index, Attempt(retry), run, replies, w)
          == RunAttempts(
               action.action, index, attempt as nat, action.attempts as nat, action.backoffMilliseconds,
               run, replies, w);
    }
  }

  /** A segment either ends the run as the single pass ends it, or stops at a point from which the
      single pass goes on to the same end, with strictly fewer suspensions ahead of it. */
  lemma {:induction false} SegmentFollowsOnePass(
    actions: seq<PlannedAction>, index: nat, retry: Option<u8>, run: string, replies: Replies, w: World)
    requires Resumable(retry)
    ensures EndFollows(
      actions, index, Attempt(retry), Segment(actions, index, retry, run, replies, w),
      OnePass(actions, index, Attempt(retry), run, replies, w), run, replies)
    decreases |actions| - index
  {
    if index < |actions| {
      StepFollowsAction(actions, index, retry, run, replies, w);
      var step := StepAction(actions[index], index, retry, run, replies, w);
      if step.Continue? {
        SegmentFollowsOnePass(actions, index + 1, None, run, replies, step.world);
      }
    }
  }

  // ----- Chaining the segments of a run -----

  /** The number of segments a run takes, and how the last one ends. */
  function Chain(
    actions: seq<PlannedAction>, index: nat, retry: Option<u8>, run: string, replies: Replies, w: World)
    : (r: (SegmentEnd, nat))
    requires Resumable(retry)
    decreases SuspensionsLeft(actions, index, Attempt(retry))
  {
    SegmentFollowsOnePass(actions, index, retry, run, replies, w);
    var end := Segment(actions, index, retry, run, replies, w);
    if end.result.Suspended? then
      var (last, count) := Chain(
        actions, end.result.nextAction, end.result.retryAttempt, run, replies, World(end.calls, end.result.trace));
      (last, count + 1)
    else (end, 1)
  }

  /** Suspension is transparent, and a run takes a bounded number of segments. */
  lemma {:induction false} ChainIsOnePass(
    actions: seq<PlannedAction>, index: nat, retry: Option<u8>, run: string, replies: Replies, w: World)
    requires Resumable(retry)
    ensures Chain(actions, index, retry, run, replies, w).0
         == Conclude(OnePass(actions, index, Attempt(retry), run, replies, w))
    ensures Chain(actions, index, retry, run, replies, w).1 <= 1 + SuspensionsLeft(actions, index, Attempt(retry))
    decreases SuspensionsLeft(actions, index, Attempt(retry))
  {
    SegmentFollowsOnePass(actions, index, retry, run, replies, w);
    var end := Segment(actions, index, retry, run, replies, w);
    if end.result.Suspended? {
      ChainIsOnePass(
        actions, end.result.nextAction, end.result.retryAttempt, run, replies, World(end.calls, end.result.trace));
    }
  }

  /** The imperative run: resumes the plan until it ends. It makes the calls of the single pass, in
      its order and with its keys, and leaves its trace. */
  method RunToEnd(plan: ExecutionPlan, run: string, gateway: CommandGateway) returns (result: RunResult)
    modifies gateway
    ensures SegmentEnd(result, gateway.calls)
         == Conclude(OnePass(plan.actions, 0, 0, run, gateway.replies, World(old(gateway.calls), [])))
  {
    SegmentFollowsOnePass(plan.actions, 0, None, run, gateway.replies, World(gateway.calls, []));
    result := ExecuteFromResumption(plan, run, gateway, 0, None, []);
    while result.Suspended?
      invariant result.Suspended? ==>
        && Resumable(result.retryAttempt)
        && OnePass(plan.actions, 0, 0, run, gateway.replies, World(old(gateway.calls), []))
        == OnePass(
             plan.actions, result.nextAction, Attempt(result.retryAttempt), run, gateway.replies,
             World(gateway.calls, result.trace))
      invariant !result.Suspended? ==>
        SegmentEnd(result, gateway.calls)
        == Conclude(OnePass(plan.actions, 0, 0, run, gateway.replies, World(old(gateway.calls), [])))
      decreases
        if result.Suspended?
        then 1 + SuspensionsLeft(plan.actions, result.nextAction, Attempt(result.retryAttempt)) else 0
    {
      SegmentFollowsOnePass(
        plan.actions, result.nextAction, result.retryAttempt, run, gateway.replies,
        World(gateway.calls, result.trace));
      result := ExecuteFromResumption(plan, run, gateway, result.nextAction, result.retryAttempt, result.trace);
    }
  }

  // ----- A run cut short -----

  lemma IssueExtends(
    action: PlannedAction, index: nat, attempt: nat, run: string, replies: Replies, w: World)
    ensures w.calls <= Issue(action, index, attempt, run, replies, w).world.calls
    ensures w.steps <= Issue(action, index, attempt, run, replies, w).world.steps
  {
  }

  lemma {:induction false} AttemptsExtend(
    action: PlannedAction, index: nat, attempt: nat, attempts: nat, backoff: nat,
    run: string, replies: Replies, w: World)
    ensures w.calls <= RunAttempts(action, index, attempt, attempts, backoff, run, replies, w).world.calls
    ensures w.steps <= RunAttempts(action, index, attempt, attempts, backoff, run, replies, w).world.steps
    decreases attempts - attempt
  {
    IssueExtends(action, index, attempt + 1, run, replies, w);
    var issued := Issue(action, index, attempt + 1, run, replies, w);
    if issued.Rejected? && attempt + 1 < attempts {
      AttemptsExtend(
        action, index, attempt + 1, attempts, backoff, run, replies,
        issued.world.Record(RetryScheduled(attempt + 2, attempts, backoff)));
    }
  }

  /** The single pass only adds to what was done before it; so whenever a run is abandoned at a
      resumption point (timed out, cancelled), the calls it made are a prefix of the full run's. */
  lemma {:induction false} OnePassExtends(
    actions: seq<PlannedAction>, index: nat, attempt: nat, run: string, replies: Replies, w: World)
    ensures w.calls <= OnePass(actions, index, attempt, run, replies, w).world.calls
    ensures w.steps <= OnePass(actions, index, attempt, run, replies, w).world.steps
    decreases |actions| - index
  {
    if index < |actions| {
      match actions[index] {
        case Retry(inner, attempts, backoff) =>
          AttemptsExtend(inner, index, attempt, attempts as nat, backoff, run, replies, w);
        case _ =>
          IssueExtends(actions[index], index, 0, run, replies, w);
      }
      var outcome := RunAction(actions[index], index, attempt, run, replies, w);
      if outcome.Finished? {
        OnePassExtends(actions, index + 1, 0, run, replies, outcome.world);
      }
    }
  }
}
