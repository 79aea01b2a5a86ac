// The segment interpreter of compiled flows: it runs a plan from a resumption point until the
// plan ends or an action has to wait, and reports the point at which to resume.
module FlowRuntime {
  import opened Wrappers
  import opened Plan
  import opened StateValues
  import opened IdempotencyKeys

  datatype Call =
    | CommandCall(entityId: string, property: string, value: StateValue, key: string)
    | AutomationCall(flowId: string, enabled: bool, key: string)

  datatype Reply = Accepted(id: string) | Refused(message: string)

  /** The reply a gateway gives to the last call of a history of calls. */
  type Replies = seq<Call> -> Reply

  datatype TraceStep =
    | GuardEvaluated(passed: bool, summary: string)
    | CommandRequested(entityId: string, verb: string)
    | RetryScheduled(nextAttempt: nat, totalAttempts: nat, backoffMilliseconds: nat)
    | RetryExhausted(attempts: nat)
    | ActionFailed(action: string)
    | Audited(message: string)
    | Waiting(milliseconds: nat)
    | Awaiting(trigger: AwaitTrigger, timeoutMilliseconds: Option<nat>)
    | AutomationChanged(flowId: string, enabled: bool)

  datatype RunResult =
    | Completed(trace: seq<TraceStep>)
    | Failed(trace: seq<TraceStep>)
    | Skipped(trace: seq<TraceStep>)
    | TimedOut(trace: seq<TraceStep>)
    | Cancelled(trace: seq<TraceStep>)
    | Queued(trace: seq<TraceStep>)
    | Suspended(
        afterMilliseconds: Option<nat>,
        nextAction: nat,
        awaiting: Option<AwaitTrigger>,
        awaitTimeoutIsFailure: bool,
        retryAttempt: Option<u8>,
        trace: seq<TraceStep>)

  /** The port through which a run acts on the home; it keeps every call it received. */
  class CommandGateway {
    const replies: Replies
    var calls: seq<Call>

    constructor (replies: Replies)
      ensures this.replies == replies && calls == []
    {
      this.replies := replies;
      calls := [];
    }

    /** The gateway of a later segment of the same run. */
    constructor Resuming(replies: Replies, calls: seq<Call>)
      ensures this.replies == replies && this.calls == calls
    {
      this.replies := replies;
      this.calls := calls;
    }

    method Request(entityId: string, property: string, value: StateValue, key: string)
      returns (reply: Reply)
      modifies this
      ensures calls == old(calls) + [CommandCall(entityId, property, value, key)]
      ensures reply == replies(calls)
    {
      calls := calls + [CommandCall(entityId, property, value, key)];
      reply := replies(calls);
    }

    method SetAutomationEnabled(flowId: string, enabled: bool, key: string) returns (reply: Reply)
      modifies this
      ensures calls == old(calls) + [AutomationCall(flowId, enabled, key)]
      ensures reply == replies(calls)
    {
      calls := calls + [AutomationCall(flowId, enabled, key)];
      reply := replies(calls);
    }
  }

  // ----- The meaning of one action -----

  /** What a run has done so far: the calls it made and the trace it recorded. */
  datatype World = World(calls: seq<Call>, steps: seq<TraceStep>) {
    function Record(step: TraceStep): World {
      World(calls, steps + [step])
    }

    function Send(call: Call): World {
      World(calls + [call], steps)
    }
  }

  datatype Rejection = UnsupportedVerb | SwitchRefused | BrightnessRefused | AutomationRefused | NotRetryable

  datatype Issued = Done(world: World, commandId: string) | Rejected(world: World, why: Rejection)

  function SwitchValue(verb: string): Option<StateValue> {
    if verb == "turn-on" then Some(BoolValue(true))
    else if verb == "turn-off" then Some(BoolValue(false))
    else None
  }

  function IssueCommand(
    entityId: string, verb: string, brightness: Option<real>,
    index: nat, attempt: nat, run: string, replies: Replies, w: World): Issued
  {
    match SwitchValue(verb)
    case None => Rejected(w, UnsupportedVerb)
    case Some(value) =>
      var w1 := w.Send(CommandCall(entityId, "switch", value, Key(run, Tag(index, attempt, Switch))));
      match replies(w1.calls)
      case Refused(_) => Rejected(w1, SwitchRefused)
      case Accepted(id) =>
        match brightness
        case None => Done(w1.Record(CommandRequested(entityId, verb)), id)
        case Some(level) =>
          var w2 := w1.Send(CommandCall(
            entityId, "light.brightness", PercentageValue(level), Key(run, Tag(index, attempt, Brightness))));
          if replies(w2.calls).Refused? then Rejected(w2, BrightnessRefused)
          else Done(w2.Record(CommandRequested(entityId, verb)), id)
  }

  /** One attempt at an action that acts at once; `attempt` is 0 outside any retry. */
  function Issue(action: PlannedAction, index: nat, attempt: nat, run: string, replies: Replies, w: World): Issued {
    match action
    case Command(entityId, verb, brightness, _) =>
      IssueCommand(entityId, verb, brightness, index, attempt, run, replies, w)
    case Audit(message) => Done(w.Record(Audited(message)), "")
    case SetAutomationEnabled(flowId, enabled) =>
      var w1 := w.Send(AutomationCall(flowId, enabled, Key(run, Tag(index, attempt, Automation))));
      if replies(w1.calls).Refused? then Rejected(w1, AutomationRefused)
      else Done(w1.Record(AutomationChanged(flowId, enabled)), "")
    case _ => Rejected(w, NotRetryable)
  }

  function FailureText(verb: string, why: Rejection): string {
    match why
    case UnsupportedVerb => "unsupported command verb: " + verb
    case SwitchRefused => "command " + verb + " failed"
    case BrightnessRefused => "brightness command failed"
    case AutomationRefused => "automation update failed"
    case NotRetryable => ""
  }

  function Verb(action: PlannedAction): string {
    if action.Command? then action.verb else ""
  }

  // ----- One segment -----

  datatype SegmentEnd = SegmentEnd(result: RunResult, calls: seq<Call>)

  datatype Step = Continue(world: World) | Stop(end: SegmentEnd)

  /** What the interpreter does at `index` when it resumes there with `retry`. */
  function StepAction(
    action: PlannedAction, index: nat, retry: Option<u8>, run: string, replies: Replies, w: World): Step
  {
    match action
    case Wait(milliseconds) =>
      Stop(SegmentEnd(
        Suspended(Some(milliseconds), index + 1, None, false, None, w.Record(Waiting(milliseconds)).steps),
        w.calls))
    case Await(trigger, timeout) =>
      Stop(SegmentEnd(
        Suspended(timeout, index + 1, Some(trigger), false, None, w.Record(Awaiting(trigger, timeout)).steps),
        w.calls))
    case Retry(inner, attempts, backoff) =>
      var attempt := retry.GetOr(0);
      (match Issue(inner, index, attempt as nat + 1, run, replies, w)
       case Done(w1, _) => Continue(w1)
       case Rejected(w1, _) =>
         var next := SaturatingAdd(attempt, 1);
         if next < attempts then
           Stop(SegmentEnd(
             Suspended(
               Some(backoff), index, None, false, Some(next),
               w1.Record(RetryScheduled(SaturatingAdd(next, 1) as nat, attempts as nat, backoff)).steps),
             w1.calls))
         else Stop(SegmentEnd(Failed(w1.Record(RetryExhausted(attempts as nat)).steps), w1.calls)))
    case _ =>
      match Issue(action, index, 0, run, replies, w)
      case Rejected(w1, why) =>
        Stop(SegmentEnd(Failed(w1.Record(ActionFailed(FailureText(Verb(action), why))).steps), w1.calls))
      case Done(w1, id) =>
        if action.Command? && action.confirmation.Reported? then
          var timeout := action.confirmation.timeoutMilliseconds;
          var trigger := CommandConfirmed(id);
          Stop(SegmentEnd(
            Suspended(
              Some(timeout), index + 1, Some(trigger), true, None,
              w1.Record(Awaiting(trigger, Some(timeout))).steps),
            w1.calls))
        else Continue(w1)
  }

  function Segment(
    actions: seq<PlannedAction>, index: nat, retry: Option<u8>, run: string, replies: Replies, w: World): SegmentEnd
    decreases |actions| - index
  {
    if index >= |actions| then SegmentEnd(Completed(w.steps), w.calls)
    else
      match StepAction(actions[index], index, retry, run, replies, w)
      case Stop(end) => end
      case Continue(w1) => Segment(actions, index + 1, None, run, replies, w1)
  }

  /** One attempt at the action of a retry. Nothing is traced when it fails. */
  method ExecuteRetryableAction(
    action: PlannedAction, run: string, gateway: CommandGateway, index: nat, attempt: u8, trace: seq<TraceStep>)
    returns (ok: bool, traced: seq<TraceStep>)
    requires attempt < 255
    modifies gateway
    ensures var issued := Issue(action, index, attempt as nat + 1, run, gateway.replies, World(old(gateway.calls), trace));
            ok == issued.Done? && World(gateway.calls, traced) == issued.world
  {
    traced := trace;
    ok := false;
    match action {
      case Command(entityId, verb, brightness, _) =>
        var value := SwitchValue(verb);
        if value.None? {
          return;
        }
        var reply := gateway.Request(
          entityId, "switch", value.value, Key(run, Tag(index, attempt as nat + 1, Switch)));
        if reply.Refused? {
          return;
        }
        if brightness.Some? {
          reply := gateway.Request(
            entityId, "light.brightness", PercentageValue(brightness.value),
            Key(run, Tag(index, attempt as nat + 1, Brightness)));
          if reply.Refused? {
            return;
          }
        }
        traced := traced + [CommandRequested(entityId, verb)];
        ok := true;
      case Audit(message) =>
        traced := traced + [Audited(message)];
        ok := true;
      case SetAutomationEnabled(flowId, enabled) =>
        var reply := gateway.SetAutomationEnabled(
          flowId, enabled, Key(run, Tag(index, attempt as nat + 1, Automation)));
        if reply.Refused? {
          return;
        }
        traced := traced + [AutomationChanged(flowId, enabled)];
        ok := true;
      case _ =>
    }
  }

  /** Runs the plan from a resumption point. The attempt number of a key is one more than the
      persisted attempt, which must therefore leave room for it. */
  method ExecuteFromResumption(
    plan: ExecutionPlan, run: string, gateway: CommandGateway, startAction: nat, retryAttempt: Option<u8>,
    trace: seq<TraceStep>)
    returns (result: RunResult)
    requires retryAttempt.Some? ==> retryAttempt.value < 255
    modifies gateway
    ensures SegmentEnd(result, gateway.calls)
         == Segment(plan.actions, startAction, retryAttempt, run, gateway.replies, World(old(gateway.calls), trace))
  {
    var steps := trace;
    var index := startAction;
    while index < |plan.actions|
      invariant startAction <= index
      invariant Segment(plan.actions, startAction, retryAttempt, run, gateway.replies, World(old(gateway.calls), trace))
             == Segment(
                  plan.actions, index, if index == startAction then retryAttempt else None, run, gateway.replies,
                  World(gateway.calls, steps))
    {
      match plan.actions[index] {
        case Command(entityId, verb, brightness, confirmation) =>
          var value := SwitchValue(verb);
          if value.None? {
            steps := steps + [ActionFailed("unsupported command verb: " + verb)];
            return Failed(steps);
          }
          var reply := gateway.Request(entityId, "switch", value.value, Key(run, Tag(index, 0, Switch)));
          if reply.Refused? {
            steps := steps + [ActionFailed("command " + verb + " failed")];
            return Failed(steps);
          }
          var commandId := reply.id;
          if brightness.Some? {
            reply := gateway.Request(
              entityId, "light.brightness", PercentageValue(brightness.value), Key(run, Tag(index, 0, Brightness)));
            if reply.Refused? {
              steps := steps + [ActionFailed("brightness command failed")];
              return Failed(steps);
            }
          }
          steps := steps + [CommandRequested(entityId, verb)];
          if confirmation.Reported? {
            var timeout := confirmation.timeoutMilliseconds;
            var trigger := CommandConfirmed(commandId);
            steps := steps + [Awaiting(trigger, Some(timeout))];
            return Suspended(Some(timeout), index + 1, Some(trigger), true, None, steps);
          }
        case Audit(message) =>
          steps := steps + [Audited(message)];
        case SetAutomationEnabled(flowId, enabled) =>
          var reply := gateway.SetAutomationEnabled(flowId, enabled, Key(run, Tag(index, 0, Automation)));
          if reply.Refused? {
            steps := steps + [ActionFailed("automation update failed")];
            return Failed(steps);
          }
          steps := steps + [AutomationChanged(flowId, enabled)];
        case Wait(milliseconds) =>
          steps := steps + [Waiting(milliseconds)];
          return Suspended(Some(milliseconds), index + 1, None, false, None, steps);
        case Await(trigger, timeout) =>
          steps := steps + [Awaiting(trigger, timeout)];
          return Suspended(timeout, index + 1, Some(trigger), false, None, steps);
        case Retry(action, attempts, backoff) =>
          var attempt: u8 := if index == startAction then retryAttempt.GetOr(0) else 0;
          var ok, traced := ExecuteRetryableAction(action, run, gateway, index, attempt, steps);
          steps := traced;
          if !ok {
            if SaturatingAdd(attempt, 1) < attempts {
              var next := SaturatingAdd(attempt, 1);
              steps := steps + [RetryScheduled(SaturatingAdd(next, 1) as nat, attempts as nat, backoff)];
              return Suspended(Some(backoff), index, None, false, Some(next), steps);
            }
            steps := steps + [RetryExhausted(attempts as nat)];
            return Failed(steps);
          }
      }
      index := index + 1;
    }
    return Completed(steps);
  }
}
