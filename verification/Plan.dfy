// The compiled form of a flow: a flat list of actions plus its execution policy.
module Plan {
  import opened Wrappers

  newtype u8 = x: int | 0 <= x < 256

  /** Addition on `u8` that stops at the largest value instead of overflowing. */
  function SaturatingAdd(x: u8, y: u8): (r: u8)
  {
    if x as int + y as int < 256 then x + y else 255
  }

  datatype AwaitValue = AwaitBool(b: bool) | AwaitPercentage(p: real) | AwaitText(s: string)

  datatype AwaitTrigger =
    | AnyOf(triggers: seq<AwaitTrigger>)
    | EventType(eventType: string)
    | CommandConfirmed(commandId: string)
    | StateChanged(entityId: string, property: string, to: Option<AwaitValue>)

  datatype Confirmation = Transport | NoConfirmation | Reported(timeoutMilliseconds: nat)

  datatype PlannedAction =
    | Command(entityId: string, verb: string, brightness: Option<real>, confirmation: Confirmation)
    | Wait(milliseconds: nat)
    | Await(trigger: AwaitTrigger, timeoutMilliseconds: Option<nat>)
    | Audit(message: string)
    | SetAutomationEnabled(flowId: string, enabled: bool)
    | Retry(action: PlannedAction, attempts: u8, backoffMilliseconds: nat)

  datatype ConcurrencyMode = Single | Restart | Queue

  datatype ConcurrencyPolicy = ConcurrencyPolicy(mode: ConcurrencyMode, maxRuns: nat)

  datatype ExecutionPlan = ExecutionPlan(
    actions: seq<PlannedAction>,
    maxRuntimeMilliseconds: Option<nat>,
    concurrency: ConcurrencyPolicy)
}
