// The bounds every plan has to respect.
module PlanBounds {
  import opened Wrappers
  import opened Plan

  const MAX_WAIT_MILLISECONDS: nat := 30 * 24 * 60 * 60 * 1_000

  predicate ValidDuration(milliseconds: nat) {
    1 <= milliseconds <= MAX_WAIT_MILLISECONDS
  }

  predicate IsRetryable(action: PlannedAction) {
    action.Command? || action.Audit? || action.SetAutomationEnabled?
  }

  /** Triggers written in a flow: no empty alternative, and never a command confirmation, which only
      the interpreter creates. */
  predicate ValidTrigger(trigger: AwaitTrigger) {
    match trigger
    case AnyOf(triggers) => triggers != [] && forall t :: t in triggers ==> ValidTrigger(t)
    case EventType(eventType) => eventType != ""
    case CommandConfirmed(_) => false
    case StateChanged(entityId, property, _) => entityId != "" && property != ""
  }

  predicate ValidAction(action: PlannedAction) {
    match action
    case Command(_, _, brightness, confirmation) =>
      && (brightness.Some? ==> 0.0 <= brightness.value <= 100.0)
      && (confirmation.Reported? ==> brightness.None? && ValidDuration(confirmation.timeoutMilliseconds))
    case Wait(milliseconds) => ValidDuration(milliseconds)
    case Await(trigger, timeout) =>
      ValidTrigger(trigger) && (timeout.Some? ==> ValidDuration(timeout.value))
    case Audit(_) => true
    case SetAutomationEnabled(flowId, _) => flowId != ""
    case Retry(inner, attempts, backoff) =>
      IsRetryable(inner) && ValidAction(inner) && 1 <= attempts <= 10 && ValidDuration(backoff)
  }

  predicate ValidPlan(plan: ExecutionPlan) {
    && (forall a :: a in plan.actions ==> ValidAction(a))
    && (plan.maxRuntimeMilliseconds.Some? ==> ValidDuration(plan.maxRuntimeMilliseconds.value))
    && 1 <= plan.concurrency.maxRuns <= 32
  }
}
