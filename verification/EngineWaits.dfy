// What suspended runs wait for and how long, over every run of the engine.
module EngineWaits {
  import opened Wrappers
  import opened Plan
  import opened FlowRuntime
  import opened Suspension
  import opened RunTable
  import opened Engine
  import opened EngineRuns

  /** The time at which the last trace of an execution was saved. */
  function SavedLast(life: Life): int
    requires life.savedAt != []
  {
    life.savedAt[|life.savedAt| - 1]
  }

  predicate IsActive(s: State, id: string) {
    id in s.runs && !s.runs[id].queued
  }

  /** The runtime bound of the plan has passed since the execution. */
  predicate IsOverdue(life: Life, now: int) {
    life.plan.maxRuntimeMilliseconds.Some? && now - life.admittedAt >= life.plan.maxRuntimeMilliseconds.value
  }

  /** An active row is suspended at an action of its plan, and waits for what that action and the replies to
      its calls make it wait: the trigger of an await, the confirmation of the command its switch call was
      accepted as, or nothing but time. */
  lemma RowWaitsAtItsAction(s: State, gateways: Gateways, id: string) returns (at: nat)
    requires Reachable(s, gateways) && IsActive(s, id)
    ensures id in s.lives && s.lives[id].results != [] && at < |s.runs[id].plan.actions|
    ensures
      var run, life, result := s.runs[id], s.lives[id], Last(s.lives[id].results);
      && result.Suspended? && run.plan == life.plan
      && SuspendedAt(run.plan.actions, at, SegmentEnd(result, life.calls), id, gateways(id))
      && run.trace == result.trace && run.awaiting == result.awaiting
      && run.awaitTimeoutIsFailure == result.awaitTimeoutIsFailure
      && run.nextAction == result.nextAction && run.retryAttempt == result.retryAttempt
  {
    EveryRowIsRecorded(s, gateways);
    ReachableLifeFits(s, gateways, id);
    var life := s.lives[id];
    at :| at < |life.plan.actions|
      && SuspendedAt(life.plan.actions, at, SegmentEnd(Last(life.results), life.calls), id, gateways(id));
  }

  /** The last step of the trace of an active row says what the row waits for. */
  lemma RowAwaitsItsTrace(s: State, gateways: Gateways, id: string)
    requires Reachable(s, gateways) && IsActive(s, id)
    ensures s.runs[id].trace != [] && IsPause(LastStep(s.runs[id].trace))
    ensures s.runs[id].awaiting == TriggerOf(LastStep(s.runs[id].trace))
    ensures id in AwaitingIds(s.runs) <==> LastStep(s.runs[id].trace).Awaiting?
  {
    var _ := RowWaitsAtItsAction(s, gateways, id);
  }

  /** A run that was suspended at `t` for a time is due exactly from the end of that time on, or from its
      deadline on; one that waits without a limit only after a hundred years of 365 days. */
  lemma RowIsDueIff(s: State, gateways: Gateways, id: string, now: int)
    requires Reachable(s, gateways) && IsActive(s, id)
    ensures id in s.lives && s.lives[id].savedAt != [] && s.runs[id].trace != []
    ensures
      var t, pause := SavedLast(s.lives[id]), PauseOf(LastStep(s.runs[id].trace));
      id in DueIds(s.runs, now) <==>
        || (pause.Some? && now - t >= pause.value)
        || (pause.None? && now - t >= 100 * 365 * 24 * 3_600_000)
        || IsOverdue(s.lives[id], now)
  {
    EveryRowIsRecorded(s, gateways);
    ReachableLifeFits(s, gateways, id);
  }

  lemma OthersKeepTheirCalls(s: State, action: Action, gateways: Gateways, id: string)
    requires Possible(s, action) && s.runs.Keys <= s.lives.Keys && id in s.lives && action.id != id
    ensures id in EngineRuns.Step(s, action, gateways).lives && EngineRuns.Step(s, action, gateways).lives[id].calls == s.lives[id].calls
  {
    if action.ExecuteFlow? && action.guardHolds {
      var run := NewRun(action.flowId, action.id, action.plan, action.correlationId, action.now);
      assert id in LivesAfter(s, run, action.now) && LivesAfter(s, run, action.now)[id].calls == s.lives[id].calls;
    }
  }

  /** A pause is kept: a run calls a gateway again only when an event it awaits has come, or when the timer
      resumes it at the end of its pause; and a command whose confirmation is overdue calls none. */
  lemma PauseIsKept(s: State, gateways: Gateways, action: Action, id: string)
    requires Reachable(s, gateways) && IsActive(s, id) && Possible(s, action) && s.runs.Keys <= s.lives.Keys
    ensures id in s.lives && s.lives[id].savedAt != [] && s.runs[id].trace != []
    ensures id in EngineRuns.Step(s, action, gateways).lives
    ensures
      var t, step := SavedLast(s.lives[id]), LastStep(s.runs[id].trace);
      EngineRuns.Step(s, action, gateways).lives[id].calls != s.lives[id].calls ==>
        && action.id == id
        && match action
           case ResumeEvent(_, _, _) => step.Awaiting?
           case ResumeTimer(_, _, now) =>
             && now - t >= PauseOf(step).GetOr(100 * 365 * 24 * 3_600_000)
             && !s.runs[id].awaitTimeoutIsFailure
           case _ => false
  {
    RowIsDueIff(s, gateways, id, 0);
    RowAwaitsItsTrace(s, gateways, id);
    if action.id != id {
      OthersKeepTheirCalls(s, action, gateways, id);
    } else if action.ResumeTimer? {
      var _ := RowWaitsAtItsAction(s, gateways, id);
      RowIsDueIff(s, gateways, id, action.now);
      ReachableLifeFits(s, gateways, id);
    }
  }

  /** How a resumption ends a run before its next action: as timed out exactly when its deadline has come or
      the timer finds it still waiting for the confirmation of a command; otherwise as cancelled exactly when
      its flow is disabled. Else it goes on behind the action it was suspended at, or tries it again. */
  lemma ResumptionEndsIff(
    s: State, gateways: Gateways, id: string, reason: Reason, enabled: bool, now: int) returns (at: nat)
    requires Reachable(s, gateways) && IsActive(s, id) && reason != Initial
    ensures id in s.lives && at < |s.runs[id].plan.actions|
    ensures
      var run, life, after := s.runs[id], s.lives[id], Resume(s, id, reason, enabled, now, gateways);
      var overdue := IsOverdue(life, now);
      var unconfirmed := reason == Timer && run.plan.actions[at].Command?;
      && (Last(after.lives[id].results).TimedOut? <==> overdue || unconfirmed)
      && (Last(after.lives[id].results).Cancelled? <==> !overdue && !unconfirmed && !enabled)
      && (overdue || unconfirmed || !enabled ==>
            id !in after.runs && after.lives[id].calls == life.calls
            && Last(after.lives[id].results).trace == run.trace + [
                 if overdue then Audited("max-runtime reached before the flow could resume")
                 else if unconfirmed then ActionFailed("reported command confirmation timed out")
                 else Audited("cancelled because the automation was disabled")])
      && (!overdue && !unconfirmed && enabled ==>
            SegmentEnd(Last(after.lives[id].results), after.lives[id].calls)
            == Segment(
                 run.plan.actions, if run.plan.actions[at].Retry? then at else at + 1, run.retryAttempt, id,
                 gateways(id), World(life.calls, run.trace)))
  {
    at := RowWaitsAtItsAction(s, gateways, id);
    ReachableLifeFits(s, gateways, id);
    var run, life := s.runs[id], s.lives[id];
    SegmentEndKinds(
      run.plan.actions, run.nextAction, run.retryAttempt, id, gateways(id), World(life.calls, run.trace));
  }
}
