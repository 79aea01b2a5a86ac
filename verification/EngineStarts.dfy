// What becomes of an execution when it is asked for.
module EngineStarts {
  import opened Wrappers
  import opened Plan
  import opened IdempotencyKeys
  import opened FlowRuntime
  import PlanBounds
  import opened RunTable
  import opened Engine
  import opened EngineRuns

  /** How many rows the flow has. */
  function RowCount(s: State, flowId: string): nat {
    |set id | id in s.runs && s.runs[id].flowId == flowId|
  }

  /** Too many executions of the flow are active or queued for one more. */
  predicate IsCrowded(s: State, flowId: string, policy: ConcurrencyPolicy) {
    || (policy.mode == Single && RowCount(s, flowId) > 0)
    || (policy.mode == Queue && RowCount(s, flowId) >= policy.maxRuns)
  }

  lemma RowsAreCounted(s: State, flowId: string)
    ensures |RowsOf(s.runs, flowId)| == RowCount(s, flowId)
    ensures RowCount(s, flowId) == 0 <==> forall id :: id in s.runs ==> s.runs[id].flowId != flowId
  {
    var rows := RowsOf(s.runs, flowId);
    assert rows == set id | id in s.runs && s.runs[id].flowId == flowId;
    assert rows == {} <==> forall id :: id !in rows;
    assert forall id :: id in rows <==> id in s.runs && s.runs[id].flowId == flowId;
  }

  /** Why an execution was not started, as its trace tells it. */
  function Refusal(guardHolds: bool, others: nat): TraceStep {
    if !guardHolds then GuardEvaluated(false, "La condition de l'habitude n'est pas remplie.")
    else Audited("execution skipped: concurrency limit reached (" + Decimal(others) + ")")
  }

  /** The row of an execution queued at `now`. */
  function QueuedRow(flowId: string, id: string, plan: ExecutionPlan, correlationId: string, now: int): FlowRun {
    var deadlineAt :=
      if plan.maxRuntimeMilliseconds.Some? then Some(now + plan.maxRuntimeMilliseconds.value) else None;
    FlowRun(id, flowId, plan, [], None, 0, now, None, false, correlationId, deadlineAt, true)
  }

  /** What is recorded of an execution, and what it did, when its handler returns. */
  predicate HasBegun(
    s: State, after: State, flowId: string, id: string, plan: ExecutionPlan, guardHolds: bool, correlationId: string,
    enabled: bool, now: int, replies: Replies)
  {
    && id in after.lives && after.lives[id].flowId == flowId && after.lives[id].plan == plan
    && after.lives[id].admittedAt == now && |after.lives[id].results| == 1 && after.lives[id].savedAt == [now]
    && var result, calls := after.lives[id].results[0], after.lives[id].calls;
       var skipped := !guardHolds || IsCrowded(s, flowId, plan.concurrency);
       var queued := !skipped && plan.concurrency.mode == Queue && RowCount(s, flowId) > 0;
       && (result.Skipped? <==> skipped)
       && (result.Queued? <==> queued)
       && (skipped ==> after.runs == s.runs && result.trace == [Refusal(guardHolds, RowCount(s, flowId))])
       && (queued ==>
             && after.runs == s.runs[id := QueuedRow(flowId, id, plan, correlationId, now)]
             && result.trace == [Audited("queued behind an active execution")])
       && (id in after.runs ==> after.runs[id].correlationId == correlationId)
       && (!skipped && !queued && enabled ==>
             SegmentEnd(result, calls) == Segment(plan.actions, 0, None, id, replies, World([], [])))
       && (!skipped && !queued && !enabled ==> result.Cancelled?)
       && ((skipped || queued || !enabled) ==> calls == [])
  }

  /** An execution is skipped exactly when its condition does not hold or its flow is crowded; it is queued
      exactly behind another in queue mode; and otherwise it starts at the first action of its plan, or is
      cancelled when its flow is disabled. */
  lemma ExecutionBegins(
    s: State, gateways: Gateways, flowId: string, id: string, plan: ExecutionPlan, guardHolds: bool,
    correlationId: string, enabled: bool, now: int)
    requires Reachable(s, gateways) && id !in s.lives && PlanBounds.ValidPlan(plan)
    ensures HasBegun(
      s, Execute(s, flowId, id, plan, guardHolds, correlationId, enabled, now, gateways), flowId, id, plan, guardHolds,
      correlationId, enabled, now, gateways(id))
  {
    ReachableFits(s, gateways);
    if guardHolds {
      var run := NewRun(flowId, id, plan, correlationId, now);
      if StartsAtOnce(s, run) {
        StartBegins(s, gateways, run, enabled, now);
      } else {
        WaitBegins(s, gateways, run, enabled, now);
      }
    }
  }

  lemma StartBegins(s: State, gateways: Gateways, run: FlowRun, enabled: bool, now: int)
    requires Reachable(s, gateways) && run.id !in s.lives && PlanBounds.ValidPlan(run.plan) && StartsAtOnce(s, run)
    requires run == NewRun(run.flowId, run.id, run.plan, run.correlationId, now)
    ensures HasBegun(
      s, Admit(s, run, enabled, now, gateways), run.flowId, run.id, run.plan, true, run.correlationId, enabled, now,
      gateways(run.id))
  {
    ReachableFits(s, gateways);
    RunIsPlaced(s, run);
    FirstSegment(s, run, enabled, now, gateways);
  }

  lemma WaitBegins(s: State, gateways: Gateways, run: FlowRun, enabled: bool, now: int)
    requires run.id !in s.lives && run.id !in s.runs && PlanBounds.ValidPlan(run.plan) && !StartsAtOnce(s, run)
    requires run == NewRun(run.flowId, run.id, run.plan, run.correlationId, now)
    ensures HasBegun(
      s, Admit(s, run, enabled, now, gateways), run.flowId, run.id, run.plan, true, run.correlationId, enabled, now,
      gateways(run.id))
  {
    RunIsPlaced(s, run);
    WaitsOrIsRefused(s, run, enabled, now, gateways);
    assert run.(queued := true) == QueuedRow(run.flowId, run.id, run.plan, run.correlationId, now);
  }

  lemma RunIsPlaced(s: State, run: FlowRun)
    requires run.id !in s.runs && !run.queued && run.plan.concurrency.maxRuns >= 1
    ensures
      var after, policy := Admitted(s.runs, run, run.plan.concurrency), run.plan.concurrency;
      && (run.id in after <==> !IsCrowded(s, run.flowId, policy))
      && (run.id in after ==>
            after[run.id] == run.(queued := policy.mode == Queue && RowCount(s, run.flowId) > 0))
  {
    RowsAreCounted(s, run.flowId);
    RunEntersIff(s.runs, run, run.plan.concurrency);
  }

  lemma WaitsOrIsRefused(s: State, run: FlowRun, enabled: bool, now: int, gateways: Gateways)
    requires run.id !in s.lives && run.id !in s.runs && !StartsAtOnce(s, run) && !run.queued
    ensures
      var after, admitted := Admit(s, run, enabled, now, gateways), Admitted(s.runs, run, run.plan.concurrency);
      && run.id in after.lives && after.runs == admitted
      && after.lives[run.id].(results := [], savedAt := []) == NewLife(run, now)
      && |after.lives[run.id].results| == 1 && after.lives[run.id].savedAt == [now]
      && (if run.id in admitted then
            && after.lives[run.id].results[0] == Queued([Audited("queued behind an active execution")])
            && admitted == s.runs[run.id := admitted[run.id]]
          else
            && after.lives[run.id].results[0] == Skipped([Refusal(true, RowCount(s, run.flowId))])
            && admitted == s.runs)
  {
    RowsAreCounted(s, run.flowId);
  }

  lemma FirstSegment(s: State, run: FlowRun, enabled: bool, now: int, gateways: Gateways)
    requires WellKeyed(s.runs) && s.runs.Keys <= s.lives.Keys && run.id !in s.lives && StartsAtOnce(s, run)
    requires run.nextAction == 0 && run.retryAttempt == None && run.trace == []
    requires run.deadlineAt.Some? ==> run.deadlineAt.value > now
    ensures run.id in Starting(s, run, now).runs && run.id in Starting(s, run, now).lives
    ensures
      var after := Resume(Starting(s, run, now), run.id, Initial, enabled, now, gateways);
      var life := after.lives[run.id];
      && life.flowId == run.flowId && life.plan == run.plan && life.admittedAt == now
      && (run.id in after.runs ==> after.runs[run.id].correlationId == run.correlationId)
      && |life.results| == 1 && life.savedAt == [now]
      && (enabled ==>
            && SegmentEnd(life.results[0], life.calls)
               == Segment(run.plan.actions, 0, None, run.id, gateways(run.id), World([], []))
            && !life.results[0].Skipped? && !life.results[0].Queued?)
      && (!enabled ==> life.results[0].Cancelled? && life.calls == [])
  {
    StartingRows(s, run, now);
    SegmentEndKinds(run.plan.actions, 0, None, run.id, gateways(run.id), World([], []));
    SegmentExtends(run.plan.actions, 0, None, run.id, gateways(run.id), World([], []));
  }

  /** A restart ends every execution of the flow as cancelled, and no other execution is touched by one that
      begins. */
  lemma OthersAtExecution(
    s: State, gateways: Gateways, flowId: string, id: string, plan: ExecutionPlan, guardHolds: bool,
    correlationId: string, enabled: bool, now: int, other: string)
    requires Reachable(s, gateways) && id !in s.lives && PlanBounds.ValidPlan(plan) && other in s.lives
    ensures
      var after := Execute(s, flowId, id, plan, guardHolds, correlationId, enabled, now, gateways);
      && other in after.lives
      && if guardHolds && plan.concurrency.mode == Restart && other in s.runs && s.runs[other].flowId == flowId then
           && other !in after.runs
           && after.lives[other] == s.lives[other].(
                results := s.lives[other].results + [Cancelled([Audited("cancelled by a newer :restart execution")])],
                savedAt := s.lives[other].savedAt + [now])
         else after.lives[other] == s.lives[other] && RowAt(after.runs, other) == RowAt(s.runs, other)
  {
    ReachableFits(s, gateways);
    var run := NewRun(flowId, id, plan, correlationId, now);
    if guardHolds {
      RunEntersIff(s.runs, run, plan.concurrency);
      if StartsAtOnce(s, run) {
        ResumeLeavesOthers(Starting(s, run, now), id, Initial, enabled, now, gateways, other);
      } else {
        assert RowAt(Admitted(s.runs, run, plan.concurrency), other) == RowAt(s.runs, other);
      }
    }
  }

  lemma ResumeLeavesOthers(
    s: State, id: string, reason: Reason, enabled: bool, now: int, gateways: Gateways, other: string)
    requires id in s.runs && id in s.lives && other in s.lives && other != id
    ensures
      var after := Resume(s, id, reason, enabled, now, gateways);
      other in after.lives && after.lives[other] == s.lives[other] && RowAt(after.runs, other) == RowAt(s.runs, other)
  {
  }
}
