// Properties of every run of the engine: any sequence of handlers, from an empty home.
module EngineRuns {
  import opened Wrappers
  import Collections
  import Reachability
  import opened Plan
  import opened FlowRuntime
  import opened Transparency
  import PlanBounds
  import opened RunTable
  import opened Engine

  datatype Action =
    | ExecuteFlow(
        flowId: string, id: string, plan: ExecutionPlan, guardHolds: bool, correlationId: string,
        enabled: bool, now: int)
    | ResumeTimer(id: string, enabled: bool, now: int)
    | ResumeEvent(id: string, enabled: bool, now: int)
    | StartQueued(id: string, enabled: bool, now: int)

  const EMPTY := State(map[], map[], {})

  predicate Possible(s: State, action: Action) {
    match action
    case ExecuteFlow(_, id, plan, _, _, _, _) => id !in s.lives && PlanBounds.ValidPlan(plan)
    case ResumeTimer(id, _, now) => id in DueIds(s.runs, now)
    case ResumeEvent(id, _, _) => id in AwaitingIds(s.runs)
    case StartQueued(id, _, _) => Eligible(s.runs, id)
  }

  function Step(s: State, action: Action, gateways: Gateways): State
    requires Possible(s, action) && s.runs.Keys <= s.lives.Keys
  {
    match action
    case ExecuteFlow(flowId, id, plan, guardHolds, correlationId, enabled, now) =>
      Execute(s, flowId, id, plan, guardHolds, correlationId, enabled, now, gateways)
    case ResumeTimer(id, enabled, now) => Resume(s, id, Timer, enabled, now, gateways)
    case ResumeEvent(id, enabled, now) => Resume(s, id, Event, enabled, now, gateways)
    case StartQueued(id, enabled, now) => Dequeue(s, id, enabled, now, gateways)
  }

  lemma StepKeepsFits(s: State, action: Action, gateways: Gateways)
    requires Fits(s, gateways) && Possible(s, action)
    ensures Fits(Step(s, action, gateways), gateways)
  {
    match action {
      case ExecuteFlow(flowId, id, plan, guardHolds, correlationId, enabled, now) =>
        ExecuteKeepsFits(s, flowId, id, plan, guardHolds, correlationId, enabled, now, gateways);
      case ResumeTimer(id, enabled, now) =>
        ActiveRunIsReady(s, id, gateways);
        ResumeKeepsFits(s, id, Timer, enabled, now, gateways);
      case ResumeEvent(id, enabled, now) =>
        ActiveRunIsReady(s, id, gateways);
        ResumeKeepsFits(s, id, Event, enabled, now, gateways);
      case StartQueued(id, enabled, now) =>
        DequeueKeepsFits(s, id, enabled, now, gateways);
    }
  }

  lemma ActiveRunIsReady(s: State, id: string, gateways: Gateways)
    requires Fits(s, gateways) && id in s.runs && !s.runs[id].queued
    ensures ReadyToResume(s.runs[id], s.lives[id], id, gateways(id))
  {
    var run := s.runs[id];
    assert LifeFits(RowAt(s.runs, id), s.lives[id], id, gateways(id));
    DequeuedIsReady(run, s.lives[id], id, gateways(id));
    assert run.(queued := false) == run;
  }

  predicate StepsTo(before: State, action: Action, after: State, gateways: Gateways) {
    && Possible(before, action)
    && before.runs.Keys <= before.lives.Keys
    && after == Step(before, action, gateways)
  }

  ghost function Steps(gateways: Gateways): (State, Action, State) -> bool {
    (before, action, after) => StepsTo(before, action, after, gateways)
  }

  /** `end` is reached from `start` by the actions, each possible when it is taken. */
  ghost predicate Leads(start: State, actions: seq<Action>, end: State, gateways: Gateways) {
    Reachability.Leads(Steps(gateways), start, actions, end)
  }

  lemma LeadsFurther(start: State, actions: seq<Action>, middle: State, action: Action, gateways: Gateways)
    requires Leads(start, actions, middle, gateways)
    requires middle.runs.Keys <= middle.lives.Keys && Possible(middle, action)
    ensures Leads(start, actions + [action], Step(middle, action, gateways), gateways)
  {
    Reachability.LeadsOn(Steps(gateways), start, actions, middle, action, Step(middle, action, gateways));
  }

  lemma EmptyFits(gateways: Gateways)
    ensures Fits(EMPTY, gateways)
  {
    assert forall flowId :: RowsOf(EMPTY.runs, flowId) == {};
  }

  ghost predicate Reachable(s: State, gateways: Gateways) {
    Reachability.Reaches(Steps(gateways), EMPTY, s)
  }

  lemma ReachableFits(s: State, gateways: Gateways)
    requires Reachable(s, gateways)
    ensures Fits(s, gateways)
  {
    EmptyFits(gateways);
    forall before, action, after | Fits(before, gateways) && Steps(gateways)(before, action, after)
      ensures Fits(after, gateways)
    {
      StepKeepsFits(before, action, gateways);
    }
    Reachability.ReachesKeeps(Steps(gateways), x => Fits(x, gateways), EMPTY, s);
  }

  lemma ReachableLifeFits(s: State, gateways: Gateways, id: string)
    requires Reachable(s, gateways) && id in s.lives
    ensures LifeFits(RowAt(s.runs, id), s.lives[id], id, gateways(id))
  {
    ReachableFits(s, gateways);
  }

  // ----- Concurrency -----

  /** At any moment a flow has at most one active run and at most 32 rows, however its concurrency
      mode was edited in between. */
  lemma ConcurrencyHolds(s: State, gateways: Gateways)
    requires Reachable(s, gateways)
    ensures forall a, b ::
      a in s.runs && b in s.runs && s.runs[a].flowId == s.runs[b].flowId && !s.runs[a].queued && !s.runs[b].queued
      ==> a == b
    ensures forall flowId :: |RowsOf(s.runs, flowId)| <= 32
  {
    ReachableFits(s, gateways);
  }

  predicate QueuesFlow(action: Action, flowId: string) {
    action.ExecuteFlow? && action.flowId == flowId && action.plan.concurrency.mode == Queue
  }

  lemma StepQueueUsers(s: State, action: Action, gateways: Gateways, flowId: string)
    requires Possible(s, action) && s.runs.Keys <= s.lives.Keys && !QueuesFlow(action, flowId)
    ensures flowId in Step(s, action, gateways).queueUsers ==> flowId in s.queueUsers
  {
  }

  lemma {:induction false} QueueUsersQueued(actions: seq<Action>, s: State, gateways: Gateways, flowId: string)
    requires Leads(EMPTY, actions, s, gateways)
    requires forall i :: 0 <= i < |actions| ==> !QueuesFlow(actions[i], flowId)
    ensures flowId !in s.queueUsers
  {
    if actions != [] {
      var before, action := Collections.AllButLast(actions), actions[|actions| - 1];
      var middle := Reachability.LastStep(Steps(gateways), EMPTY, actions, s);
      QueueUsersQueued(before, middle, gateways, flowId);
      StepQueueUsers(middle, action, gateways, flowId);
    }
  }

  /** A flow whose executions were all compiled in `single` or `restart` mode has at most one row. */
  lemma SingleFlowsHaveOneRow(actions: seq<Action>, s: State, gateways: Gateways, flowId: string)
    requires Leads(EMPTY, actions, s, gateways)
    requires forall i :: 0 <= i < |actions| ==> !QueuesFlow(actions[i], flowId)
    ensures |RowsOf(s.runs, flowId)| <= 1
  {
    assert Reachable(s, gateways);
    ReachableFits(s, gateways);
    QueueUsersQueued(actions, s, gateways, flowId);
  }

  // ----- Nothing is lost, nothing ends twice -----

  /** A run has a row exactly while its last trace is suspended or queued; an execution without a row
      has exactly one terminal trace, its last. */
  lemma NoExecutionIsLost(s: State, gateways: Gateways, id: string)
    requires Reachable(s, gateways) && id in s.lives
    ensures s.lives[id].results != []
    ensures id in s.runs <==> Pending(Last(s.lives[id].results))
    ensures forall i :: 0 <= i < |s.lives[id].results| - 1 ==> Pending(s.lives[id].results[i])
  {
    ReachableLifeFits(s, gateways, id);
  }

  lemma EveryRowIsRecorded(s: State, gateways: Gateways)
    requires Reachable(s, gateways)
    ensures s.runs.Keys <= s.lives.Keys
  {
    ReachableFits(s, gateways);
  }

  lemma ResumedKeepsRecord(
    run: FlowRun, life: Life, reason: Reason, enabled: bool, now: int, replies: Replies)
    ensures
      var (_, after) := Resumed(run, life, reason, enabled, now, replies);
      life.results <= after.results && life.calls <= after.calls && DeadlineOf(after) == DeadlineOf(life)
  {
    SegmentExtends(
      run.plan.actions, run.nextAction, run.retryAttempt, run.id, replies, World(life.calls, run.trace));
  }

  /** The record of an execution after more has happened to it, or to others. */
  predicate RecordKept(before: Life, after: Life) {
    && before.results <= after.results && before.savedAt <= after.savedAt
    && before.calls <= after.calls
    && DeadlineOf(after) == DeadlineOf(before)
    && (before.results != [] && !Pending(Last(before.results)) ==> after == before)
  }

  lemma ResumeKeepsRecords(
    s: State, resumed: string, reason: Reason, enabled: bool, now: int, gateways: Gateways, id: string)
    requires resumed in s.runs && resumed in s.lives && id in s.lives
    requires s.lives[resumed].results != [] ==> Pending(Last(s.lives[resumed].results))
    ensures
      var after := Resume(s, resumed, reason, enabled, now, gateways);
      id in after.lives && RecordKept(s.lives[id], after.lives[id])
  {
    ResumedKeepsRecord(s.runs[resumed], s.lives[resumed], reason, enabled, now, gateways(resumed));
  }

  /** Records only grow; an ended execution is never touched again; deadlines never change. */
  lemma StepKeepsRecords(s: State, action: Action, gateways: Gateways, id: string)
    requires Fits(s, gateways) && Possible(s, action) && id in s.lives
    ensures
      var after := Step(s, action, gateways);
      id in after.lives && RecordKept(s.lives[id], after.lives[id])
  {
    if !action.ExecuteFlow? {
      var resumed := action.id;
      assert LifeFits(RowAt(s.runs, resumed), s.lives[resumed], resumed, gateways(resumed));
      match action {
        case ResumeTimer(_, enabled, now) =>
          ResumeKeepsRecords(s, resumed, Timer, enabled, now, gateways, id);
        case ResumeEvent(_, enabled, now) =>
          ResumeKeepsRecords(s, resumed, Event, enabled, now, gateways, id);
        case StartQueued(_, enabled, now) =>
          var active := s.(runs := s.runs[resumed := s.runs[resumed].(queued := false)]);
          ResumeKeepsRecords(active, resumed, Initial, enabled, now, gateways, id);
      }
    } else {
      assert LifeFits(RowAt(s.runs, id), s.lives[id], id, gateways(id));
      ExecuteKeepsRecords(
        s, action.flowId, action.id, action.plan, action.guardHolds, action.correlationId, action.enabled,
        action.now, gateways, id);
    }
  }

  lemma StartKeepsRecords(s: State, run: FlowRun, enabled: bool, now: int, gateways: Gateways, id: string)
    requires run.id !in s.lives && id in s.lives && s.lives[id].results != [] && StartsAtOnce(s, run)
    requires id in s.runs <==> Pending(Last(s.lives[id].results))
    requires !run.queued
    ensures
      var after := Resume(Starting(s, run, now), run.id, Initial, enabled, now, gateways);
      id in after.lives && RecordKept(s.lives[id], after.lives[id])
  {
    var start := Starting(s, run, now);
    assert RecordKept(s.lives[id], start.lives[id]);
    ResumeKeepsRecords(start, run.id, Initial, enabled, now, gateways, id);
  }

  lemma ExecuteKeepsRecords(
    s: State, flowId: string, new': string, plan: ExecutionPlan, guardHolds: bool, correlationId: string,
    enabled: bool, now: int, gateways: Gateways, id: string)
    requires new' !in s.lives && id in s.lives && s.lives[id].results != []
    requires id in s.runs <==> Pending(Last(s.lives[id].results))
    ensures
      var after := Execute(s, flowId, new', plan, guardHolds, correlationId, enabled, now, gateways);
      id in after.lives && RecordKept(s.lives[id], after.lives[id])
  {
    var run := NewRun(flowId, new', plan, correlationId, now);
    if guardHolds && StartsAtOnce(s, run) {
      StartKeepsRecords(s, run, enabled, now, gateways, id);
    }
  }

  // ----- Deadlines -----

  /** With a runtime bound of `m` no gateway call is made `m` or more after the execution, and every row wakes
      by then. */
  lemma DeadlinesHold(s: State, gateways: Gateways, id: string, m: nat)
    requires Reachable(s, gateways) && id in s.lives && s.lives[id].plan.maxRuntimeMilliseconds == Some(m)
    ensures |s.lives[id].callTimes| == |s.lives[id].calls|
    ensures forall i :: 0 <= i < |s.lives[id].callTimes| ==> s.lives[id].callTimes[i] - s.lives[id].admittedAt < m
    ensures id in s.runs ==>
      && s.runs[id].deadlineAt == Some(s.lives[id].admittedAt + m)
      && s.runs[id].wakeAt <= s.lives[id].admittedAt + m
  {
    ReachableLifeFits(s, gateways, id);
    LifeIsOnTime(RowAt(s.runs, id), s.lives[id], id, gateways(id), m);
  }

  lemma LifeIsOnTime(row: Option<FlowRun>, life: Life, id: string, replies: Replies, m: nat)
    requires LifeFits(row, life, id, replies) && life.plan.maxRuntimeMilliseconds == Some(m)
    ensures |life.callTimes| == |life.calls|
    ensures forall i :: 0 <= i < |life.callTimes| ==> life.callTimes[i] - life.admittedAt < m
    ensures row.Some? ==> row.value.deadlineAt == Some(life.admittedAt + m) && row.value.wakeAt <= life.admittedAt + m
  {
  }

  /** An active run past its deadline is due, and whatever resumes it ends it as timed out, without
      another call. */
  lemma OverdueRunEnds(s: State, gateways: Gateways, id: string, reason: Reason, enabled: bool, now: int)
    requires Reachable(s, gateways)
    requires id in s.runs && !s.runs[id].queued && id in s.lives
    requires s.lives[id].plan.maxRuntimeMilliseconds.Some?
    requires now - s.lives[id].admittedAt >= s.lives[id].plan.maxRuntimeMilliseconds.value
    ensures id in DueIds(s.runs, now)
    ensures
      var after := Resume(s, id, reason, enabled, now, gateways);
      && id !in after.runs
      && Last(after.lives[id].results).TimedOut?
      && after.lives[id].calls == s.lives[id].calls
  {
    ReachableLifeFits(s, gateways, id);
    AppendLast(s.lives[id].results, EarlyEnd(s.runs[id], reason, enabled, now).value);
  }

  // ----- What an execution does, over its whole life -----

  /** However its segments were scheduled among the other runs, an execution that completed or failed
      made the calls and left the trace of one uninterrupted pass over its plan, and one that was cut
      short made a first part of those calls. */
  lemma EndedExecutionIsThePass(s: State, gateways: Gateways, id: string)
    requires Reachable(s, gateways) && id in s.lives
    ensures s.lives[id].results != []
    ensures
      var life := s.lives[id];
      var result := Last(life.results);
      && (result.Completed? || result.Failed? ==>
            SegmentEnd(result, life.calls) == Conclude(WholeRun(id, life, gateways(id))))
      && life.calls <= WholeRun(id, life, gateways(id)).world.calls
  {
    ReachableLifeFits(s, gateways, id);
    var life := s.lives[id];
    if id in s.runs {
      var run := s.runs[id];
      OnePassExtends(
        run.plan.actions, run.nextAction, Attempt(run.retryAttempt), id, gateways(id), World(life.calls, run.trace));
    }
  }
}
