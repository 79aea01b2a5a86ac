// The life of flow runs: admission, resumption, queueing, deadlines and traces, one handler at a time.
module Engine {
  import opened Wrappers
  import Collections
  import opened Plan
  import IdempotencyKeys
  import opened FlowRuntime
  import opened Transparency
  import opened Suspension
  import PlanBounds
  import opened RunTable

  /** Everything recorded about one execution: the traces saved for it, in order, and the gateway
      calls made for it, with the time of each. */
  datatype Life = Life(
    flowId: string, plan: ExecutionPlan, admittedAt: int,
    results: seq<RunResult>, savedAt: seq<int>, calls: seq<Call>, callTimes: seq<int>)

  type Lives = map<string, Life>

  /** The run table, the recorded executions, and the flows ever admitted in queue mode. */
  datatype State = State(runs: Runs, lives: Lives, queueUsers: set<string>)

  /** The replies each run receives, as a function of its own calls so far. */
  type Gateways = string -> Replies

  datatype Reason = Initial | Event | Timer

  // ----- One resumption -----

  const FAR_FUTURE: int := 36_500 * 24 * 60 * 60 * 1_000

  function SuspensionWakeAt(now: int, after: Option<nat>, deadlineAt: Option<int>): int {
    var wakeAt := now + (match after case Some(milliseconds) => milliseconds as int case None => FAR_FUTURE);
    if deadlineAt.Some? && deadlineAt.value < wakeAt then deadlineAt.value else wakeAt
  }

  /** How a resumption ends before any action, if it does. */
  function EarlyEnd(run: FlowRun, reason: Reason, enabled: bool, now: int): Option<RunResult> {
    if run.deadlineAt.Some? && run.deadlineAt.value <= now then
      Some(TimedOut(run.trace + [Audited("max-runtime reached before the flow could resume")]))
    else if reason == Timer && run.awaiting.Some? && run.awaitTimeoutIsFailure then
      Some(TimedOut(run.trace + [ActionFailed("reported command confirmation timed out")]))
    else if !enabled then
      Some(Cancelled(run.trace + [Audited("cancelled because the automation was disabled")]))
    else None
  }

  function Advance(run: FlowRun, calls: seq<Call>, replies: Replies): SegmentEnd {
    Segment(run.plan.actions, run.nextAction, run.retryAttempt, run.id, replies, World(calls, run.trace))
  }

  /** The row of a run that suspended. */
  function SuspendedRow(run: FlowRun, result: RunResult, now: int): FlowRun
    requires result.Suspended?
  {
    run.(trace := result.trace, retryAttempt := result.retryAttempt, nextAction := result.nextAction,
         wakeAt := SuspensionWakeAt(now, result.afterMilliseconds, run.deadlineAt),
         awaiting := result.awaiting, awaitTimeoutIsFailure := result.awaitTimeoutIsFailure, queued := false)
  }

  function Resumed(run: FlowRun, life: Life, reason: Reason, enabled: bool, now: int, replies: Replies)
    : (Option<FlowRun>, Life)
  {
    match EarlyEnd(run, reason, enabled, now)
    case Some(result) => (None, Record(life, result, now))
    case None =>
      var end := Advance(run, life.calls, replies);
      var added := if |end.calls| >= |life.calls| then |end.calls| - |life.calls| else 0;
      (if end.result.Suspended? then Some(SuspendedRow(run, end.result, now)) else None,
       Record(life, end.result, now).(calls := end.calls, callTimes := life.callTimes + seq(added, _ => now)))
  }

  function SetRow(runs: Runs, id: string, row: Option<FlowRun>): Runs {
    match row
    case Some(run) => runs[id := run]
    case None => runs - {id}
  }

  function RowAt(runs: Runs, id: string): Option<FlowRun> {
    if id in runs then Some(runs[id]) else None
  }

  function Resume(s: State, id: string, reason: Reason, enabled: bool, now: int, gateways: Gateways): State
    requires id in s.runs && id in s.lives
  {
    var (row, life) := Resumed(s.runs[id], s.lives[id], reason, enabled, now, gateways(id));
    s.(runs := SetRow(s.runs, id, row), lives := s.lives[id := life])
  }

  // ----- One execution -----

  function NewRun(flowId: string, id: string, plan: ExecutionPlan, correlationId: string, now: int): FlowRun {
    FlowRun(
      id, flowId, plan, [], None, 0, now, None, false, correlationId,
      (match plan.maxRuntimeMilliseconds case Some(m) => Some(now + m as int) case None => None), false)
  }

  function NewLife(run: FlowRun, now: int): Life {
    Life(run.flowId, run.plan, now, [], [], [], [])
  }

  function Record(life: Life, result: RunResult, now: int): Life {
    life.(results := life.results + [result], savedAt := life.savedAt + [now])
  }

  const REPLACED := Cancelled([Audited("cancelled by a newer :restart execution")])
  const BEHIND := Queued([Audited("queued behind an active execution")])
  const UNMET := Skipped([GuardEvaluated(false, "La condition de l'habitude n'est pas remplie.")])

  function OverLimit(active: nat): RunResult {
    Skipped([Audited("execution skipped: concurrency limit reached (" + IdempotencyKeys.Decimal(active) + ")")])
  }

  function CancelAll(lives: Lives, ids: set<string>, now: int): Lives {
    map id | id in lives :: if id in ids then Record(lives[id], REPLACED, now) else lives[id]
  }

  function UsersAfter(users: set<string>, run: FlowRun): set<string> {
    if run.plan.concurrency.mode == Queue then users + {run.flowId} else users
  }

  /** The records after admission: a restart cancels every run of the flow. */
  function LivesAfter(s: State, run: FlowRun, now: int): Lives {
    if run.plan.concurrency.mode == Restart then CancelAll(s.lives, RowsOf(s.runs, run.flowId), now) else s.lives
  }

  /** Admission of a new run, and its first segment when it is admitted as active. */
  function Admit(s: State, run: FlowRun, enabled: bool, now: int, gateways: Gateways): State {
    var life := NewLife(run, now);
    var runs := Admitted(s.runs, run, run.plan.concurrency);
    var users := UsersAfter(s.queueUsers, run);
    if run.id !in runs then
      State(runs, s.lives[run.id := Record(life, OverLimit(|RowsOf(s.runs, run.flowId)|), now)], users)
    else if runs[run.id].queued then State(runs, s.lives[run.id := Record(life, BEHIND, now)], users)
    else Resume(Starting(s, run, now), run.id, Initial, enabled, now, gateways)
  }

  function Execute(
    s: State, flowId: string, id: string, plan: ExecutionPlan, guardHolds: bool, correlationId: string,
    enabled: bool, now: int, gateways: Gateways): State
  {
    var run := NewRun(flowId, id, plan, correlationId, now);
    if guardHolds then Admit(s, run, enabled, now, gateways)
    else s.(lives := s.lives[id := Record(NewLife(run, now), UNMET, now)])
  }

  /** A queued run becomes active and starts. */
  function Dequeue(s: State, id: string, enabled: bool, now: int, gateways: Gateways): State
    requires id in s.runs && id in s.lives
  {
    Resume(s.(runs := s.runs[id := s.runs[id].(queued := false)]), id, Initial, enabled, now, gateways)
  }

  // ----- The invariant of one execution -----

  predicate Pending(result: RunResult) {
    result.Suspended? || result.Queued?
  }

  function Last(results: seq<RunResult>): RunResult
    requires results != []
  {
    results[|results| - 1]
  }

  function DeadlineOf(life: Life): Option<int> {
    match life.plan.maxRuntimeMilliseconds
    case Some(m) => Some(life.admittedAt + m as int)
    case None => None
  }

  function WholeRun(id: string, life: Life, replies: Replies): Outcome {
    OnePass(life.plan.actions, 0, 0, id, replies, World([], []))
  }

  function RestOfRun(run: FlowRun, life: Life, replies: Replies): Outcome {
    OnePass(run.plan.actions, run.nextAction, Attempt(run.retryAttempt), run.id, replies, World(life.calls, run.trace))
  }

  /** A row agrees with the record of its execution, keeps its deadline, and leads to the same end as
      one uninterrupted pass. */
  predicate RowFits(run: FlowRun, life: Life, id: string, replies: Replies) {
    && run.id == id && run.flowId == life.flowId && run.plan == life.plan
    && run.deadlineAt == DeadlineOf(life)
    && (run.deadlineAt.Some? ==> run.wakeAt <= run.deadlineAt.value)
    && Resumable(run.retryAttempt)
    && RestOfRun(run, life, replies) == WholeRun(id, life, replies)
  }

  /** An ended execution did what the pass does, or a first part of it when it was cut short. */
  predicate EndFits(result: RunResult, life: Life, id: string, replies: Replies) {
    match result
    case Completed(_) => SegmentEnd(result, life.calls) == Conclude(WholeRun(id, life, replies))
    case Failed(_) => SegmentEnd(result, life.calls) == Conclude(WholeRun(id, life, replies))
    case Skipped(_) => life.calls == []
    case TimedOut(_) => life.calls <= WholeRun(id, life, replies).world.calls
    case Cancelled(_) => life.calls <= WholeRun(id, life, replies).world.calls
    case _ => false
  }

  predicate OnTime(life: Life) {
    && |life.callTimes| == |life.calls|
    && (DeadlineOf(life).Some? ==> forall i :: 0 <= i < |life.callTimes| ==> life.callTimes[i] < DeadlineOf(life).value)
  }

  /** An active row is where its last saved trace says: suspended at an action of its plan, for what that
      action and the replies make it wait, since the time the trace was saved, and until its deadline. */
  ghost predicate WaitFits(run: FlowRun, life: Life, id: string, replies: Replies)
    requires life.results != [] && |life.savedAt| == |life.results|
  {
    var result := Last(life.results);
    && result.Suspended? && run.trace == result.trace && run.trace != []
    && run.awaiting == result.awaiting && run.awaitTimeoutIsFailure == result.awaitTimeoutIsFailure
    && run.nextAction == result.nextAction && run.retryAttempt == result.retryAttempt
    && run.wakeAt == Sooner(Over(life.savedAt[|life.savedAt| - 1], PauseOf(LastStep(run.trace))), run.deadlineAt)
    && exists at: nat ::
         at < |life.plan.actions| && SuspendedAt(life.plan.actions, at, SegmentEnd(result, life.calls), id, replies)
  }

  /** When a pause that began at `at` is over: after its length, or in a hundred years when it has none. */
  function Over(at: int, pause: Option<nat>): int {
    at + pause.GetOr(36_500 * 86_400_000)
  }

  function Sooner(time: int, deadline: Option<int>): int {
    match deadline
    case None => time
    case Some(d) => if time <= d then time else d
  }

  ghost predicate LifeFits(row: Option<FlowRun>, life: Life, id: string, replies: Replies) {
    && life.results != [] && |life.savedAt| == |life.results|
    && (row.Some? <==> Pending(Last(life.results)))
    && (row.Some? ==> row.value.queued == Last(life.results).Queued? && RowFits(row.value, life, id, replies))
    && (row.Some? && !row.value.queued ==> WaitFits(row.value, life, id, replies))
    && (row.None? ==> EndFits(Last(life.results), life, id, replies))
    && (forall i :: 0 <= i < |life.results| - 1 ==> Pending(life.results[i]))
    && OnTime(life)
  }

  // ----- The invariant of the table -----

  ghost predicate TableFits(runs: Runs, queueUsers: set<string>) {
    && WellKeyed(runs)
    && (forall a, b ::
          a in runs && b in runs && runs[a].flowId == runs[b].flowId && !runs[a].queued && !runs[b].queued
          ==> a == b)
    && (forall flowId :: |RowsOf(runs, flowId)| <= if flowId in queueUsers then 32 else 1)
  }

  ghost predicate Fits(s: State, gateways: Gateways) {
    && TableFits(s.runs, s.queueUsers)
    && s.runs.Keys <= s.lives.Keys
    && (forall id :: id in s.lives ==> LifeFits(RowAt(s.runs, id), s.lives[id], id, gateways(id)))
  }

  // ----- Resumption keeps the invariants -----

  lemma AppendLast(results: seq<RunResult>, result: RunResult)
    ensures Last(results + [result]) == result
    ensures forall i :: 0 <= i < |results| ==> (results + [result])[i] == results[i]
  {
  }

  /** What a resumption needs of the record of its run. */
  predicate ReadyToResume(run: FlowRun, life: Life, id: string, replies: Replies) {
    && !run.queued
    && RowFits(run, life, id, replies)
    && (forall i :: 0 <= i < |life.results| ==> Pending(life.results[i]))
    && |life.savedAt| == |life.results|
    && OnTime(life)
  }

  lemma EarlyEndFits(run: FlowRun, life: Life, id: string, result: RunResult, now: int, replies: Replies)
    requires ReadyToResume(run, life, id, replies) && (result.TimedOut? || result.Cancelled?)
    ensures LifeFits(None, Record(life, result, now), id, replies)
  {
    OnePassExtends(
      run.plan.actions, run.nextAction, Attempt(run.retryAttempt), id, replies, World(life.calls, run.trace));
    AppendLast(life.results, result);
  }

  lemma ResumedFits(
    run: FlowRun, life: Life, id: string, reason: Reason, enabled: bool, now: int, replies: Replies)
    requires ReadyToResume(run, life, id, replies)
    ensures
      var (row, life') := Resumed(run, life, reason, enabled, now, replies);
      LifeFits(row, life', id, replies)
    ensures
      var (row, _) := Resumed(run, life, reason, enabled, now, replies);
      row.Some? ==> !row.value.queued && row.value.id == id && row.value.flowId == run.flowId
  {
    match EarlyEnd(run, reason, enabled, now) {
      case Some(result) => EarlyEndFits(run, life, id, result, now, replies);
      case None => ContinuedFits(run, life, id, reason, enabled, now, replies);
    }
  }

  lemma ContinuedFits(
    run: FlowRun, life: Life, id: string, reason: Reason, enabled: bool, now: int, replies: Replies)
    requires ReadyToResume(run, life, id, replies) && EarlyEnd(run, reason, enabled, now).None?
    ensures
      var (row, life') := Resumed(run, life, reason, enabled, now, replies);
      && LifeFits(row, life', id, replies)
      && (row.Some? ==> !row.value.queued && row.value.id == id && row.value.flowId == run.flowId)
  {
    var actions, w := run.plan.actions, World(life.calls, run.trace);
    SegmentFollowsOnePass(actions, run.nextAction, run.retryAttempt, id, replies, w);
    SegmentExtends(actions, run.nextAction, run.retryAttempt, id, replies, w);
    AppendLast(life.results, Advance(run, life.calls, replies).result);
    if Advance(run, life.calls, replies).result.Suspended? {
      SegmentWaits(run, life, id, reason, enabled, now, replies);
    } else {
      SegmentEndKinds(actions, run.nextAction, run.retryAttempt, id, replies, w);
    }
  }

  lemma SegmentWaits(
    run: FlowRun, life: Life, id: string, reason: Reason, enabled: bool, now: int, replies: Replies)
    requires ReadyToResume(run, life, id, replies) && EarlyEnd(run, reason, enabled, now).None?
    requires Advance(run, life.calls, replies).result.Suspended?
    ensures
      var (row, life') := Resumed(run, life, reason, enabled, now, replies);
      && row.Some? && life'.results != [] && |life'.savedAt| == |life'.results|
      && WaitFits(row.value, life', id, replies)
  {
    var at := SegmentSuspends(
      run.plan.actions, run.nextAction, run.retryAttempt, id, replies, World(life.calls, run.trace));
    AppendLast(life.results, Advance(run, life.calls, replies).result);
    var (_, life') := Resumed(run, life, reason, enabled, now, replies);
    var result := Advance(run, life.calls, replies).result;
    assert SuspendedAt(life'.plan.actions, at, SegmentEnd(result, life'.calls), id, replies);
  }

  lemma {:induction false} SegmentExtends(
    actions: seq<PlannedAction>, index: nat, retry: Option<u8>, run: string, replies: Replies, w: World)
    ensures w.calls <= Segment(actions, index, retry, run, replies, w).calls
    decreases |actions| - index
  {
    if index < |actions| {
      var step := StepAction(actions[index], index, retry, run, replies, w);
      if step.Continue? {
        SegmentExtends(actions, index + 1, None, run, replies, step.world);
      }
    }
  }

  lemma {:induction false} SegmentEndKinds(
    actions: seq<PlannedAction>, index: nat, retry: Option<u8>, run: string, replies: Replies, w: World)
    ensures
      var result := Segment(actions, index, retry, run, replies, w).result;
      result.Suspended? || result.Completed? || result.Failed?
    decreases |actions| - index
  {
    if index < |actions| {
      var step := StepAction(actions[index], index, retry, run, replies, w);
      if step.Continue? {
        SegmentEndKinds(actions, index + 1, None, run, replies, step.world);
      }
    }
  }

  /** Replacing an active row by one of the same flow, or removing it, keeps the table. */
  lemma SetRowKeepsTable(runs: Runs, users: set<string>, id: string, row: Option<FlowRun>)
    requires TableFits(runs, users)
    requires id in runs && !runs[id].queued
    requires row.Some? ==> !row.value.queued && row.value.id == id && row.value.flowId == runs[id].flowId
    ensures TableFits(SetRow(runs, id, row), users)
  {
    var after := SetRow(runs, id, row);
    forall flowId
      ensures |RowsOf(after, flowId)| <= if flowId in users then 32 else 1
    {
      Collections.SubsetIsSmaller(RowsOf(after, flowId), RowsOf(runs, flowId));
    }
  }

  lemma ResumeKeepsFits(
    s: State, id: string, reason: Reason, enabled: bool, now: int, gateways: Gateways)
    requires TableFits(s.runs, s.queueUsers) && s.runs.Keys <= s.lives.Keys
    requires id in s.runs && ReadyToResume(s.runs[id], s.lives[id], id, gateways(id))
    requires forall other :: other in s.lives && other != id ==>
      LifeFits(RowAt(s.runs, other), s.lives[other], other, gateways(other))
    ensures Fits(Resume(s, id, reason, enabled, now, gateways), gateways)
  {
    ResumedFits(s.runs[id], s.lives[id], id, reason, enabled, now, gateways(id));
    var (row, life) := Resumed(s.runs[id], s.lives[id], reason, enabled, now, gateways(id));
    SetRowKeepsTable(s.runs, s.queueUsers, id, row);
    var after := Resume(s, id, reason, enabled, now, gateways);
    forall other | other in after.lives
      ensures LifeFits(RowAt(after.runs, other), after.lives[other], other, gateways(other))
    {
      if other != id {
        assert RowAt(after.runs, other) == RowAt(s.runs, other);
      }
    }
  }

  // ----- Admission keeps the invariants -----

  lemma AdmittedRows(runs: Runs, users: set<string>, run: FlowRun, policy: ConcurrencyPolicy, flowId: string)
    requires TableFits(runs, users) && run.id !in runs && 1 <= policy.maxRuns <= 32
    ensures
      var users' := if policy.mode == Queue then users + {run.flowId} else users;
      |RowsOf(Admitted(runs, run, policy), flowId)| <= if flowId in users' then 32 else 1
  {
    var after := Admitted(runs, run, policy);
    var existing := RowsOf(runs, run.flowId);
    assert |RowsOf(runs, flowId)| <= if flowId in users then 32 else 1;
    if flowId == run.flowId && run.id in after {
      if policy.mode == Restart || existing == {} {
        assert RowsOf(after, flowId) == {run.id};
      } else {
        assert RowsOf(after, flowId) == existing + {run.id};
      }
    } else {
      Collections.SubsetIsSmaller(RowsOf(after, flowId), RowsOf(runs, flowId));
    }
  }

  lemma AdmittedKeepsTable(runs: Runs, users: set<string>, run: FlowRun, policy: ConcurrencyPolicy)
    requires TableFits(runs, users)
    requires run.id !in runs && !run.queued
    requires 1 <= policy.maxRuns <= 32
    ensures TableFits(
      Admitted(runs, run, policy), if policy.mode == Queue then users + {run.flowId} else users)
  {
    var after := Admitted(runs, run, policy);
    var existing := RowsOf(runs, run.flowId);
    forall flowId {
      AdmittedRows(runs, users, run, policy, flowId);
    }
    if run.id in after && !after[run.id].queued {
      forall other | other in after && after[other].flowId == run.flowId
        ensures other == run.id
      {
        assert other != run.id ==> other in existing;
      }
    }
  }

  lemma NewRunIsReady(flowId: string, id: string, plan: ExecutionPlan, correlationId: string, now: int, replies: Replies)
    requires PlanBounds.ValidPlan(plan)
    ensures
      var run := NewRun(flowId, id, plan, correlationId, now);
      ReadyToResume(run, NewLife(run, now), id, replies)
  {
  }

  /** The state in which an admitted run takes its first segment. */
  function Starting(s: State, run: FlowRun, now: int): State {
    State(
      Admitted(s.runs, run, run.plan.concurrency), LivesAfter(s, run, now)[run.id := NewLife(run, now)],
      UsersAfter(s.queueUsers, run))
  }

  predicate StartsAtOnce(s: State, run: FlowRun) {
    var runs := Admitted(s.runs, run, run.plan.concurrency);
    run.id in runs && !runs[run.id].queued
  }

  lemma StartingRows(s: State, run: FlowRun, now: int)
    requires WellKeyed(s.runs) && s.runs.Keys <= s.lives.Keys && run.id !in s.lives && StartsAtOnce(s, run)
    ensures
      var start := Starting(s, run, now);
      && start.runs.Keys <= start.lives.Keys && start.lives.Keys == s.lives.Keys + {run.id}
      && start.runs[run.id] == run && start.lives[run.id] == NewLife(run, now)
  {
  }

  /** A run admitted as active starts in a fitting state, whatever it replaces. */
  lemma StartKeepsFits(s: State, run: FlowRun, enabled: bool, now: int, gateways: Gateways)
    requires Fits(s, gateways) && run.id !in s.lives && 1 <= run.plan.concurrency.maxRuns <= 32
    requires ReadyToResume(run, NewLife(run, now), run.id, gateways(run.id)) && StartsAtOnce(s, run)
    ensures run.id in Starting(s, run, now).runs && run.id in Starting(s, run, now).lives
    ensures Fits(Resume(Starting(s, run, now), run.id, Initial, enabled, now, gateways), gateways)
  {
    var start := Starting(s, run, now);
    AdmittedKeepsTable(s.runs, s.queueUsers, run, run.plan.concurrency);
    StartingRows(s, run, now);
    forall other | other in start.lives && other != run.id
      ensures LifeFits(RowAt(start.runs, other), start.lives[other], other, gateways(other))
    {
      OtherStaysFit(s, run, other, now, gateways);
    }
    ResumeKeepsFits(start, run.id, Initial, enabled, now, gateways);
  }

  /** Admission cancels the runs it replaces, and leaves the others as they were. */
  lemma OtherStaysFit(s: State, run: FlowRun, other: string, now: int, gateways: Gateways)
    requires Fits(s, gateways) && run.id !in s.lives && other in s.lives
    requires StartsAtOnce(s, run)
    ensures other in LivesAfter(s, run, now)
    ensures LifeFits(
      RowAt(Admitted(s.runs, run, run.plan.concurrency), other), LivesAfter(s, run, now)[other], other, gateways(other))
  {
    var runs := Admitted(s.runs, run, run.plan.concurrency);
    assert LifeFits(RowAt(s.runs, other), s.lives[other], other, gateways(other));
    if run.plan.concurrency.mode == Restart && other in RowsOf(s.runs, run.flowId) {
      CancelledFits(s.runs[other], s.lives[other], other, now, gateways(other));
    } else {
      assert RowAt(runs, other) == RowAt(s.runs, other);
    }
  }

  lemma AdmitKeepsFits(s: State, run: FlowRun, enabled: bool, now: int, gateways: Gateways)
    requires Fits(s, gateways) && run.id !in s.lives && 1 <= run.plan.concurrency.maxRuns <= 32
    requires ReadyToResume(run, NewLife(run, now), run.id, gateways(run.id))
    ensures Fits(Admit(s, run, enabled, now, gateways), gateways)
  {
    var runs := Admitted(s.runs, run, run.plan.concurrency);
    AdmittedKeepsTable(s.runs, s.queueUsers, run, run.plan.concurrency);
    var after := Admit(s, run, enabled, now, gateways);
    if run.id !in runs {
      QueuedOrRefusedFits(s, after, run, now, OverLimit(|RowsOf(s.runs, run.flowId)|), gateways);
    } else if runs[run.id].queued {
      QueuedOrRefusedFits(s, after, run, now, BEHIND, gateways);
    } else {
      StartKeepsFits(s, run, enabled, now, gateways);
    }
  }

  /** An execution is a step from a fitting state to a fitting state, in every concurrency mode. */
  lemma ExecuteKeepsFits(
    s: State, flowId: string, id: string, plan: ExecutionPlan, guardHolds: bool, correlationId: string,
    enabled: bool, now: int, gateways: Gateways)
    requires Fits(s, gateways) && id !in s.lives && PlanBounds.ValidPlan(plan)
    ensures Fits(Execute(s, flowId, id, plan, guardHolds, correlationId, enabled, now, gateways), gateways)
  {
    var run := NewRun(flowId, id, plan, correlationId, now);
    NewRunIsReady(flowId, id, plan, correlationId, now, gateways(id));
    if guardHolds {
      AdmitKeepsFits(s, run, enabled, now, gateways);
    } else {
      var after := Execute(s, flowId, id, plan, guardHolds, correlationId, enabled, now, gateways);
      QueuedOrRefusedFits(s, after, run, now, UNMET, gateways);
    }
  }

  lemma CancelledFits(run: FlowRun, life: Life, id: string, now: int, replies: Replies)
    requires LifeFits(Some(run), life, id, replies)
    ensures LifeFits(None, Record(life, REPLACED, now), id, replies)
  {
    OnePassExtends(
      run.plan.actions, run.nextAction, Attempt(run.retryAttempt), id, replies, World(life.calls, run.trace));
    AppendLast(life.results, REPLACED);
    assert forall i :: 0 <= i < |life.results| ==> Pending(life.results[i]);
  }

  lemma NewRunFits(run: FlowRun, now: int, result: RunResult, replies: Replies)
    requires ReadyToResume(run, NewLife(run, now), run.id, replies)
    ensures result.Skipped? ==> LifeFits(None, Record(NewLife(run, now), result, now), run.id, replies)
    ensures result.Queued? ==>
      LifeFits(Some(run.(queued := true)), Record(NewLife(run, now), result, now), run.id, replies)
  {
    AppendLast([], result);
    assert RestOfRun(run.(queued := true), NewLife(run, now), replies) == RestOfRun(run, NewLife(run, now), replies);
  }

  lemma QueuedOrRefusedFits(
    s: State, after: State, run: FlowRun, now: int, result: RunResult, gateways: Gateways)
    requires Fits(s, gateways) && run.id !in s.lives
    requires ReadyToResume(run, NewLife(run, now), run.id, gateways(run.id))
    requires TableFits(after.runs, after.queueUsers)
    requires after.lives == s.lives[run.id := Record(NewLife(run, now), result, now)]
    requires
      || (after.runs == s.runs && result.Skipped?)
      || (after.runs == s.runs[run.id := run.(queued := true)] && result.Queued?)
    ensures Fits(after, gateways)
  {
    assert run.id !in s.runs;
    NewRunFits(run, now, result, gateways(run.id));
    forall other | other in after.lives && other != run.id
      ensures LifeFits(RowAt(after.runs, other), after.lives[other], other, gateways(other))
    {
      assert RowAt(after.runs, other) == RowAt(s.runs, other);
    }
  }

  /** Only an idle flow's run leaves the queue, so the table still has one active run per flow. */
  lemma ActivateKeepsTable(runs: Runs, users: set<string>, id: string)
    requires TableFits(runs, users) && Eligible(runs, id)
    ensures TableFits(runs[id := runs[id].(queued := false)], users)
  {
    var after := runs[id := runs[id].(queued := false)];
    forall flowId
      ensures |RowsOf(after, flowId)| <= if flowId in users then 32 else 1
    {
      assert RowsOf(after, flowId) == RowsOf(runs, flowId);
    }
  }

  lemma DequeuedIsReady(run: FlowRun, life: Life, id: string, replies: Replies)
    requires LifeFits(Some(run), life, id, replies)
    ensures ReadyToResume(run.(queued := false), life, id, replies)
  {
    assert RestOfRun(run.(queued := false), life, replies) == RestOfRun(run, life, replies);
  }

  lemma DequeueKeepsFits(s: State, id: string, enabled: bool, now: int, gateways: Gateways)
    requires Fits(s, gateways) && Eligible(s.runs, id)
    ensures Fits(Dequeue(s, id, enabled, now, gateways), gateways)
  {
    var active := s.(runs := s.runs[id := s.runs[id].(queued := false)]);
    ActivateKeepsTable(s.runs, s.queueUsers, id);
    DequeuedIsReady(s.runs[id], s.lives[id], id, gateways(id));
    assert active.runs[id] == s.runs[id].(queued := false);
    forall other | other in active.lives && other != id
      ensures LifeFits(RowAt(active.runs, other), active.lives[other], other, gateways(other))
    {
      assert RowAt(active.runs, other) == RowAt(s.runs, other);
    }
    ResumeKeepsFits(active, id, Initial, enabled, now, gateways);
  }
}
