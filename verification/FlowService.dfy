// The service that drives flow runs, over the run table and the recorded traces.
module FlowService {
  import opened Wrappers
  import opened Plan
  import opened FlowRuntime
  import PlanBounds
  import opened RunTable
  import opened Engine
  import opened EngineRuns
  import EngineWaits
  import StringOrder
  import Suspension
  import Reachability

  const SCAN_LIMIT: nat := 100

  class Service {
    const store: RunStore
    const gateways: Gateways
    var lives: Lives
    ghost var queueUsers: set<string>

    constructor (gateways: Gateways)
      ensures this.gateways == gateways && fresh(store) && Current() == EMPTY
    {
      this.gateways := gateways;
      store := new RunStore();
      lives := map[];
      queueUsers := {};
    }

    ghost function Current(): State
      reads this, store
    {
      State(store.runs, lives, queueUsers)
    }

    /** Saves the trace of an execution. */
    method SaveTrace(id: string, result: RunResult, now: int)
      requires id in lives
      modifies this`lives
      ensures lives == old(lives)[id := Record(old(lives)[id], result, now)]
    {
      lives := lives[id := Record(lives[id], result, now)];
    }

    method EndRun(id: string, result: RunResult, now: int)
      requires id in lives
      modifies this`lives, store
      ensures store.runs == old(store.runs) - {id}
      ensures lives == old(lives)[id := Record(old(lives)[id], result, now)]
    {
      store.DeleteFlowRun(id);
      SaveTrace(id, result, now);
    }

    method ResumeRun(run: FlowRun, reason: Reason, enabled: bool, now: int) returns (result: RunResult)
      requires run.id in store.runs && store.runs[run.id] == run && run.id in lives
      requires run.retryAttempt.Some? ==> run.retryAttempt.value < 255
      modifies this`lives, store
      ensures Current() == Resume(old(Current()), run.id, reason, enabled, now, gateways)
      ensures run.id in lives && lives[run.id].results != [] && result == Last(lives[run.id].results)
    {
      if run.deadlineAt.Some? && run.deadlineAt.value <= now {
        result := TimedOut(run.trace + [Audited("max-runtime reached before the flow could resume")]);
        EndEarly(run, reason, enabled, now, result);
        return;
      }
      if reason == Timer && run.awaiting.Some? && run.awaitTimeoutIsFailure {
        result := TimedOut(run.trace + [ActionFailed("reported command confirmation timed out")]);
        EndEarly(run, reason, enabled, now, result);
        return;
      }
      if !enabled {
        result := Cancelled(run.trace + [Audited("cancelled because the automation was disabled")]);
        EndEarly(run, reason, enabled, now, result);
        return;
      }
      result := GoOn(run, reason, enabled, now);
    }

    /** Ends a run before any of its actions. */
    method EndEarly(run: FlowRun, reason: Reason, enabled: bool, now: int, result: RunResult)
      requires run.id in store.runs && store.runs[run.id] == run && run.id in lives
      requires EarlyEnd(run, reason, enabled, now) == Some(result)
      modifies this`lives, store
      ensures Current() == Resume(old(Current()), run.id, reason, enabled, now, gateways)
      ensures run.id in lives && lives[run.id].results != [] && result == Last(lives[run.id].results)
    {
      EndRun(run.id, result, now);
    }

    /** Runs a segment where nothing ends the run before. */
    method GoOn(run: FlowRun, reason: Reason, enabled: bool, now: int) returns (result: RunResult)
      requires run.id in store.runs && store.runs[run.id] == run && run.id in lives
      requires run.retryAttempt.Some? ==> run.retryAttempt.value < 255
      requires EarlyEnd(run, reason, enabled, now).None?
      modifies this`lives, store
      ensures Current() == Resume(old(Current()), run.id, reason, enabled, now, gateways)
      ensures run.id in lives && lives[run.id].results != [] && result == Last(lives[run.id].results)
    {
      result := RunSegment(run, now);
    }

    /** Runs the next segment of a run and saves where it stopped. */
    method RunSegment(run: FlowRun, now: int) returns (result: RunResult)
      requires run.id in store.runs && store.runs[run.id] == run && run.id in lives
      requires run.retryAttempt.Some? ==> run.retryAttempt.value < 255
      modifies this`lives, store
      ensures
        var life := old(lives)[run.id];
        var end := Advance(run, life.calls, gateways(run.id));
        && |life.calls| <= |end.calls| && result == end.result
        && lives == old(lives)[run.id := Record(life, result, now).(
             calls := end.calls,
             callTimes := life.callTimes + seq(|end.calls| - |life.calls|, _ => now))]
        && store.runs == SetRow(
             old(store.runs), run.id, if result.Suspended? then Some(SuspendedRow(run, result, now)) else None)
    {
      var life := lives[run.id];
      var gateway := new CommandGateway.Resuming(gateways(run.id), life.calls);
      result := ExecuteFromResumption(run.plan, run.id, gateway, run.nextAction, run.retryAttempt, run.trace);
      SegmentExtends(
        run.plan.actions, run.nextAction, run.retryAttempt, run.id, gateways(run.id), World(life.calls, run.trace));
      var times := seq(|gateway.calls| - |life.calls|, _ => now);
      lives := lives[run.id := life.(calls := gateway.calls, callTimes := life.callTimes + times)];
      if result.Suspended? {
        store.SaveFlowRun(
          run.(trace := result.trace, retryAttempt := result.retryAttempt, nextAction := result.nextAction,
               wakeAt := SuspensionWakeAt(now, result.afterMilliseconds, run.deadlineAt),
               awaiting := result.awaiting, awaitTimeoutIsFailure := result.awaitTimeoutIsFailure,
               queued := false));
        SaveTrace(run.id, result, now);
      } else {
        EndRun(run.id, result, now);
      }
    }

    method ExecuteFlow(
      flowId: string, id: string, plan: ExecutionPlan, guardHolds: bool, correlationId: string,
      enabled: bool, now: int)
      returns (result: RunResult)
      requires Fits(Current(), gateways) && id !in lives && PlanBounds.ValidPlan(plan)
      modifies this, store
      ensures Current() == Execute(
        old(Current()), flowId, id, plan, guardHolds, correlationId, enabled, now, gateways)
      ensures id in lives && lives[id].results != [] && result == Last(lives[id].results)
    {
      ghost var before := Current();
      var run := NewRun(flowId, id, plan, correlationId, now);
      if !guardHolds {
        lives := lives[id := NewLife(run, now)];
        SaveTrace(id, UNMET, now);
        assert Current() == Execute(before, flowId, id, plan, guardHolds, correlationId, enabled, now, gateways);
        return UNMET;
      }
      result := AdmitAndStart(run, enabled, now);
    }

    method AdmitAndStart(run: FlowRun, enabled: bool, now: int) returns (result: RunResult)
      requires WellKeyed(store.runs) && store.runs.Keys <= lives.Keys && run.id !in lives
      requires !run.queued && run.retryAttempt.None?
      modifies this, store
      ensures Current() == Admit(old(Current()), run, enabled, now, gateways)
      ensures run.id in lives && lives[run.id].results != [] && result == Last(lives[run.id].results)
    {
      ghost var before := Current();
      var policy := run.plan.concurrency;
      lives := lives[run.id := NewLife(run, now)];
      var admission := store.AdmitFlowRun(run, policy);
      queueUsers := UsersAfter(queueUsers, run);
      AdmissionPlacesRun(admission, before.runs, run);
      if admission.Enqueued? {
        SaveTrace(run.id, BEHIND, now);
        return BEHIND;
      }
      if admission.Refusal? {
        SaveTrace(run.id, OverLimit(admission.activeRuns), now);
        return OverLimit(admission.activeRuns);
      }
      result := StartAdmitted(run, admission, enabled, now, before);
    }

    /** The first segment of a run that takes its place in the table at once. */
    method StartAdmitted(run: FlowRun, admission: FlowAdmission, enabled: bool, now: int, ghost before: State)
      returns (result: RunResult)
      requires WellKeyed(before.runs) && before.runs.Keys <= before.lives.Keys && run.id !in before.lives
      requires IsAdmission(admission, before.runs, run, run.plan.concurrency)
      requires admission.Started? || admission.Restarted?
      requires admission.Restarted? <==> run.plan.concurrency.mode == Restart
      requires run.id in store.runs && store.runs[run.id] == run && run.retryAttempt.None?
      requires lives == before.lives[run.id := NewLife(run, now)]
      modifies this, store
      ensures
        var admitted := State(old(store.runs), LivesAfter(before, run, now)[run.id := NewLife(run, now)], old(queueUsers));
        Current() == Resume(admitted, run.id, Initial, enabled, now, gateways)
      ensures run.id in lives && lives[run.id].results != [] && result == Last(lives[run.id].results)
    {
      if admission.Restarted? {
        CancelRuns(admission.cancelled, run.flowId, now, before);
      }
      assert lives == LivesAfter(before, run, now)[run.id := NewLife(run, now)];
      result := ResumeRun(run, Initial, enabled, now);
    }

    /** Saves a cancelled trace for every run that a restart removed. */
    method CancelRuns(cancelled: seq<FlowRun>, flowId: string, now: int, ghost before: State)
      requires WellKeyed(before.runs) && before.runs.Keys <= before.lives.Keys && before.lives.Keys <= lives.Keys
      requires IsSelection(
        cancelled, before.runs, RowsOf(before.runs, flowId), ByWake, |RowsOf(before.runs, flowId)|)
      modifies this`lives
      ensures lives == CancelAll(old(lives), RowsOf(before.runs, flowId), now)
    {
      DistinctRows(cancelled, ByWake);
      assert lives == CancelAll(lives, {}, now);
      var i := 0;
      while i < |cancelled|
        invariant i <= |cancelled|
        invariant lives == CancelAll(old(lives), Ids(cancelled[..i]), now)
      {
        var id := cancelled[i].id;
        assert id in before.lives;
        assert id !in Ids(cancelled[..i]);
        SaveTrace(id, REPLACED, now);
        assert cancelled[..i + 1] == cancelled[..i] + [cancelled[i]];
        IdsGrow(cancelled[..i], cancelled[i]);
        i := i + 1;
      }
      assert cancelled[..|cancelled|] == cancelled;
      SelectionCovers(cancelled, before.runs, RowsOf(before.runs, flowId), ByWake);
    }

    /** Resumes the due runs, then starts queued runs of idle flows. The rows were read before the
        first of them was resumed; each is still current when its turn comes. */
    method ResumeDue(now: int, enabled: string -> bool)
      returns (ghost due: seq<FlowRun>, ghost started: seq<string>)
      requires Fits(Current(), gateways)
      modifies this, store
      ensures Fits(Current(), gateways)
      ensures IsSelection(due, old(store.runs), DueIds(old(store.runs), now), ByWake, SCAN_LIMIT)
      ensures |started| <= SCAN_LIMIT
      ensures Leads(
        old(Current()), Resumptions(due, Timer, enabled, now) + Starts(started, enabled, now), Current(), gateways)
      ensures |started| < SCAN_LIMIT ==> NoneInReach(store.runs)
    {
      ghost var before := Current();
      due := ResumeDueRuns(now, enabled);
      assert Resumptions(due, Timer, enabled, now) + Starts([], enabled, now) == Resumptions(due, Timer, enabled, now);
      started := StartQueuedRuns(now, enabled, before, Resumptions(due, Timer, enabled, now));
    }

    /** Resumes rows read together, one after the other. */
    method ResumeRows(rows: seq<FlowRun>, reason: Reason, now: int, enabled: string -> bool)
      requires Fits(Current(), gateways)
      requires reason != Initial && StillWaiting(rows, store.runs, reason, now)
      requires forall j, k :: 0 <= j < k < |rows| ==> rows[j].id != rows[k].id
      modifies this, store
      ensures Fits(Current(), gateways)
      ensures Leads(old(Current()), Resumptions(rows, reason, enabled, now), Current(), gateways)
    {
      ghost var before := Current();
      NothingResumed(rows, before, reason, enabled, now, gateways);
      var i := 0;
      while i < |rows|
        invariant i <= |rows|
        invariant Fits(Current(), gateways)
        invariant Leads(before, Resumptions(rows[..i], reason, enabled, now), Current(), gateways)
        invariant StillWaiting(rows[i..], store.runs, reason, now)
      {
        ResumeRow(rows, i, reason, now, enabled, before);
        i := i + 1;
      }
      assert rows[..|rows|] == rows;
    }

    method ResumeRow(
      rows: seq<FlowRun>, i: nat, reason: Reason, now: int, enabled: string -> bool, ghost before: State)
      requires i < |rows| && forall j, k :: 0 <= j < k < |rows| ==> rows[j].id != rows[k].id
      requires Fits(Current(), gateways) && reason != Initial && StillWaiting(rows[i..], store.runs, reason, now)
      requires Leads(before, Resumptions(rows[..i], reason, enabled, now), Current(), gateways)
      modifies this, store
      ensures Fits(Current(), gateways)
      ensures Leads(before, Resumptions(rows[..i + 1], reason, enabled, now), Current(), gateways)
      ensures StillWaiting(rows[i + 1..], store.runs, reason, now)
    {
      var run := rows[i];
      OneMoreResumption(before, rows, i, Current(), reason, enabled, now, gateways);
      var _ := ResumeRun(run, reason, enabled(run.id), now);
    }

    method ResumeDueRuns(now: int, enabled: string -> bool) returns (ghost due: seq<FlowRun>)
      requires Fits(Current(), gateways)
      modifies this, store
      ensures Fits(Current(), gateways)
      ensures IsSelection(due, old(store.runs), DueIds(old(store.runs), now), ByWake, SCAN_LIMIT)
      ensures Leads(old(Current()), Resumptions(due, Timer, enabled, now), Current(), gateways)
    {
      var rows := store.DueFlowRuns(now, SCAN_LIMIT);
      due := rows;
      DistinctRows(rows, ByWake);
      ResumeRows(rows, Timer, now, enabled);
    }

    /** Resumes, among the first hundred awaiting runs by id, those whose trigger matches an event. */
    method ResumeAwaiting(matches: AwaitTrigger -> bool, now: int, enabled: string -> bool)
      returns (ghost read: seq<FlowRun>)
      requires Fits(Current(), gateways)
      modifies this, store
      ensures Fits(Current(), gateways)
      ensures IsSelection(read, old(store.runs), AwaitingIds(old(store.runs)), ById, SCAN_LIMIT)
      ensures Leads(
        old(Current()), Resumptions(Matching(read, matches), Event, enabled, now), Current(), gateways)
    {
      var rows := store.AwaitingFlowRuns(SCAN_LIMIT);
      read := rows;
      DistinctRows(rows, ById);
      MatchingKeeps(rows, matches, store.runs, now);
      ResumeRows(Matching(rows, matches), Event, now, enabled);
    }

    method StartQueuedRuns(now: int, enabled: string -> bool, ghost before: State, ghost done: seq<Action>)
      returns (ghost started: seq<string>)
      requires Fits(Current(), gateways) && Leads(before, done, Current(), gateways)
      modifies this, store
      ensures Fits(Current(), gateways)
      ensures |started| <= SCAN_LIMIT
      ensures Leads(before, done + Starts(started, enabled, now), Current(), gateways)
      ensures |started| < SCAN_LIMIT ==> NoneInReach(store.runs)
    {
      started := [];
      assert done + Starts([], enabled, now) == done;
      ghost var s := Current();
      var i := 0;
      while i < SCAN_LIMIT
        invariant i <= SCAN_LIMIT && |started| == i
        invariant Current() == s
        invariant Fits(s, gateways) && Leads(before, done + Starts(started, enabled, now), s, gateways)
      {
        var next := store.DequeueNextFlowRun();
        if next.None? {
          return;
        }
        var run := next.value;
        OneMoreStart(before, done, started, s, run.id, enabled, now, gateways);
        var _ := ResumeRun(run, Initial, enabled(run.id), now);
        s := Dequeue(s, run.id, enabled(run.id), now, gateways);
        started := started + [run.id];
        i := i + 1;
      }
    }
  }

  lemma StartsGrow(started: seq<string>, id: string, enabled: string -> bool, now: int)
    ensures Starts(started + [id], enabled, now)
         == Starts(started, enabled, now) + [EngineRuns.Action.StartQueued(id, enabled(id), now)]
  {
  }

  lemma RowIsRecorded(s: State, id: string, gateways: Gateways)
    requires Fits(s, gateways) && id in s.runs
    ensures id in s.lives && s.runs[id].id == id
    ensures s.runs[id].retryAttempt.Some? ==> s.runs[id].retryAttempt.value < 255
  {
    assert LifeFits(RowAt(s.runs, id), s.lives[id], id, gateways(id));
  }

  lemma OneMoreStart(
    before: State, done: seq<Action>, started: seq<string>, s: State, id: string,
    enabled: string -> bool, now: int, gateways: Gateways)
    requires Fits(s, gateways) && Eligible(s.runs, id)
    requires Leads(before, done + Starts(started, enabled, now), s, gateways)
    ensures id in s.lives && s.runs[id].id == id
    ensures s.runs[id].retryAttempt.Some? ==> s.runs[id].retryAttempt.value < 255
    ensures Fits(Dequeue(s, id, enabled(id), now, gateways), gateways)
    ensures Leads(
      before, done + Starts(started + [id], enabled, now), Dequeue(s, id, enabled(id), now, gateways), gateways)
  {
    RowIsRecorded(s, id, gateways);
    DequeueKeepsFits(s, id, enabled(id), now, gateways);
    var all := done + Starts(started, enabled, now);
    StartsGrow(started, id, enabled, now);
    assert done + Starts(started + [id], enabled, now)
        == all + [EngineRuns.Action.StartQueued(id, enabled(id), now)];
    OneStep(before, all, s, EngineRuns.Action.StartQueued(id, enabled(id), now), gateways);
  }

  lemma OneStep(before: State, done: seq<Action>, s: State, action: Action, gateways: Gateways)
    requires Leads(before, done, s, gateways)
    requires s.runs.Keys <= s.lives.Keys && Possible(s, action)
    ensures Leads(before, done + [action], EngineRuns.Step(s, action, gateways), gateways)
  {
    LeadsFurther(before, done, s, action, gateways);
  }

  /** Rows that are still in the table as they were read, waiting for what resumes them. */
  predicate StillWaiting(rows: seq<FlowRun>, runs: Runs, reason: Reason, now: int) {
    forall k :: 0 <= k < |rows| ==>
      && rows[k].id in runs && runs[rows[k].id] == rows[k] && !rows[k].queued
      && (if reason == Timer then rows[k].wakeAt <= now else rows[k].awaiting.Some?)
  }

  function Resumption(id: string, reason: Reason, enabled: bool, now: int): Action {
    if reason == Timer then EngineRuns.Action.ResumeTimer(id, enabled, now)
    else EngineRuns.Action.ResumeEvent(id, enabled, now)
  }

  function Resumptions(rows: seq<FlowRun>, reason: Reason, enabled: string -> bool, now: int): seq<Action> {
    seq(|rows|, i requires 0 <= i < |rows| => Resumption(rows[i].id, reason, enabled(rows[i].id), now))
  }

  lemma NothingResumed(
    rows: seq<FlowRun>, s: State, reason: Reason, enabled: string -> bool, now: int, gateways: Gateways)
    ensures rows[0..] == rows
    ensures Leads(s, Resumptions(rows[..0], reason, enabled, now), s, gateways)
  {
    Reachability.LeadsNowhere(Steps(gateways), s);
    assert Resumptions(rows[..0], reason, enabled, now) == [];
  }

  lemma ResumptionsGrow(rows: seq<FlowRun>, i: nat, reason: Reason, enabled: string -> bool, now: int)
    requires i < |rows|
    ensures Resumptions(rows[..i + 1], reason, enabled, now)
         == Resumptions(rows[..i], reason, enabled, now)
            + [Resumption(rows[i].id, reason, enabled(rows[i].id), now)]
  {
  }

  /** The rows whose trigger matches, in order. */
  function Matching(rows: seq<FlowRun>, matches: AwaitTrigger -> bool): seq<FlowRun> {
    if rows == [] then []
    else
      (if rows[0].awaiting.Some? && matches(rows[0].awaiting.value) then [rows[0]] else [])
      + Matching(rows[1..], matches)
  }

  lemma {:induction false} MatchingKeeps(rows: seq<FlowRun>, matches: AwaitTrigger -> bool, runs: Runs, now: int)
    requires forall k :: 0 <= k < |rows| ==> rows[k].id in runs && runs[rows[k].id] == rows[k] && !rows[k].queued
    requires forall j, k :: 0 <= j < k < |rows| ==> rows[j].id != rows[k].id
    ensures
      var found := Matching(rows, matches);
      && StillWaiting(found, runs, Event, now)
      && (forall j, k :: 0 <= j < k < |found| ==> found[j].id != found[k].id)
      && (forall k :: 0 <= k < |found| ==> found[k] in rows)
  {
    if rows != [] {
      MatchingKeeps(rows[1..], matches, runs, now);
      var rest := Matching(rows[1..], matches);
      assert forall k :: 0 <= k < |rest| ==> rest[k].id != rows[0].id;
    }
  }

  /** Resuming one of the rows leaves the others as they were. */
  lemma OthersStayWaiting(
    rows: seq<FlowRun>, i: nat, s: State, reason: Reason, enabled: bool, now: int, gateways: Gateways)
    requires i < |rows| && forall j, k :: 0 <= j < k < |rows| ==> rows[j].id != rows[k].id
    requires StillWaiting(rows[i..], s.runs, reason, now) && rows[i].id in s.runs && rows[i].id in s.lives
    ensures StillWaiting(
      rows[i + 1..], Resume(s, rows[i].id, reason, enabled, now, gateways).runs, reason, now)
  {
    var rest := rows[i + 1..];
    assert forall k :: 0 <= k < |rest| ==> rest[k] == rows[i..][k + 1] && rest[k] == rows[i + 1 + k];
    var (row, _) := Resumed(s.runs[rows[i].id], s.lives[rows[i].id], reason, enabled, now, gateways(rows[i].id));
    SetRowElsewhere(rest, s.runs, rows[i].id, row, reason, now);
  }

  lemma SetRowElsewhere(
    rows: seq<FlowRun>, runs: Runs, id: string, row: Option<FlowRun>, reason: Reason, now: int)
    requires StillWaiting(rows, runs, reason, now) && forall k :: 0 <= k < |rows| ==> rows[k].id != id
    ensures StillWaiting(rows, SetRow(runs, id, row), reason, now)
  {
  }

  lemma OneMoreResumption(
    before: State, rows: seq<FlowRun>, i: nat, s: State, reason: Reason, enabled: string -> bool, now: int,
    gateways: Gateways)
    requires i < |rows| && forall j, k :: 0 <= j < k < |rows| ==> rows[j].id != rows[k].id
    requires Fits(s, gateways) && reason != Initial && StillWaiting(rows[i..], s.runs, reason, now)
    requires Leads(before, Resumptions(rows[..i], reason, enabled, now), s, gateways)
    ensures rows[i].id in s.runs && s.runs[rows[i].id] == rows[i] && rows[i].id in s.lives
    ensures rows[i].retryAttempt.Some? ==> rows[i].retryAttempt.value < 255
    ensures
      var after := Resume(s, rows[i].id, reason, enabled(rows[i].id), now, gateways);
      && Fits(after, gateways)
      && Leads(before, Resumptions(rows[..i + 1], reason, enabled, now), after, gateways)
      && StillWaiting(rows[i + 1..], after.runs, reason, now)
  {
    var id := rows[i].id;
    assert rows[i] == rows[i..][0];
    RowIsRecorded(s, id, gateways);
    OthersStayWaiting(rows, i, s, reason, enabled(id), now, gateways);
    ActiveRunResumes(s, id, reason, enabled(id), now, gateways);
    ResumptionsGrow(rows, i, reason, enabled, now);
    OneStep(
      before, Resumptions(rows[..i], reason, enabled, now), s, Resumption(id, reason, enabled(id), now), gateways);
  }

  lemma ActiveRunResumes(s: State, id: string, reason: Reason, enabled: bool, now: int, gateways: Gateways)
    requires Fits(s, gateways) && id in s.runs && !s.runs[id].queued
    ensures id in s.lives
    ensures Fits(Resume(s, id, reason, enabled, now, gateways), gateways)
  {
    ActiveRunIsReady(s, id, gateways);
    ResumeKeepsFits(s, id, reason, enabled, now, gateways);
  }

  function Ids(rows: seq<FlowRun>): set<string> {
    set k | 0 <= k < |rows| :: rows[k].id
  }

  lemma IdsGrow(rows: seq<FlowRun>, row: FlowRun)
    ensures Ids(rows + [row]) == Ids(rows) + {row.id}
  {
    var more := rows + [row];
    assert more[|rows|] == row;
    forall id | id in Ids(rows)
      ensures id in Ids(more)
    {
      var k :| 0 <= k < |rows| && rows[k].id == id;
      assert more[k].id == id;
    }
  }

  /** Where an admitted run stands in the table. */
  lemma AdmissionPlacesRun(admission: FlowAdmission, runs: Runs, run: FlowRun)
    requires IsAdmission(admission, runs, run, run.plan.concurrency)
    requires run.id !in runs && !run.queued
    ensures
      var after := Admitted(runs, run, run.plan.concurrency);
      match admission
      case Enqueued => run.id in after && after[run.id].queued
      case Refusal(activeRuns) => run.id !in after && activeRuns == |RowsOf(runs, run.flowId)|
      case Started => run.id in after && after[run.id] == run && run.plan.concurrency.mode != Restart
      case Restarted(_) => run.id in after && after[run.id] == run && run.plan.concurrency.mode == Restart
  {
  }

  function Starts(ids: seq<string>, enabled: string -> bool, now: int): seq<Action> {
    seq(|ids|, i requires 0 <= i < |ids| => EngineRuns.Action.StartQueued(ids[i], enabled(ids[i]), now))
  }

  // ----- What the limit of a hundred rows leaves out -----

  /** An active run whose trace ends awaiting a trigger that the event matches. */
  predicate AwaitsEvent(runs: Runs, id: string, matches: AwaitTrigger -> bool) {
    && id in runs && !runs[id].queued && runs[id].trace != []
    && Suspension.LastStep(runs[id].trace).Awaiting? && matches(Suspension.LastStep(runs[id].trace).trigger)
  }

  predicate MatchesEvent(runs: Runs, id: string, matches: AwaitTrigger -> bool) {
    id in AwaitingIds(runs) && matches(runs[id].awaiting.value)
  }

  lemma {:induction false} MatchingHas(rows: seq<FlowRun>, matches: AwaitTrigger -> bool, run: FlowRun)
    ensures run in Matching(rows, matches) <==> run in rows && run.awaiting.Some? && matches(run.awaiting.value)
  {
    if rows != [] {
      MatchingHas(rows[1..], matches, run);
      assert rows == [rows[0]] + rows[1..];
    }
  }

  /** In every reachable state an event resumes every run whose trace ends awaiting it exactly when each of
      them has fewer than a hundred awaiting runs before it, in the order of their ids. */
  lemma EventResumesAllIff(read: seq<FlowRun>, s: State, gateways: Gateways, matches: AwaitTrigger -> bool)
    requires Reachable(s, gateways) && IsSelection(read, s.runs, AwaitingIds(s.runs), ById, SCAN_LIMIT)
    ensures (forall id :: AwaitsEvent(s.runs, id, matches) ==> s.runs[id] in Matching(read, matches))
       <==> forall id :: AwaitsEvent(s.runs, id, matches) ==>
              |Ahead(s.runs, AwaitingIds(s.runs), ById, id)| < 100
  {
    ReachableFits(s, gateways);
    forall id
      ensures AwaitsEvent(s.runs, id, matches) <==> MatchesEvent(s.runs, id, matches)
    {
      if id in s.runs && !s.runs[id].queued {
        EngineWaits.RowAwaitsItsTrace(s, gateways, id);
      }
    }
    forall id | MatchesEvent(s.runs, id, matches)
      ensures s.runs[id] in Matching(read, matches) <==> |Ahead(s.runs, AwaitingIds(s.runs), ById, id)| < SCAN_LIMIT
    {
      MatchIsReadIff(read, s.runs, matches, id);
    }
  }

  lemma MatchIsReadIff(read: seq<FlowRun>, runs: Runs, matches: AwaitTrigger -> bool, id: string)
    requires WellKeyed(runs) && IsSelection(read, runs, AwaitingIds(runs), ById, SCAN_LIMIT)
    requires MatchesEvent(runs, id, matches)
    ensures runs[id] in Matching(read, matches) <==> |Ahead(runs, AwaitingIds(runs), ById, id)| < SCAN_LIMIT
  {
    SelectedIffFewAhead(read, runs, AwaitingIds(runs), ById, SCAN_LIMIT, id);
    MatchingHas(read, matches, runs[id]);
    if Contains(read, id) {
      var i :| 0 <= i < |read| && read[i].id == id;
      assert read[i] == runs[id];
    }
  }

  /** A tick resumes every due run exactly when each has fewer than a hundred due runs before it. */
  lemma TickResumesAllIff(due: seq<FlowRun>, runs: Runs, now: int)
    requires IsSelection(due, runs, DueIds(runs, now), ByWake, SCAN_LIMIT)
    ensures (forall id :: id in DueIds(runs, now) ==> Contains(due, id))
       <==> forall id :: id in DueIds(runs, now) ==> |Ahead(runs, DueIds(runs, now), ByWake, id)| < 100
  {
    forall id | id in DueIds(runs, now)
      ensures Contains(due, id) <==> |Ahead(runs, DueIds(runs, now), ByWake, id)| < SCAN_LIMIT
    {
      SelectedIffFewAhead(due, runs, DueIds(runs, now), ByWake, SCAN_LIMIT, id);
    }
  }

  /** A queued run of a flow that has no active one. */
  predicate CouldStart(runs: Runs, id: string) {
    id in runs && runs[id].queued
    && forall other :: other in runs && runs[other].flowId == runs[id].flowId ==> runs[other].queued
  }

  /** The queued rows that are looked at before a given one: those that wake earlier, or as early with a
      smaller id. */
  function QueuedBefore(runs: Runs, id: string): set<string>
    requires id in runs
  {
    set x | x in runs && runs[x].queued
      && (runs[x].wakeAt < runs[id].wakeAt || (runs[x].wakeAt == runs[id].wakeAt && StringOrder.Below(runs[x].id, runs[id].id)))
  }

  /** When a tick has started fewer than a hundred queued runs, it leaves one that could start exactly when
      one has at least a hundred queued rows before it. */
  lemma TickLeavesRunIff(runs: Runs)
    requires NoneInReach(runs)
    ensures (exists id :: CouldStart(runs, id))
       <==> exists id :: CouldStart(runs, id) && |QueuedBefore(runs, id)| >= 100
  {
    if id :| CouldStart(runs, id) {
      assert Eligible(runs, id);
      assert Ahead(runs, QueuedIds(runs), ByWake, id) == QueuedBefore(runs, id);
    }
  }
}
