// The table of flow runs and its atomic operations.
module RunTable {
  import opened Wrappers
  import opened Collections
  import opened Plan
  import opened FlowRuntime
  import opened StringOrder

  datatype FlowRun = FlowRun(
    id: string,
    flowId: string,
    plan: ExecutionPlan,
    trace: seq<TraceStep>,
    retryAttempt: Option<u8>,
    nextAction: nat,
    wakeAt: int,
    awaiting: Option<AwaitTrigger>,
    awaitTimeoutIsFailure: bool,
    correlationId: string,
    deadlineAt: Option<int>,
    queued: bool)

  datatype FlowAdmission =
    | Started
    | Enqueued
    | Refusal(activeRuns: nat)
    | Restarted(cancelled: seq<FlowRun>)

  type Runs = map<string, FlowRun>

  ghost predicate WellKeyed(runs: Runs) {
    forall id :: id in runs ==> runs[id].id == id
  }

  /** The rows of one flow. */
  function RowsOf(runs: Runs, flowId: string): set<string> {
    set id | id in runs && runs[id].flowId == flowId
  }

  predicate Idle(runs: Runs, flowId: string) {
    forall id :: id in runs && runs[id].flowId == flowId ==> runs[id].queued
  }

  function QueuedIds(runs: Runs): set<string> {
    set id | id in runs && runs[id].queued
  }

  function DueIds(runs: Runs, now: int): set<string> {
    set id | id in runs && !runs[id].queued && runs[id].wakeAt <= now
  }

  function AwaitingIds(runs: Runs): set<string> {
    set id | id in runs && !runs[id].queued && runs[id].awaiting.Some?
  }

  // ----- Admission -----

  /** The table after admission: which rows it keeps, and whether and how the new run enters. */
  function Admitted(runs: Runs, run: FlowRun, policy: ConcurrencyPolicy): Runs {
    var existing := RowsOf(runs, run.flowId);
    match policy.mode
    case Single => if existing == {} then runs[run.id := run] else runs
    case Restart => (runs - existing)[run.id := run]
    case Queue =>
      if |existing| >= policy.maxRuns then runs
      else runs[run.id := run.(queued := if existing == {} then run.queued else true)]
  }

  /** The rows of a flow do not stand in the way of its next run. */
  predicate HasRoom(runs: Runs, run: FlowRun, policy: ConcurrencyPolicy) {
    match policy.mode
    case Single => forall id :: id in runs ==> runs[id].flowId != run.flowId
    case Restart => true
    case Queue => |set id | id in runs && runs[id].flowId == run.flowId| < policy.maxRuns
  }

  /** A run enters the table exactly when there is room; behind others of its flow it is queued, and a restart
      removes them. No other row changes. */
  lemma RunEntersIff(runs: Runs, run: FlowRun, policy: ConcurrencyPolicy)
    requires run.id !in runs && !run.queued && policy.maxRuns >= 1
    ensures
      var after := Admitted(runs, run, policy);
      && (run.id in after <==> HasRoom(runs, run, policy))
      && (run.id in after ==>
            after[run.id] == run.(queued :=
              policy.mode == Queue && exists id :: id in runs && runs[id].flowId == run.flowId))
      && forall id :: id != run.id ==>
           && (id in after <==> id in runs && !(policy.mode == Restart && runs[id].flowId == run.flowId))
           && (id in after ==> after[id] == runs[id])
  {
    var existing := RowsOf(runs, run.flowId);
    assert existing == set id | id in runs && runs[id].flowId == run.flowId;
    assert existing == {} <==> forall id :: id in runs ==> runs[id].flowId != run.flowId by {
      assert forall id :: id in existing <==> id in runs && runs[id].flowId == run.flowId;
    }
    assert |existing| == 0 <==> existing == {};
  }

  ghost predicate IsAdmission(admission: FlowAdmission, runs: Runs, run: FlowRun, policy: ConcurrencyPolicy) {
    var existing := RowsOf(runs, run.flowId);
    match policy.mode
    case Single => if existing == {} then admission == Started else admission == Refusal(|existing|)
    case Restart => admission.Restarted? && IsSelection(admission.cancelled, runs, existing, ByWake, |existing|)
    case Queue =>
      if |existing| >= policy.maxRuns then admission == Refusal(|existing|)
      else if existing == {} then admission == Started
      else admission == Enqueued
  }

  // ----- Ordered selections -----

  datatype Order = ByWake | ById

  predicate Precedes(order: Order, a: FlowRun, b: FlowRun) {
    match order
    case ByWake => a.wakeAt < b.wakeAt || (a.wakeAt == b.wakeAt && Below(a.id, b.id))
    case ById => Below(a.id, b.id)
  }

  /** The first `limit` rows among `ids`, in the given order. */
  ghost predicate IsSelection(rows: seq<FlowRun>, runs: Runs, ids: set<string>, order: Order, limit: nat)
  {
    && |rows| == (if |ids| < limit then |ids| else limit)
    && (forall i :: 0 <= i < |rows| ==> rows[i].id in ids && rows[i].id in runs && runs[rows[i].id] == rows[i])
    && (forall i, j :: 0 <= i < j < |rows| ==> Precedes(order, rows[i], rows[j]))
    && (forall id :: id in ids && id in runs ==>
          (exists i :: 0 <= i < |rows| && rows[i].id == id)
          || (|rows| == limit && forall i :: 0 <= i < |rows| ==> Precedes(order, rows[i], runs[id])))
  }

  lemma {:induction false} LeastExists(runs: Runs, ids: set<string>, order: Order) returns (least: string)
    requires WellKeyed(runs) && ids <= runs.Keys && ids != {}
    ensures least in ids && forall id :: id in ids && id != least ==> Precedes(order, runs[least], runs[id])
    decreases |ids|
  {
    var some :| some in ids;
    var others := ids - {some};
    assert ids == others + {some};
    least := some;
    if others != {} {
      var other := LeastExists(runs, others, order);
      BelowTotal(runs[some].id, runs[other].id);
      if Precedes(order, runs[some], runs[other]) {
        forall id | id in others
          ensures Precedes(order, runs[some], runs[id])
        {
          if id != other {
            PrecedesTransitive(order, runs[some], runs[other], runs[id]);
          }
        }
      } else {
        least := other;
        assert Precedes(order, runs[other], runs[some]);
        assert forall id :: id in ids && id != other ==> id == some || id in others;
      }
    }
  }

  lemma PrecedesTransitive(order: Order, a: FlowRun, b: FlowRun, c: FlowRun)
    requires Precedes(order, a, b) && Precedes(order, b, c)
    ensures Precedes(order, a, c)
  {
    if Below(a.id, b.id) && Below(b.id, c.id) {
      BelowTransitive(a.id, b.id, c.id);
    }
  }

  lemma PrecedesAsymmetric(order: Order, a: FlowRun, b: FlowRun)
    requires Precedes(order, a, b)
    ensures !Precedes(order, b, a)
  {
    if Below(a.id, b.id) {
      BelowAsymmetric(a.id, b.id);
    }
  }

  /** Being able to run next: queued, with no active run of the same flow. */
  predicate Eligible(runs: Runs, id: string) {
    id in runs && runs[id].queued && Idle(runs, runs[id].flowId)
  }

  /** The rows taken so far come before the ones left. */
  ghost predicate Selected(rows: seq<FlowRun>, runs: Runs, ids: set<string>, left: set<string>, order: Order) {
    && left <= ids
    && (forall i :: 0 <= i < |rows| ==>
          rows[i].id in ids && rows[i].id !in left && rows[i].id in runs && runs[rows[i].id] == rows[i])
    && (forall i, j :: 0 <= i < j < |rows| ==> Precedes(order, rows[i], rows[j]))
    && (forall i, id :: 0 <= i < |rows| && id in left && id in runs ==> Precedes(order, rows[i], runs[id]))
    && (forall id :: id in ids && id !in left ==> exists i :: 0 <= i < |rows| && rows[i].id == id)
  }

  lemma SelectOne(
    rows: seq<FlowRun>, runs: Runs, ids: set<string>, left: set<string>, order: Order, next: string)
    requires WellKeyed(runs) && ids <= runs.Keys
    requires Selected(rows, runs, ids, left, order)
    requires next in left && forall id :: id in left && id != next ==> Precedes(order, runs[next], runs[id])
    ensures Selected(rows + [runs[next]], runs, ids, left - {next}, order)
  {
    var more := rows + [runs[next]];
    forall id | id in ids && id !in left - {next}
      ensures exists i :: 0 <= i < |more| && more[i].id == id
    {
      if id == next {
        assert more[|rows|].id == id;
      } else {
        var i :| 0 <= i < |rows| && rows[i].id == id;
        assert more[i].id == id;
      }
    }
    assert forall i :: 0 <= i < |rows| ==> more[i] == rows[i];
    assert forall i, id :: 0 <= i < |more| && id in left - {next} && id in runs ==>
        Precedes(order, more[i], runs[id]);
  }

  const QUEUE_SCAN: nat := 100

  /** The rows among `ids` that come before a given one. */
  function Ahead(runs: Runs, ids: set<string>, order: Order, id: string): set<string>
    requires id in runs
  {
    set x | x in ids && x in runs && Precedes(order, runs[x], runs[id])
  }

  predicate Contains(rows: seq<FlowRun>, id: string) {
    exists i :: 0 <= i < |rows| && rows[i].id == id
  }

  function IdsOf(rows: seq<FlowRun>): set<string> {
    set k | 0 <= k < |rows| :: rows[k].id
  }

  lemma SelectionIsDistinct(rows: seq<FlowRun>, runs: Runs, ids: set<string>, order: Order, limit: nat)
    requires IsSelection(rows, runs, ids, order, limit)
    ensures |IdsOf(rows)| == |rows|
  {
    DistinctRows(rows, order);
    DistinctCount(rows);
  }

  lemma SelectedHasFewAhead(rows: seq<FlowRun>, runs: Runs, ids: set<string>, order: Order, limit: nat, i: nat)
    requires ids <= runs.Keys && IsSelection(rows, runs, ids, order, limit) && i < |rows|
    ensures |Ahead(runs, ids, order, rows[i].id)| <= i
  {
    var before := rows[..i];
    forall x | x in Ahead(runs, ids, order, rows[i].id)
      ensures x in IdsOf(before)
    {
      PrecedesAsymmetric(order, runs[x], rows[i]);
      if j :| 0 <= j < |rows| && rows[j].id == x {
        assert j < i;
        assert before[j].id == x;
      }
    }
    SubsetIsSmaller(Ahead(runs, ids, order, rows[i].id), IdsOf(before));
    DistinctRows(rows, order);
    DistinctCount(before);
  }

  /** Every queued run that could start has at least a hundred queued rows before it. */
  ghost predicate NoneInReach(runs: Runs) {
    forall id :: Eligible(runs, id) ==> |Ahead(runs, QueuedIds(runs), ByWake, id)| >= QUEUE_SCAN
  }

  lemma NoneInReachIff(rows: seq<FlowRun>, runs: Runs)
    requires IsSelection(rows, runs, QueuedIds(runs), ByWake, QUEUE_SCAN)
    ensures NoneInReach(runs) <==> forall i :: 0 <= i < |rows| ==> !Eligible(runs, rows[i].id)
  {
    forall id | Eligible(runs, id)
      ensures Contains(rows, id) <==> |Ahead(runs, QueuedIds(runs), ByWake, id)| < QUEUE_SCAN
    {
      SelectedIffFewAhead(rows, runs, QueuedIds(runs), ByWake, QUEUE_SCAN, id);
    }
    forall i | 0 <= i < |rows| && Eligible(runs, rows[i].id)
      ensures !NoneInReach(runs)
    {
      assert Contains(rows, rows[i].id);
    }
  }

  /** A read with a limit contains a row exactly when fewer rows than the limit come before it. */
  lemma SelectedIffFewAhead(rows: seq<FlowRun>, runs: Runs, ids: set<string>, order: Order, limit: nat, id: string)
    requires ids <= runs.Keys && IsSelection(rows, runs, ids, order, limit) && id in ids
    ensures Contains(rows, id) <==> |Ahead(runs, ids, order, id)| < limit
  {
    if Contains(rows, id) {
      var i :| 0 <= i < |rows| && rows[i].id == id;
      SelectedHasFewAhead(rows, runs, ids, order, limit, i);
    } else {
      SelectionIsDistinct(rows, runs, ids, order, limit);
      SubsetIsSmaller(IdsOf(rows), Ahead(runs, ids, order, id));
    }
  }

  class RunStore {
    var runs: Runs

    constructor ()
      ensures runs == map[]
    {
      runs := map[];
    }

    method Select(ids: set<string>, order: Order, limit: nat) returns (rows: seq<FlowRun>)
      requires WellKeyed(runs) && ids <= runs.Keys
      ensures IsSelection(rows, runs, ids, order, limit)
    {
      rows := [];
      var left := ids;
      while left != {} && |rows| < limit
        invariant |rows| <= limit && |rows| + |left| == |ids|
        invariant Selected(rows, runs, ids, left, order)
        decreases |left|
      {
        ghost var first := LeastExists(runs, left, order);
        var next :| next in left && forall id :: id in left && id != next ==> Precedes(order, runs[next], runs[id]);
        SelectOne(rows, runs, ids, left, order, next);
        rows := rows + [runs[next]];
        left := left - {next};
      }
    }

    method SaveFlowRun(run: FlowRun)
      modifies this
      ensures runs == old(runs)[run.id := run]
    {
      runs := runs[run.id := run];
    }

    method DeleteFlowRun(id: string)
      modifies this
      ensures runs == old(runs) - {id}
    {
      runs := runs - {id};
    }

    method DeleteFlowRuns(rows: seq<FlowRun>)
      modifies this
      ensures runs == old(runs) - (set k | 0 <= k < |rows| :: rows[k].id)
    {
      var i := 0;
      while i < |rows|
        invariant i <= |rows|
        invariant runs == old(runs) - (set k | 0 <= k < i :: rows[k].id)
      {
        DeleteFlowRun(rows[i].id);
        assert (set k | 0 <= k < i + 1 :: rows[k].id) == (set k | 0 <= k < i :: rows[k].id) + {rows[i].id};
        i := i + 1;
      }
    }

    /** Admission in one transaction: refuse, start, restart or queue. */
    method AdmitFlowRun(run: FlowRun, policy: ConcurrencyPolicy) returns (admission: FlowAdmission)
      requires WellKeyed(runs)
      modifies this
      ensures runs == Admitted(old(runs), run, policy)
      ensures IsAdmission(admission, old(runs), run, policy)
    {
      ghost var ids := RowsOf(runs, run.flowId);
      var existing := Select(RowsOf(runs, run.flowId), ByWake, |RowsOf(runs, run.flowId)|);
      assert |existing| == |ids|;
      assert existing == [] <==> ids == {};
      match policy.mode {
        case Single =>
          if existing != [] {
            return Refusal(|existing|);
          }
          SaveFlowRun(run);
          return Started;
        case Restart =>
          SelectionCovers(existing, runs, ids, ByWake);
          DeleteFlowRuns(existing);
          SaveFlowRun(run);
          return Restarted(existing);
        case Queue =>
          if |existing| >= policy.maxRuns {
            return Refusal(|existing|);
          }
          if existing == [] {
            SaveFlowRun(run);
            return Started;
          }
          SaveFlowRun(run.(queued := true));
          return Enqueued;
      }
    }

    /** Takes one queued run whose flow is idle out of the queue: the least of all such runs, when
        there is one among the first hundred queued rows. */
    method DequeueNextFlowRun() returns (next: Option<FlowRun>)
      requires WellKeyed(runs)
      modifies this
      ensures next.None? ==> runs == old(runs)
      ensures next.None? <==> NoneInReach(old(runs))
      ensures next.Some? ==>
        var run := next.value;
        && Eligible(old(runs), run.id)
        && run == old(runs)[run.id].(queued := false)
        && runs == old(runs)[run.id := run]
        && (forall id :: Eligible(old(runs), id) && id != run.id ==> Precedes(ByWake, old(runs)[run.id], old(runs)[id]))
        && forall id :: Eligible(old(runs), id) ==> run.wakeAt <= old(runs)[id].wakeAt
    {
      var rows := Select(QueuedIds(runs), ByWake, QUEUE_SCAN);
      NoneInReachIff(rows, runs);
      var i := 0;
      while i < |rows|
        invariant i <= |rows| && runs == old(runs)
        invariant forall k :: 0 <= k < i ==> !Eligible(runs, rows[k].id)
      {
        var candidate := rows[i];
        if Idle(runs, candidate.flowId) {
          candidate := candidate.(queued := false);
          SaveFlowRun(candidate);
          ghost var before := old(runs);
          forall id | Eligible(before, id) && id != candidate.id
            ensures Precedes(ByWake, rows[i], before[id])
          {
            assert id in QueuedIds(before);
          }
          return Some(candidate);
        }
        i := i + 1;
      }
      return None;
    }

    /** The active runs whose time has come, earliest first. */
    method DueFlowRuns(now: int, limit: nat) returns (rows: seq<FlowRun>)
      requires WellKeyed(runs)
      ensures IsSelection(rows, runs, DueIds(runs, now), ByWake, limit)
      ensures forall i, j :: 0 <= i < j < |rows| ==> rows[i].wakeAt <= rows[j].wakeAt
      ensures |rows| == limit ==>
        forall i, id :: 0 <= i < |rows| && id in DueIds(runs, now) && runs[id] !in rows ==> rows[i].wakeAt <= runs[id].wakeAt
    {
      rows := Select(DueIds(runs, now), ByWake, limit);
    }

    method AwaitingFlowRuns(limit: nat) returns (rows: seq<FlowRun>)
      requires WellKeyed(runs)
      ensures IsSelection(rows, runs, AwaitingIds(runs), ById, limit)
    {
      rows := Select(AwaitingIds(runs), ById, limit);
    }
  }

  /** An unlimited selection returns every row once. */
  lemma SelectionCovers(rows: seq<FlowRun>, runs: Runs, ids: set<string>, order: Order)
    requires WellKeyed(runs) && ids <= runs.Keys
    requires IsSelection(rows, runs, ids, order, |ids|)
    ensures (set k | 0 <= k < |rows| :: rows[k].id) == ids
  {
    var found := set k | 0 <= k < |rows| :: rows[k].id;
    DistinctRows(rows, order);
    DistinctCount(rows);
    SubsetOfSameSize(found, ids);
  }

  lemma DistinctRows(rows: seq<FlowRun>, order: Order)
    requires forall i, j :: 0 <= i < j < |rows| ==> Precedes(order, rows[i], rows[j])
    requires forall i, j :: 0 <= i < |rows| && 0 <= j < |rows| && rows[i].id == rows[j].id ==> rows[i] == rows[j]
    ensures forall i, j :: 0 <= i < j < |rows| ==> rows[i].id != rows[j].id
  {
    forall i, j | 0 <= i < j < |rows|
      ensures rows[i].id != rows[j].id
    {
      if rows[i].id == rows[j].id {
        PrecedesAsymmetric(order, rows[i], rows[j]);
      }
    }
  }

  lemma {:induction false} DistinctCount(rows: seq<FlowRun>)
    requires forall i, j :: 0 <= i < j < |rows| ==> rows[i].id != rows[j].id
    ensures |set k | 0 <= k < |rows| :: rows[k].id| == |rows|
  {
    if rows != [] {
      var shorter := rows[..|rows| - 1];
      DistinctCount(shorter);
      var few := set k | 0 <= k < |shorter| :: shorter[k].id;
      var last := rows[|rows| - 1].id;
      assert last !in few;
      assert (set k | 0 <= k < |rows| :: rows[k].id) == few + {last} by {
        forall id | id in few
          ensures id in set k | 0 <= k < |rows| :: rows[k].id
        {
          var k :| 0 <= k < |shorter| && shorter[k].id == id;
          assert rows[k].id == id;
        }
        assert rows[|rows| - 1].id == last;
        forall k | 0 <= k < |rows|
          ensures rows[k].id in few + {last}
        {
          if k < |shorter| {
            assert shorter[k].id == rows[k].id;
          }
        }
      }
    }
  }

  lemma {:induction false} SubsetOfSameSize(a: set<string>, b: set<string>)
    requires a <= b && |a| == |b|
    ensures a == b
  {
    var extra := b - a;
    assert b == a + extra;
    assert |b| == |a| + |extra|;
  }
}
