// A crash inside a segment: the row of the run is still where the segment began, and the next resumption
// runs it again, with the same keys, against a table of commands that remembers the first time.
module CrashReplay {
  import opened Wrappers
  import opened Collections
  import opened Plan
  import opened FlowRuntime
  import Transparency
  import CallDiscipline
  import IdempotencyKeys
  import Engine
  import EngineRuns
  import opened RunTable

  /** The last call from `from` on with a key. */
  function Find(made: seq<Call>, from: nat, key: string): (r: Option<nat>)
    ensures r.Some? ==> from <= r.value < |made| && made[r.value].key == key
    ensures r.None? ==> forall i :: from <= i < |made| ==> made[i].key != key
  {
    if |made| <= from then None
    else if made[|made| - 1].key == key then Some(|made| - 1)
    else Find(made[..|made| - 1], from, key)
  }

  /** The replies to a segment that is run again, when the calls `made` from `from` on were made before the
      crash. A command that has a row is answered with it, whatever became of it: also one that was
      refused, if the refusal left a row. A change of an automation has no row, and is made again. */
  function AfterCrash(
    replies: Replies, made: seq<Call>, from: nat, leavesRow: Call -> bool, rowId: Call -> string): Replies
  {
    (history: seq<Call>) =>
      if history == [] then replies(history)
      else
        var call := history[|history| - 1];
        match Find(made, from, call.key)
        case None => replies(history)
        case Some(i) =>
          if !call.CommandCall? then replies(history)
          else if replies(made[..i + 1]).Accepted? then replies(made[..i + 1])
          else if leavesRow(made[i]) then Accepted(rowId(made[i]))
          else replies(history)
  }

  /** Call `i` was a command that was refused and left a row. */
  predicate RefusedWithRow(replies: Replies, made: seq<Call>, from: nat, leavesRow: Call -> bool, i: nat) {
    from <= i < |made| && made[i].CommandCall? && replies(made[..i + 1]).Refused? && leavesRow(made[i])
  }

  predicate KeysDiffer(calls: seq<Call>) {
    forall i, j :: 0 <= i < j < |calls| ==> calls[i].key != calls[j].key
  }

  // ----- A segment depends on the replies to its own calls -----

  predicate Agree(r1: Replies, r2: Replies, calls: seq<Call>, from: nat, upTo: nat) {
    forall k :: from < k <= upTo && k <= |calls| ==> r1(calls[..k]) == r2(calls[..k])
  }

  lemma AgreeOnPrefix(r1: Replies, r2: Replies, calls: seq<Call>, longer: seq<Call>, from: nat, upTo: nat)
    requires Agree(r1, r2, longer, from, upTo) && calls <= longer
    ensures Agree(r1, r2, calls, from, upTo)
  {
    forall k | from < k <= upTo && k <= |calls|
      ensures r1(calls[..k]) == r2(calls[..k])
    {
      assert calls[..k] == longer[..k];
    }
  }

  /** If the replies agree on every call an attempt makes, the attempt is the same. */
  lemma IssueAgrees(
    action: PlannedAction, index: nat, attempt: nat, run: string, r1: Replies, r2: Replies, w: World)
    requires
      var calls := Issue(action, index, attempt, run, r1, w).world.calls;
      Agree(r1, r2, calls, |w.calls|, |calls|)
    ensures Issue(action, index, attempt, run, r2, w) == Issue(action, index, attempt, run, r1, w)
  {
    var calls := Issue(action, index, attempt, run, r1, w).world.calls;
    assert |calls| > |w.calls| ==> r1(calls[..|w.calls| + 1]) == r2(calls[..|w.calls| + 1]);
    assert |calls| > |w.calls| + 1 ==> r1(calls[..|w.calls| + 2]) == r2(calls[..|w.calls| + 2]);
    if |calls| == |w.calls| + 1 {
      assert calls[..|w.calls| + 1] == calls;
    } else if |calls| == |w.calls| + 2 {
      assert calls[..|w.calls| + 2] == calls;
    }
  }

  function AttemptOf(action: PlannedAction, retry: Option<u8>): nat {
    if action.Retry? then retry.GetOr(0) as nat + 1 else 0
  }

  function Inner(action: PlannedAction): PlannedAction {
    if action.Retry? then action.action else action
  }

  predicate Acts(action: PlannedAction) {
    !action.Wait? && !action.Await?
  }

  function IssuedBy(
    action: PlannedAction, index: nat, retry: Option<u8>, run: string, replies: Replies, w: World): Issued
  {
    Issue(Inner(action), index, AttemptOf(action, retry), run, replies, w)
  }

  /** A step makes the calls of its one attempt. */
  lemma StepCalls(action: PlannedAction, index: nat, retry: Option<u8>, run: string, replies: Replies, w: World)
    ensures
      var step := StepAction(action, index, retry, run, replies, w);
      var calls := if step.Continue? then step.world.calls else step.end.calls;
      calls == if Acts(action) then IssuedBy(action, index, retry, run, replies, w).world.calls else w.calls
  {
  }

  lemma StepAgrees(
    action: PlannedAction, index: nat, retry: Option<u8>, run: string, r1: Replies, r2: Replies, w: World)
    requires Acts(action) ==>
      var calls := IssuedBy(action, index, retry, run, r1, w).world.calls;
      Agree(r1, r2, calls, |w.calls|, |calls|)
    ensures StepAction(action, index, retry, run, r2, w) == StepAction(action, index, retry, run, r1, w)
  {
    if Acts(action) {
      IssueAgrees(Inner(action), index, AttemptOf(action, retry), run, r1, r2, w);
    }
  }

  lemma {:induction false} SegmentAgrees(
    actions: seq<PlannedAction>, index: nat, retry: Option<u8>, run: string, r1: Replies, r2: Replies, w: World)
    requires
      var calls := Segment(actions, index, retry, run, r1, w).calls;
      Agree(r1, r2, calls, |w.calls|, |calls|)
    ensures Segment(actions, index, retry, run, r2, w) == Segment(actions, index, retry, run, r1, w)
    decreases |actions| - index
  {
    if index < |actions| {
      var action, end := actions[index], Segment(actions, index, retry, run, r1, w);
      var step := StepAction(action, index, retry, run, r1, w);
      StepCalls(action, index, retry, run, r1, w);
      if step.Continue? {
        Engine.SegmentExtends(actions, index + 1, None, run, r1, step.world);
        AgreeOnPrefix(r1, r2, step.world.calls, end.calls, |w.calls|, |end.calls|);
      }
      StepAgrees(action, index, retry, run, r1, r2, w);
      if step.Continue? {
        Transparency.IssueExtends(Inner(action), index, AttemptOf(action, retry), run, r1, w);
        SegmentAgrees(actions, index + 1, None, run, r1, r2, step.world);
      }
    }
  }

  // ----- A refusal ends its segment, and an acceptance in its place changes the end -----

  lemma {:induction false} SegmentTrace(
    actions: seq<PlannedAction>, index: nat, retry: Option<u8>, run: string, replies: Replies, w: World)
    ensures w.steps <= Segment(actions, index, retry, run, replies, w).result.trace
    decreases |actions| - index
  {
    if index < |actions| {
      var step := StepAction(actions[index], index, retry, run, replies, w);
      if step.Continue? {
        SegmentTrace(actions, index + 1, None, run, replies, step.world);
      }
    }
  }

  /** The reply to the last call of an attempt that is done was an acceptance; a refusal is always the reply
      to the last call. */
  lemma IssueRefusal(action: PlannedAction, index: nat, attempt: nat, run: string, replies: Replies, w: World, k: nat)
    requires
      var issued := Issue(action, index, attempt, run, replies, w);
      |w.calls| < k <= |issued.world.calls| && replies(issued.world.calls[..k]).Refused?
    ensures
      var issued := Issue(action, index, attempt, run, replies, w);
      issued.Rejected? && k == |issued.world.calls|
  {
    var calls := Issue(action, index, attempt, run, replies, w).world.calls;
    assert calls[..|calls|] == calls;
    if action.Command? && SwitchValue(action.verb).Some? {
      var w1 := w.Send(CommandCall(
        action.entityId, "switch", SwitchValue(action.verb).value,
        IdempotencyKeys.Key(run, IdempotencyKeys.Tag(index, attempt, IdempotencyKeys.Switch))));
      assert calls[..|w.calls| + 1] == w1.calls;
    }
  }

  lemma {:induction false} RefusalIsLast(
    actions: seq<PlannedAction>, index: nat, retry: Option<u8>, run: string, replies: Replies, w: World, k: nat)
    requires
      var calls := Segment(actions, index, retry, run, replies, w).calls;
      |w.calls| < k <= |calls| && replies(calls[..k]).Refused?
    ensures k == |Segment(actions, index, retry, run, replies, w).calls|
    decreases |actions| - index
  {
    if index < |actions| {
      var action, calls := actions[index], Segment(actions, index, retry, run, replies, w).calls;
      var step := StepAction(action, index, retry, run, replies, w);
      StepCalls(action, index, retry, run, replies, w);
      if step.Continue? {
        Engine.SegmentExtends(actions, index + 1, None, run, replies, step.world);
        if k <= |step.world.calls| {
          assert step.world.calls[..k] == calls[..k];
          IssueRefusal(Inner(action), index, AttemptOf(action, retry), run, replies, w, k);
        } else {
          RefusalIsLast(actions, index + 1, None, run, replies, step.world, k);
        }
      } else if Acts(action) {
        IssueRefusal(Inner(action), index, AttemptOf(action, retry), run, replies, w, k);
      }
    }
  }

  /** The last call of an attempt, refused under `r1`, is accepted under `r2`: the attempt then either makes
      a further call or records that it was done. */
  lemma IssueDiffers(action: PlannedAction, index: nat, attempt: nat, run: string, r1: Replies, r2: Replies, w: World)
    requires
      var calls := Issue(action, index, attempt, run, r1, w).world.calls;
      && |calls| > |w.calls| && r1(calls).Refused? && r2(calls).Accepted?
      && Agree(r1, r2, calls, |w.calls|, |calls| - 1)
    ensures
      var i1, i2 := Issue(action, index, attempt, run, r1, w), Issue(action, index, attempt, run, r2, w);
      || |i2.world.calls| > |i1.world.calls|
      || (i2.Done? && |i2.world.steps| == |w.steps| + 1
          && (i2.world.steps[|w.steps|].CommandRequested? || i2.world.steps[|w.steps|].AutomationChanged?))
  {
    var calls := Issue(action, index, attempt, run, r1, w).world.calls;
    if |calls| == |w.calls| + 2 {
      assert r1(calls[..|w.calls| + 1]) == r2(calls[..|w.calls| + 1]);
      if action.Command? && SwitchValue(action.verb).Some? {
        var w1 := w.Send(CommandCall(
          action.entityId, "switch", SwitchValue(action.verb).value,
          IdempotencyKeys.Key(run, IdempotencyKeys.Tag(index, attempt, IdempotencyKeys.Switch))));
        assert calls[..|w.calls| + 1] == w1.calls;
      }
    }
  }

  /** The trace of a refusal: the steps so far and a note of what failed. */
  lemma RefusedStep(action: PlannedAction, index: nat, retry: Option<u8>, run: string, replies: Replies, w: World)
    requires Acts(action) && IssuedBy(action, index, retry, run, replies, w).Rejected?
    ensures
      var step := StepAction(action, index, retry, run, replies, w);
      && step.Stop? && step.end.calls == IssuedBy(action, index, retry, run, replies, w).world.calls
      && |step.end.result.trace| == |w.steps| + 1
      && !step.end.result.trace[|w.steps|].CommandRequested? && !step.end.result.trace[|w.steps|].AutomationChanged?
  {
  }

  lemma StepDiffers(
    actions: seq<PlannedAction>, index: nat, retry: Option<u8>, run: string, r1: Replies, r2: Replies, w: World)
    requires index < |actions| && Acts(actions[index])
    requires IssuedBy(actions[index], index, retry, run, r1, w).Rejected?
    requires
      var calls := IssuedBy(actions[index], index, retry, run, r1, w).world.calls;
      && |calls| > |w.calls| && r1(calls).Refused? && r2(calls).Accepted?
      && Agree(r1, r2, calls, |w.calls|, |calls| - 1)
    ensures Segment(actions, index, retry, run, r2, w) != Segment(actions, index, retry, run, r1, w)
  {
    var action := actions[index];
    RefusedStep(action, index, retry, run, r1, w);
    IssueDiffers(Inner(action), index, AttemptOf(action, retry), run, r1, r2, w);
    var step := StepAction(action, index, retry, run, r2, w);
    StepCalls(action, index, retry, run, r2, w);
    var issued := IssuedBy(action, index, retry, run, r2, w);
    if step.Continue? {
      Engine.SegmentExtends(actions, index + 1, None, run, r2, step.world);
      SegmentTrace(actions, index + 1, None, run, r2, step.world);
    } else if issued.Done? {
      assert issued.world.steps <= step.end.result.trace;
    }
  }

  lemma {:induction false} SegmentDiffers(
    actions: seq<PlannedAction>, index: nat, retry: Option<u8>, run: string, r1: Replies, r2: Replies, w: World)
    requires
      var calls := Segment(actions, index, retry, run, r1, w).calls;
      && |calls| > |w.calls| && r1(calls).Refused? && r2(calls).Accepted?
      && Agree(r1, r2, calls, |w.calls|, |calls| - 1)
    ensures Segment(actions, index, retry, run, r2, w) != Segment(actions, index, retry, run, r1, w)
    decreases |actions| - index
  {
    if index < |actions| {
      var action, calls := actions[index], Segment(actions, index, retry, run, r1, w).calls;
      var step := StepAction(action, index, retry, run, r1, w);
      StepCalls(action, index, retry, run, r1, w);
      assert calls[..|calls|] == calls;
      if step.Continue? {
        Engine.SegmentExtends(actions, index + 1, None, run, r1, step.world);
        Transparency.IssueExtends(Inner(action), index, AttemptOf(action, retry), run, r1, w);
        if step.world.calls == calls {
          IssueRefusal(Inner(action), index, AttemptOf(action, retry), run, r1, w, |calls|);
        }
        AgreeOnPrefix(r1, r2, step.world.calls, calls, |w.calls|, |calls| - 1);
        StepAgrees(action, index, retry, run, r1, r2, w);
        SegmentDiffers(actions, index + 1, None, run, r1, r2, step.world);
      } else {
        assert Acts(action);
        IssueRefusal(Inner(action), index, AttemptOf(action, retry), run, r1, w, |calls|);
        StepDiffers(actions, index, retry, run, r1, r2, w);
      }
    }
  }

  // ----- The segment after the crash -----

  /** What the replies after the crash are, along the calls of the segment. */
  lemma ReplyAfterCrash(
    replies: Replies, made: seq<Call>, from: nat, leavesRow: Call -> bool, rowId: Call -> string, calls: seq<Call>, k: nat)
    requires KeysDiffer(calls) && made <= calls && from < k <= |calls|
    ensures AfterCrash(replies, made, from, leavesRow, rowId)(calls[..k])
         == if RefusedWithRow(replies, made, from, leavesRow, k - 1) then Accepted(rowId(made[k - 1])) else replies(calls[..k])
  {
    var history := calls[..k];
    assert history[|history| - 1] == calls[k - 1];
    match Find(made, from, calls[k - 1].key)
    case None =>
    case Some(i) =>
      assert calls[i].key == calls[k - 1].key;
      assert i == k - 1;
      assert made[..k] == history;
  }

  /** The calls made before the crash include a refusal that left a row. */
  predicate LosesRefusal(replies: Replies, made: seq<Call>, from: nat, leavesRow: Call -> bool) {
    exists i: nat :: i < |made| && RefusedWithRow(replies, made, from, leavesRow, i)
  }

  lemma RefusalEndsSegment(
    actions: seq<PlannedAction>, index: nat, retry: Option<u8>, run: string, replies: Replies, w: World,
    made: seq<Call>, leavesRow: Call -> bool, i: nat)
    requires w.calls <= made <= Segment(actions, index, retry, run, replies, w).calls
    requires RefusedWithRow(replies, made, |w.calls|, leavesRow, i)
    ensures
      var calls := Segment(actions, index, retry, run, replies, w).calls;
      i + 1 == |calls| && made == calls && replies(calls).Refused?
  {
    var calls := Segment(actions, index, retry, run, replies, w).calls;
    assert made[..i + 1] == calls[..i + 1] && calls[..|calls|] == calls && made[..|made|] == made;
    RefusalIsLast(actions, index, retry, run, replies, w, i + 1);
  }

  lemma OnlyLastIsRefused(
    actions: seq<PlannedAction>, index: nat, retry: Option<u8>, run: string, replies: Replies, w: World,
    made: seq<Call>, leavesRow: Call -> bool)
    requires w.calls <= made <= Segment(actions, index, retry, run, replies, w).calls
    ensures forall j: nat :: j < |Segment(actions, index, retry, run, replies, w).calls| - 1 ==>
      !RefusedWithRow(replies, made, |w.calls|, leavesRow, j)
  {
    var calls := Segment(actions, index, retry, run, replies, w).calls;
    forall j: nat | j < |calls| - 1
      ensures !RefusedWithRow(replies, made, |w.calls|, leavesRow, j)
    {
      if RefusedWithRow(replies, made, |w.calls|, leavesRow, j) {
        RefusalEndsSegment(actions, index, retry, run, replies, w, made, leavesRow, j);
      }
    }
  }

  /** An acceptance in place of the refusal that ended a segment. */
  lemma AcceptanceDiffers(
    actions: seq<PlannedAction>, index: nat, retry: Option<u8>, run: string, r1: Replies, r2: Replies, w: World,
    calls: seq<Call>)
    requires calls == Segment(actions, index, retry, run, r1, w).calls && |calls| > |w.calls|
    requires r1(calls).Refused? && r2(calls[..|calls|]).Accepted? && Agree(r1, r2, calls, |w.calls|, |calls| - 1)
    ensures Segment(actions, index, retry, run, r2, w) != Segment(actions, index, retry, run, r1, w)
  {
    assert calls[..|calls|] == calls;
    SegmentDiffers(actions, index, retry, run, r1, r2, w);
  }

  lemma AgreesBefore(
    replies: Replies, made: seq<Call>, from: nat, leavesRow: Call -> bool, rowId: Call -> string, calls: seq<Call>,
    upTo: nat)
    requires KeysDiffer(calls) && made <= calls && upTo <= |calls|
    requires forall i: nat :: i < upTo ==> !RefusedWithRow(replies, made, from, leavesRow, i)
    ensures Agree(replies, AfterCrash(replies, made, from, leavesRow, rowId), calls, from, upTo)
  {
    forall k | from < k <= upTo && k <= |calls|
      ensures replies(calls[..k]) == AfterCrash(replies, made, from, leavesRow, rowId)(calls[..k])
    {
      ReplyAfterCrash(replies, made, from, leavesRow, rowId, calls, k);
    }
  }

  lemma LastIsAccepted(
    replies: Replies, made: seq<Call>, from: nat, leavesRow: Call -> bool, rowId: Call -> string, i: nat)
    requires KeysDiffer(made) && i + 1 == |made| && RefusedWithRow(replies, made, from, leavesRow, i)
    ensures AfterCrash(replies, made, from, leavesRow, rowId)(made[..|made|]).Accepted?
  {
    ReplyAfterCrash(replies, made, from, leavesRow, rowId, made, |made|);
  }

  lemma ReplayDiffers(
    actions: seq<PlannedAction>, index: nat, retry: Option<u8>, run: string, replies: Replies, w: World,
    made: seq<Call>, leavesRow: Call -> bool, rowId: Call -> string, i: nat)
    requires
      var calls := Segment(actions, index, retry, run, replies, w).calls;
      w.calls <= made <= calls && KeysDiffer(calls)
    requires RefusedWithRow(replies, made, |w.calls|, leavesRow, i)
    ensures Segment(actions, index, retry, run, AfterCrash(replies, made, |w.calls|, leavesRow, rowId), w)
         != Segment(actions, index, retry, run, replies, w)
  {
    var calls, from := Segment(actions, index, retry, run, replies, w).calls, |w.calls|;
    RefusalEndsSegment(actions, index, retry, run, replies, w, made, leavesRow, i);
    OnlyLastIsRefused(actions, index, retry, run, replies, w, made, leavesRow);
    AgreesBefore(replies, made, from, leavesRow, rowId, calls, |calls| - 1);
    LastIsAccepted(replies, made, from, leavesRow, rowId, i);
    AcceptanceDiffers(
      actions, index, retry, run, replies, AfterCrash(replies, made, from, leavesRow, rowId), w, calls);
  }

  /** A segment that is run again after a crash, which interrupted it after any of its calls, does exactly
      what it would have done without the crash, exactly when none of the calls already made was a command
      that was refused and left a row. */
  lemma ReplayIsSameIff(
    actions: seq<PlannedAction>, index: nat, retry: Option<u8>, run: string, replies: Replies, w: World,
    made: seq<Call>, leavesRow: Call -> bool, rowId: Call -> string)
    requires
      var calls := Segment(actions, index, retry, run, replies, w).calls;
      w.calls <= made <= calls && KeysDiffer(calls)
    ensures
      Segment(actions, index, retry, run, AfterCrash(replies, made, |w.calls|, leavesRow, rowId), w)
      == Segment(actions, index, retry, run, replies, w)
      <==> !LosesRefusal(replies, made, |w.calls|, leavesRow)
  {
    var calls, from := Segment(actions, index, retry, run, replies, w).calls, |w.calls|;
    var after := AfterCrash(replies, made, from, leavesRow, rowId);
    if LosesRefusal(replies, made, from, leavesRow) {
      var i: nat :| i < |made| && RefusedWithRow(replies, made, from, leavesRow, i);
      ReplayDiffers(actions, index, retry, run, replies, w, made, leavesRow, rowId, i);
    } else {
      AgreesBefore(replies, made, from, leavesRow, rowId, calls, |calls|);
      SegmentAgrees(actions, index, retry, run, replies, after, w);
    }
  }

  lemma SegmentIsPartOfPass(
    actions: seq<PlannedAction>, index: nat, retry: Option<u8>, run: string, replies: Replies, w: World)
    requires Transparency.Resumable(retry)
    ensures Segment(actions, index, retry, run, replies, w).calls
         <= Transparency.OnePass(actions, index, Transparency.Attempt(retry), run, replies, w).world.calls
  {
    Transparency.SegmentFollowsOnePass(actions, index, retry, run, replies, w);
    var end := Segment(actions, index, retry, run, replies, w);
    if end.result.Suspended? {
      Transparency.OnePassExtends(
        actions, end.result.nextAction, Transparency.Attempt(end.result.retryAttempt), run, replies,
        World(end.calls, end.result.trace));
    }
  }

  lemma PassKeysDiffer(actions: seq<PlannedAction>, id: string, replies: Replies, calls: seq<Call>)
    requires IdempotencyKeys.IsRunId(id)
    requires calls == Transparency.OnePass(actions, 0, 0, id, replies, World([], [])).world.calls
    ensures KeysDiffer(calls)
  {
    CallDiscipline.RunUsesKeysOnce(actions, id, replies);
  }

  lemma WholeKeysDiffer(id: string, life: Engine.Life, replies: Replies)
    requires IdempotencyKeys.IsRunId(id)
    ensures KeysDiffer(Engine.WholeRun(id, life, replies).world.calls)
  {
    PassKeysDiffer(life.plan.actions, id, replies, Engine.WholeRun(id, life, replies).world.calls);
  }

  lemma PrefixKeysDiffer(calls: seq<Call>, longer: seq<Call>)
    requires KeysDiffer(longer) && calls <= longer
    ensures KeysDiffer(calls)
  {
    assert forall i :: 0 <= i < |calls| ==> calls[i] == longer[i];
  }

  lemma SegmentKeysDiffer(run: FlowRun, life: Engine.Life, id: string, replies: Replies)
    requires Engine.ReadyToResume(run, life, id, replies) && IdempotencyKeys.IsRunId(id)
    ensures KeysDiffer(Engine.Advance(run, life.calls, replies).calls)
  {
    SegmentIsPartOfPass(
      run.plan.actions, run.nextAction, run.retryAttempt, id, replies, World(life.calls, run.trace));
    WholeKeysDiffer(id, life, replies);
    PrefixKeysDiffer(Engine.Advance(run, life.calls, replies).calls, Engine.WholeRun(id, life, replies).world.calls);
  }

  /** In every reachable state of the engine: a crash in a segment of an active run is repaired by running the
      segment again exactly when it did not interrupt it after a refusal that left a row. */
  lemma CrashIsRepairedIff(
    s: Engine.State, gateways: Engine.Gateways, id: string, made: seq<Call>, leavesRow: Call -> bool,
    rowId: Call -> string)
    requires EngineRuns.Reachable(s, gateways) && id in s.runs && !s.runs[id].queued && IdempotencyKeys.IsRunId(id)
    requires id in s.lives && s.lives[id].calls <= made
    requires made <= Engine.Advance(s.runs[id], s.lives[id].calls, gateways(id)).calls
    ensures
      var run, from := s.runs[id], s.lives[id].calls;
      Engine.Advance(run, from, AfterCrash(gateways(id), made, |from|, leavesRow, rowId))
      == Engine.Advance(run, from, gateways(id))
      <==> !LosesRefusal(gateways(id), made, |from|, leavesRow)
  {
    EngineRuns.ReachableFits(s, gateways);
    EngineRuns.ActiveRunIsReady(s, id, gateways);
    var run := s.runs[id];
    SegmentKeysDiffer(run, s.lives[id], id, gateways(id));
    ReplayIsSameIff(
      run.plan.actions, run.nextAction, run.retryAttempt, run.id, gateways(id), World(s.lives[id].calls, run.trace),
      made, leavesRow, rowId);
  }
}
