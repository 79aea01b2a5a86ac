// Which calls a run makes: every key is used once, every retry stays within its attempts, and a
// gateway that accepts everything receives exactly the commands written in the plan.
module CallDiscipline {
  import opened Wrappers
  import opened StateValues
  import Collections
  import opened Plan
  import opened IdempotencyKeys
  import opened FlowRuntime
  import opened Transparency

  predicate KindFits(action: PlannedAction, kind: Kind) {
    match action
    case Command(_, _, brightness, _) => kind == Switch || (kind == Brightness && brightness.Some?)
    case SetAutomationEnabled(_, _) => kind == Automation
    case _ => false
  }

  /** The calls a plan can justify: a retry accounts for its attempts 1 to `attempts` and no more
      (for a single one when `attempts` is 0), any other action for one call of each of its kinds. */
  predicate TagFits(actions: seq<PlannedAction>, t: Tag) {
    && t.index < |actions|
    && match actions[t.index]
       case Retry(inner, attempts, _) =>
         1 <= t.attempt <= (if attempts == 0 then 1 else attempts as nat) && KindFits(inner, t.kind)
       case action => t.attempt == 0 && KindFits(action, t.kind)
  }

  predicate Before(t: Tag, index: nat, attempt: nat) {
    t.index < index || (t.index == index && t.attempt < attempt)
  }

  ghost predicate Stamped(actions: seq<PlannedAction>, run: string, key: string, index: nat, attempt: nat) {
    exists t: Tag :: key == Key(run, t) && Before(t, index, attempt) && TagFits(actions, t)
  }

  /** Every call carries a key the plan justifies, from before (index, attempt), and no key occurs twice. */
  ghost predicate Disciplined(
    actions: seq<PlannedAction>, run: string, calls: seq<Call>, index: nat, attempt: nat)
  {
    && (forall i :: 0 <= i < |calls| ==> Stamped(actions, run, calls[i].key, index, attempt))
    && (forall i, j :: 0 <= i < j < |calls| ==> calls[i].key != calls[j].key)
  }

  lemma TagOf(actions: seq<PlannedAction>, run: string, key: string, index: nat, attempt: nat) returns (t: Tag)
    requires Stamped(actions, run, key, index, attempt)
    ensures key == Key(run, t) && Before(t, index, attempt) && TagFits(actions, t)
  {
    t :| key == Key(run, t) && Before(t, index, attempt) && TagFits(actions, t);
  }

  lemma DisciplinedLater(
    actions: seq<PlannedAction>, run: string, calls: seq<Call>, index: nat, attempt: nat, index': nat, attempt': nat)
    requires Disciplined(actions, run, calls, index, attempt)
    requires index < index' || (index == index' && attempt <= attempt')
    ensures Disciplined(actions, run, calls, index', attempt')
  {
    forall i | 0 <= i < |calls|
      ensures Stamped(actions, run, calls[i].key, index', attempt')
    {
      assert Stamped(actions, run, calls[i].key, index, attempt);
      var t := TagOf(actions, run, calls[i].key, index, attempt);
      assert Before(t, index', attempt');
    }
  }

  /** Adding a call of kind `kind` at (index, attempt) to calls that lack that key. */
  lemma AddCall(
    actions: seq<PlannedAction>, run: string, calls: seq<Call>, call: Call, t: Tag)
    requires IsRunId(run)
    requires Disciplined(actions, run, calls, t.index, t.attempt + 1)
    requires call.key == Key(run, t) && TagFits(actions, t)
    requires forall i :: 0 <= i < |calls| ==> calls[i].key != Key(run, t)
    ensures Disciplined(actions, run, calls + [call], t.index, t.attempt + 1)
  {
    assert Before(t, t.index, t.attempt + 1);
    assert Stamped(actions, run, call.key, t.index, t.attempt + 1);
  }

  lemma KeyIsNew(actions: seq<PlannedAction>, run: string, calls: seq<Call>, t: Tag)
    requires IsRunId(run) && Disciplined(actions, run, calls, t.index, t.attempt)
    ensures forall i :: 0 <= i < |calls| ==> calls[i].key != Key(run, t)
  {
    forall i | 0 <= i < |calls|
      ensures calls[i].key != Key(run, t)
    {
      var u := TagOf(actions, run, calls[i].key, t.index, t.attempt);
      if Key(run, u) == Key(run, t) {
        KeyInjective(run, u, run, t);
      }
    }
  }

  /** The action an attempt is made at, and the attempt numbers it may carry. */
  predicate MayIssue(actions: seq<PlannedAction>, action: PlannedAction, index: nat, attempt: nat) {
    && index < |actions|
    && match actions[index]
       case Retry(inner, attempts, _) =>
         1 <= attempt <= (if attempts == 0 then 1 else attempts as nat) && action == inner
       case other => attempt == 0 && action == other
  }

  lemma CommandKeepsDiscipline(
    actions: seq<PlannedAction>, action: PlannedAction, index: nat, attempt: nat,
    run: string, replies: Replies, w: World)
    requires IsRunId(run) && MayIssue(actions, action, index, attempt) && action.Command?
    requires Disciplined(actions, run, w.calls, index, attempt)
    requires Disciplined(actions, run, w.calls, index, attempt + 1)
    ensures Disciplined(
      actions, run, Issue(action, index, attempt, run, replies, w).world.calls, index, attempt + 1)
  {
    var value := SwitchValue(action.verb);
    if value.Some? {
      var t1, t2 := Tag(index, attempt, Switch), Tag(index, attempt, Brightness);
      var c1 := CommandCall(action.entityId, "switch", value.value, Key(run, t1));
      KeyIsNew(actions, run, w.calls, t1);
      AddCall(actions, run, w.calls, c1, t1);
      var calls := w.calls + [c1];
      if replies(calls).Accepted? && action.brightness.Some? {
        var c2 := CommandCall(
          action.entityId, "light.brightness", PercentageValue(action.brightness.value), Key(run, t2));
        KeyIsNew(actions, run, w.calls, t2);
        if Key(run, t1) == Key(run, t2) {
          KeyInjective(run, t1, run, t2);
        }
        AddCall(actions, run, calls, c2, t2);
      }
    }
  }

  lemma IssueKeepsDiscipline(
    actions: seq<PlannedAction>, action: PlannedAction, index: nat, attempt: nat,
    run: string, replies: Replies, w: World)
    requires IsRunId(run) && MayIssue(actions, action, index, attempt)
    requires Disciplined(actions, run, w.calls, index, attempt)
    ensures Disciplined(
      actions, run, Issue(action, index, attempt, run, replies, w).world.calls, index, attempt + 1)
  {
    DisciplinedLater(actions, run, w.calls, index, attempt, index, attempt + 1);
    match action {
      case Command(_, _, _, _) =>
        CommandKeepsDiscipline(actions, action, index, attempt, run, replies, w);
      case SetAutomationEnabled(flowId, enabled) =>
        var t := Tag(index, attempt, Automation);
        KeyIsNew(actions, run, w.calls, t);
        AddCall(actions, run, w.calls, AutomationCall(flowId, enabled, Key(run, t)), t);
      case _ =>
    }
  }

  lemma {:induction false} AttemptsKeepDiscipline(
    actions: seq<PlannedAction>, index: nat, attempt: nat, run: string, replies: Replies, w: World)
    requires IsRunId(run) && index < |actions| && actions[index].Retry?
    requires attempt == 0 || attempt < actions[index].attempts as nat
    requires Disciplined(actions, run, w.calls, index, attempt + 1)
    ensures
      var a := actions[index];
      Disciplined(
        actions, run,
        RunAttempts(a.action, index, attempt, a.attempts as nat, a.backoffMilliseconds, run, replies, w).world.calls,
        index + 1, 0)
    decreases actions[index].attempts as nat - attempt
  {
    var a := actions[index];
    IssueKeepsDiscipline(actions, a.action, index, attempt + 1, run, replies, w);
    var issued := Issue(a.action, index, attempt + 1, run, replies, w);
    DisciplinedLater(actions, run, issued.world.calls, index, attempt + 2, index + 1, 0);
    if issued.Rejected? && attempt + 1 < a.attempts as nat {
      AttemptsKeepDiscipline(
        actions, index, attempt + 1, run, replies,
        issued.world.Record(RetryScheduled(attempt + 2, a.attempts as nat, a.backoffMilliseconds)));
    }
  }

  lemma {:induction false} OnePassKeepsDiscipline(
    actions: seq<PlannedAction>, index: nat, run: string, replies: Replies, w: World)
    requires IsRunId(run) && index <= |actions|
    requires Disciplined(actions, run, w.calls, index, 0)
    ensures Disciplined(actions, run, OnePass(actions, index, 0, run, replies, w).world.calls, |actions|, 0)
    decreases |actions| - index
  {
    if index < |actions| {
      if actions[index].Retry? {
        DisciplinedLater(actions, run, w.calls, index, 0, index, 1);
        AttemptsKeepDiscipline(actions, index, 0, run, replies, w);
      } else {
        IssueKeepsDiscipline(actions, actions[index], index, 0, run, replies, w);
        var issued := Issue(actions[index], index, 0, run, replies, w);
        DisciplinedLater(actions, run, issued.world.calls, index, 1, index + 1, 0);
        DisciplinedLater(actions, run, w.calls, index, 0, index + 1, 0);
      }
      var outcome := RunAction(actions[index], index, 0, run, replies, w);
      if outcome.Finished? {
        OnePassKeepsDiscipline(actions, index + 1, run, replies, outcome.world);
      } else {
        DisciplinedLater(actions, run, outcome.world.calls, index + 1, 0, |actions|, 0);
      }
    }
  }

  /** Within one run no key is issued twice and no retry exceeds its attempts, whatever the replies. */
  lemma RunUsesKeysOnce(actions: seq<PlannedAction>, run: string, replies: Replies)
    requires IsRunId(run)
    ensures
      var calls := OnePass(actions, 0, 0, run, replies, World([], [])).world.calls;
      && (forall i, j :: 0 <= i < j < |calls| ==> calls[i].key != calls[j].key)
      && (forall i :: 0 <= i < |calls| ==> Stamped(actions, run, calls[i].key, |actions|, 0))
  {
    OnePassKeepsDiscipline(actions, 0, run, replies, World([], []));
  }

  /** Two runs never share a key. */
  lemma RunsUseDifferentKeys(actions1: seq<PlannedAction>, run1: string, actions2: seq<PlannedAction>, run2: string,
    replies1: Replies, replies2: Replies)
    requires IsRunId(run1) && IsRunId(run2) && run1 != run2
    ensures
      var calls1 := OnePass(actions1, 0, 0, run1, replies1, World([], [])).world.calls;
      var calls2 := OnePass(actions2, 0, 0, run2, replies2, World([], [])).world.calls;
      forall i, j :: 0 <= i < |calls1| && 0 <= j < |calls2| ==> calls1[i].key != calls2[j].key
  {
    OnePassKeepsDiscipline(actions1, 0, run1, replies1, World([], []));
    OnePassKeepsDiscipline(actions2, 0, run2, replies2, World([], []));
    var calls1 := OnePass(actions1, 0, 0, run1, replies1, World([], [])).world.calls;
    var calls2 := OnePass(actions2, 0, 0, run2, replies2, World([], [])).world.calls;
    forall i, j | 0 <= i < |calls1| && 0 <= j < |calls2|
      ensures calls1[i].key != calls2[j].key
    {
      assert Stamped(actions1, run1, calls1[i].key, |actions1|, 0);
      assert Stamped(actions2, run2, calls2[j].key, |actions2|, 0);
      var t := TagOf(actions1, run1, calls1[i].key, |actions1|, 0);
      var u := TagOf(actions2, run2, calls2[j].key, |actions2|, 0);
      if Key(run1, t) == Key(run2, u) {
        KeyInjective(run1, t, run2, u);
      }
    }
  }

  // ----- The calls written in the plan -----

  function CommandCalls(action: PlannedAction, index: nat, attempt: nat, run: string): seq<Call> {
    match action
    case Command(entityId, verb, brightness, _) =>
      [CommandCall(entityId, "switch", BoolValue(verb == "turn-on"), Key(run, Tag(index, attempt, Switch)))]
      + (if brightness.None? then []
         else [CommandCall(
                 entityId, "light.brightness", PercentageValue(brightness.value),
                 Key(run, Tag(index, attempt, Brightness)))])
    case SetAutomationEnabled(flowId, enabled) =>
      [AutomationCall(flowId, enabled, Key(run, Tag(index, attempt, Automation)))]
    case _ => []
  }

  function ActionCalls(action: PlannedAction, index: nat, run: string): seq<Call> {
    if action.Retry? then CommandCalls(action.action, index, 1, run) else CommandCalls(action, index, 0, run)
  }

  /** The calls of the actions from `index` on, up to the first one that cannot be carried out. */
  function WrittenCalls(actions: seq<PlannedAction>, index: nat, run: string): seq<Call>
    decreases |actions| - index
  {
    if index >= |actions| || !Supported(actions[index]) then []
    else ActionCalls(actions[index], index, run) + WrittenCalls(actions, index + 1, run)
  }

  predicate Supported(action: PlannedAction) {
    match action
    case Command(_, verb, _, _) => verb == "turn-on" || verb == "turn-off"
    case Retry(inner, _, _) => (inner.Command? || inner.Audit? || inner.SetAutomationEnabled?) && Supported(inner)
    case _ => true
  }

  lemma AcceptedIssue(
    action: PlannedAction, index: nat, attempt: nat, run: string, replies: Replies, w: World)
    requires forall history :: replies(history).Accepted?
    requires action.Command? || action.Audit? || action.SetAutomationEnabled?
    requires Supported(action)
    ensures
      var issued := Issue(action, index, attempt, run, replies, w);
      issued.Done? && issued.world.calls == w.calls + CommandCalls(action, index, attempt, run)
  {
    if action.Command? {
      var c1 := CommandCalls(action, index, attempt, run)[0];
      var w1 := w.Send(c1);
      assert SwitchValue(action.verb) == Some(BoolValue(action.verb == "turn-on"));
      assert replies(w1.calls).Accepted?;
      if action.brightness.Some? {
        var w2 := w1.Send(CommandCalls(action, index, attempt, run)[1]);
        assert replies(w2.calls).Accepted?;
        assert w2.calls == w.calls + CommandCalls(action, index, attempt, run);
      }
    } else if action.SetAutomationEnabled? {
      assert replies(w.Send(CommandCalls(action, index, attempt, run)[0]).calls).Accepted?;
    }
  }

  lemma AcceptedAction(action: PlannedAction, index: nat, run: string, replies: Replies, w: World)
    requires forall history :: replies(history).Accepted?
    requires Supported(action)
    ensures
      var outcome := RunAction(action, index, 0, run, replies, w);
      outcome.Finished? && outcome.world.calls == w.calls + ActionCalls(action, index, run)
  {
    if action.Retry? {
      AcceptedIssue(action.action, index, 1, run, replies, w);
    } else if !action.Wait? && !action.Await? {
      AcceptedIssue(action, index, 0, run, replies, w);
    }
  }

  lemma {:induction false} UnsupportedAttempts(
    action: PlannedAction, index: nat, attempt: nat, attempts: nat, backoff: nat, run: string, replies: Replies,
    w: World)
    requires !((action.Command? || action.Audit? || action.SetAutomationEnabled?) && Supported(action))
    ensures
      var outcome := RunAttempts(action, index, attempt, attempts, backoff, run, replies, w);
      outcome.Aborted? && outcome.world.calls == w.calls
    decreases attempts - attempt
  {
    var issued := Issue(action, index, attempt + 1, run, replies, w);
    assert issued.Rejected? && issued.world.calls == w.calls;
    if attempt + 1 < attempts {
      UnsupportedAttempts(
        action, index, attempt + 1, attempts, backoff, run, replies,
        issued.world.Record(RetryScheduled(attempt + 2, attempts, backoff)));
    }
  }

  lemma UnsupportedAction(action: PlannedAction, index: nat, run: string, replies: Replies, w: World)
    requires !Supported(action)
    ensures
      var outcome := RunAction(action, index, 0, run, replies, w);
      outcome.Aborted? && outcome.world.calls == w.calls
  {
    if action.Retry? {
      UnsupportedAttempts(
        action.action, index, 0, action.attempts as nat, action.backoffMilliseconds, run, replies, w);
    }
  }

  lemma AcceptedStep(actions: seq<PlannedAction>, index: nat, run: string, replies: Replies, w: World)
    requires (forall history :: replies(history).Accepted?) && index < |actions|
    ensures
      var outcome := RunAction(actions[index], index, 0, run, replies, w);
      if Supported(actions[index]) then
        outcome.Finished? && outcome.world.calls == w.calls + ActionCalls(actions[index], index, run)
      else outcome.Aborted? && outcome.world.calls == w.calls
  {
    if Supported(actions[index]) {
      AcceptedAction(actions[index], index, run, replies, w);
    } else {
      UnsupportedAction(actions[index], index, run, replies, w);
    }
  }

  /** When nothing is refused, the calls of a run are the written ones, in plan order, up to the first
      action with an unknown verb; and the run completes exactly when there is no such action. */
  lemma {:induction false} AcceptedRunIsThePlan(
    actions: seq<PlannedAction>, index: nat, run: string, replies: Replies, w: World)
    requires forall history :: replies(history).Accepted?
    requires index <= |actions|
    ensures
      var outcome := OnePass(actions, index, 0, run, replies, w);
      && outcome.world.calls == w.calls + WrittenCalls(actions, index, run)
      && (outcome.Finished? <==> forall i :: index <= i < |actions| ==> Supported(actions[i]))
    decreases |actions| - index
  {
    if index < |actions| {
      AcceptedStep(actions, index, run, replies, w);
      if Supported(actions[index]) {
        var w1 := RunAction(actions[index], index, 0, run, replies, w).world;
        AcceptedRunIsThePlan(actions, index + 1, run, replies, w1);
        Collections.Associative(w.calls, ActionCalls(actions[index], index, run), WrittenCalls(actions, index + 1, run));
      }
    }
  }
}
