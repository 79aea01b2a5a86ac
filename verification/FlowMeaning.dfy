// What a flow says: which action each form of its body stands for, and which plan its sections make.
module FlowMeaning {
  import opened Wrappers
  import opened FlowAst
  import opened Plan
  import opened FlowCompiler
  import opened FlowReading

  // ----- Triggers and actions -----

  ghost predicate TriggerSays(items: seq<Form>, trigger: AwaitTrigger)
    decreases trigger
  {
    && items != []
    && match trigger
       case EventType(eventType) =>
         && items[0] == Symbol("event") && eventType != ""
         && exists i: nat :: TypesEvent(items, i, eventType) && forall j: nat :: j < i ==> !TypedAt(items, j)
       case StateChanged(entityId, property, to) =>
         && items[0] == Symbol("state-changed") && |items| >= 2 && RefersTo(items[1], entityId) && entityId != ""
         && StateOptionsSay(Pairs(items[2..]), None, None, (Some(property), to))
       case AnyOf(triggers) =>
         && items[0] == Symbol("any-of") && triggers != [] && TriggersSay(items[1..], triggers)
       case CommandConfirmed(_) => false
  }

  ghost predicate TriggersSay(forms: seq<Form>, triggers: seq<AwaitTrigger>)
    decreases triggers
  {
    |forms| == |triggers|
    && forall i :: 0 <= i < |forms| ==> forms[i].List? && TriggerSays(forms[i].forms, triggers[i])
  }

  /** The form stands for the action, in all its parts. */
  ghost predicate ActionSays(form: Form, action: PlannedAction)
    decreases action
  {
    && form.List? && form.forms != []
    && var items := form.forms;
       match action
       case Command(entityId, verb, _, _) =>
         && items[0] == Symbol("command") && |items| >= 3 && |items| % 2 == 1
         && RefersTo(items[1], entityId) && items[2] == Keyword(verb) && CommandSays(Pairs(items[3..]), action)
       case Wait(milliseconds) =>
         items[0] == Symbol("wait") && |items| >= 2 && SaysDuration(items[1], milliseconds)
       case Await(trigger, timeout) =>
         && items[0] == Symbol("await") && |items| == (if timeout.Some? then 4 else 2)
         && items[1].List? && TriggerSays(items[1].forms, trigger)
         && (timeout.Some? ==> items[2] == Keyword("timeout") && SaysDuration(items[3], timeout.value))
       case Audit(message) => items[0] == Symbol("audit") && |items| >= 3 && items[2] == Text(message)
       case SetAutomationEnabled(flowId, enabled) =>
         && items[0] == Symbol(if enabled then "activate" else "deactivate") && |items| == 2
         && RefersTo(items[1], flowId) && items[1].forms[0] == Symbol("flow") && flowId != ""
       case Retry(inner, attempts, backoff) =>
         && items[0] == Symbol("retry") && |items| == 6 && ActionSays(items[1], inner)
         && !inner.Wait? && !inner.Await? && !inner.Retry?
         && items[2] == Keyword("times") && SaysAttempts(items[3], attempts as nat)
         && items[4] == Keyword("backoff") && SaysDuration(items[5], backoff)
  }

  predicate SaysAttempts(value: Form, attempts: nat) {
    value.Number? && value.unit.None? && ParseU8(value.literal) == Some(attempts) && 1 <= attempts <= 10
  }

  lemma TriggerWords()
    ensures "event"[1] == 'v' && "any-of"[1] == 'n' && "state-changed"[1] == 't'
  {
  }

  lemma {:induction false} TriggerIsReadIff(items: seq<Form>, trigger: AwaitTrigger)
    ensures CompileTrigger(items) == Ok(trigger) <==> TriggerSays(items, trigger)
    decreases trigger, 1
  {
    TriggerWords();
    match trigger {
      case EventType(eventType) => EventTypeIsFirst(items, eventType);
      case StateChanged(entityId, property, to) =>
        if |items| >= 2 {
          var options := StateOptions(items[2..], None, None);
          StateOptionsAreReadIff(items[2..], None, None, (Some(property), to));
          assert options.Ok? ==> options.value == (options.value.0, options.value.1);
        }
      case AnyOf(triggers) =>
        if |items| >= 1 {
          TriggersAreReadIff(items[1..], triggers);
        }
      case CommandConfirmed(_) =>
    }
  }

  lemma {:induction false} TriggersAreReadIff(forms: seq<Form>, triggers: seq<AwaitTrigger>)
    ensures CompileTriggers(forms) == Ok(triggers) <==> TriggersSay(forms, triggers)
    decreases triggers, 0
  {
    if forms != [] && triggers != [] && forms[0].List? {
      TriggerIsReadIff(forms[0].forms, triggers[0]);
      TriggersAreReadIff(forms[1..], triggers[1..]);
      assert forall i :: 1 <= i < |forms| ==> forms[i] == forms[1..][i - 1];
      assert forall i :: 1 <= i < |triggers| ==> triggers[i] == triggers[1..][i - 1];
      assert triggers == [triggers[0]] + triggers[1..];
    }
  }

  lemma ActionWords()
    ensures "command"[0] == 'c' && "wait"[0] == 'w' && "await"[..2] == "aw" && "audit"[..2] == "au"
    ensures "activate"[..2] == "ac" && "deactivate"[0] == 'd' && "retry"[0] == 'r'
  {
  }

  lemma AwaitIsReadIff(items: seq<Form>, action: PlannedAction)
    requires action.Await? && items != []
    ensures items[0] == Symbol("await") && CompileAwait(items) == Ok(action) <==> ActionSays(List(items), action)
  {
    if |items| >= 2 && items[1].List? {
      TriggerIsReadIff(items[1].forms, action.trigger);
    }
  }

  lemma RetryIsReadIff(items: seq<Form>, action: PlannedAction)
    requires action.Retry? && |items| >= 2
    requires CompiledAction(items[1]) == Ok(action.action) <==> ActionSays(items[1], action.action)
    ensures CompiledAction(List(items)) == Ok(action) <==> ActionSays(List(items), action)
  {
    ActionWords();
  }

  /** A form stands for an action exactly when it says so part by part. */
  lemma {:induction false} ActionIsReadIff(form: Form, action: PlannedAction)
    ensures CompiledAction(form) == Ok(action) <==> ActionSays(form, action)
    decreases action
  {
    ActionWords();
    if form.List? && form.forms != [] {
      var items := form.forms;
      match action {
        case Command(_, _, _, _) => CommandIsCompiledIff(items, action);
        case Await(_, _) => AwaitIsReadIff(items, action);
        case Retry(inner, _, _) =>
          if |items| >= 2 {
            ActionIsReadIff(items[1], inner);
            RetryIsReadIff(items, action);
          }
        case _ =>
      }
    }
  }

  // ----- A whole plan -----

  /** The items behind the head of the first section of this name; none when there is no such section. */
  ghost predicate HasItems(forms: seq<Form>, name: string, items: seq<Form>) {
    || (items == [] && forall i :: 0 <= i < |forms| ==> Head(forms[i]) != Some(name))
    || exists i :: 0 <= i < |forms| && forms[i] == List([Symbol(name)] + items)
         && forall j :: 0 <= j < i ==> Head(forms[j]) != Some(name)
  }

  lemma HasItemsTail(forms: seq<Form>, name: string, items: seq<Form>)
    requires forms != [] && Head(forms[0]) != Some(name)
    ensures HasItems(forms, name, items) <==> HasItems(forms[1..], name, items)
  {
    var rest := forms[1..];
    assert forall i :: 1 <= i < |forms| ==> forms[i] == rest[i - 1];
    assert forall i :: 0 <= i < |rest| ==> rest[i] == forms[i + 1];
    var section := List([Symbol(name)] + items);
    assert Head(section) == Some(name);
    if i :| 0 <= i < |rest| && rest[i] == section && forall j :: 0 <= j < i ==> Head(rest[j]) != Some(name) {
      assert forms[i + 1] == section;
    }
    if i :| 0 <= i < |forms| && forms[i] == section && forall j :: 0 <= j < i ==> Head(forms[j]) != Some(name) {
      assert rest[i - 1] == section;
    }
  }

  lemma HasItemsHead(forms: seq<Form>, name: string, items: seq<Form>)
    requires forms != [] && Head(forms[0]) == Some(name)
    ensures HasItems(forms, name, items) <==> items == forms[0].forms[1..]
  {
    assert forms[0] == List([Symbol(name)] + forms[0].forms[1..]);
    assert ([Symbol(name)] + items)[1..] == items;
  }

  /** The items of a section, as the compiler finds them. */
  lemma {:induction false} SectionHasItems(forms: seq<Form>, name: string, items: seq<Form>)
    ensures HasItems(forms, name, items)
       <==> match Section(forms, name)
            case None => items == []
            case Some(section) => section != [] && items == section[1..]
    ensures Section(forms, name).None? <==> forall i :: 0 <= i < |forms| ==> Head(forms[i]) != Some(name)
  {
    if forms != [] {
      if Head(forms[0]) == Some(name) {
        HasItemsHead(forms, name, items);
      } else {
        HasItemsTail(forms, name, items);
        SectionHasItems(forms[1..], name, items);
        assert forall i :: 1 <= i < |forms| ==> forms[i] == forms[1..][i - 1];
        assert forall i :: 0 <= i < |forms[1..]| ==> forms[1..][i] == forms[i + 1];
      }
    }
  }

  lemma {:induction false} ActionsAreReadIff(forms: seq<Form>, actions: seq<PlannedAction>)
    ensures CompiledActions(forms) == Ok(actions)
       <==> |actions| == |forms| && forall i :: 0 <= i < |forms| ==> ActionSays(forms[i], actions[i])
  {
    if forms != [] && actions != [] {
      ActionIsReadIff(forms[0], actions[0]);
      ActionsAreReadIff(forms[1..], actions[1..]);
      assert forall i :: 1 <= i < |forms| ==> forms[i] == forms[1..][i - 1];
      assert forall i :: 1 <= i < |actions| ==> actions[i] == actions[1..][i - 1];
      assert actions == [actions[0]] + actions[1..];
    }
  }

  /** The plan has for each form of `do` the action it says. */
  ghost predicate BodySays(forms: seq<Form>, plan: ExecutionPlan) {
    exists body ::
      && HasItems(forms, "do", body) && |plan.actions| == |body|
      && forall i :: 0 <= i < |body| ==> ActionSays(body[i], plan.actions[i])
  }

  /** The policy, a single run unless something else is said, and the bound on the runtime are those of `meta`. */
  ghost predicate MetaSays(forms: seq<Form>, plan: ExecutionPlan) {
    exists meta ::
      && HasItems(forms, "meta", meta)
      && PolicySays(Pairs(meta), ConcurrencyPolicy(Single, 1), plan.concurrency)
      && MaxRuntimeSays(meta, plan.maxRuntimeMilliseconds)
  }

  lemma BodyIsReadIff(forms: seq<Form>, plan: ExecutionPlan)
    requires Section(forms, "do").Some? && Section(forms, "do").value != []
    ensures BodySays(forms, plan) <==> CompiledActions(Section(forms, "do").value[1..]) == Ok(plan.actions)
  {
    var items := Section(forms, "do").value[1..];
    forall body
      ensures HasItems(forms, "do", body) <==> body == items
    {
      SectionHasItems(forms, "do", body);
    }
    ActionsAreReadIff(items, plan.actions);
  }

  lemma MetaIsReadIff(forms: seq<Form>, plan: ExecutionPlan)
    requires Section(forms, "meta").Some? ==> Section(forms, "meta").value != []
    ensures MetaSays(forms, plan)
       <==> FlowMaxRuntime(forms) == Ok(plan.maxRuntimeMilliseconds) && FlowConcurrency(forms) == Ok(plan.concurrency)
  {
    var items := if Section(forms, "meta").Some? then Section(forms, "meta").value[1..] else [];
    forall meta
      ensures HasItems(forms, "meta", meta) <==> meta == items
    {
      SectionHasItems(forms, "meta", meta);
    }
    PolicyIsReadIff(items, DEFAULT_POLICY, plan.concurrency);
    MaxRuntimeIsReadIff(items, plan.maxRuntimeMilliseconds);
  }

  /** A flow compiles to a plan exactly when it is valid and its sections say that plan. */
  lemma PlanIsReadIff(ast: Ast, plan: ExecutionPlan)
    ensures CompiledPlan(ast) == Ok(plan)
       <==> ValidateAst(ast).Ok? && BodySays(ast.root.forms, plan) && MetaSays(ast.root.forms, plan)
  {
    if ValidateAst(ast).Ok? {
      var forms := ast.root.forms;
      CheckRootMeaning(ast.root);
      SectionHasItems(forms, "do", []);
      SectionIsList(forms, "do");
      SectionIsList(forms, "meta");
      BodyIsReadIff(forms, plan);
      MetaIsReadIff(forms, plan);
    }
  }

  lemma {:induction false} SectionIsList(forms: seq<Form>, name: string)
    ensures Section(forms, name).Some? ==> Section(forms, name).value != []
  {
    if forms != [] {
      SectionIsList(forms[1..], name);
    }
  }
}
