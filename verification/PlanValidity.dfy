// What every compiled plan guarantees to the interpreter.
module PlanValidity {
  import opened Wrappers
  import opened FlowAst
  import opened Plan
  import opened PlanBounds
  import opened FlowCompiler
  import opened IdempotencyKeys
  import opened FlowRuntime
  import opened Transparency

  predicate ValidOptions(read: CommandOptions) {
    && (read.brightness.Some? ==> 0.0 <= read.brightness.value <= 100.0)
    && (read.timeout.Some? ==> ValidDuration(read.timeout.value))
  }

  lemma {:induction false} OptionsAreValid(items: seq<Form>, read: CommandOptions)
    requires ValidOptions(read)
    ensures ReadOptions(items, read).Ok? ==> ValidOptions(ReadOptions(items, read).value)
  {
    if |items| >= 2 {
      var next := ReadOption(items[0], items[1], read);
      if next.Ok? {
        OptionsAreValid(items[2..], next.value);
      }
    }
  }

  lemma {:induction false} StatePropertyIsNamed(items: seq<Form>, property: Option<string>, to: Option<AwaitValue>)
    requires property.Some? ==> property.value != ""
    ensures
      var r := StateOptions(items, property, to);
      r.Ok? && r.value.0.Some? ==> r.value.0.value != ""
  {
    if |items| >= 2 && items[0] == Keyword("property") && items[1].Text? && items[1].value != "" {
      StatePropertyIsNamed(items[2..], Some(items[1].value), to);
    } else if |items| >= 2 && items[0] == Keyword("to") {
      match items[1] {
        case Bool(b) => StatePropertyIsNamed(items[2..], property, Some(AwaitBool(b)));
        case Text(s) => StatePropertyIsNamed(items[2..], property, Some(AwaitText(s)));
        case Number(literal, unit) =>
          if unit == Some("%") && ParseDecimal(literal).Some? {
            StatePropertyIsNamed(items[2..], property, Some(AwaitPercentage(ParseDecimal(literal).value)));
          }
        case _ =>
      }
    }
  }

  lemma {:induction false} TriggerIsValid(trigger: seq<Form>)
    ensures CompileTrigger(trigger).Ok? ==> ValidTrigger(CompileTrigger(trigger).value)
    decreases trigger, 1
  {
    if HeadOf(trigger) == Some("any-of") {
      TriggersAreValid(trigger[1..]);
    } else if HeadOf(trigger) == Some("state-changed") && |trigger| >= 2 {
      StatePropertyIsNamed(trigger[2..], None, None);
    }
  }

  lemma {:induction false} TriggersAreValid(triggers: seq<Form>)
    ensures
      var r := CompileTriggers(triggers);
      r.Ok? ==> forall t :: t in r.value ==> ValidTrigger(t)
    decreases triggers, 0
  {
    if triggers != [] && triggers[0].List? {
      TriggerIsValid(triggers[0].forms);
      TriggersAreValid(triggers[1..]);
    }
  }

  lemma {:induction false} ActionIsValid(form: Form)
    ensures CompiledAction(form).Ok? ==> ValidAction(CompiledAction(form).value)
  {
    if form.List? {
      var items := form.forms;
      var head := Head(form);
      if head == Some("command") && |items| >= 3 {
        OptionsAreValid(items[3..], NO_OPTIONS);
      } else if head == Some("await") && |items| >= 2 && items[1].List? {
        TriggerIsValid(items[1].forms);
      } else if head == Some("retry") && |items| >= 2 {
        ActionIsValid(items[1]);
      }
    }
  }

  lemma {:induction false} ActionsAreValid(forms: seq<Form>)
    ensures
      var r := CompiledActions(forms);
      r.Ok? ==> forall a :: a in r.value ==> ValidAction(a)
  {
    if forms != [] {
      ActionIsValid(forms[0]);
      ActionsAreValid(forms[1..]);
    }
  }

  lemma {:induction false} MaxRuntimeIsValid(items: seq<Form>)
    ensures
      var r := MaxRuntimeFrom(items);
      r.Ok? && r.value.Some? ==> ValidDuration(r.value.value)
  {
    if items != [] && items[0] != Keyword("max-runtime") && |items| >= 2 {
      MaxRuntimeIsValid(items[2..]);
    }
  }

  lemma {:induction false} ConcurrencyIsValid(items: seq<Form>, policy: ConcurrencyPolicy)
    requires 1 <= policy.maxRuns <= 32
    ensures
      var r := ConcurrencyFrom(items, policy);
      r.Ok? ==> 1 <= r.value.maxRuns <= 32
  {
    if |items| >= 2 {
      var key, value := items[0], items[1];
      var next :=
        if key == Keyword("mode") && value.Keyword? then
          policy.(mode := if value.value == "single" then Single else if value.value == "restart" then Restart else Queue)
        else if key == Keyword("max-runs") && value.Number? && value.unit.None? && ParseU8(value.literal).Some? then
          policy.(maxRuns := ParseU8(value.literal).value)
        else policy;
      if 1 <= next.maxRuns <= 32 {
        ConcurrencyIsValid(items[2..], next);
      }
    }
  }

  /** Compilation only produces plans within the documented bounds. */
  lemma CompiledPlanIsValid(ast: Ast)
    ensures CompiledPlan(ast).Ok? ==> ValidPlan(CompiledPlan(ast).value)
  {
    if CompiledPlan(ast).Ok? {
      var body := Section(ast.root.forms, "do").value;
      ActionsAreValid(if body == [] then [] else body[1..]);
      var meta := Section(ast.root.forms, "meta");
      if meta.Some? {
        var items := if meta.value == [] then [] else meta.value[1..];
        MaxRuntimeIsValid(items);
        ConcurrencyIsValid(items, DEFAULT_POLICY);
      }
    }
  }

  /** In a compiled plan the interpreter never meets a retry of an action it cannot retry. */
  lemma RetryIsNeverInvalid(
    ast: Ast, index: nat, attempt: nat, run: string, replies: Replies, w: World)
    requires CompiledPlan(ast).Ok?
    requires index < |CompiledPlan(ast).value.actions| && CompiledPlan(ast).value.actions[index].Retry?
    ensures
      var issued := Issue(CompiledPlan(ast).value.actions[index].action, index, attempt, run, replies, w);
      issued.Rejected? ==> issued.why != NotRetryable
  {
    CompiledPlanIsValid(ast);
    assert ValidAction(CompiledPlan(ast).value.actions[index]);
  }

  /** A run of a compiled plan suspends at most once per action, and at most nine times per retry. */
  lemma {:induction false} SuspensionBound(actions: seq<PlannedAction>, index: nat)
    requires forall a :: a in actions ==> ValidAction(a)
    requires index <= |actions|
    ensures SuspensionsLeft(actions, index, 0) <= 9 * (|actions| - index)
    decreases |actions| - index
  {
    if index < |actions| {
      assert ValidAction(actions[index]);
      SuspensionBound(actions, index + 1);
    }
  }

  /** Every run of a compiled plan ends, after at most nine suspensions per action. */
  lemma CompiledRunEnds(ast: Ast, run: string, replies: Replies)
    requires CompiledPlan(ast).Ok?
    ensures
      var actions := CompiledPlan(ast).value.actions;
      var (end, segments) := Chain(actions, 0, None, run, replies, World([], []));
      (end.result.Completed? || end.result.Failed?) && segments <= 1 + 9 * |actions|
  {
    CompiledPlanIsValid(ast);
    var actions := CompiledPlan(ast).value.actions;
    SuspensionBound(actions, 0);
    ChainIsOnePass(actions, 0, None, run, replies, World([], []));
  }
}
