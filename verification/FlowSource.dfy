// Source forms, written apart from the compiler: one for every plan within the bounds, which compiles to
// exactly that plan.
module FlowSource {
  import opened Wrappers
  import opened FlowAst
  import opened Plan
  import opened PlanBounds
  import opened FlowCompiler
  import Decimals
  import IdempotencyKeys
  import PlanValidity

  // ----- How a plan is written -----

  ghost predicate IsDecimalValue(p: real) {
    exists literal :: ParseDecimal(literal) == Some(p)
  }

  /** Some literal of a percentage. */
  ghost function Percent(p: real): (form: Form)
    requires IsDecimalValue(p)
    ensures form.Number? && form.unit == Some("%") && ParseDecimal(form.literal) == Some(p)
  {
    var literal :| ParseDecimal(literal) == Some(p);
    Number(literal, Some("%"))
  }

  function Milliseconds(n: nat): Form {
    Number(IdempotencyKeys.Decimal(n), Some("ms"))
  }

  function Count(n: nat): Form {
    Number(IdempotencyKeys.Decimal(n), None)
  }

  function ReferenceForm(kind: string, id: string): Form {
    List([Symbol(kind), Text(id)])
  }

  /** The percentages of a trigger are decimal, as those of a source text are. */
  ghost predicate TriggerIsDecimal(trigger: AwaitTrigger) {
    match trigger
    case AnyOf(triggers) => forall t :: t in triggers ==> TriggerIsDecimal(t)
    case StateChanged(_, _, Some(AwaitPercentage(p))) => IsDecimalValue(p)
    case _ => true
  }

  ghost predicate ActionIsDecimal(action: PlannedAction) {
    match action
    case Command(_, _, Some(level), _) => IsDecimalValue(level)
    case Await(trigger, _) => TriggerIsDecimal(trigger)
    case Retry(inner, _, _) => ActionIsDecimal(inner)
    case _ => true
  }

  ghost function TargetForms(to: Option<AwaitValue>): seq<Form>
    requires to.Some? && to.value.AwaitPercentage? ==> IsDecimalValue(to.value.p)
  {
    match to
    case None => []
    case Some(AwaitBool(b)) => [Keyword("to"), Bool(b)]
    case Some(AwaitText(s)) => [Keyword("to"), Text(s)]
    case Some(AwaitPercentage(p)) => [Keyword("to"), Percent(p)]
  }

  ghost function TriggerForm(trigger: AwaitTrigger): (form: Form)
    requires ValidTrigger(trigger) && TriggerIsDecimal(trigger)
    ensures form.List?
    decreases trigger, 0
  {
    match trigger
    case AnyOf(triggers) => List([Symbol("any-of")] + TriggerForms(triggers))
    case EventType(eventType) => List([Symbol("event"), Keyword("type"), Text(eventType)])
    case StateChanged(entityId, property, to) =>
      List([Symbol("state-changed"), ReferenceForm("entity", entityId), Keyword("property"), Text(property)]
           + TargetForms(to))
  }

  ghost function TriggerForms(triggers: seq<AwaitTrigger>): (forms: seq<Form>)
    requires forall t :: t in triggers ==> ValidTrigger(t) && TriggerIsDecimal(t)
    decreases triggers, 1
  {
    if triggers == [] then [] else [TriggerForm(triggers[0])] + TriggerForms(triggers[1..])
  }

  ghost function BrightnessForms(brightness: Option<real>): seq<Form>
    requires brightness.Some? ==> IsDecimalValue(brightness.value)
  {
    match brightness
    case None => []
    case Some(level) => [Keyword("brightness"), Percent(level)]
  }

  function ConfirmationForms(confirmation: Confirmation): seq<Form> {
    match confirmation
    case Transport => [Keyword("confirm"), Keyword("transport")]
    case NoConfirmation => [Keyword("confirm"), Keyword("none")]
    case Reported(timeout) =>
      [Keyword("confirm"), Keyword("reported"), Keyword("timeout"), Milliseconds(timeout)]
  }

  function TimeoutForms(timeout: Option<nat>): seq<Form> {
    match timeout
    case None => []
    case Some(milliseconds) => [Keyword("timeout"), Milliseconds(milliseconds)]
  }

  ghost function ActionForm(action: PlannedAction): Form
    requires ValidAction(action) && ActionIsDecimal(action)
  {
    match action
    case Command(entityId, verb, brightness, confirmation) =>
      List([Symbol("command"), ReferenceForm("entity", entityId), Keyword(verb)]
           + (BrightnessForms(brightness) + ConfirmationForms(confirmation)))
    case Wait(milliseconds) => List([Symbol("wait"), Milliseconds(milliseconds)])
    case Await(trigger, timeout) => List([Symbol("await"), TriggerForm(trigger)] + TimeoutForms(timeout))
    case Audit(message) => List([Symbol("audit"), Keyword("message"), Text(message)])
    case SetAutomationEnabled(flowId, true) => List([Symbol("activate"), ReferenceForm("flow", flowId)])
    case SetAutomationEnabled(flowId, false) => List([Symbol("deactivate"), ReferenceForm("flow", flowId)])
    case Retry(inner, attempts, backoff) =>
      List([Symbol("retry"), ActionForm(inner),
            Keyword("times"), Count(attempts as nat), Keyword("backoff"), Milliseconds(backoff)])
  }

  // ----- What is written compiles to what it was written for -----

  lemma DurationReads(milliseconds: nat)
    requires ValidDuration(milliseconds)
    ensures DurationForm(Milliseconds(milliseconds)) == Some(Ok(milliseconds))
  {
    Decimals.UnitsAgree(milliseconds);
  }

  lemma StateOptionsRead(property: string, to: Option<AwaitValue>)
    requires property != "" && (to.Some? && to.value.AwaitPercentage? ==> IsDecimalValue(to.value.p))
    ensures StateOptions([Keyword("property"), Text(property)] + TargetForms(to), None, None)
         == Ok((Some(property), to))
  {
    var items := [Keyword("property"), Text(property)] + TargetForms(to);
    assert items[2..] == TargetForms(to);
    assert "property"[0] == 'p' && "to"[0] == 't';
    assert TargetForms(to) != [] ==> TargetForms(to)[2..] == [];
    assert StateOptions(TargetForms(to), Some(property), None) == Ok((Some(property), to));
  }

  lemma {:induction false} TriggerCompiles(trigger: AwaitTrigger)
    requires ValidTrigger(trigger) && TriggerIsDecimal(trigger)
    ensures CompileTrigger(TriggerForm(trigger).forms) == Ok(trigger)
    decreases trigger, 0
  {
    var items := TriggerForm(trigger).forms;
    assert "any-of"[0] == 'a' && "event"[0] == 'e' && "state-changed"[0] == 's';
    match trigger {
      case AnyOf(triggers) =>
        assert items[1..] == TriggerForms(triggers);
        TriggersCompile(triggers);
      case EventType(eventType) =>
        assert items[1..] == [Keyword("type"), Text(eventType)];
        assert EventTypeIn(items) == EventTypeIn(items[1..]) == Some(eventType);
      case StateChanged(entityId, property, to) =>
        assert items[1] == ReferenceForm("entity", entityId);
        assert items[2..] == [Keyword("property"), Text(property)] + TargetForms(to);
        StateOptionsRead(property, to);
    }
  }

  lemma {:induction false} TriggersCompile(triggers: seq<AwaitTrigger>)
    requires forall t :: t in triggers ==> ValidTrigger(t) && TriggerIsDecimal(t)
    ensures CompileTriggers(TriggerForms(triggers)) == Ok(triggers)
    decreases triggers, 1
  {
    if triggers != [] {
      TriggerCompiles(triggers[0]);
      TriggersCompile(triggers[1..]);
      assert TriggerForms(triggers)[1..] == TriggerForms(triggers[1..]);
      assert [triggers[0]] + triggers[1..] == triggers;
    }
  }

  lemma OptionsRead(brightness: Option<real>, confirmation: Confirmation)
    requires brightness.Some? ==> IsDecimalValue(brightness.value) && 0.0 <= brightness.value <= 100.0
    requires confirmation.Reported? ==> ValidDuration(confirmation.timeoutMilliseconds)
    ensures
      ReadOptions(BrightnessForms(brightness) + ConfirmationForms(confirmation), NO_OPTIONS)
      == Ok(CommandOptions(
              brightness, Some(if confirmation.Reported? then Reported(0) else confirmation),
              if confirmation.Reported? then Some(confirmation.timeoutMilliseconds) else None))
  {
    var first, second := BrightnessForms(brightness), ConfirmationForms(confirmation);
    assert (first + second)[|first|..] == second;
    ConfirmationReads(confirmation, NO_OPTIONS.(brightness := brightness));
    if brightness == None {
      assert first + second == second;
    }
  }

  lemma ConfirmationReads(confirmation: Confirmation, read: CommandOptions)
    requires read.confirmation.None? && read.timeout.None?
    requires confirmation.Reported? ==> ValidDuration(confirmation.timeoutMilliseconds)
    ensures
      ReadOptions(ConfirmationForms(confirmation), read)
      == Ok(read.(
              confirmation := Some(if confirmation.Reported? then Reported(0) else confirmation),
              timeout := if confirmation.Reported? then Some(confirmation.timeoutMilliseconds) else None))
  {
    var items := ConfirmationForms(confirmation);
    assert "brightness"[0] == 'b' && "confirm"[0] == 'c' && "timeout"[0] == 't';
    assert "transport"[0] == 't' && "none"[0] == 'n' && "reported"[0] == 'r';
    if confirmation.Reported? {
      DurationReads(confirmation.timeoutMilliseconds);
      assert items[2..] == [Keyword("timeout"), Milliseconds(confirmation.timeoutMilliseconds)];
      var next := read.(confirmation := Some(Reported(0)));
      assert ReadOption(items[0], items[1], read) == Ok(next);
      assert items[2..][2..] == [];
      assert ReadOptions(items[2..], next) == Ok(next.(timeout := Some(confirmation.timeoutMilliseconds)));
    } else {
      assert items[2..] == [];
    }
  }

  lemma CommandCompiles(action: PlannedAction)
    requires action.Command? && ValidAction(action) && ActionIsDecimal(action)
    ensures CompileCommand(ActionForm(action).forms) == Ok(action)
  {
    var items := ActionForm(action).forms;
    assert items[1] == ReferenceForm("entity", action.entityId);
    assert items[3..] == BrightnessForms(action.brightness) + ConfirmationForms(action.confirmation);
    OptionsRead(action.brightness, action.confirmation);
  }

  lemma AwaitCompiles(action: PlannedAction)
    requires action.Await? && ValidAction(action) && ActionIsDecimal(action)
    ensures CompileAwait(ActionForm(action).forms) == Ok(action)
  {
    TriggerCompiles(action.trigger);
    if action.timeoutMilliseconds.Some? {
      DurationReads(action.timeoutMilliseconds.value);
    }
  }

  lemma RetryBoundsRead(attempts: nat, backoff: nat)
    requires 1 <= attempts <= 10 && ValidDuration(backoff)
    ensures RetryBounds([Keyword("times"), Count(attempts), Keyword("backoff"), Milliseconds(backoff)])
         == Ok((attempts as u8, backoff))
  {
    Decimals.NumeralIsU8(attempts);
    DurationReads(backoff);
  }

  /** The form of an action compiles to that action, in all its fields. */
  lemma {:induction false} ActionCompiles(action: PlannedAction)
    requires ValidAction(action) && ActionIsDecimal(action)
    ensures CompiledAction(ActionForm(action)) == Ok(action)
  {
    HeadsDiffer();
    var form := ActionForm(action);
    match action {
      case Command(_, _, _, _) => CommandCompiles(action);
      case Await(_, _) => AwaitCompiles(action);
      case Wait(milliseconds) => DurationReads(milliseconds);
      case Audit(message) =>
      case SetAutomationEnabled(flowId, enabled) =>
        assert form.forms[1] == ReferenceForm("flow", flowId);
      case Retry(inner, attempts, backoff) =>
        ActionCompiles(inner);
        RetryBoundsRead(attempts as nat, backoff);
        assert form.forms[2..]
            == [Keyword("times"), Count(attempts as nat), Keyword("backoff"), Milliseconds(backoff)];
    }
  }

  lemma HeadsDiffer()
    ensures "command"[0] == 'c' && "wait"[0] == 'w' && "await"[..2] == "aw" && "audit"[..2] == "au"
    ensures "activate"[..2] == "ac" && "deactivate"[0] == 'd' && "retry"[0] == 'r'
  {
  }

  // ----- Whatever compiles could have been written so -----

  ghost predicate TargetIsDecimal(to: Option<AwaitValue>) {
    to.Some? && to.value.AwaitPercentage? ==> IsDecimalValue(to.value.p)
  }

  lemma {:induction false} StateOptionsAreDecimal(items: seq<Form>, property: Option<string>, to: Option<AwaitValue>)
    requires TargetIsDecimal(to)
    ensures StateOptions(items, property, to).Ok? ==> TargetIsDecimal(StateOptions(items, property, to).value.1)
  {
    if |items| >= 2 && StateOptions(items, property, to).Ok? {
      if items[0] == Keyword("property") {
        StateOptionsAreDecimal(items[2..], Some(items[1].value), to);
      } else {
        match items[1] {
          case Bool(b) => StateOptionsAreDecimal(items[2..], property, Some(AwaitBool(b)));
          case Text(s) => StateOptionsAreDecimal(items[2..], property, Some(AwaitText(s)));
          case Number(literal, _) =>
            StateOptionsAreDecimal(items[2..], property, Some(AwaitPercentage(ParseDecimal(literal).value)));
        }
      }
    }
  }

  lemma {:induction false} CompiledTriggerIsDecimal(trigger: seq<Form>)
    ensures CompileTrigger(trigger).Ok? ==> TriggerIsDecimal(CompileTrigger(trigger).value)
    decreases trigger, 1
  {
    if HeadOf(trigger) == Some("any-of") {
      CompiledTriggersAreDecimal(trigger[1..]);
    } else if HeadOf(trigger) == Some("state-changed") && |trigger| >= 2 {
      StateOptionsAreDecimal(trigger[2..], None, None);
    }
  }

  lemma {:induction false} CompiledTriggersAreDecimal(triggers: seq<Form>)
    ensures CompileTriggers(triggers).Ok? ==> forall t :: t in CompileTriggers(triggers).value ==> TriggerIsDecimal(t)
    decreases triggers, 0
  {
    if triggers != [] && triggers[0].List? {
      CompiledTriggerIsDecimal(triggers[0].forms);
      CompiledTriggersAreDecimal(triggers[1..]);
    }
  }

  lemma {:induction false} OptionsAreDecimal(items: seq<Form>, read: CommandOptions)
    requires read.brightness.Some? ==> IsDecimalValue(read.brightness.value)
    ensures
      var r := ReadOptions(items, read);
      r.Ok? && r.value.brightness.Some? ==> IsDecimalValue(r.value.brightness.value)
  {
    if |items| >= 2 && ReadOption(items[0], items[1], read).Ok? {
      OptionsAreDecimal(items[2..], ReadOption(items[0], items[1], read).value);
    }
  }

  lemma {:induction false} CompiledActionIsDecimal(form: Form)
    ensures CompiledAction(form).Ok? ==> ActionIsDecimal(CompiledAction(form).value)
  {
    if form.List? && CompiledAction(form).Ok? {
      var items, head := form.forms, Head(form).value;
      if head == "command" {
        OptionsAreDecimal(items[3..], NO_OPTIONS);
      } else if head == "await" {
        CompiledTriggerIsDecimal(items[1].forms);
      } else if head == "retry" {
        CompiledActionIsDecimal(items[1]);
      }
    }
  }

  /** The actions that flows stand for are exactly the valid ones with decimal percentages. */
  lemma ActionIsWrittenIff(action: PlannedAction)
    ensures (exists form :: CompiledAction(form) == Ok(action)) <==> ValidAction(action) && ActionIsDecimal(action)
  {
    if ValidAction(action) && ActionIsDecimal(action) {
      ActionCompiles(action);
    }
    forall form | CompiledAction(form) == Ok(action)
      ensures ValidAction(action) && ActionIsDecimal(action)
    {
      PlanValidity.ActionIsValid(form);
      CompiledActionIsDecimal(form);
    }
  }

  // ----- Whole plans -----

  ghost predicate PlanIsDecimal(plan: ExecutionPlan) {
    forall a :: a in plan.actions ==> ActionIsDecimal(a)
  }

  function ModeForm(mode: ConcurrencyMode): Form {
    match mode
    case Single => Keyword("single")
    case Restart => Keyword("restart")
    case Queue => Keyword("queue")
  }

  function MetaForms(plan: ExecutionPlan): seq<Form> {
    [Keyword("mode"), ModeForm(plan.concurrency.mode), Keyword("max-runs"), Count(plan.concurrency.maxRuns)]
    + (match plan.maxRuntimeMilliseconds
       case None => []
       case Some(milliseconds) => [Keyword("max-runtime"), Milliseconds(milliseconds)])
  }

  ghost function ActionForms(actions: seq<PlannedAction>): seq<Form>
    requires forall a :: a in actions ==> ValidAction(a) && ActionIsDecimal(a)
  {
    if actions == [] then [] else [ActionForm(actions[0])] + ActionForms(actions[1..])
  }

  /** A flow that stands for a plan, under any trigger. */
  ghost function FlowForm(plan: ExecutionPlan, trigger: Form): Form
    requires ValidPlan(plan) && PlanIsDecimal(plan)
  {
    List([Symbol("flow"), List([Symbol("meta")] + MetaForms(plan)), List([Symbol("on"), trigger]),
          List([Symbol("do")] + ActionForms(plan.actions))])
  }

  lemma {:induction false} ActionsCompile(actions: seq<PlannedAction>)
    requires forall a :: a in actions ==> ValidAction(a) && ActionIsDecimal(a)
    ensures CompiledActions(ActionForms(actions)) == Ok(actions)
  {
    if actions != [] {
      var first, rest := actions[0], actions[1..];
      assert first in actions && forall a :: a in rest ==> a in actions;
      ActionCompiles(first);
      ActionsCompile(rest);
      assert ActionForms(actions) == [ActionForm(first)] + ActionForms(rest);
      assert ActionForms(actions)[1..] == ActionForms(rest);
      assert [first] + rest == actions;
    }
  }

  lemma ConcurrencyReads(plan: ExecutionPlan)
    requires ValidPlan(plan)
    ensures ConcurrencyFrom(MetaForms(plan), DEFAULT_POLICY) == Ok(plan.concurrency)
  {
    var items, policy := MetaForms(plan), plan.concurrency;
    Decimals.NumeralIsU8(policy.maxRuns);
    assert "mode"[..2] == "mo" && "max-runs"[..2] == "ma" && "max-runs"[7] == 's' && "max-runtime"[7] == 't';
    assert "single"[0] == 's' && "restart"[0] == 'r' && "queue"[0] == 'q';
    var withMode := DEFAULT_POLICY.(mode := policy.mode);
    assert ConcurrencyFrom(items, DEFAULT_POLICY) == ConcurrencyFrom(items[2..], withMode);
    assert ConcurrencyFrom(items[2..], withMode) == ConcurrencyFrom(items[2..][2..], policy);
    assert |items[2..][2..]| == 2 ==> items[2..][2..][2..] == [];
    assert ConcurrencyFrom(items[2..][2..], policy) == Ok(policy);
  }

  lemma MaxRuntimeReads(plan: ExecutionPlan)
    requires ValidPlan(plan)
    ensures MaxRuntimeFrom(MetaForms(plan)) == Ok(plan.maxRuntimeMilliseconds)
  {
    var items := MetaForms(plan);
    assert "mode"[..2] == "mo" && "max-runs"[..2] == "ma" && "max-runs"[7] == 's' && "max-runtime"[7] == 't';
    assert MaxRuntimeFrom(items) == MaxRuntimeFrom(items[2..]) == MaxRuntimeFrom(items[2..][2..]);
    match plan.maxRuntimeMilliseconds {
      case None =>
      case Some(milliseconds) => DurationReads(milliseconds);
    }
  }

  lemma FlowFormIsValid(plan: ExecutionPlan, trigger: Form)
    requires ValidPlan(plan) && PlanIsDecimal(plan)
    ensures
      var root := FlowForm(plan, trigger);
      && CheckRoot(root).Ok?
      && Section(root.forms, "meta") == Some(root.forms[1].forms)
      && Section(root.forms, "do") == Some(root.forms[3].forms)
  {
    var root := FlowForm(plan, trigger);
    assert Head(root.forms[1]) == Some("meta") && Head(root.forms[2]) == Some("on") && Head(root.forms[3]) == Some("do");
    assert "meta"[0] == 'm' && "inputs"[0] == 'i' && "on"[0] == 'o' && "when"[0] == 'w' && "do"[0] == 'd';
    assert SectionPosition(root.forms[1]) == 0 && SectionPosition(root.forms[2]) == 2 && SectionPosition(root.forms[3]) == 4;
    assert ValidRoot(root);
    CheckRootMeaning(root);
    assert root.forms[1..][0] == root.forms[1];
    assert Section(root.forms, "do") == Section(root.forms[1..], "do") == Section(root.forms[1..][1..], "do")
        == Section(root.forms[1..][1..][1..], "do");
  }

  /** The flow of a plan compiles to exactly that plan: its actions, its runtime bound, its concurrency. */
  lemma PlanCompiles(plan: ExecutionPlan, trigger: Form)
    requires ValidPlan(plan) && PlanIsDecimal(plan)
    ensures CompiledPlan(Ast(DSL_NAME, DSL_VERSION, FlowForm(plan, trigger))) == Ok(plan)
  {
    var root := FlowForm(plan, trigger);
    FlowFormIsValid(plan, trigger);
    assert root.forms[1].forms[1..] == MetaForms(plan);
    assert root.forms[3].forms[1..] == ActionForms(plan.actions);
    ActionsCompile(plan.actions);
    ConcurrencyReads(plan);
    MaxRuntimeReads(plan);
  }

  lemma {:induction false} CompiledActionsAreDecimal(forms: seq<Form>)
    ensures CompiledActions(forms).Ok? ==> forall a :: a in CompiledActions(forms).value ==> ActionIsDecimal(a)
  {
    if forms != [] {
      CompiledActionIsDecimal(forms[0]);
      CompiledActionsAreDecimal(forms[1..]);
    }
  }

  /** The plans that flows stand for are exactly the valid ones with decimal percentages. */
  lemma PlanIsWrittenIff(plan: ExecutionPlan)
    ensures (exists ast :: CompiledPlan(ast) == Ok(plan)) <==> ValidPlan(plan) && PlanIsDecimal(plan)
  {
    if ValidPlan(plan) && PlanIsDecimal(plan) {
      PlanCompiles(plan, Nil);
    }
    forall ast | CompiledPlan(ast) == Ok(plan)
      ensures ValidPlan(plan) && PlanIsDecimal(plan)
    {
      PlanValidity.CompiledPlanIsValid(ast);
      var body := Section(ast.root.forms, "do").value;
      CompiledActionsAreDecimal(if body == [] then [] else body[1..]);
    }
  }
}
