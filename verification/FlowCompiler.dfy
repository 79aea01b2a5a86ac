// Compilation of a validated flow to an execution plan.
module FlowCompiler {
  import opened Wrappers
  import opened FlowAst
  import opened Plan
  import opened PlanBounds
  import Parser

  datatype PlanError =
    | InvalidFlow(error: AstError)
    | MissingBody
    | UnsupportedAction
    | InvalidCommand
    | InvalidWait
    | InvalidConcurrency
    | InvalidAutomationTarget
    | InvalidBrightness
    | InvalidConfirmation
    | InvalidAwait
    | InvalidRetry

  // ----- Numbers -----

  function Pow10(n: nat): (r: nat)
    ensures r > 0
  {
    if n == 0 then 1 else 10 * Pow10(n - 1)
  }

  /** The number written by the digits of `s`, its dot left aside. */
  function Mantissa(s: string, value: nat): nat {
    if s == "" then value
    else if Parser.IsDigit(s[0]) then Mantissa(s[1..], 10 * value + (s[0] as int - '0' as int))
    else Mantissa(s[1..], value)
  }

  function FractionDigits(s: string): nat {
    if s == "" then 0 else if s[0] == '.' then |s| - 1 else FractionDigits(s[1..])
  }

  /** The exact value of a decimal literal. */
  function ParseDecimal(literal: string): Option<real> {
    if !Parser.IsDecimal(literal) then None
    else
      var negative := literal != "" && literal[0] == '-';
      var unsigned := if negative then literal[1..] else literal;
      var magnitude := Mantissa(unsigned, 0) as real / Pow10(FractionDigits(unsigned)) as real;
      Some(if negative then -magnitude else magnitude)
  }

  predicate AllDigits(s: string) {
    forall i :: 0 <= i < |s| ==> Parser.IsDigit(s[i])
  }

  /** An unsigned integer below 256: digits, after an optional plus sign. */
  function ParseU8(literal: string): Option<nat> {
    var digits := if literal != "" && literal[0] == '+' then literal[1..] else literal;
    if digits == "" || !AllDigits(digits) then None
    else if Mantissa(digits, 0) < 256 then Some(Mantissa(digits, 0))
    else None
  }

  function UnitMilliseconds(unit: string): Option<nat> {
    if unit == "ms" then Some(1)
    else if unit == "s" then Some(1_000)
    else if unit == "m" then Some(60_000)
    else if unit == "h" then Some(3_600_000)
    else if unit == "d" then Some(86_400_000)
    else None
  }

  function DurationMilliseconds(literal: string, unit: string): (r: Result<nat, PlanError>)
    ensures r.Ok? ==> ValidDuration(r.value)
  {
    match ParseDecimal(literal)
    case None => Err(InvalidWait)
    case Some(value) =>
      match UnitMilliseconds(unit)
      case None => Err(InvalidWait)
      case Some(multiplier) =>
        var milliseconds := value * multiplier as real;
        if milliseconds <= 0.0 || milliseconds.Floor as real != milliseconds
          || milliseconds > MAX_WAIT_MILLISECONDS as real
        then Err(InvalidWait)
        else Ok(milliseconds.Floor)
  }

  /** A literal with its unit stands for exactly the milliseconds it denotes, and is accepted exactly when
      they are a whole number within the bounds. */
  lemma DurationIsExact(literal: string, unit: string, milliseconds: nat)
    ensures DurationMilliseconds(literal, unit) == Ok(milliseconds)
       <==> && ParseDecimal(literal).Some? && UnitMilliseconds(unit).Some?
            && ParseDecimal(literal).value * UnitMilliseconds(unit).value as real == milliseconds as real
            && ValidDuration(milliseconds)
  {
    if ParseDecimal(literal).Some? && UnitMilliseconds(unit).Some? {
      var product := ParseDecimal(literal).value * UnitMilliseconds(unit).value as real;
      assert product == milliseconds as real ==> product.Floor == milliseconds;
    }
  }

  function DurationForm(form: Form): Option<Result<nat, PlanError>> {
    if form.Number? && form.unit.Some? then Some(DurationMilliseconds(form.literal, form.unit.value)) else None
  }

  // ----- Sections and options -----

  /** The items of the first list of `forms` headed by `name`. */
  function Section(forms: seq<Form>, name: string): Option<seq<Form>> {
    if forms == [] then None
    else if Head(forms[0]) == Some(name) then Some(forms[0].forms)
    else Section(forms[1..], name)
  }

  function ConcurrencyFrom(items: seq<Form>, policy: ConcurrencyPolicy): Result<ConcurrencyPolicy, PlanError> {
    if |items| < 2 then Ok(policy)
    else
      var key, value := items[0], items[1];
      var next :-
        if key == Keyword("mode") && value.Keyword? then
          if value.value == "single" then Ok(policy.(mode := Single))
          else if value.value == "restart" then Ok(policy.(mode := Restart))
          else if value.value == "queue" then Ok(policy.(mode := Queue))
          else Err(InvalidConcurrency)
        else if key == Keyword("max-runs") && value.Number? && value.unit.None? then
          match ParseU8(value.literal)
          case Some(n) => if 1 <= n <= 32 then Ok(policy.(maxRuns := n)) else Err(InvalidConcurrency)
          case None => Err(InvalidConcurrency)
        else Ok(policy);
      ConcurrencyFrom(items[2..], next)
  }

  const DEFAULT_POLICY := ConcurrencyPolicy(Single, 1)

  function FlowConcurrency(forms: seq<Form>): Result<ConcurrencyPolicy, PlanError> {
    match Section(forms, "meta")
    case None => Ok(DEFAULT_POLICY)
    case Some(meta) => ConcurrencyFrom(if meta == [] then [] else meta[1..], DEFAULT_POLICY)
  }

  function MaxRuntimeFrom(items: seq<Form>): Result<Option<nat>, PlanError> {
    if items == [] then Ok(None)
    else if items[0] == Keyword("max-runtime") then
      if |items| >= 2 && DurationForm(items[1]).Some? then
        var milliseconds :- DurationForm(items[1]).value;
        Ok(Some(milliseconds))
      else Err(InvalidWait)
    else if |items| < 2 then Ok(None)
    else MaxRuntimeFrom(items[2..])
  }

  function FlowMaxRuntime(forms: seq<Form>): Result<Option<nat>, PlanError> {
    match Section(forms, "meta")
    case None => Ok(None)
    case Some(meta) => MaxRuntimeFrom(if meta == [] then [] else meta[1..])
  }

  datatype CommandOptions = CommandOptions(
    brightness: Option<real>, confirmation: Option<Confirmation>, timeout: Option<nat>)

  /** One option of a command, given the ones already read. */
  function ReadOption(key: Form, value: Form, read: CommandOptions): Result<CommandOptions, PlanError> {
    if !key.Keyword? then Err(InvalidCommand)
    else if key.value == "brightness" && read.brightness.None? then
      if value.Number? && value.unit == Some("%") then
        match ParseDecimal(value.literal)
        case Some(level) =>
          if 0.0 <= level <= 100.0 then Ok(read.(brightness := Some(level))) else Err(InvalidBrightness)
        case None => Err(InvalidBrightness)
      else Err(InvalidBrightness)
    else if key.value == "confirm" && read.confirmation.None? then
      if value == Keyword("transport") then Ok(read.(confirmation := Some(Transport)))
      else if value == Keyword("none") then Ok(read.(confirmation := Some(NoConfirmation)))
      else if value == Keyword("reported") then Ok(read.(confirmation := Some(Reported(0))))
      else Err(InvalidConfirmation)
    else if key.value == "timeout" && read.timeout.None? then
      match DurationForm(value)
      case None => Err(InvalidConfirmation)
      case Some(duration) =>
        var milliseconds :- duration;
        Ok(read.(timeout := Some(milliseconds)))
    else Err(InvalidCommand)
  }

  function ReadOptions(items: seq<Form>, read: CommandOptions): Result<CommandOptions, PlanError> {
    if items == [] then Ok(read)
    else if |items| == 1 then Err(InvalidCommand)
    else
      var next :- ReadOption(items[0], items[1], read);
      ReadOptions(items[2..], next)
  }

  /** Reported confirmation needs a timeout and excludes a brightness; nothing else takes a timeout. */
  function FinishOptions(read: CommandOptions): Result<(Option<real>, Confirmation), PlanError> {
    match read.confirmation.GetOr(Transport)
    case Reported(_) =>
      if read.brightness.Some? || read.timeout.None? then Err(InvalidConfirmation)
      else Ok((None, Reported(read.timeout.value)))
    case confirmation =>
      if read.timeout.Some? then Err(InvalidConfirmation) else Ok((read.brightness, confirmation))
  }

  const NO_OPTIONS := CommandOptions(None, None, None)

  /** The scan of the options, from the fourth item of a command on. */
  method ScanOptions(items: seq<Form>) returns (r: Result<(Option<real>, Confirmation), PlanError>)
    requires |items| >= 3
    ensures r == match ReadOptions(items[3..], NO_OPTIONS)
                 case Err(e) => Err(e)
                 case Ok(read) => FinishOptions(read)
  {
    var read := NO_OPTIONS;
    var index := 3;
    while index + 1 < |items|
      invariant 3 <= index <= |items|
      invariant ReadOptions(items[3..], NO_OPTIONS) == ReadOptions(items[index..], read)
    {
      var next := ReadOption(items[index], items[index + 1], read);
      if next.Err? {
        return Err(next.error);
      }
      assert items[index..][2..] == items[index + 2..];
      read := next.value;
      index := index + 2;
    }
    if index != |items| {
      return Err(InvalidCommand);
    }
    return FinishOptions(read);
  }

  // ----- Triggers -----

  function TextAt(items: seq<Form>, i: nat): Option<string> {
    if i < |items| && items[i].Text? then Some(items[i].value) else None
  }

  /** The text of a reference such as `(entity "id")`, whatever its head. */
  function Reference(items: seq<Form>, i: nat): Option<string> {
    if i < |items| && items[i].List? then TextAt(items[i].forms, 1) else None
  }

  function EventTypeIn(items: seq<Form>): Option<string> {
    if |items| < 2 then None
    else if items[0] == Keyword("type") && (items[1].Text? || items[1].Symbol?) then Some(items[1].value)
    else EventTypeIn(items[1..])
  }

  function StateOptions(
    items: seq<Form>, property: Option<string>, to: Option<AwaitValue>)
    : Result<(Option<string>, Option<AwaitValue>), PlanError>
  {
    if |items| < 2 then Ok((property, to))
    else if items[0] == Keyword("property") then
      if items[1].Text? && items[1].value != "" then StateOptions(items[2..], Some(items[1].value), to)
      else Err(InvalidAwait)
    else if items[0] == Keyword("to") then
      match items[1]
      case Bool(b) => StateOptions(items[2..], property, Some(AwaitBool(b)))
      case Text(s) => StateOptions(items[2..], property, Some(AwaitText(s)))
      case Number(literal, unit) =>
        if unit == Some("%") && ParseDecimal(literal).Some?
        then StateOptions(items[2..], property, Some(AwaitPercentage(ParseDecimal(literal).value)))
        else Err(InvalidAwait)
      case _ => Err(InvalidAwait)
    else Err(InvalidAwait)
  }

  function CompileTrigger(trigger: seq<Form>): Result<AwaitTrigger, PlanError>
    decreases trigger, 1
  {
    match HeadOf(trigger)
    case None => Err(InvalidAwait)
    case Some(head) =>
      if head == "any-of" then
        var triggers :- CompileTriggers(trigger[1..]);
        if triggers == [] then Err(InvalidAwait) else Ok(AnyOf(triggers))
      else if head == "event" then
        match EventTypeIn(trigger)
        case None => Err(InvalidAwait)
        case Some(eventType) => if eventType == "" then Err(InvalidAwait) else Ok(EventType(eventType))
      else if head == "state-changed" then
        match Reference(trigger, 1)
        case None => Err(InvalidAwait)
        case Some(entityId) =>
          if entityId == "" then Err(InvalidAwait)
          else
            var (property, to) :- StateOptions(trigger[2..], None, None);
            if property.None? then Err(InvalidAwait) else Ok(StateChanged(entityId, property.value, to))
      else Err(InvalidAwait)
  }

  function CompileTriggers(triggers: seq<Form>): Result<seq<AwaitTrigger>, PlanError>
    decreases triggers, 0
  {
    if triggers == [] then Ok([])
    else if !triggers[0].List? then Err(InvalidAwait)
    else
      var first :- CompileTrigger(triggers[0].forms);
      var rest :- CompileTriggers(triggers[1..]);
      Ok([first] + rest)
  }

  // ----- Actions -----

  function CompileCommand(items: seq<Form>): Result<PlannedAction, PlanError> {
    match Reference(items, 1)
    case None => Err(InvalidCommand)
    case Some(entityId) =>
      if |items| < 3 || !items[2].Keyword? then Err(InvalidCommand)
      else
        var read :- ReadOptions(items[3..], NO_OPTIONS);
        var (brightness, confirmation) :- FinishOptions(read);
        Ok(Command(entityId, items[2].value, brightness, confirmation))
  }

  function CompileAwait(items: seq<Form>): Result<PlannedAction, PlanError> {
    if |items| < 2 || !items[1].List? then Err(InvalidAwait)
    else
      var trigger :- CompileTrigger(items[1].forms);
      if |items| == 2 then Ok(Await(trigger, None))
      else if |items| == 4 && items[2] == Keyword("timeout") && DurationForm(items[3]).Some? then
        var milliseconds :- DurationForm(items[3]).value;
        Ok(Await(trigger, Some(milliseconds)))
      else Err(InvalidAwait)
  }

  function CompileActivation(items: seq<Form>, enabled: bool): Result<PlannedAction, PlanError>
    requires |items| == 2
  {
    match Reference(items, 1)
    case None => Err(InvalidAutomationTarget)
    case Some(flowId) =>
      if Head(items[1]) != Some("flow") || flowId == "" then Err(InvalidAutomationTarget)
      else Ok(SetAutomationEnabled(flowId, enabled))
  }

  /** The bounds of a retry, after its action. */
  function RetryBounds(items: seq<Form>): Result<(u8, nat), PlanError> {
    if |items| == 4 && items[0] == Keyword("times") && items[1].Number? && items[1].unit.None?
      && items[2] == Keyword("backoff") && DurationForm(items[3]).Some?
    then
      match ParseU8(items[1].literal)
      case None => Err(InvalidRetry)
      case Some(attempts) =>
        if !(1 <= attempts <= 10) then Err(InvalidRetry)
        else
          var backoff :- DurationForm(items[3]).value;
          Ok((attempts as u8, backoff))
    else Err(InvalidRetry)
  }

  function CompiledAction(form: Form): Result<PlannedAction, PlanError> {
    if !form.List? then Err(UnsupportedAction)
    else
      var items := form.forms;
      match Head(form)
      case None => Err(UnsupportedAction)
      case Some(head) =>
        if head == "command" then CompileCommand(items)
        else if head == "wait" then
          if |items| >= 2 && DurationForm(items[1]).Some? then
            var milliseconds :- DurationForm(items[1]).value;
            Ok(Wait(milliseconds))
          else Err(InvalidWait)
        else if head == "await" then CompileAwait(items)
        else if head == "audit" then
          if TextAt(items, 2).Some? then Ok(Audit(TextAt(items, 2).value)) else Err(UnsupportedAction)
        else if (head == "activate" || head == "deactivate") && |items| == 2 then
          CompileActivation(items, head == "activate")
        else if head == "retry" then
          if |items| < 2 then Err(InvalidRetry)
          else
            var action :- CompiledAction(items[1]);
            if !IsRetryable(action) then Err(InvalidRetry)
            else
              var (attempts, backoff) :- RetryBounds(items[2..]);
              Ok(Retry(action, attempts, backoff))
        else Err(UnsupportedAction)
  }

  function CompiledActions(forms: seq<Form>): Result<seq<PlannedAction>, PlanError> {
    if forms == [] then Ok([])
    else
      var first :- CompiledAction(forms[0]);
      var rest :- CompiledActions(forms[1..]);
      Ok([first] + rest)
  }

  function CompiledPlan(ast: Ast): Result<ExecutionPlan, PlanError> {
    if ValidateAst(ast).Err? then Err(InvalidFlow(ValidateAst(ast).error))
    else
      match Section(ast.root.forms, "do")
      case None => Err(MissingBody)
      case Some(body) =>
        var actions :- CompiledActions(if body == [] then [] else body[1..]);
        var maxRuntime :- FlowMaxRuntime(ast.root.forms);
        var concurrency :- FlowConcurrency(ast.root.forms);
        Ok(ExecutionPlan(actions, maxRuntime, concurrency))
  }

  // ----- The compiler, which pushes actions onto the plan under construction -----

  class PlanBuilder {
    var actions: seq<PlannedAction>

    constructor ()
      ensures actions == []
    {
      actions := [];
    }

    method Push(action: PlannedAction)
      modifies this
      ensures actions == old(actions) + [action]
    {
      actions := actions + [action];
    }
  }

  /** Pushes exactly the one action the form stands for, or fails without pushing. */
  method CompileAction(form: Form, into: PlanBuilder) returns (r: Result<(), PlanError>)
    modifies into
    ensures match CompiledAction(form)
            case Err(e) => r == Err(e) && into.actions == old(into.actions)
            case Ok(action) => r == Ok(()) && into.actions == old(into.actions) + [action]
    decreases form
  {
    if !form.List? {
      return Err(UnsupportedAction);
    }
    var items := form.forms;
    if Head(form) == Some("command") {
      var entityId := Reference(items, 1);
      if entityId.None? || |items| < 3 || !items[2].Keyword? {
        return Err(InvalidCommand);
      }
      var options := ScanOptions(items);
      if options.Err? {
        return Err(options.error);
      }
      into.Push(Command(entityId.value, items[2].value, options.value.0, options.value.1));
      return Ok(());
    } else if Head(form) == Some("retry") {
      if |items| < 2 {
        return Err(InvalidRetry);
      }
      var nested := new PlanBuilder();
      var inner := CompileAction(items[1], nested);
      if inner.Err? {
        return Err(inner.error);
      }
      assert |nested.actions| == 1;
      var action := nested.actions[0];
      if !IsRetryable(action) {
        return Err(InvalidRetry);
      }
      var bounds := RetryBounds(items[2..]);
      if bounds.Err? {
        return Err(bounds.error);
      }
      into.Push(Retry(action, bounds.value.0, bounds.value.1));
      return Ok(());
    } else {
      var action := CompiledAction(form);
      if action.Err? {
        return Err(action.error);
      }
      into.Push(action.value);
      return Ok(());
    }
  }

  function PrependActions(
    actions: seq<PlannedAction>, r: Result<seq<PlannedAction>, PlanError>): Result<seq<PlannedAction>, PlanError>
  {
    if r.Ok? then Ok(actions + r.value) else r
  }

  lemma PrependActionsTwice(
    a: seq<PlannedAction>, b: seq<PlannedAction>, r: Result<seq<PlannedAction>, PlanError>)
    ensures PrependActions(a, PrependActions(b, r)) == PrependActions(a + b, r)
  {
    assert r.Ok? ==> a + (b + r.value) == a + b + r.value;
  }

  method Compile(ast: Ast) returns (r: Result<ExecutionPlan, PlanError>)
    ensures r == CompiledPlan(ast)
  {
    var valid := ValidateAst(ast);
    if valid.Err? {
      return Err(InvalidFlow(valid.error));
    }
    var section := Section(ast.root.forms, "do");
    if section.None? {
      return Err(MissingBody);
    }
    var forms := if section.value == [] then [] else section.value[1..];
    var plan := new PlanBuilder();
    var i := 0;
    assert forms[0..] == forms;
    assert CompiledActions(forms) == PrependActions([], CompiledActions(forms)) by {
      var all := CompiledActions(forms);
      assert all.Ok? ==> [] + all.value == all.value;
    }
    while i < |forms|
      invariant i <= |forms|
      invariant fresh(plan)
      invariant CompiledActions(forms) == PrependActions(plan.actions, CompiledActions(forms[i..]))
    {
      assert forms[i..][1..] == forms[i + 1..];
      ghost var before := plan.actions;
      var compiled := CompileAction(forms[i], plan);
      if compiled.Err? {
        return Err(compiled.error);
      }
      PrependActionsTwice(before, [CompiledAction(forms[i]).value], CompiledActions(forms[i + 1..]));
      i := i + 1;
    }
    assert plan.actions + [] == plan.actions;
    var maxRuntime := FlowMaxRuntime(ast.root.forms);
    if maxRuntime.Err? {
      return Err(maxRuntime.error);
    }
    var concurrency := FlowConcurrency(ast.root.forms);
    if concurrency.Err? {
      return Err(concurrency.error);
    }
    return Ok(ExecutionPlan(plan.actions, maxRuntime.value, concurrency.value));
  }
}
