// One execution from the stored flow: freeze its choices, compile it, evaluate its guard, and hand the
// plan to the service.
module FlowExecution {
  import opened Wrappers
  import opened FlowAst
  import opened Plan
  import opened Guards
  import FlowCompiler
  import FlowRuntime
  import PlanBounds
  import PlanValidity
  import Choose
  import ChooseMeaning
  import GuardTruth
  import Engine
  import FlowService

  datatype WhenError = WhenTakesOne | Condition(error: GuardError)

  /** The condition of a flow; a flow without a `when` section always holds. */
  function EvaluateWhen(ast: Ast, snapshot: Snapshot): Result<bool, WhenError>
    requires ast.root.List?
  {
    match FlowCompiler.Section(ast.root.forms, "when")
    case None => Ok(true)
    case Some(items) =>
      if |items| != 2 then Err(WhenTakesOne)
      else
        match EvaluateGuard(items[1], snapshot)
        case Ok(holds) => Ok(holds)
        case Err(error) => Err(Condition(error))
  }

  predicate ValidWhen(ast: Ast, parseUuid: string -> Option<string>)
    requires ast.root.List?
  {
    match FlowCompiler.Section(ast.root.forms, "when")
    case None => true
    case Some(items) => |items| == 2 && ValidGuard(items[1], parseUuid)
  }

  /** What `create` and `update` check of a flow whose actions are lists. */
  predicate Stored(ast: Ast, parseUuid: string -> Option<string>) {
    ChooseMeaning.Accepted(ast, parseUuid) && ast.root.List? && ValidWhen(ast, parseUuid)
  }

  /** The plan a flow stands for on a snapshot, by the meaning of its tree of choices. */
  ghost function PlanOf(ast: Ast, snapshot: Snapshot): Option<ExecutionPlan>
    requires ast.root.List?
  {
    var actions := ChooseMeaning.Meaning(ChooseMeaning.Body(ast), snapshot);
    var maxRuntime, concurrency := FlowCompiler.FlowMaxRuntime(ast.root.forms), FlowCompiler.FlowConcurrency(ast.root.forms);
    if actions.Ok? && maxRuntime.Ok? && concurrency.Ok?
    then Some(ExecutionPlan(actions.value, maxRuntime.value, concurrency.value)) else None
  }

  /** The condition under a `when` section is true. */
  ghost predicate ConditionHolds(ast: Ast, snapshot: Snapshot)
    requires ast.root.List?
  {
    forall i :: 0 <= i < |ast.root.forms| && Head(ast.root.forms[i]) == Some("when") ==>
      |ast.root.forms[i].forms| == 2 && GuardTruth.Holds(ast.root.forms[i].forms[1], snapshot)
  }

  /** There is at most one `when` section. */
  lemma OnlyCondition(ast: Ast) returns (i: nat)
    requires CheckRoot(ast.root).Ok?
    ensures ast.root.List? && i <= |ast.root.forms|
    ensures match FlowCompiler.Section(ast.root.forms, "when")
            case None => i == |ast.root.forms|
            case Some(items) => i < |ast.root.forms| && ast.root.forms[i] == List(items)
    ensures forall j :: 0 <= j < |ast.root.forms| ==> (Head(ast.root.forms[j]) == Some("when") <==> i == j)
  {
    var forms := ast.root.forms;
    CheckRootMeaning(ast.root);
    i := ChooseMeaning.SectionOfSameHeads(forms, forms, "when");
    if i < |forms| {
      assert Head(forms[0]).None?;
      forall j | i < j < |forms|
        ensures Head(forms[j]) != Some("when")
      {
        assert SectionPosition(forms[i]) < SectionPosition(forms[j]);
      }
    }
  }

  /** The condition of a flow is accepted exactly when a `when` section, if there is one, has a single
      condition, which is well formed. */
  lemma ConditionIsValidIff(ast: Ast, parseUuid: string -> Option<string>)
    requires CheckRoot(ast.root).Ok?
    ensures ast.root.List?
    ensures ValidWhen(ast, parseUuid)
       <==> forall i :: 0 <= i < |ast.root.forms| && Head(ast.root.forms[i]) == Some("when") ==>
              |ast.root.forms[i].forms| == 2 && GuardTruth.IsCondition(ast.root.forms[i].forms[1], parseUuid)
  {
    var i := OnlyCondition(ast);
    if i < |ast.root.forms| && |ast.root.forms[i].forms| == 2 {
      GuardTruth.GuardIsValidIff(ast.root.forms[i].forms[1], parseUuid);
    }
  }

  /** The condition of a stored flow never fails to evaluate, and its evaluation is the truth. */
  lemma StoredConditionIsTruth(ast: Ast, snapshot: Snapshot)
    requires Stored(ast, snapshot.parseUuid)
    ensures EvaluateWhen(ast, snapshot) == Ok(ConditionHolds(ast, snapshot))
  {
    var i := OnlyCondition(ast);
    if i < |ast.root.forms| {
      GuardTruth.GuardMeansHolds(ast.root.forms[i].forms[1], snapshot);
    }
  }

  /** Compilation of the frozen flow gives the plan of the tree of choices, or fails when there is none. */
  lemma CompiledIsThePlan(ast: Ast, snapshot: Snapshot)
    requires Stored(ast, snapshot.parseUuid)
    ensures Choose.ResolveFlow(ast, snapshot).Ok?
    ensures
      match FlowCompiler.CompiledPlan(Choose.ResolveFlow(ast, snapshot).value)
      case Ok(plan) => PlanOf(ast, snapshot) == Some(plan) && PlanBounds.ValidPlan(plan)
      case Err(_) => PlanOf(ast, snapshot).None?
  {
    ChooseMeaning.ChooseKeepsMeaning(ast, snapshot);
    PlanValidity.CompiledPlanIsValid(Choose.ResolveFlow(ast, snapshot).value);
  }

  /** Neither freezing the choices of a stored flow nor its condition can fail, so that only compilation
      does. A stored flow either has no plan on the snapshot, and then nothing happens, or is executed with the
      plan its tree of choices denotes, under its own condition. Choices are read from one snapshot, and
      the condition from a later one. */
  method ExecuteFlow(
    service: FlowService.Service, ast: Ast, frozenOn: Snapshot, later: Snapshot, flowId: string, id: string,
    correlationId: string, enabled: bool, now: int)
    returns (r: Result<FlowRuntime.RunResult, FlowCompiler.PlanError>)
    requires Stored(ast, frozenOn.parseUuid) && later.parseUuid == frozenOn.parseUuid
    requires Engine.Fits(service.Current(), service.gateways) && id !in service.lives
    modifies service, service.store
    ensures r.Err? <==> PlanOf(ast, frozenOn).None?
    ensures r.Err? ==> service.Current() == old(service.Current())
    ensures r.Ok? ==>
      && service.Current() == Engine.Execute(
           old(service.Current()), flowId, id, PlanOf(ast, frozenOn).value, ConditionHolds(ast, later),
           correlationId, enabled, now, service.gateways)
      && id in service.lives && service.lives[id].results != [] && r.value == Engine.Last(service.lives[id].results)
  {
    CompiledIsThePlan(ast, frozenOn);
    StoredConditionIsTruth(ast, later);
    var resolved := Choose.Resolve(ast, frozenOn);
    var plan := FlowCompiler.Compile(resolved.value);
    if plan.Err? {
      return Err(plan.error);
    }
    var holds := EvaluateWhen(ast, later);
    var result := service.ExecuteFlow(flowId, id, plan.value, holds.value, correlationId, enabled, now);
    return Ok(result);
  }
}
