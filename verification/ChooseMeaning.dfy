// Freezing `choose` keeps its meaning: the frozen flow compiles to what the tree of choices denotes.
module ChooseMeaning {
  import opened Wrappers
  import opened FlowAst
  import opened Plan
  import opened FlowCompiler
  import opened Guards
  import opened Choose
  import GuardTruth

  // ----- The direct meaning of a tree of choices -----

  datatype MeaningError = Unplannable(plan: PlanError) | Unresolvable(choice: ChooseError)

  ghost function Meaning(actions: seq<Form>, snapshot: Snapshot): Result<seq<PlannedAction>, MeaningError>
    decreases actions
  {
    if actions == [] then Ok([])
    else
      var first :- MeaningOf(actions[0], snapshot);
      var rest :- Meaning(actions[1..], snapshot);
      Ok(first + rest)
  }

  /** A choice is the record of its outcome followed by the meaning of one branch: the first when the
      condition is true, the second when it is not. */
  ghost function MeaningOf(action: Form, snapshot: Snapshot): Result<seq<PlannedAction>, MeaningError>
    decreases action
  {
    if !action.List? then Err(Unresolvable(ActionMustBeList))
    else if Head(action) == Some("choose") then
      if |action.forms| < 2 then Err(Unresolvable(BranchMustBeList))
      else
        match EvaluateGuard(action.forms[1], snapshot)
        case Err(error) => Err(Unresolvable(GuardFailed(error)))
        case Ok(_) =>
          var holds := GuardTruth.Holds(action.forms[1], snapshot);
          var outcome := Audit(if holds then "choose: then" else "choose: else");
          var at: nat := if holds then 2 else 3;
          if at >= |action.forms| then Ok([outcome])
          else if !action.forms[at].List? || action.forms[at].forms == [] then Err(Unresolvable(BranchMustBeList))
          else
            var branch :- Meaning(action.forms[at].forms[1..], snapshot);
            Ok([outcome] + branch)
    else
      match CompiledAction(action)
      case Err(error) => Err(Unplannable(error))
      case Ok(planned) => Ok([planned])
  }

  // ----- Compiling a concatenation -----

  lemma {:induction false} CompiledConcat(a: seq<Form>, b: seq<Form>)
    ensures CompiledActions(a + b)
         == if CompiledActions(a).Ok? then PrependActions(CompiledActions(a).value, CompiledActions(b))
            else CompiledActions(a)
  {
    if a == [] {
      assert a + b == b;
      assert CompiledActions(b).Ok? ==> [] + CompiledActions(b).value == CompiledActions(b).value;
    } else {
      assert (a + b)[1..] == a[1..] + b;
      CompiledConcat(a[1..], b);
      var first, rest := CompiledAction(a[0]), CompiledActions(a[1..]);
      if first.Ok? && rest.Ok? && CompiledActions(b).Ok? {
        assert [first.value] + (rest.value + CompiledActions(b).value)
            == [first.value] + rest.value + CompiledActions(b).value;
      }
    }
  }

  lemma CompiledSingle(form: Form)
    ensures CompiledActions([form])
         == if CompiledAction(form).Ok? then Ok([CompiledAction(form).value]) else Err(CompiledAction(form).error)
  {
    assert [form][1..] == [];
    assert CompiledAction(form).Ok? ==> [CompiledAction(form).value] + [] == [CompiledAction(form).value];
  }

  lemma NoticeCompiles(selectedThen: bool)
    ensures CompiledAction(Notice(selectedThen))
         == Ok(Audit(if selectedThen then "choose: then" else "choose: else"))
    ensures Head(Notice(selectedThen)) == Some("audit")
  {
    var form := Notice(selectedThen);
    var head := Head(form).value;
    assert head == "audit";
    assert head[0] == 'a' && head[1] == 'u';
    assert head != "command" && head != "wait" && head != "await";
  }

  /** A plan, or a plan error, as a meaning. */
  function Planned(r: Result<seq<PlannedAction>, PlanError>): Result<seq<PlannedAction>, MeaningError> {
    match r
    case Ok(actions) => Ok(actions)
    case Err(error) => Err(Unplannable(error))
  }

  lemma {:induction false} ResolvedActionMeaning(action: Form, snapshot: Snapshot)
    requires ResolveAction(action, snapshot).Ok?
    ensures Planned(CompiledActions(ResolveAction(action, snapshot).value)) == MeaningOf(action, snapshot)
    decreases action
  {
    if Head(action) != Some("choose") {
      CompiledSingle(action);
    } else {
      var holds := EvaluateGuard(action.forms[1], snapshot).value;
      var branch := Branch(action.forms, holds);
      GuardTruth.EvaluationIsTruth(action.forms[1], snapshot);
      NoticeCompiles(holds);
      CompiledSingle(Notice(holds));
      if branch.Some? {
        var body := branch.value.forms[1..];
        ResolvedSequenceMeaning(body, snapshot);
        CompiledConcat([Notice(holds)], ResolveSequence(body, snapshot).value);
      }
    }
  }

  /** Compiling the frozen actions gives the meaning of the original ones, error for error. */
  lemma {:induction false} ResolvedSequenceMeaning(actions: seq<Form>, snapshot: Snapshot)
    requires ResolveSequence(actions, snapshot).Ok?
    ensures Planned(CompiledActions(ResolveSequence(actions, snapshot).value)) == Meaning(actions, snapshot)
    decreases actions
  {
    if actions != [] {
      ResolvedActionMeaning(actions[0], snapshot);
      ResolvedSequenceMeaning(actions[1..], snapshot);
      CompiledConcat(
        ResolveAction(actions[0], snapshot).value, ResolveSequence(actions[1..], snapshot).value);
    }
  }

  // ----- Frozen sequences -----

  /** No `choose` is left in action position. */
  predicate Frozen(actions: seq<Form>) {
    forall a :: a in actions ==> a.List? && Head(a) != Some("choose")
  }

  lemma {:induction false} ResolvedIsFrozen(actions: seq<Form>, snapshot: Snapshot)
    ensures
      var r := ResolveSequence(actions, snapshot);
      r.Ok? ==> Frozen(r.value)
    decreases actions, 1
  {
    if actions != [] && ResolveSequence(actions, snapshot).Ok? {
      ResolvedActionIsFrozen(actions[0], snapshot);
      ResolvedIsFrozen(actions[1..], snapshot);
    }
  }

  lemma {:induction false} ResolvedActionIsFrozen(action: Form, snapshot: Snapshot)
    ensures
      var r := ResolveAction(action, snapshot);
      r.Ok? ==> Frozen(r.value)
    decreases action, 2
  {
    if Head(action) == Some("choose") && ResolveAction(action, snapshot).Ok? {
      var holds := EvaluateGuard(action.forms[1], snapshot).value;
      NoticeCompiles(holds);
      var branch := Branch(action.forms, holds);
      if branch.Some? {
        ResolvedIsFrozen(branch.value.forms[1..], snapshot);
      }
    }
  }

  lemma {:induction false} FrozenStays(actions: seq<Form>, snapshot: Snapshot)
    requires Frozen(actions)
    ensures ResolveSequence(actions, snapshot) == Ok(actions)
  {
    if actions != [] {
      FrozenStays(actions[1..], snapshot);
      assert [actions[0]] + actions[1..] == actions;
    }
  }

  // ----- Resolution of a validated flow cannot fail -----

  lemma {:induction false} ValidSequenceResolves(actions: seq<Form>, snapshot: Snapshot)
    requires forall a :: a in actions ==> ActionIsList(a) && ValidChoose(a, snapshot.parseUuid)
    ensures ResolveSequence(actions, snapshot).Ok?
    decreases actions, 1
  {
    if actions != [] {
      ValidActionResolves(actions[0], snapshot);
      ValidSequenceResolves(actions[1..], snapshot);
    }
  }

  lemma {:induction false} ValidActionResolves(action: Form, snapshot: Snapshot)
    requires ActionIsList(action) && ValidChoose(action, snapshot.parseUuid)
    ensures ResolveAction(action, snapshot).Ok?
    decreases action, 2
  {
    if Head(action) == Some("choose") {
      ValidGuardNeverFails(action.forms[1], snapshot);
      var holds := EvaluateGuard(action.forms[1], snapshot).value;
      var branch := Branch(action.forms, holds);
      if branch.Some? {
        var b := branch.value;
        assert b in action.forms[2..] && b in action.forms;
        assert ValidBranch(b) && ValidChoose(b, snapshot.parseUuid);
        forall a | a in b.forms[1..]
          ensures ActionIsList(a) && ValidChoose(a, snapshot.parseUuid)
        {
          assert exists i :: 1 <= i < |b.forms| && b.forms[i] == a;
          assert a in b.forms;
        }
        ValidSequenceResolves(b.forms[1..], snapshot);
      }
    }
  }

  // ----- What is validated -----

  /** The form itself, or one inside it. */
  ghost predicate Within(inner: Form, outer: Form)
    decreases outer
  {
    inner == outer || (outer.List? && exists f :: f in outer.forms && Within(inner, f))
  }

  /** A choice: a valid condition and one or two `do` blocks. */
  predicate IsChoice(form: Form, parseUuid: string -> Option<string>) {
    && form.List? && |form.forms| in {3, 4} && ValidGuard(form.forms[1], parseUuid)
    && forall i :: 2 <= i < |form.forms| ==> form.forms[i].List? && form.forms[i].forms != [] && form.forms[i].forms[0] == Symbol("do")
  }

  lemma ChoiceIff(form: Form, parseUuid: string -> Option<string>)
    requires Head(form) == Some("choose")
    ensures IsChoice(form, parseUuid)
       <==> && 3 <= |form.forms| <= 4 && ValidGuard(form.forms[1], parseUuid)
            && forall b :: b in form.forms[2..] ==> ValidBranch(b)
  {
    if |form.forms| >= 3 {
      var branches := form.forms[2..];
      forall i | 2 <= i < |form.forms|
        ensures form.forms[i] in branches
      {
        assert form.forms[i] == branches[i - 2];
      }
      forall b | b in branches
        ensures exists i :: 2 <= i < |form.forms| && form.forms[i] == b
      {
        var i :| 0 <= i < |branches| && branches[i] == b;
        assert form.forms[i + 2] == b;
      }
    }
  }

  /** A form is accepted exactly when every `choose` in it, at whatever depth, is a choice. */
  lemma {:induction false} AcceptedIffAllAreChoices(form: Form, parseUuid: string -> Option<string>)
    ensures ValidChoose(form, parseUuid)
       <==> forall c :: Within(c, form) && Head(c) == Some("choose") ==> IsChoice(c, parseUuid)
  {
    if form.List? {
      forall f | f in form.forms
        ensures ValidChoose(f, parseUuid)
           <==> forall c :: Within(c, f) && Head(c) == Some("choose") ==> IsChoice(c, parseUuid)
      {
        AcceptedIffAllAreChoices(f, parseUuid);
      }
      if Head(form) == Some("choose") {
        ChoiceIff(form, parseUuid);
        assert Within(form, form);
      }
      assert forall c, f :: f in form.forms && Within(c, f) ==> Within(c, form);
    }
  }

  // ----- Whole flows -----

  /** A flow as `create` and `update` accept it, with actions that are lists. */
  predicate Accepted(ast: Ast, parseUuid: string -> Option<string>) {
    && ValidateAst(ast).Ok?
    && ValidChoose(ast.root, parseUuid)
    && forall s :: s in ast.root.forms && Head(s) == Some("do") ==> ActionsAreLists(s.forms[1..])
  }

  lemma {:induction false} SectionsResolve(sections: seq<Form>, snapshot: Snapshot)
    requires forall s :: s in sections ==> ValidChoose(s, snapshot.parseUuid)
    requires forall s :: s in sections && Head(s) == Some("do") ==> ActionsAreLists(s.forms[1..])
    ensures ResolveSections(sections, snapshot).Ok?
  {
    if sections != [] {
      var s := sections[0];
      if Head(s) == Some("do") {
        assert ValidChoose(s, snapshot.parseUuid) && ActionsAreLists(s.forms[1..]);
        forall a | a in s.forms[1..]
          ensures ActionIsList(a) && ValidChoose(a, snapshot.parseUuid)
        {
          assert a in s.forms;
        }
        ValidSequenceResolves(s.forms[1..], snapshot);
      }
      SectionsResolve(sections[1..], snapshot);
    }
  }

  /** Resolution keeps the section heads, and all but the `do` sections. */
  lemma {:induction false} SectionsKept(sections: seq<Form>, snapshot: Snapshot)
    requires ResolveSections(sections, snapshot).Ok?
    ensures
      var resolved := ResolveSections(sections, snapshot).value;
      && |resolved| == |sections|
      && (forall i :: 0 <= i < |sections| ==>
            && Head(resolved[i]) == Head(sections[i])
            && resolved[i].List? == sections[i].List?
            && (Head(sections[i]) != Some("do") ==> resolved[i] == sections[i])
            && (Head(sections[i]) == Some("do") ==>
                  && ResolveSequence(sections[i].forms[1..], snapshot) == Ok(resolved[i].forms[1..])
                  && resolved[i].forms[0] == Symbol("do")))
  {
    if sections != [] {
      SectionsKept(sections[1..], snapshot);
      var resolved := ResolveSections(sections, snapshot).value;
      assert resolved[1..] == ResolveSections(sections[1..], snapshot).value;
      assert forall i :: 1 <= i < |sections| ==>
          sections[i] == sections[1..][i - 1] && resolved[i] == resolved[1..][i - 1];
      if Head(sections[0]) == Some("do") {
        var body := ResolveSequence(sections[0].forms[1..], snapshot).value;
        assert resolved[0] == List([Symbol("do")] + body);
        assert ([Symbol("do")] + body)[1..] == body;
      }
    }
  }

  lemma {:induction false} SectionOfSameHeads(a: seq<Form>, b: seq<Form>, name: string) returns (i: nat)
    requires |a| == |b| && forall i :: 0 <= i < |a| ==> Head(a[i]) == Head(b[i])
    ensures i <= |a|
    ensures i == |a| ==> Section(a, name).None? && Section(b, name).None?
    ensures i < |a| ==>
      && Head(a[i]) == Some(name) && Section(a, name) == Some(a[i].forms)
      && Head(b[i]) == Some(name) && Section(b, name) == Some(b[i].forms)
    ensures forall j :: 0 <= j < i ==> Head(a[j]) != Some(name)
  {
    i := 0;
    if a != [] && Head(a[0]) != Some(name) {
      var j := SectionOfSameHeads(a[1..], b[1..], name);
      i := j + 1;
    }
  }

  lemma ValidRootOfSameHeads(a: Form, b: Form)
    requires a.List? && b.List? && |a.forms| == |b.forms|
    requires |a.forms| > 0 ==> a.forms[0] == b.forms[0]
    requires forall i :: 0 <= i < |a.forms| ==> Head(a.forms[i]) == Head(b.forms[i])
    requires ValidRoot(a)
    ensures ValidRoot(b)
  {
    forall i | 1 <= i < |b.forms|
      ensures IsSection(b.forms[i]) && SectionPosition(b.forms[i]) == SectionPosition(a.forms[i])
    {
      assert IsSection(a.forms[i]);
    }
    var on :| 1 <= on < |a.forms| && Head(a.forms[on]) == Some("on");
    var body :| 1 <= body < |a.forms| && Head(a.forms[body]) == Some("do");
    assert Head(b.forms[on]) == Some("on") && Head(b.forms[body]) == Some("do");
  }

  /** The actions of a flow: its `do` section without its head. */
  function Body(ast: Ast): seq<Form>
    requires ast.root.List?
  {
    match Section(ast.root.forms, "do")
    case None => []
    case Some(items) => if items == [] then [] else items[1..]
  }

  lemma ResolvedRootIsValid(ast: Ast, snapshot: Snapshot)
    requires ValidateAst(ast).Ok? && ResolveSections(ast.root.forms, snapshot).Ok?
    ensures CheckRoot(List(ResolveSections(ast.root.forms, snapshot).value)).Ok?
  {
    var forms := ast.root.forms;
    var kept := ResolveSections(forms, snapshot).value;
    SectionsKept(forms, snapshot);
    CheckRootMeaning(ast.root);
    assert Head(forms[0]).None?;
    ValidRootOfSameHeads(ast.root, List(kept));
    CheckRootMeaning(List(kept));
  }

  lemma ResolvedFlowKeepsRoot(ast: Ast, snapshot: Snapshot)
    requires ValidateAst(ast).Ok? && ResolveSections(ast.root.forms, snapshot).Ok?
    ensures ResolveFlow(ast, snapshot).Ok?
    ensures
      var resolved := ResolveFlow(ast, snapshot).value;
      && ValidateAst(resolved).Ok?
      && resolved.root == List(ResolveSections(ast.root.forms, snapshot).value)
      && Section(resolved.root.forms, "meta") == Section(ast.root.forms, "meta")
      && Section(resolved.root.forms, "do").Some?
      && ResolveSequence(Body(ast), snapshot) == Ok(Body(resolved))
  {
    var forms := ast.root.forms;
    var kept := ResolveSections(forms, snapshot).value;
    ResolvedRootIsValid(ast, snapshot);
    SectionsKept(forms, snapshot);
    var meta := SectionOfSameHeads(forms, kept, "meta");
    var body := SectionOfSameHeads(forms, kept, "do");
    CheckRootMeaning(ast.root);
    assert body < |forms|;
  }

  /** The main law. An accepted flow resolves on every snapshot, to a valid flow without choices;
      resolving that flow again, on any later snapshot, changes nothing; and it compiles exactly when
      the tree of choices has a meaning, to that meaning, under the policy of the original flow. */
  lemma ChooseKeepsMeaning(ast: Ast, snapshot: Snapshot)
    requires Accepted(ast, snapshot.parseUuid)
    ensures ResolveFlow(ast, snapshot).Ok?
    ensures
      var resolved := ResolveFlow(ast, snapshot).value;
      && ValidateAst(resolved).Ok?
      && Frozen(Body(resolved))
      && Planned(CompiledActions(Body(resolved))) == Meaning(Body(ast), snapshot)
      && (match CompiledPlan(resolved)
          case Ok(plan) =>
            && Meaning(Body(ast), snapshot) == Ok(plan.actions)
            && FlowMaxRuntime(ast.root.forms) == Ok(plan.maxRuntimeMilliseconds)
            && FlowConcurrency(ast.root.forms) == Ok(plan.concurrency)
          case Err(_) =>
            || Meaning(Body(ast), snapshot).Err?
            || FlowMaxRuntime(ast.root.forms).Err?
            || FlowConcurrency(ast.root.forms).Err?)
  {
    forall s | s in ast.root.forms
      ensures ValidChoose(s, snapshot.parseUuid)
    {
    }
    SectionsResolve(ast.root.forms, snapshot);
    ResolvedFlowKeepsRoot(ast, snapshot);
    ResolvedIsFrozen(Body(ast), snapshot);
    ResolvedSequenceMeaning(Body(ast), snapshot);
  }

  /** A resolved flow is fixed: no later snapshot changes the branch that was taken. */
  lemma ResolvedFlowIsFixed(ast: Ast, snapshot: Snapshot, later: Snapshot)
    requires ValidateAst(ast).Ok? && ResolveFlow(ast, snapshot).Ok?
    ensures ResolveFlow(ResolveFlow(ast, snapshot).value, later) == ResolveFlow(ast, snapshot)
  {
    var forms := ast.root.forms;
    var kept := ResolveSections(forms, snapshot).value;
    SectionsKept(forms, snapshot);
    ResolvedFlowKeepsRoot(ast, snapshot);
    forall s | s in kept && Head(s) == Some("do")
      ensures s.forms != [] && s.forms[0] == Symbol("do") && Frozen(s.forms[1..])
    {
      var i :| 0 <= i < |kept| && kept[i] == s;
      ResolvedIsFrozen(forms[i].forms[1..], snapshot);
    }
    FrozenSectionsStay(kept, later);
  }

  lemma {:induction false} FrozenSectionsStay(sections: seq<Form>, snapshot: Snapshot)
    requires forall s :: s in sections && Head(s) == Some("do") ==>
      s.forms != [] && s.forms[0] == Symbol("do") && Frozen(s.forms[1..])
    ensures ResolveSections(sections, snapshot) == Ok(sections)
  {
    if sections != [] {
      var s := sections[0];
      if Head(s) == Some("do") {
        FrozenStays(s.forms[1..], snapshot);
        assert [Symbol("do")] + s.forms[1..] == s.forms;
      }
      FrozenSectionsStay(sections[1..], snapshot);
      assert [s] + sections[1..] == sections;
    }
  }
}
