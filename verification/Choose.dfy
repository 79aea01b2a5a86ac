// `choose` actions: the branch is frozen against a snapshot before the flow is compiled.
module Choose {
  import opened Wrappers
  import opened FlowAst
  import opened Plan
  import opened FlowCompiler
  import opened Guards

  datatype ChooseError =
    | ActionMustBeList
    | BranchMustBeList
    | GuardFailed(guard: GuardError)
    | RootInvalid(root: AstError)

  // ----- Validation, done once when a flow is saved -----

  predicate ValidBranch(form: Form) {
    Head(form) == Some("do")
  }

  /** Every `choose` anywhere in the form has a valid guard and one or two `do` blocks. */
  predicate ValidChoose(form: Form, parseUuid: string -> Option<string>) {
    form.List? ==>
      && (Head(form) == Some("choose") ==>
            && 3 <= |form.forms| <= 4
            && ValidGuard(form.forms[1], parseUuid)
            && forall b :: b in form.forms[2..] ==> ValidBranch(b))
      && forall f :: f in form.forms ==> ValidChoose(f, parseUuid)
  }

  /** Every action of the sequence, in whatever branch, is a list. */
  predicate ActionsAreLists(actions: seq<Form>) {
    forall a :: a in actions ==> ActionIsList(a)
  }

  predicate ActionIsList(action: Form) {
    && action.List?
    && (Head(action) == Some("choose") ==>
          forall b :: b in action.forms && b.List? ==>
            forall i :: 1 <= i < |b.forms| && Head(b) == Some("do") ==> ActionIsList(b.forms[i]))
  }

  // ----- Resolution -----

  function Notice(selectedThen: bool): Form {
    List([Symbol("audit"), Keyword("message"), Text(if selectedThen then "choose: then" else "choose: else")])
  }

  /** The selected branch of a validated choose, if there is one. */
  function Branch(items: seq<Form>, selectedThen: bool): Option<Form> {
    var at: nat := if selectedThen then 2 else 3;
    if at < |items| then Some(items[at]) else None
  }

  function ResolveSequence(actions: seq<Form>, snapshot: Snapshot): Result<seq<Form>, ChooseError>
    decreases actions
  {
    if actions == [] then Ok([])
    else
      var first :- ResolveAction(actions[0], snapshot);
      var rest :- ResolveSequence(actions[1..], snapshot);
      Ok(first + rest)
  }

  function ResolveAction(action: Form, snapshot: Snapshot): Result<seq<Form>, ChooseError>
    decreases action
  {
    if !action.List? then Err(ActionMustBeList)
    else if Head(action) != Some("choose") then Ok([action])
    else if |action.forms| < 2 then Err(BranchMustBeList)
    else
      match EvaluateGuard(action.forms[1], snapshot)
      case Err(error) => Err(GuardFailed(error))
      case Ok(selectedThen) =>
        match Branch(action.forms, selectedThen)
        case None => Ok([Notice(selectedThen)])
        case Some(branch) =>
          if !branch.List? || branch.forms == [] then Err(BranchMustBeList)
          else
            var chosen :- ResolveSequence(branch.forms[1..], snapshot);
            Ok([Notice(selectedThen)] + chosen)
  }

  /** Every `do` section is rewritten; the other sections are kept. */
  function ResolveSections(sections: seq<Form>, snapshot: Snapshot): Result<seq<Form>, ChooseError> {
    if sections == [] then Ok([])
    else
      var first :-
        if Head(sections[0]) == Some("do") then
          (match ResolveSequence(sections[0].forms[1..], snapshot)
           case Err(e) => Err(e)
           case Ok(body) => Ok(List([Symbol("do")] + body)))
        else Ok(sections[0]);
      var rest :- ResolveSections(sections[1..], snapshot);
      Ok([first] + rest)
  }

  function ResolveFlow(ast: Ast, snapshot: Snapshot): Result<Ast, ChooseError> {
    if !ast.root.List? then Err(BranchMustBeList)
    else
      var sections :- ResolveSections(ast.root.forms, snapshot);
      match NewAst(List(sections))
      case Err(error) => Err(RootInvalid(error))
      case Ok(resolved) => Ok(resolved)
  }

  // ----- The rewriting loops. A flow reaches them only after validation. -----

  function WithPrefix(forms: seq<Form>, r: Result<seq<Form>, ChooseError>): Result<seq<Form>, ChooseError> {
    if r.Ok? then Ok(forms + r.value) else r
  }

  lemma WithPrefixTwice(a: seq<Form>, b: seq<Form>, r: Result<seq<Form>, ChooseError>)
    ensures WithPrefix(a, WithPrefix(b, r)) == WithPrefix(a + b, r)
  {
    assert r.Ok? ==> a + (b + r.value) == a + b + r.value;
  }

  method ResolveActions(actions: seq<Form>, snapshot: Snapshot) returns (r: Result<seq<Form>, ChooseError>)
    requires forall a :: a in actions ==> ValidChoose(a, snapshot.parseUuid)
    ensures r == ResolveSequence(actions, snapshot)
    decreases actions
  {
    var resolved: seq<Form> := [];
    var i := 0;
    assert actions[0..] == actions;
    assert ResolveSequence(actions, snapshot) == WithPrefix([], ResolveSequence(actions, snapshot)) by {
      var all := ResolveSequence(actions, snapshot);
      assert all.Ok? ==> [] + all.value == all.value;
    }
    while i < |actions|
      invariant i <= |actions|
      invariant ResolveSequence(actions, snapshot) == WithPrefix(resolved, ResolveSequence(actions[i..], snapshot))
    {
      var action := actions[i];
      assert ValidChoose(action, snapshot.parseUuid);
      assert actions[i..][1..] == actions[i + 1..];
      ghost var rest := ResolveSequence(actions[i + 1..], snapshot);
      if !action.List? {
        return Err(ActionMustBeList);
      }
      if Head(action) != Some("choose") {
        WithPrefixTwice(resolved, [action], rest);
        resolved := resolved + [action];
      } else {
        var selected := EvaluateGuard(action.forms[1], snapshot);
        if selected.Err? {
          return Err(GuardFailed(selected.error));
        }
        var added := [Notice(selected.value)];
        var branch := Branch(action.forms, selected.value);
        if branch.Some? {
          assert branch.value in action.forms[2..];
          assert ValidBranch(branch.value) && ValidChoose(branch.value, snapshot.parseUuid);
          var body := branch.value.forms[1..];
          assert forall a :: a in body ==> a in branch.value.forms;
          var chosen := ResolveActions(body, snapshot);
          if chosen.Err? {
            return Err(chosen.error);
          }
          added := added + chosen.value;
        }
        assert ResolveAction(action, snapshot) == Ok(added);
        WithPrefixTwice(resolved, added, rest);
        resolved := resolved + added;
      }
      i := i + 1;
    }
    assert resolved + [] == resolved;
    return Ok(resolved);
  }

  method Resolve(ast: Ast, snapshot: Snapshot) returns (r: Result<Ast, ChooseError>)
    requires ValidChoose(ast.root, snapshot.parseUuid)
    ensures r == ResolveFlow(ast, snapshot)
  {
    if !ast.root.List? {
      return Err(BranchMustBeList);
    }
    var forms := ast.root.forms;
    var rewritten: seq<Form> := [];
    var i := 0;
    assert forms[0..] == forms;
    assert ResolveSections(forms, snapshot) == WithPrefix([], ResolveSections(forms, snapshot)) by {
      var all := ResolveSections(forms, snapshot);
      assert all.Ok? ==> [] + all.value == all.value;
    }
    while i < |forms|
      invariant i <= |forms|
      invariant ResolveSections(forms, snapshot) == WithPrefix(rewritten, ResolveSections(forms[i..], snapshot))
    {
      var form := forms[i];
      assert ValidChoose(form, snapshot.parseUuid);
      assert forms[i..][1..] == forms[i + 1..];
      if Head(form) == Some("do") {
        var actions := form.forms[1..];
        assert forall a :: a in actions ==> a in form.forms;
        var body := ResolveActions(actions, snapshot);
        if body.Err? {
          return Err(body.error);
        }
        form := List([Symbol("do")] + body.value);
      }
      WithPrefixTwice(rewritten, [form], ResolveSections(forms[i + 1..], snapshot));
      rewritten := rewritten + [form];
      i := i + 1;
    }
    assert rewritten + [] == rewritten;
    var valid := ValidateRoot(List(rewritten));
    if valid.Err? {
      return Err(RootInvalid(valid.error));
    }
    return Ok(Ast(DSL_NAME, DSL_VERSION, List(rewritten)));
  }
}
