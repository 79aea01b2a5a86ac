// Forms, and the grammar of the root form of a flow.
module FlowAst {
  import opened Wrappers

  datatype Form =
    | List(forms: seq<Form>)
    | Symbol(value: string)
    | Keyword(value: string)
    | Text(value: string)
    | Bool(b: bool)
    | Nil
    | Number(literal: string, unit: Option<string>)

  const DSL_NAME := "robine-flow"
  const DSL_VERSION: nat := 1

  datatype Ast = Ast(dsl: string, dslVersion: nat, root: Form)

  datatype AstError =
    | UnknownDsl(name: string)
    | UnsupportedVersion(version: nat)
    | RootMustBeList
    | RootMustStartWithFlow
    | RootSectionMustBeList
    | RootSectionNameMissing
    | UnknownRootSection(name: string)
    | RootSectionOrder(name: string)
    | TriggerMissing
    | BodyMissing

  /** The symbol at the head of a list form. */
  function Head(form: Form): Option<string> {
    if form.List? then HeadOf(form.forms) else None
  }

  function HeadOf(items: seq<Form>): Option<string> {
    if |items| > 0 && items[0].Symbol? then Some(items[0].value) else None
  }

  function Position(name: string): Option<nat> {
    if name == "meta" then Some(0)
    else if name == "inputs" then Some(1)
    else if name == "on" then Some(2)
    else if name == "when" then Some(3)
    else if name == "do" then Some(4)
    else None
  }

  // ----- The root grammar, stated without a scan -----

  predicate IsSection(form: Form) {
    Head(form).Some? && Position(Head(form).value).Some?
  }

  function SectionPosition(form: Form): nat
    requires IsSection(form)
  {
    Position(Head(form).value).value
  }

  /** Known sections, each at most once, in the fixed order, with a trigger and a body. */
  ghost predicate ValidRoot(root: Form) {
    && Head(root) == Some("flow")
    && (forall i :: 1 <= i < |root.forms| ==> IsSection(root.forms[i]))
    && (forall i, j :: 1 <= i < j < |root.forms| ==>
          SectionPosition(root.forms[i]) < SectionPosition(root.forms[j]))
    && (exists i :: 1 <= i < |root.forms| && Head(root.forms[i]) == Some("on"))
    && (exists i :: 1 <= i < |root.forms| && Head(root.forms[i]) == Some("do"))
  }

  // ----- The scan and its first error -----

  function CheckSections(sections: seq<Form>, expected: nat, trigger: bool, body: bool): Result<(), AstError> {
    if sections == [] then
      if !trigger then Err(TriggerMissing) else if !body then Err(BodyMissing) else Ok(())
    else if !sections[0].List? then Err(RootSectionMustBeList)
    else
      match Head(sections[0])
      case None => Err(RootSectionNameMissing)
      case Some(name) =>
        match Position(name)
        case None => Err(UnknownRootSection(name))
        case Some(position) =>
          if position < expected then Err(RootSectionOrder(name))
          else CheckSections(sections[1..], position + 1, trigger || name == "on", body || name == "do")
  }

  function CheckRoot(root: Form): Result<(), AstError> {
    if !root.List? then Err(RootMustBeList)
    else if Head(root) != Some("flow") then Err(RootMustStartWithFlow)
    else CheckSections(root.forms[1..], 0, false, false)
  }

  method ValidateRoot(root: Form) returns (r: Result<(), AstError>)
    ensures r == CheckRoot(root)
  {
    if !root.List? {
      return Err(RootMustBeList);
    }
    if Head(root) != Some("flow") {
      return Err(RootMustStartWithFlow);
    }
    var expected := 0;
    var trigger, body := false, false;
    var i := 1;
    while i < |root.forms|
      invariant 1 <= i <= |root.forms|
      invariant CheckRoot(root) == CheckSections(root.forms[i..], expected, trigger, body)
    {
      var section := root.forms[i];
      assert root.forms[i..][1..] == root.forms[i + 1..];
      if !section.List? {
        return Err(RootSectionMustBeList);
      }
      var name := Head(section);
      if name.None? {
        return Err(RootSectionNameMissing);
      }
      var position := Position(name.value);
      if position.None? {
        return Err(UnknownRootSection(name.value));
      }
      if position.value < expected {
        return Err(RootSectionOrder(name.value));
      }
      expected := position.value + 1;
      trigger := trigger || name.value == "on";
      body := body || name.value == "do";
      i := i + 1;
    }
    if !trigger {
      return Err(TriggerMissing);
    }
    if !body {
      return Err(BodyMissing);
    }
    return Ok(());
  }

  ghost predicate OrderedSections(sections: seq<Form>, expected: nat) {
    && (forall i :: 0 <= i < |sections| ==>
          IsSection(sections[i]) && expected <= SectionPosition(sections[i]))
    && (forall i, j :: 0 <= i < j < |sections| ==> SectionPosition(sections[i]) < SectionPosition(sections[j]))
  }

  ghost predicate Has(sections: seq<Form>, name: string) {
    exists i :: 0 <= i < |sections| && Head(sections[i]) == Some(name)
  }

  lemma {:induction false} CheckSectionsMeaning(sections: seq<Form>, expected: nat, trigger: bool, body: bool)
    ensures CheckSections(sections, expected, trigger, body).Ok? <==>
      OrderedSections(sections, expected) && (trigger || Has(sections, "on")) && (body || Has(sections, "do"))
  {
    if sections != [] {
      var rest := sections[1..];
      assert forall i :: 1 <= i < |sections| ==> sections[i] == rest[i - 1];
      assert forall i :: 0 <= i < |rest| ==> rest[i] == sections[i + 1];
      if IsSection(sections[0]) {
        var name := Head(sections[0]).value;
        var next := SectionPosition(sections[0]) + 1;
        CheckSectionsMeaning(rest, next, trigger || name == "on", body || name == "do");
        assert Has(sections, "on") <==> name == "on" || Has(rest, "on");
        assert Has(sections, "do") <==> name == "do" || Has(rest, "do");
        assert expected <= SectionPosition(sections[0]) ==>
          (OrderedSections(sections, expected) <==> OrderedSections(rest, next));
      }
    }
  }

  /** The scan accepts exactly the forms of the root grammar. */
  lemma CheckRootMeaning(root: Form)
    ensures CheckRoot(root).Ok? <==> ValidRoot(root)
  {
    if Head(root) == Some("flow") {
      var sections := root.forms[1..];
      CheckSectionsMeaning(sections, 0, false, false);
      assert forall i :: 1 <= i < |root.forms| ==> root.forms[i] == sections[i - 1];
      assert forall i :: 0 <= i < |sections| ==> sections[i] == root.forms[i + 1];
    }
  }

  function NewAst(root: Form): Result<Ast, AstError> {
    var _ :- CheckRoot(root);
    Ok(Ast(DSL_NAME, DSL_VERSION, root))
  }

  function ValidateAst(ast: Ast): Result<(), AstError> {
    if ast.dsl != DSL_NAME then Err(UnknownDsl(ast.dsl))
    else if ast.dslVersion != DSL_VERSION then Err(UnsupportedVersion(ast.dslVersion))
    else CheckRoot(ast.root)
  }
}
