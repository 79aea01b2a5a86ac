// When a guard is true, said of the state of the home alone and not of how the guard is evaluated.
module GuardTruth {
  import opened Wrappers
  import opened StateValues
  import opened FlowAst
  import opened Guards
  import FlowCompiler

  // ----- What a value reads -----

  predicate Usable(state: StateProperty, key: string) {
    state.key == key && state.quality in {ReportedQuality, EstimatedQuality}
  }

  /** The value of the first usable report under a key. */
  ghost predicate FirstUsable(states: seq<StateProperty>, key: string, value: StateValue) {
    exists i :: 0 <= i < |states| && Usable(states[i], key) && states[i].value == value
      && forall j :: 0 <= j < i ==> !Usable(states[j], key)
  }

  /** `(state (entity "id") :key)`, the key possibly written as a text. */
  predicate NamesState(form: Form, id: string, key: string) {
    && form.List? && |form.forms| == 3 && form.forms[0] == Symbol("state")
    && form.forms[1].List? && |form.forms[1].forms| >= 2
    && form.forms[1].forms[0] == Symbol("entity") && form.forms[1].forms[1] == Text(id)
    && form.forms[2] in {Keyword(key), Text(key)}
  }

  ghost predicate Reads(form: Form, snapshot: Snapshot, value: StateValue) {
    match form
    case Bool(b) => value == BoolValue(b)
    case Text(s) => value == TextValue(s)
    case Number(literal, unit) =>
      unit == Some("%") && value.PercentageValue? && FlowCompiler.ParseDecimal(literal) == Some(value.p)
    case List(_) =>
      exists id, key :: NamesState(form, id, key) && snapshot.parseUuid(id).Some?
        && FirstUsable(snapshot.states(snapshot.parseUuid(id).value), key, value)
    case _ => false
  }

  // ----- How two values relate -----

  function Distance(a: real, b: real): real {
    if a < b then b - a else a - b
  }

  /** Equal values: percentages are equal when they are less than 2^-52 apart. */
  predicate Same(a: StateValue, b: StateValue) {
    || (a == b && !a.PercentageValue?)
    || (a.PercentageValue? && b.PercentageValue? && 4503599627370496.0 * Distance(a.p, b.p) < 1.0)
  }

  /** An order holds only between percentages. */
  predicate Related(operator: string, a: StateValue, b: StateValue) {
    || (operator == "=" && Same(a, b))
    || (operator == "!=" && !Same(a, b))
    || (a.PercentageValue? && b.PercentageValue?
        && var difference := b.p - a.p;
           || (operator == "<" && difference > 0.0)
           || (operator == "<=" && difference >= 0.0)
           || (operator == ">" && difference < 0.0)
           || (operator == ">=" && difference <= 0.0))
  }

  // ----- Truth -----

  ghost predicate Holds(form: Form, snapshot: Snapshot) {
    && form.List? && form.forms != []
    && var items := form.forms;
       if items[0] == Symbol("all") then forall i :: 1 <= i < |items| ==> Holds(items[i], snapshot)
       else if items[0] == Symbol("any") then exists i :: 1 <= i < |items| && Holds(items[i], snapshot)
       else if items[0] == Symbol("not") then |items| == 2 && !Holds(items[1], snapshot)
       else if items[0] in {Symbol("available?"), Symbol("present?")} then
         |items| == 2 && exists value :: Reads(items[1], snapshot, value)
       else
         && |items| == 3 && items[0].Symbol?
         && exists a, b ::
              Reads(items[1], snapshot, a) && Reads(items[2], snapshot, b) && Related(items[0].value, a, b)
  }

  // ----- Evaluation finds the truth -----

  lemma {:induction false} FoundIsFirstUsable(states: seq<StateProperty>, key: string, value: StateValue)
    ensures FindState(states, key) == Some(value) <==> FirstUsable(states, key, value)
  {
    if states != [] {
      var rest := states[1..];
      FoundIsFirstUsable(rest, key, value);
      if FirstUsable(rest, key, value) && !Usable(states[0], key) {
        var i :| 0 <= i < |rest| && Usable(rest[i], key) && rest[i].value == value
          && forall j :: 0 <= j < i ==> !Usable(rest[j], key);
        assert states[i + 1] == rest[i];
        assert forall j :: 1 <= j < i + 1 ==> states[j] == rest[j - 1];
      }
      if FirstUsable(states, key, value) && !Usable(states[0], key) {
        var i :| 0 <= i < |states| && Usable(states[i], key) && states[i].value == value
          && forall j :: 0 <= j < i ==> !Usable(states[j], key);
        assert rest[i - 1] == states[i];
        assert forall j :: 0 <= j < i - 1 ==> rest[j] == states[j + 1];
      }
      if Usable(states[0], key) && FirstUsable(states, key, value) {
        assert states[0].value == value;
      }
    }
  }

  /** A readable value is the one read, or none when nothing is. */
  lemma ValueIsRead(form: Form, snapshot: Snapshot, value: StateValue)
    requires GuardValue(form, snapshot).Ok?
    ensures GuardValue(form, snapshot) == Ok(Some(value)) <==> Reads(form, snapshot, value)
  {
    if form.List? {
      var id, key := EntityReference(form.forms).value, PropertyName(form.forms).value;
      assert NamesState(form, id, key);
      assert forall i, k :: NamesState(form, i, k) ==> i == id && k == key;
      FoundIsFirstUsable(snapshot.states(snapshot.parseUuid(id).value), key, value);
    }
  }

  lemma OnlyItsValueIsRead(form: Form, snapshot: Snapshot)
    requires GuardValue(form, snapshot).Ok?
    ensures forall value :: Reads(form, snapshot, value) <==> GuardValue(form, snapshot).value == Some(value)
  {
    forall value
      ensures Reads(form, snapshot, value) <==> GuardValue(form, snapshot).value == Some(value)
    {
      ValueIsRead(form, snapshot, value);
    }
  }

  lemma ComparedIsRelated(operator: string, a: StateValue, b: StateValue)
    requires IsComparison(operator)
    ensures Compare(operator, Some(a), Some(b)) <==> Related(operator, a, b)
  {
  }

  lemma ComparisonMeansHolds(form: Form, snapshot: Snapshot)
    requires form.List? && |form.forms| == 3 && form.forms[0].Symbol? && IsComparison(form.forms[0].value)
    requires GuardValue(form.forms[1], snapshot).Ok? && GuardValue(form.forms[2], snapshot).Ok?
    ensures Compare(
        form.forms[0].value, GuardValue(form.forms[1], snapshot).value, GuardValue(form.forms[2], snapshot).value)
      <==> exists a, b ::
             && Reads(form.forms[1], snapshot, a) && Reads(form.forms[2], snapshot, b)
             && Related(form.forms[0].value, a, b)
  {
    OnlyItsValueIsRead(form.forms[1], snapshot);
    OnlyItsValueIsRead(form.forms[2], snapshot);
    var left, right := GuardValue(form.forms[1], snapshot).value, GuardValue(form.forms[2], snapshot).value;
    if left.Some? && right.Some? {
      ComparedIsRelated(form.forms[0].value, left.value, right.value);
    }
  }

  /** Whenever the evaluation of a guard does not fail, it finds out whether the guard is true. */
  lemma {:induction false} EvaluationIsTruth(form: Form, snapshot: Snapshot)
    requires EvaluateGuard(form, snapshot).Ok?
    ensures EvaluateGuard(form, snapshot).value <==> Holds(form, snapshot)
    decreases form, 0
  {
    var items, head := form.forms, Head(form).value;
    if head == "all" || head == "any" {
      EvaluationsAreTruths(items[1..], snapshot);
      var values := EvaluateGuards(items[1..], snapshot).value;
      assert forall i :: 1 <= i < |items| ==> items[i] == items[1..][i - 1] && (values[i - 1] <==> Holds(items[i], snapshot));
      assert forall i :: 0 <= i < |values| ==> (values[i] <==> Holds(items[i + 1], snapshot));
    } else if head == "not" {
      EvaluationIsTruth(items[1], snapshot);
    } else if head == "available?" || head == "present?" {
      OnlyItsValueIsRead(items[1], snapshot);
    } else {
      ComparisonMeansHolds(form, snapshot);
    }
  }

  lemma {:induction false} EvaluationsAreTruths(forms: seq<Form>, snapshot: Snapshot)
    requires EvaluateGuards(forms, snapshot).Ok?
    ensures forall i :: 0 <= i < |forms| ==> (EvaluateGuards(forms, snapshot).value[i] <==> Holds(forms[i], snapshot))
    decreases forms, 1
  {
    if forms != [] {
      EvaluationIsTruth(forms[0], snapshot);
      EvaluationsAreTruths(forms[1..], snapshot);
      assert forall i :: 1 <= i < |forms| ==> forms[i] == forms[1..][i - 1];
    }
  }

  /** A valid guard is true on exactly the snapshots on which its evaluation says so. */
  lemma GuardMeansHolds(form: Form, snapshot: Snapshot)
    requires ValidGuard(form, snapshot.parseUuid)
    ensures EvaluateGuard(form, snapshot) == Ok(true) <==> Holds(form, snapshot)
    ensures EvaluateGuard(form, snapshot) == Ok(false) <==> !Holds(form, snapshot)
  {
    ValidGuardNeverFails(form, snapshot);
    EvaluationIsTruth(form, snapshot);
  }

  // ----- Which guards are valid -----

  /** A value that can be read on any snapshot, whether or not something is reported there. */
  ghost predicate IsValue(form: Form, parseUuid: string -> Option<string>) {
    || form.Bool? || form.Text?
    || (form.Number? && form.unit == Some("%") && FlowCompiler.ParseDecimal(form.literal).Some?)
    || exists id, key :: NamesState(form, id, key) && parseUuid(id).Some? && key != ""
  }

  ghost predicate IsCondition(form: Form, parseUuid: string -> Option<string>) {
    && form.List? && form.forms != []
    && var items := form.forms;
       || (items[0] in {Symbol("all"), Symbol("any")} && |items| > 1
           && forall i :: 1 <= i < |items| ==> IsCondition(items[i], parseUuid))
       || (items[0] == Symbol("not") && |items| == 2 && IsCondition(items[1], parseUuid))
       || (items[0] in {Symbol("available?"), Symbol("present?")} && |items| == 2 && IsValue(items[1], parseUuid))
       || (items[0] in {Symbol("="), Symbol("!="), Symbol("<"), Symbol("<="), Symbol(">"), Symbol(">=")}
           && |items| == 3 && IsValue(items[1], parseUuid) && IsValue(items[2], parseUuid))
  }

  lemma ValueIsValidIff(form: Form, parseUuid: string -> Option<string>)
    ensures ValidGuardValue(form, parseUuid) <==> IsValue(form, parseUuid)
  {
    if form.List? && ValidGuardValue(form, parseUuid) {
      assert NamesState(form, EntityReference(form.forms).value, PropertyName(form.forms).value);
    }
  }

  /** A guard is valid exactly when it is made of the boolean forms over comparisons and presence of values,
      each with as many parts as it takes. */
  lemma {:induction false} GuardIsValidIff(form: Form, parseUuid: string -> Option<string>)
    ensures ValidGuard(form, parseUuid) <==> IsCondition(form, parseUuid)
  {
    if form.List? && form.forms != [] {
      var items := form.forms;
      forall i | 1 <= i < |items|
        ensures ValidGuard(items[i], parseUuid) <==> IsCondition(items[i], parseUuid)
        ensures ValidGuardValue(items[i], parseUuid) <==> IsValue(items[i], parseUuid)
      {
        GuardIsValidIff(items[i], parseUuid);
        ValueIsValidIff(items[i], parseUuid);
      }
      assert forall i :: 1 <= i < |items| ==> items[1..][i - 1] == items[i];
    }
  }
}
