// Guards: boolean conditions over the reported state of the home.
module Guards {
  import opened Wrappers
  import opened StateValues
  import opened FlowAst
  import FlowCompiler

  datatype Quality = ReportedQuality | EstimatedQuality | UnavailableQuality | InvalidQuality

  datatype StateProperty = StateProperty(
    entityId: string, key: string, value: StateValue, quality: Quality, sourceAt: int, receivedAt: int, version: nat)

  /** A snapshot of the home. UUID parsing belongs to a library: it is a parameter. */
  datatype Snapshot = Snapshot(parseUuid: string -> Option<string>, states: string -> seq<StateProperty>)

  datatype GuardError =
    | GuardMustBeList
    | AllIsEmpty
    | AnyIsEmpty
    | NotTakesOne
    | AvailabilityTakesOne
    | UnsupportedGuard(operator: string)
    | GuardHeadMissing
    | InvalidPercentage
    | StateNeedsEntity
    | StateNeedsProperty
    | StateTakesTwo
    | StateEntityIsNotUuid
    | UnsupportedValue

  predicate IsComparison(operator: string) {
    operator == "=" || operator == "!=" || operator == "<" || operator == "<=" || operator == ">" || operator == ">="
  }

  // ----- Values -----

  /** The first usable report of a property: reported or estimated, never unavailable or invalid. */
  function FindState(states: seq<StateProperty>, key: string): Option<StateValue> {
    if states == [] then None
    else if states[0].key == key && (states[0].quality.ReportedQuality? || states[0].quality.EstimatedQuality?)
    then Some(states[0].value)
    else FindState(states[1..], key)
  }

  function EntityReference(items: seq<Form>): Option<string> {
    if |items| > 1 && Head(items[1]) == Some("entity") then FlowCompiler.TextAt(items[1].forms, 1) else None
  }

  function PropertyName(items: seq<Form>): Option<string> {
    if |items| > 2 && (items[2].Keyword? || items[2].Text?) then Some(items[2].value) else None
  }

  /** A missing value is `None`: it never turns into zero, an empty text or an implicit truth. */
  function GuardValue(form: Form, snapshot: Snapshot): Result<Option<StateValue>, GuardError> {
    match form
    case Bool(b) => Ok(Some(BoolValue(b)))
    case Text(s) => Ok(Some(TextValue(s)))
    case Number(literal, unit) =>
      if unit != Some("%") then Err(UnsupportedValue)
      else
        (match FlowCompiler.ParseDecimal(literal)
         case None => Err(InvalidPercentage)
         case Some(p) => Ok(Some(PercentageValue(p))))
    case List(items) =>
      if Head(form) != Some("state") then Err(UnsupportedValue)
      else if EntityReference(items).None? then Err(StateNeedsEntity)
      else if PropertyName(items).None? then Err(StateNeedsProperty)
      else if |items| != 3 then Err(StateTakesTwo)
      else
        (match snapshot.parseUuid(EntityReference(items).value)
         case None => Err(StateEntityIsNotUuid)
         case Some(entity) => Ok(FindState(snapshot.states(entity), PropertyName(items).value)))
    case _ => Err(UnsupportedValue)
  }

  /** The spacing of floating-point numbers at one: percentages closer than this are equal. */
  const EPSILON: real := 1.0 / 4503599627370496.0

  predicate ValuesEqual(left: StateValue, right: StateValue) {
    match (left, right)
    case (BoolValue(a), BoolValue(b)) => a == b
    case (PercentageValue(a), PercentageValue(b)) => -EPSILON < a - b < EPSILON
    case (TextValue(a), TextValue(b)) => a == b
    case _ => false
  }

  predicate Compare(operator: string, left: Option<StateValue>, right: Option<StateValue>) {
    if left.None? || right.None? then false
    else if operator == "=" then ValuesEqual(left.value, right.value)
    else if operator == "!=" then !ValuesEqual(left.value, right.value)
    else if left.value.PercentageValue? && right.value.PercentageValue? then
      var a, b := left.value.p, right.value.p;
      if operator == "<" then a < b
      else if operator == "<=" then a <= b
      else if operator == ">" then a > b
      else a >= b
    else false
  }

  // ----- Evaluation -----

  function EvaluateGuard(form: Form, snapshot: Snapshot): Result<bool, GuardError>
    decreases form, 0
  {
    if !form.List? then Err(GuardMustBeList)
    else
      var items := form.forms;
      match Head(form)
      case None => Err(GuardHeadMissing)
      case Some(head) =>
        if head == "all" then
          if |items| < 2 then Err(AllIsEmpty)
          else
            var values :- EvaluateGuards(items[1..], snapshot);
            Ok(false !in values)
        else if head == "any" then
          if |items| < 2 then Err(AnyIsEmpty)
          else
            var values :- EvaluateGuards(items[1..], snapshot);
            Ok(true in values)
        else if head == "not" then
          if |items| != 2 then Err(NotTakesOne)
          else
            var value :- EvaluateGuard(items[1], snapshot);
            Ok(!value)
        else if head == "available?" || head == "present?" then
          if |items| != 2 then Err(AvailabilityTakesOne)
          else
            var value :- GuardValue(items[1], snapshot);
            Ok(value.Some?)
        else if IsComparison(head) && |items| == 3 then
          var left :- GuardValue(items[1], snapshot);
          var right :- GuardValue(items[2], snapshot);
          Ok(Compare(head, left, right))
        else Err(UnsupportedGuard(head))
  }

  /** Every condition is evaluated, up to the first error; there is no short circuit on values. */
  function EvaluateGuards(forms: seq<Form>, snapshot: Snapshot): (r: Result<seq<bool>, GuardError>)
    ensures r.Ok? ==> |r.value| == |forms|
    decreases forms, 1
  {
    if forms == [] then Ok([])
    else
      var first :- EvaluateGuard(forms[0], snapshot);
      var rest :- EvaluateGuards(forms[1..], snapshot);
      Ok([first] + rest)
  }

  // ----- Validation, done once when a flow is saved -----

  predicate ValidGuardValue(form: Form, parseUuid: string -> Option<string>) {
    match form
    case Bool(_) => true
    case Text(_) => true
    case Number(literal, unit) => unit == Some("%") && FlowCompiler.ParseDecimal(literal).Some?
    case List(items) =>
      && Head(form) == Some("state")
      && |items| == 3
      && EntityReference(items).Some?
      && parseUuid(EntityReference(items).value).Some?
      && PropertyName(items).Some?
      && PropertyName(items).value != ""
    case _ => false
  }

  predicate ValidGuard(form: Form, parseUuid: string -> Option<string>) {
    && Head(form).Some?
    && var items := form.forms;
       var head := Head(form).value;
       if head == "all" || head == "any" then
         |items| >= 2 && forall g :: g in items[1..] ==> ValidGuard(g, parseUuid)
       else if head == "not" then |items| == 2 && ValidGuard(items[1], parseUuid)
       else if head == "available?" || head == "present?" then |items| == 2 && ValidGuardValue(items[1], parseUuid)
       else
         && IsComparison(head)
         && |items| == 3
         && ValidGuardValue(items[1], parseUuid)
         && ValidGuardValue(items[2], parseUuid)
  }

  /** No state value of the guard names an empty property: the one thing validation refuses and
      evaluation does not. */
  predicate NamesProperties(form: Form) {
    form.List? ==>
      var items := form.forms;
      if Head(form) == Some("all") || Head(form) == Some("any") || Head(form) == Some("not") then
        forall i :: 1 <= i < |items| ==> NamesProperties(items[i])
      else
        forall i :: 1 <= i < |items| && items[i].List? ==> PropertyName(items[i].forms) != Some("")
  }

  lemma ValidValueIsReadable(form: Form, snapshot: Snapshot)
    ensures ValidGuardValue(form, snapshot.parseUuid)
       <==> GuardValue(form, snapshot).Ok? && (form.List? ==> PropertyName(form.forms) != Some(""))
  {
  }

  /** Validation accepts a guard exactly when its evaluation cannot fail, on this and hence on every
      snapshot, and its properties are named. */
  lemma {:induction false} ValidGuardNeverFails(form: Form, snapshot: Snapshot)
    ensures ValidGuard(form, snapshot.parseUuid)
       <==> EvaluateGuard(form, snapshot).Ok? && NamesProperties(form)
    decreases form, 0
  {
    if Head(form).Some? {
      var items := form.forms;
      var head := Head(form).value;
      if head == "all" || head == "any" {
        if |items| >= 2 {
          ValidGuardsNeverFail(items[1..], snapshot);
          assert forall i :: 1 <= i < |items| ==> items[i] == items[1..][i - 1];
          assert forall i :: 0 <= i < |items[1..]| ==> items[1..][i] == items[i + 1];
        }
      } else if head == "not" {
        if |items| == 2 {
          ValidGuardNeverFails(items[1], snapshot);
        }
      } else if |items| == 2 {
        ValidValueIsReadable(items[1], snapshot);
      } else if |items| == 3 {
        ValidValueIsReadable(items[1], snapshot);
        ValidValueIsReadable(items[2], snapshot);
      }
    }
  }

  lemma {:induction false} ValidGuardsNeverFail(forms: seq<Form>, snapshot: Snapshot)
    ensures (forall g :: g in forms ==> ValidGuard(g, snapshot.parseUuid))
       <==> EvaluateGuards(forms, snapshot).Ok? && (forall i :: 0 <= i < |forms| ==> NamesProperties(forms[i]))
    decreases forms, 1
  {
    if forms != [] {
      ValidGuardNeverFails(forms[0], snapshot);
      ValidGuardsNeverFail(forms[1..], snapshot);
      assert forall g :: g in forms <==> g == forms[0] || g in forms[1..];
      assert forall i :: 1 <= i < |forms| ==> forms[i] == forms[1..][i - 1];
    }
  }

  function Opposite(operator: string): string
    requires IsComparison(operator)
  {
    if operator == "=" then "!="
    else if operator == "!=" then "="
    else if operator == "<" then ">="
    else if operator == "<=" then ">"
    else if operator == ">" then "<="
    else "<"
  }

  /** Both values are present and, for an order, both are percentages. */
  predicate Comparable(operator: string, left: Option<StateValue>, right: Option<StateValue>) {
    && left.Some? && right.Some?
    && (operator == "=" || operator == "!=" || (left.value.PercentageValue? && right.value.PercentageValue?))
  }

  lemma ComparisonEvaluates(operator: string, left: Form, right: Form, snapshot: Snapshot)
    requires IsComparison(operator) && GuardValue(left, snapshot).Ok? && GuardValue(right, snapshot).Ok?
    ensures EvaluateGuard(List([Symbol(operator), left, right]), snapshot)
         == Ok(Compare(operator, GuardValue(left, snapshot).value, GuardValue(right, snapshot).value))
  {
    assert Head(List([Symbol(operator), left, right])) == Some(operator);
    assert operator[0] != 'a' && operator[0] != 'n' && operator[0] != 'p';
  }

  /** The opposite of a comparison means its negation exactly when the values can be compared. When one is
      missing, or an order is asked of anything but percentages, both the comparison and its opposite are
      false. */
  lemma OppositeIsNegationIffComparable(operator: string, left: Form, right: Form, snapshot: Snapshot)
    requires IsComparison(operator) && GuardValue(left, snapshot).Ok? && GuardValue(right, snapshot).Ok?
    ensures
      var comparison, opposite := List([Symbol(operator), left, right]), List([Symbol(Opposite(operator)), left, right]);
      EvaluateGuard(opposite, snapshot) == EvaluateGuard(List([Symbol("not"), comparison]), snapshot)
      <==> Comparable(operator, GuardValue(left, snapshot).value, GuardValue(right, snapshot).value)
  {
    ComparisonEvaluates(operator, left, right, snapshot);
    ComparisonEvaluates(Opposite(operator), left, right, snapshot);
    assert Head(List([Symbol("not"), List([Symbol(operator), left, right])])) == Some("not");
    assert "not"[0] == 'n' && "all"[0] == 'a' && "any"[0] == 'a';
  }
}
