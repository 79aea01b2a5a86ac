// How the compiler reads options given in any order: what each key says, and what is refused.
module FlowReading {
  import opened Wrappers
  import opened FlowAst
  import opened Plan
  import opened FlowCompiler

  // ----- Keys and values in pairs -----

  /** The pairs of a row of options; a last item without a value makes none. */
  function Pairs(items: seq<Form>): seq<(Form, Form)> {
    if |items| < 2 then [] else [(items[0], items[1])] + Pairs(items[2..])
  }

  predicate Gives(pairs: seq<(Form, Form)>, i: nat, key: string) {
    i < |pairs| && pairs[i].0 == Keyword(key)
  }

  predicate Given(pairs: seq<(Form, Form)>, key: string) {
    exists i :: 0 <= i < |pairs| && Gives(pairs, i, key)
  }

  lemma PairsGrow(items: seq<Form>, key: string)
    requires |items| >= 2
    ensures
      var all, rest := Pairs(items), Pairs(items[2..]);
      && |all| == |rest| + 1 && all[0] == (items[0], items[1])
      && (forall i :: 0 <= i < |rest| ==> rest[i] == all[i + 1])
      && (forall i :: 1 <= i < |all| ==> all[i] == rest[i - 1])
      && (Given(all, key) <==> items[0] == Keyword(key) || Given(rest, key))
  {
    var all, rest := Pairs(items), Pairs(items[2..]);
    if Given(rest, key) {
      var i :| 0 <= i < |rest| && Gives(rest, i, key);
      assert Gives(all, i + 1, key);
    }
    if Given(all, key) {
      var i :| 0 <= i < |all| && Gives(all, i, key);
      assert i > 0 ==> Gives(rest, i - 1, key);
    }
    assert items[0] == Keyword(key) ==> Gives(all, 0, key);
  }

  // ----- The options of a command -----

  /** A percentage between 0 and 100. */
  predicate SaysBrightness(value: Form, level: real) {
    value.Number? && value.unit == Some("%") && ParseDecimal(value.literal) == Some(level) && 0.0 <= level <= 100.0
  }

  predicate SaysConfirmation(value: Form, confirmation: Confirmation) {
    || (value == Keyword("transport") && confirmation == Transport)
    || (value == Keyword("none") && confirmation == NoConfirmation)
    || (value == Keyword("reported") && confirmation == Reported(0))
  }

  predicate SaysDuration(value: Form, milliseconds: nat) {
    value.Number? && value.unit.Some? && DurationMilliseconds(value.literal, value.unit.value) == Ok(milliseconds)
  }

  predicate Once(pairs: seq<(Form, Form)>, key: string) {
    forall i, j :: 0 <= i < |pairs| && 0 <= j < |pairs| && Gives(pairs, i, key) && Gives(pairs, j, key) ==> i == j
  }

  /** One pair gives the key, with a value that says what was read; or none gives it, and nothing was read.
      What was read before cannot be given again. */
  ghost predicate BrightnessRead(pairs: seq<(Form, Form)>, before: Option<real>, read: Option<real>) {
    if before.Some? then read == before && !Given(pairs, "brightness")
    else if read.None? then !Given(pairs, "brightness")
    else
      && Once(pairs, "brightness")
      && exists i :: 0 <= i < |pairs| && Gives(pairs, i, "brightness") && SaysBrightness(pairs[i].1, read.value)
  }

  ghost predicate ConfirmationRead(
    pairs: seq<(Form, Form)>, before: Option<Confirmation>, read: Option<Confirmation>)
  {
    if before.Some? then read == before && !Given(pairs, "confirm")
    else if read.None? then !Given(pairs, "confirm")
    else
      && Once(pairs, "confirm")
      && exists i :: 0 <= i < |pairs| && Gives(pairs, i, "confirm") && SaysConfirmation(pairs[i].1, read.value)
  }

  ghost predicate TimeoutRead(pairs: seq<(Form, Form)>, before: Option<nat>, read: Option<nat>) {
    if before.Some? then read == before && !Given(pairs, "timeout")
    else if read.None? then !Given(pairs, "timeout")
    else
      && Once(pairs, "timeout")
      && exists i :: 0 <= i < |pairs| && Gives(pairs, i, "timeout") && SaysDuration(pairs[i].1, read.value)
  }

  /** Only known keys, each at most once, in any order, and what they say. */
  ghost predicate OptionsSay(pairs: seq<(Form, Form)>, before: CommandOptions, read: CommandOptions) {
    && (forall i :: 0 <= i < |pairs| ==> IsOption(pairs[i].0))
    && BrightnessRead(pairs, before.brightness, read.brightness)
    && ConfirmationRead(pairs, before.confirmation, read.confirmation)
    && TimeoutRead(pairs, before.timeout, read.timeout)
  }

  predicate IsOption(key: Form) {
    key in {Keyword("brightness"), Keyword("confirm"), Keyword("timeout")}
  }

  lemma KeysDiffer()
    ensures "brightness" != "confirm" && "brightness" != "timeout" && "confirm" != "timeout"
  {
    assert "brightness"[0] == 'b' && "confirm"[0] == 'c' && "timeout"[0] == 't';
  }

  lemma OnceMoves(items: seq<Form>, key: string)
    requires |items| >= 2
    ensures Once(Pairs(items), key)
       <==> if items[0] == Keyword(key) then !Given(Pairs(items[2..]), key) else Once(Pairs(items[2..]), key)
  {
    var all, rest := Pairs(items), Pairs(items[2..]);
    PairsGrow(items, key);
    assert forall i :: 0 <= i < |rest| ==> (Gives(rest, i, key) <==> Gives(all, i + 1, key));
    assert items[0] == Keyword(key) ==> Gives(all, 0, key);
    if i :| 0 <= i < |rest| && Gives(rest, i, key) {
      assert Gives(all, i + 1, key);
      assert Gives(all, 0, key) ==> !Once(all, key);
    }
    if Once(all, key) && items[0] != Keyword(key) {
      forall i, j | 0 <= i < |rest| && 0 <= j < |rest| && Gives(rest, i, key) && Gives(rest, j, key)
        ensures i == j
      {
        assert Gives(all, i + 1, key) && Gives(all, j + 1, key);
      }
    }
    forall i, j | 0 <= i < j < |all| && Gives(all, i, key) && Gives(all, j, key)
      ensures if items[0] == Keyword(key) then Given(rest, key) else !Once(rest, key)
    {
      assert Gives(rest, j - 1, key);
      assert i > 0 ==> Gives(rest, i - 1, key);
    }
  }

  /** Whether the first pair gives a key that was not read before, with what is then read. */
  lemma BrightnessMoves(items: seq<Form>, before: Option<real>, next: Option<real>, read: Option<real>)
    requires |items| >= 2
    requires if items[0] == Keyword("brightness") then before.None? && next.Some? && SaysBrightness(items[1], next.value)
             else next == before
    ensures BrightnessRead(Pairs(items), before, read) <==> BrightnessRead(Pairs(items[2..]), next, read)
  {
    var all, rest := Pairs(items), Pairs(items[2..]);
    PairsGrow(items, "brightness");
    OnceMoves(items, "brightness");
    assert forall i :: 0 <= i < |rest| ==> (Gives(rest, i, "brightness") <==> Gives(all, i + 1, "brightness"));
    assert items[0] == Keyword("brightness") ==> Gives(all, 0, "brightness");
  }

  lemma ConfirmationMoves(
    items: seq<Form>, before: Option<Confirmation>, next: Option<Confirmation>, read: Option<Confirmation>)
    requires |items| >= 2
    requires if items[0] == Keyword("confirm") then before.None? && next.Some? && SaysConfirmation(items[1], next.value)
             else next == before
    ensures ConfirmationRead(Pairs(items), before, read) <==> ConfirmationRead(Pairs(items[2..]), next, read)
  {
    var all, rest := Pairs(items), Pairs(items[2..]);
    PairsGrow(items, "confirm");
    OnceMoves(items, "confirm");
    assert "transport"[0] == 't' && "none"[0] == 'n' && "reported"[0] == 'r';
    assert forall i :: 0 <= i < |rest| ==> (Gives(rest, i, "confirm") <==> Gives(all, i + 1, "confirm"));
    assert items[0] == Keyword("confirm") ==> Gives(all, 0, "confirm");
  }

  lemma TimeoutMoves(items: seq<Form>, before: Option<nat>, next: Option<nat>, read: Option<nat>)
    requires |items| >= 2
    requires if items[0] == Keyword("timeout") then before.None? && next.Some? && SaysDuration(items[1], next.value)
             else next == before
    ensures TimeoutRead(Pairs(items), before, read) <==> TimeoutRead(Pairs(items[2..]), next, read)
  {
    var all, rest := Pairs(items), Pairs(items[2..]);
    PairsGrow(items, "timeout");
    OnceMoves(items, "timeout");
    assert forall i :: 0 <= i < |rest| ==> (Gives(rest, i, "timeout") <==> Gives(all, i + 1, "timeout"));
    assert items[0] == Keyword("timeout") ==> Gives(all, 0, "timeout");
  }

  /** What one option that can be read changes. */
  lemma {:induction false} OneOption(key: Form, value: Form, before: CommandOptions)
    requires ReadOption(key, value, before).Ok?
    ensures IsOption(key)
    ensures
      var next := ReadOption(key, value, before).value;
      && (if key == Keyword("brightness") then
            before.brightness.None? && next.brightness.Some? && SaysBrightness(value, next.brightness.value)
          else next.brightness == before.brightness)
      && (if key == Keyword("confirm") then
            before.confirmation.None? && next.confirmation.Some? && SaysConfirmation(value, next.confirmation.value)
          else next.confirmation == before.confirmation)
      && (if key == Keyword("timeout") then
            before.timeout.None? && next.timeout.Some? && SaysDuration(value, next.timeout.value)
          else next.timeout == before.timeout)
  {
    KeysDiffer();
  }

  lemma {:induction false} AllOptions(items: seq<Form>)
    requires |items| >= 2
    ensures (forall i :: 0 <= i < |Pairs(items)| ==> IsOption(Pairs(items)[i].0))
       <==> IsOption(items[0]) && forall i :: 0 <= i < |Pairs(items[2..])| ==> IsOption(Pairs(items[2..])[i].0)
  {
    PairsGrow(items, "");
  }

  /** A first pair that can be read moves from the pairs to what was read before. */
  lemma {:induction false} FirstOptionMoves(items: seq<Form>, before: CommandOptions, read: CommandOptions)
    requires |items| >= 2 && ReadOption(items[0], items[1], before).Ok?
    ensures OptionsSay(Pairs(items), before, read)
       <==> OptionsSay(Pairs(items[2..]), ReadOption(items[0], items[1], before).value, read)
  {
    var next := ReadOption(items[0], items[1], before).value;
    OneOption(items[0], items[1], before);
    AllOptions(items);
    BrightnessMoves(items, before.brightness, next.brightness, read.brightness);
    ConfirmationMoves(items, before.confirmation, next.confirmation, read.confirmation);
    TimeoutMoves(items, before.timeout, next.timeout, read.timeout);
  }

  lemma BrightnessIsRefused(items: seq<Form>, before: Option<real>, read: Option<real>)
    requires |items| >= 2 && items[0] == Keyword("brightness")
    requires before.Some? || forall level :: !SaysBrightness(items[1], level)
    ensures !BrightnessRead(Pairs(items), before, read)
  {
    assert Gives(Pairs(items), 0, "brightness");
  }

  lemma ConfirmationIsRefused(items: seq<Form>, before: Option<Confirmation>, read: Option<Confirmation>)
    requires |items| >= 2 && items[0] == Keyword("confirm")
    requires before.Some? || forall confirmation :: !SaysConfirmation(items[1], confirmation)
    ensures !ConfirmationRead(Pairs(items), before, read)
  {
    assert Gives(Pairs(items), 0, "confirm");
  }

  lemma TimeoutIsRefused(items: seq<Form>, before: Option<nat>, read: Option<nat>)
    requires |items| >= 2 && items[0] == Keyword("timeout")
    requires before.Some? || forall milliseconds :: !SaysDuration(items[1], milliseconds)
    ensures !TimeoutRead(Pairs(items), before, read)
  {
    assert Gives(Pairs(items), 0, "timeout");
  }

  /** A first pair that cannot be read is none that the options may begin with. */
  lemma BadOptionIsRefused(items: seq<Form>, before: CommandOptions, read: CommandOptions)
    requires |items| >= 2 && ReadOption(items[0], items[1], before).Err?
    ensures !OptionsSay(Pairs(items), before, read)
  {
    KeysDiffer();
    if items[0] == Keyword("brightness") {
      BrightnessIsRefused(items, before.brightness, read.brightness);
    } else if items[0] == Keyword("confirm") {
      ConfirmationIsRefused(items, before.confirmation, read.confirmation);
    } else if items[0] == Keyword("timeout") {
      TimeoutIsRefused(items, before.timeout, read.timeout);
    } else {
      assert !IsOption(Pairs(items)[0].0);
    }
  }

  /** The options of a command are read exactly when they are pairs with known keys, each given at most once,
      and usable values; then each says what is read of it, in whatever order they come. */
  lemma {:induction false} OptionsAreReadIff(items: seq<Form>, before: CommandOptions, read: CommandOptions)
    ensures ReadOptions(items, before) == Ok(read) <==> |items| % 2 == 0 && OptionsSay(Pairs(items), before, read)
  {
    if |items| < 2 {
      NoOptions(items, before, read);
    } else {
      var first := ReadOption(items[0], items[1], before);
      if first.Ok? {
        OptionsAreReadIff(items[2..], first.value, read);
        OneMoreOption(items, before, read);
      } else {
        BadOptionIsRefused(items, before, read);
      }
    }
  }

  lemma {:induction false} OneMoreOption(items: seq<Form>, before: CommandOptions, read: CommandOptions)
    requires |items| >= 2 && ReadOption(items[0], items[1], before).Ok?
    requires
      var next := ReadOption(items[0], items[1], before).value;
      ReadOptions(items[2..], next) == Ok(read) <==> |items[2..]| % 2 == 0 && OptionsSay(Pairs(items[2..]), next, read)
    ensures ReadOptions(items, before) == Ok(read) <==> |items| % 2 == 0 && OptionsSay(Pairs(items), before, read)
  {
    FirstOptionMoves(items, before, read);
  }

  lemma {:induction false} NoOptions(items: seq<Form>, before: CommandOptions, read: CommandOptions)
    requires |items| < 2
    ensures ReadOptions(items, before) == Ok(read) <==> |items| % 2 == 0 && OptionsSay(Pairs(items), before, read)
  {
  }

  /** What the options say of a command: its brightness; its confirmation, the transport's when none is given;
      and a timeout exactly for a reported one, which takes no brightness. */
  ghost predicate CommandSays(pairs: seq<(Form, Form)>, action: PlannedAction)
    requires action.Command?
  {
    && (forall i :: 0 <= i < |pairs| ==> IsOption(pairs[i].0))
    && BrightnessRead(pairs, None, action.brightness)
    && match action.confirmation
       case Transport =>
         && !Given(pairs, "timeout")
         && (Given(pairs, "confirm") ==> ConfirmationRead(pairs, None, Some(Transport)))
       case NoConfirmation => !Given(pairs, "timeout") && ConfirmationRead(pairs, None, Some(NoConfirmation))
       case Reported(timeout) =>
         && action.brightness.None?
         && ConfirmationRead(pairs, None, Some(Reported(0))) && TimeoutRead(pairs, None, Some(timeout))
  }

  /** The entity of a command is the text behind the head of its second item. */
  predicate RefersTo(form: Form, id: string) {
    form.List? && |form.forms| >= 2 && form.forms[1] == Text(id)
  }

  lemma {:induction false} CommandIsCompiledIff(items: seq<Form>, action: PlannedAction)
    requires action.Command?
    ensures CompileCommand(items) == Ok(action)
       <==> && |items| >= 3 && |items| % 2 == 1
            && RefersTo(items[1], action.entityId) && items[2] == Keyword(action.verb)
            && CommandSays(Pairs(items[3..]), action)
  {
    if |items| >= 3 {
      var pairs, options := Pairs(items[3..]), ReadOptions(items[3..], NO_OPTIONS);
      if options.Ok? {
        OptionsAreReadIff(items[3..], NO_OPTIONS, options.value);
        ReadIsWhatIsSaid(pairs, options.value, action);
      }
      if |items| % 2 == 1 && CommandSays(pairs, action) {
        WhatIsSaidIsRead(items[3..], action);
      }
    }
  }

  lemma {:induction false} WhatIsSaidIsRead(items: seq<Form>, action: PlannedAction)
    requires action.Command? && |items| % 2 == 0 && CommandSays(Pairs(items), action)
    ensures ReadOptions(items, NO_OPTIONS).Ok?
    ensures FinishOptions(ReadOptions(items, NO_OPTIONS).value) == Ok((action.brightness, action.confirmation))
  {
    var timeout := if action.confirmation.Reported? then Some(action.confirmation.timeoutMilliseconds) else None;
    var confirmation := if action.confirmation.Reported? then Reported(0) else action.confirmation;
    var given := if Given(Pairs(items), "confirm") then Some(confirmation) else None;
    OptionsAreReadIff(items, NO_OPTIONS, CommandOptions(action.brightness, given, timeout));
  }

  lemma {:induction false} ReadIsWhatIsSaid(pairs: seq<(Form, Form)>, read: CommandOptions, action: PlannedAction)
    requires action.Command? && OptionsSay(pairs, NO_OPTIONS, read)
    ensures FinishOptions(read) == Ok((action.brightness, action.confirmation)) ==> CommandSays(pairs, action)
  {
    assert read.confirmation.None? ==> !Given(pairs, "confirm");
    assert read.timeout.None? ==> !Given(pairs, "timeout");
    assert forall c :: SaysConfirmation(Keyword("reported"), c) ==> c == Reported(0);
  }

  // ----- Options of which the last one counts -----

  /** What is read is what the last pair that counts says, or what was there before when none counts. */
  ghost predicate LastSays<T(!new)>(
    pairs: seq<(Form, Form)>, counts: ((Form, Form)) -> bool, says: ((Form, Form), T) -> bool, before: T, read: T)
  {
    || (read == before && forall i :: 0 <= i < |pairs| ==> !counts(pairs[i]))
    || exists i :: 0 <= i < |pairs| && counts(pairs[i]) && says(pairs[i], read)
         && forall j :: i < j < |pairs| ==> !counts(pairs[j])
  }

  lemma LastMoves<T(!new)>(
    pairs: seq<(Form, Form)>, counts: ((Form, Form)) -> bool, says: ((Form, Form), T) -> bool, before: T, next: T,
    read: T)
    requires pairs != []
    requires if counts(pairs[0]) then forall t :: says(pairs[0], t) <==> t == next else next == before
    ensures LastSays(pairs, counts, says, before, read) <==> LastSays(pairs[1..], counts, says, next, read)
  {
    var rest := pairs[1..];
    assert forall i :: 1 <= i < |pairs| ==> pairs[i] == rest[i - 1];
    if LastSays(rest, counts, says, next, read) {
      if i :| 0 <= i < |rest| && counts(rest[i]) && says(rest[i], read) && forall j :: i < j < |rest| ==> !counts(rest[j]) {
        assert counts(pairs[i + 1]) && says(pairs[i + 1], read);
      }
    }
    if LastSays(pairs, counts, says, before, read) {
      if i :| 0 <= i < |pairs| && counts(pairs[i]) && says(pairs[i], read) && (forall j :: i < j < |pairs| ==> !counts(pairs[j])) {
        assert i > 0 ==> counts(rest[i - 1]) && says(rest[i - 1], read);
        assert forall j :: 0 <= j < |rest| ==> rest[j] == pairs[j + 1];
      }
    }
  }

  lemma PairsTail(items: seq<Form>)
    requires |items| >= 2
    ensures Pairs(items) != [] && Pairs(items)[0] == (items[0], items[1]) && Pairs(items)[1..] == Pairs(items[2..])
  {
  }

  // ----- A change of state to await -----

  predicate IsPair(pair: (Form, Form), key: string) {
    pair.0 == Keyword(key)
  }

  predicate SaysProperty(pair: (Form, Form), property: Option<string>) {
    property.Some? && property.value != "" && pair.1 == Text(property.value)
  }

  predicate SaysTarget(pair: (Form, Form), to: Option<AwaitValue>) {
    match to
    case None => false
    case Some(AwaitBool(b)) => pair.1 == Bool(b)
    case Some(AwaitText(s)) => pair.1 == Text(s)
    case Some(AwaitPercentage(p)) =>
      pair.1.Number? && pair.1.unit == Some("%") && ParseDecimal(pair.1.literal) == Some(p)
  }

  ghost predicate IsStateOption(pair: (Form, Form)) {
    || (IsPair(pair, "property") && exists property :: SaysProperty(pair, property))
    || (IsPair(pair, "to") && exists to :: SaysTarget(pair, to))
  }

  lemma {:induction false} StateOptionMoves(
    items: seq<Form>, property: Option<string>, to: Option<AwaitValue>, property': Option<string>,
    to': Option<AwaitValue>, r: (Option<string>, Option<AwaitValue>))
    requires |items| >= 2
    requires if items[0] == Keyword("property") then property'.Some? && property'.value != "" && items[1] == Text(property'.value)
             else property' == property
    requires if items[0] == Keyword("to") then SaysTarget((items[0], items[1]), to') else to' == to
    ensures StateOptionsSay(Pairs(items), property, to, r)
       <==> IsStateOption((items[0], items[1])) && StateOptionsSay(Pairs(items[2..]), property', to', r)
  {
    var pairs := Pairs(items);
    PairsTail(items);
    assert "property"[0] == 'p' && "to"[0] == 't';
    assert forall t :: IsPair(pairs[0], "property") ==> (SaysProperty(pairs[0], t) <==> t == property');
    assert forall t :: IsPair(pairs[0], "to") ==> (SaysTarget(pairs[0], t) <==> t == to');
    LastMoves(pairs, pair => IsPair(pair, "property"), (pair, t) => SaysProperty(pair, t), property, property', r.0);
    LastMoves(pairs, pair => IsPair(pair, "to"), (pair, t) => SaysTarget(pair, t), to, to', r.1);
    var rest := pairs[1..];
    assert forall i :: 1 <= i < |pairs| ==> pairs[i] == rest[i - 1];
  }

  ghost predicate StateOptionsSay(
    pairs: seq<(Form, Form)>, property: Option<string>, to: Option<AwaitValue>,
    r: (Option<string>, Option<AwaitValue>))
  {
    && (forall i :: 0 <= i < |pairs| ==> IsStateOption(pairs[i]))
    && LastSays(pairs, pair => IsPair(pair, "property"), (pair, t) => SaysProperty(pair, t), property, r.0)
    && LastSays(pairs, pair => IsPair(pair, "to"), (pair, t) => SaysTarget(pair, t), to, r.1)
  }

  /** The options of an awaited change of state are read exactly when all are named properties and values, in
      any order; the last of each kind counts. */
  lemma {:induction false} StateOptionsAreReadIff(
    items: seq<Form>, property: Option<string>, to: Option<AwaitValue>, r: (Option<string>, Option<AwaitValue>))
    ensures StateOptions(items, property, to) == Ok(r) <==> StateOptionsSay(Pairs(items), property, to, r)
  {
    if |items| >= 2 {
      PairsTail(items);
      var pair := (items[0], items[1]);
      if IsPair(pair, "property") && items[1].Text? && items[1].value != "" {
        StateOptionsAreReadIff(items[2..], Some(items[1].value), to, r);
        StateOptionMoves(items, property, to, Some(items[1].value), to, r);
        assert SaysProperty(pair, Some(items[1].value));
      } else if IsPair(pair, "to") && TargetOf(items[1]).Some? {
        StateOptionsAreReadIff(items[2..], property, TargetOf(items[1]), r);
        StateOptionMoves(items, property, to, property, TargetOf(items[1]), r);
        assert SaysTarget(pair, TargetOf(items[1]));
      } else {
        assert !IsStateOption(pair);
        assert StateOptions(items, property, to).Err?;
      }
    }
  }

  function TargetOf(form: Form): Option<AwaitValue> {
    match form
    case Bool(b) => Some(AwaitBool(b))
    case Text(s) => Some(AwaitText(s))
    case Number(literal, unit) =>
      if unit == Some("%") && ParseDecimal(literal).Some? then Some(AwaitPercentage(ParseDecimal(literal).value)) else None
    case _ => None
  }

  predicate TypesEvent(items: seq<Form>, i: nat, eventType: string) {
    i + 1 < |items| && items[i] == Keyword("type") && items[i + 1] in {Text(eventType), Symbol(eventType)}
  }

  ghost predicate TypedAt(items: seq<Form>, i: nat) {
    exists eventType :: TypesEvent(items, i, eventType)
  }

  /** The type of an event is the first text or symbol behind a `:type`. */
  lemma {:induction false} EventTypeIsFirst(items: seq<Form>, eventType: string)
    ensures EventTypeIn(items) == Some(eventType)
       <==> exists i: nat :: TypesEvent(items, i, eventType) && forall j: nat :: j < i ==> !TypedAt(items, j)
  {
    if |items| >= 2 {
      var rest := items[1..];
      EventTypeIsFirst(rest, eventType);
      assert forall i: nat, t :: TypesEvent(rest, i, t) <==> TypesEvent(items, i + 1, t);
      forall i: nat
        ensures TypedAt(rest, i) <==> TypedAt(items, i + 1)
      {
        assert TypedAt(items, i + 1) ==> TypesEvent(rest, i, items[i + 2].value);
        assert TypedAt(rest, i) ==> TypesEvent(items, i + 1, rest[i + 1].value);
      }
      if items[0] == Keyword("type") && (items[1].Text? || items[1].Symbol?) {
        assert TypesEvent(items, 0, items[1].value) && TypedAt(items, 0);
      } else {
        assert !TypedAt(items, 0);
        if i: nat :| TypesEvent(items, i, eventType) && forall j: nat :: j < i ==> !TypedAt(items, j) {
          assert TypesEvent(rest, i - 1, eventType);
          forall j: nat | j < i - 1
            ensures !TypedAt(rest, j)
          {
            assert !TypedAt(items, j + 1);
          }
        }
        if i: nat :| TypesEvent(rest, i, eventType) && forall j: nat :: j < i ==> !TypedAt(rest, j) {
          assert TypesEvent(items, i + 1, eventType);
          forall j: nat | j < i + 1
            ensures !TypedAt(items, j)
          {
            assert j > 0 ==> !TypedAt(rest, j - 1);
          }
        }
      }
    }
  }

  // ----- The options of `meta` -----

  predicate GivesMode(pair: (Form, Form)) {
    pair.0 == Keyword("mode") && pair.1.Keyword?
  }

  predicate SaysMode(pair: (Form, Form), mode: ConcurrencyMode) {
    match mode
    case Single => pair.1 == Keyword("single")
    case Restart => pair.1 == Keyword("restart")
    case Queue => pair.1 == Keyword("queue")
  }

  predicate GivesMaxRuns(pair: (Form, Form)) {
    pair.0 == Keyword("max-runs") && pair.1.Number? && pair.1.unit.None?
  }

  predicate SaysMaxRuns(pair: (Form, Form), n: nat) {
    pair.1.Number? && ParseU8(pair.1.literal) == Some(n) && 1 <= n <= 32
  }

  /** Whatever gives the mode or the number of runs has a value it can have; other pairs are passed over. */
  ghost predicate IsPolicyOption(pair: (Form, Form)) {
    && (GivesMode(pair) ==> exists mode :: SaysMode(pair, mode))
    && (GivesMaxRuns(pair) ==> exists n :: SaysMaxRuns(pair, n))
  }

  ghost predicate PolicySays(pairs: seq<(Form, Form)>, before: ConcurrencyPolicy, policy: ConcurrencyPolicy) {
    && (forall i :: 0 <= i < |pairs| ==> IsPolicyOption(pairs[i]))
    && LastSays(pairs, GivesMode, SaysMode, before.mode, policy.mode)
    && LastSays(pairs, GivesMaxRuns, SaysMaxRuns, before.maxRuns, policy.maxRuns)
  }

  lemma {:induction false} PolicyOptionMoves(
    items: seq<Form>, before: ConcurrencyPolicy, next: ConcurrencyPolicy, policy: ConcurrencyPolicy)
    requires |items| >= 2 && IsPolicyOption((items[0], items[1]))
    requires if GivesMode((items[0], items[1])) then SaysMode((items[0], items[1]), next.mode) else next.mode == before.mode
    requires if GivesMaxRuns((items[0], items[1])) then SaysMaxRuns((items[0], items[1]), next.maxRuns)
             else next.maxRuns == before.maxRuns
    ensures PolicySays(Pairs(items), before, policy) <==> PolicySays(Pairs(items[2..]), next, policy)
  {
    var pairs := Pairs(items);
    var rest := pairs[1..];
    PairsTail(items);
    assert "single"[0] == 's' && "restart"[0] == 'r' && "queue"[0] == 'q';
    LastMoves(pairs, GivesMode, SaysMode, before.mode, next.mode, policy.mode);
    LastMoves(pairs, GivesMaxRuns, SaysMaxRuns, before.maxRuns, next.maxRuns, policy.maxRuns);
    assert forall i :: 1 <= i < |pairs| ==> pairs[i] == rest[i - 1];
    assert forall i :: 0 <= i < |rest| ==> rest[i] == pairs[i + 1];
  }

  /** The policy of a flow is read exactly when every mode and every number of runs it gives is one, and the
      last of each counts. */
  lemma {:induction false} PolicyIsReadIff(items: seq<Form>, before: ConcurrencyPolicy, policy: ConcurrencyPolicy)
    ensures ConcurrencyFrom(items, before) == Ok(policy) <==> PolicySays(Pairs(items), before, policy)
  {
    if |items| >= 2 {
      var pair := (items[0], items[1]);
      PairsTail(items);
      if !IsPolicyOption(pair) {
        PolicyOptionIsRefused(items, before);
      } else {
        var next := PolicyAfter(items, before);
        PolicyIsReadIff(items[2..], next, policy);
        PolicyOptionMoves(items, before, next, policy);
      }
    }
  }

  lemma {:induction false} PolicyOptionIsRefused(items: seq<Form>, before: ConcurrencyPolicy)
    requires |items| >= 2 && !IsPolicyOption((items[0], items[1]))
    ensures ConcurrencyFrom(items, before).Err?
  {
    var pair := (items[0], items[1]);
    assert SaysMode(pair, Single) || SaysMode(pair, Restart) || SaysMode(pair, Queue) || !GivesMode(pair)
      || items[1].value !in {"single", "restart", "queue"};
    assert forall n: nat :: GivesMaxRuns(pair) && ParseU8(items[1].literal) == Some(n) && 1 <= n <= 32 ==> SaysMaxRuns(pair, n);
  }

  lemma {:induction false} PolicyAfter(items: seq<Form>, before: ConcurrencyPolicy) returns (next: ConcurrencyPolicy)
    requires |items| >= 2 && IsPolicyOption((items[0], items[1]))
    ensures ConcurrencyFrom(items, before) == ConcurrencyFrom(items[2..], next)
    ensures if GivesMode((items[0], items[1])) then SaysMode((items[0], items[1]), next.mode) else next.mode == before.mode
    ensures if GivesMaxRuns((items[0], items[1])) then SaysMaxRuns((items[0], items[1]), next.maxRuns)
            else next.maxRuns == before.maxRuns
  {
    var pair := (items[0], items[1]);
    assert "mode"[1] == 'o' && "max-runs"[1] == 'a';
    assert "single"[0] == 's' && "restart"[0] == 'r' && "queue"[0] == 'q';
    next := before;
    if GivesMode(pair) {
      var mode :| SaysMode(pair, mode);
      next := before.(mode := mode);
    } else if GivesMaxRuns(pair) {
      var n :| SaysMaxRuns(pair, n);
      next := before.(maxRuns := n);
    }
  }

  /** The first pair that counts says what is read. */
  ghost predicate FirstSays<T(!new)>(
    pairs: seq<(Form, Form)>, counts: ((Form, Form)) -> bool, says: ((Form, Form), T) -> bool, read: T)
  {
    exists i :: 0 <= i < |pairs| && counts(pairs[i]) && says(pairs[i], read) && forall j :: 0 <= j < i ==> !counts(pairs[j])
  }

  lemma {:induction false} FirstMoves<T(!new)>(
    pairs: seq<(Form, Form)>, counts: ((Form, Form)) -> bool, says: ((Form, Form), T) -> bool, read: T)
    requires pairs != []
    ensures FirstSays(pairs, counts, says, read)
       <==> if counts(pairs[0]) then says(pairs[0], read) else FirstSays(pairs[1..], counts, says, read)
  {
    var rest := pairs[1..];
    assert forall i :: 1 <= i < |pairs| ==> pairs[i] == rest[i - 1];
    assert forall i :: 0 <= i < |rest| ==> rest[i] == pairs[i + 1];
    if i :| 0 <= i < |rest| && counts(rest[i]) && says(rest[i], read) && (forall j :: 0 <= j < i ==> !counts(rest[j])) {
      assert counts(pairs[i + 1]) && says(pairs[i + 1], read);
    }
    if i :| 0 <= i < |pairs| && counts(pairs[i]) && says(pairs[i], read) && (forall j :: 0 <= j < i ==> !counts(pairs[j])) {
      assert i > 0 ==> counts(rest[i - 1]) && says(rest[i - 1], read);
    }
  }

  predicate GivesMaxRuntime(pair: (Form, Form)) {
    pair.0 == Keyword("max-runtime")
  }

  predicate SaysMaxRuntime(pair: (Form, Form), maxRuntime: Option<nat>) {
    maxRuntime.Some? && SaysDuration(pair.1, maxRuntime.value)
  }

  /** The bound on the runtime is what the first pair that gives it says; a key without a value is refused. */
  ghost predicate MaxRuntimeSays(items: seq<Form>, maxRuntime: Option<nat>) {
    var pairs := Pairs(items);
    if exists i :: 0 <= i < |pairs| && GivesMaxRuntime(pairs[i]) then
      FirstSays(pairs, GivesMaxRuntime, SaysMaxRuntime, maxRuntime)
    else maxRuntime.None? && (|items| % 2 == 1 ==> items[|items| - 1] != Keyword("max-runtime"))
  }

  lemma {:induction false} MaxRuntimeIsReadIff(items: seq<Form>, maxRuntime: Option<nat>)
    ensures MaxRuntimeFrom(items) == Ok(maxRuntime) <==> MaxRuntimeSays(items, maxRuntime)
  {
    if |items| >= 2 {
      var pairs := Pairs(items);
      var rest := pairs[1..];
      PairsTail(items);
      FirstMoves(pairs, GivesMaxRuntime, SaysMaxRuntime, maxRuntime);
      if items[0] == Keyword("max-runtime") {
        assert GivesMaxRuntime(pairs[0]);
      } else {
        MaxRuntimeIsReadIff(items[2..], maxRuntime);
        assert forall i :: 1 <= i < |pairs| ==> pairs[i] == rest[i - 1];
        assert forall i :: 0 <= i < |rest| ==> rest[i] == pairs[i + 1];
      }
    }
  }

  // ----- What a refusal says -----

  /** The errors that an action of a given head can be refused with. */
  predicate Blames(form: Form, error: PlanError) {
    match Head(form)
    case None => error == UnsupportedAction
    case Some(head) =>
      if head == "command" then error in {InvalidCommand, InvalidBrightness, InvalidConfirmation, InvalidWait}
      else if head == "wait" then error == InvalidWait
      else if head == "await" then error in {InvalidAwait, InvalidWait}
      else if head in {"activate", "deactivate"} && |form.forms| == 2 then error == InvalidAutomationTarget
      else if head == "retry" then
        error in {InvalidRetry, InvalidWait} || (|form.forms| >= 2 && Blames(form.forms[1], error))
      else error == UnsupportedAction
  }

  lemma {:induction false} OptionErrors(items: seq<Form>, read: CommandOptions)
    ensures
      var r := ReadOptions(items, read);
      r.Err? ==> r.error in {InvalidCommand, InvalidBrightness, InvalidConfirmation, InvalidWait}
  {
    if |items| >= 2 && ReadOption(items[0], items[1], read).Ok? {
      OptionErrors(items[2..], ReadOption(items[0], items[1], read).value);
    }
  }

  lemma {:induction false} TriggerErrors(trigger: seq<Form>)
    ensures CompileTrigger(trigger).Err? ==> CompileTrigger(trigger).error == InvalidAwait
    decreases trigger, 1
  {
    if HeadOf(trigger) == Some("any-of") {
      TriggersErrors(trigger[1..]);
    } else if HeadOf(trigger) == Some("state-changed") && |trigger| >= 2 {
      StateOptionErrors(trigger[2..], None, None);
    }
  }

  lemma {:induction false} TriggersErrors(triggers: seq<Form>)
    ensures CompileTriggers(triggers).Err? ==> CompileTriggers(triggers).error == InvalidAwait
    decreases triggers, 0
  {
    if triggers != [] && triggers[0].List? {
      TriggerErrors(triggers[0].forms);
      TriggersErrors(triggers[1..]);
    }
  }

  lemma {:induction false} StateOptionErrors(items: seq<Form>, property: Option<string>, to: Option<AwaitValue>)
    ensures StateOptions(items, property, to).Err? ==> StateOptions(items, property, to).error == InvalidAwait
  {
    if |items| >= 2 {
      if items[0] == Keyword("property") && items[1].Text? {
        StateOptionErrors(items[2..], Some(items[1].value), to);
      } else if items[0] == Keyword("to") && TargetOf(items[1]).Some? {
        StateOptionErrors(items[2..], property, TargetOf(items[1]));
      }
    }
  }

  /** An action is refused with an error that names it, or what is wrong in it. */
  lemma {:induction false} RefusalNamesTheAction(form: Form)
    ensures CompiledAction(form).Err? ==> Blames(form, CompiledAction(form).error)
  {
    if form.List? && Head(form).Some? {
      var items, head := form.forms, Head(form).value;
      if head == "command" && |items| >= 3 {
        OptionErrors(items[3..], NO_OPTIONS);
      } else if head == "await" && |items| >= 2 && items[1].List? {
        TriggerErrors(items[1].forms);
      } else if head == "retry" && |items| >= 2 {
        RefusalNamesTheAction(items[1]);
      }
    }
  }
}
