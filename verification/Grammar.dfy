// The grammar of flows above their tokens: what an atom is, when brackets balance, and what a root is.
module Grammar {
  import opened Wrappers
  import opened FlowAst
  import opened Lexer
  import opened Parser
  import Decimals
  import Lexemes
  import RoundTrip

  // ----- Atoms -----

  /** What each word of a text is: a truth value, nil, a keyword behind a colon, a number, or else a symbol. */
  lemma AtomKinds(v: string, form: Form)
    ensures Atom(v) == form <==>
      match form
      case Bool(b) => v == if b then "true" else "false"
      case Nil => v == "nil"
      case Keyword(name) => name != "" && v == ":" + name
      case Number(literal, unit) => IsDecimal(literal) && Decimals.ProperUnit(unit) && v == literal + unit.GetOr("")
      case Symbol(name) =>
        && v == name && v !in {"true", "false", "nil"} && !(|v| > 1 && v[0] == ':')
        && forall literal, unit :: IsDecimal(literal) && Decimals.ProperUnit(unit) ==> v != literal + unit.GetOr("")
      case Text(_) => false
      case List(_) => false
  {
    forall literal, unit
      ensures Atom(v) == Number(literal, unit)
         <==> IsDecimal(literal) && Decimals.ProperUnit(unit) && v == literal + unit.GetOr("")
    {
      Decimals.AtomIsNumberIff(v, literal, unit);
    }
    assert "true"[0] == 't' && "false"[0] == 'f' && "nil"[0] == 'n';
    assert |v| > 1 && v[0] == ':' ==> v == ":" + v[1..];
    if form.Keyword? {
      assert (":" + form.value)[1..] == form.value;
    }
  }

  // ----- Lists -----

  datatype Scanned = Balanced(rest: seq<Token>) | Unbalanced(error: SyntaxError)

  /** Reads tokens until every delimiter that is open is closed, innermost first, by one of its kind. */
  function Balance(tokens: seq<Token>, open: seq<Delimiter>): Scanned
    decreases |tokens|
  {
    if open == [] then Balanced(tokens)
    else if tokens == [] then Unbalanced(UnclosedList)
    else
      match tokens[0]
      case Open(d) => Balance(tokens[1..], [d] + open)
      case Close(d) =>
        if d == open[0] then Balance(tokens[1..], open[1..]) else Unbalanced(MismatchedDelimiter)
      case _ => Balance(tokens[1..], open)
  }

  lemma {:induction false} FormBalances(tokens: seq<Token>, open: seq<Delimiter>)
    requires tokens != [] && !tokens[0].Close? && open != []
    ensures Balance(tokens, open)
         == match ParseForm(tokens)
            case Err(error) => Unbalanced(error)
            case Ok((_, rest)) => Balance(rest, open)
    decreases |tokens|, 0
  {
    if tokens[0].Open? {
      FormsBalance(tokens[1..], tokens[0].delimiter, open);
    }
  }

  lemma {:induction false} FormsBalance(tokens: seq<Token>, d: Delimiter, open: seq<Delimiter>)
    ensures Balance(tokens, [d] + open)
         == match ParseForms(tokens, d)
            case Err(error) => Unbalanced(error)
            case Ok((_, rest)) => Balance(rest, open)
    decreases |tokens|, 1
  {
    assert ([d] + open)[1..] == open;
    if tokens != [] && !tokens[0].Close? {
      FormBalances(tokens, [d] + open);
      if ParseForm(tokens).Ok? {
        FormsBalance(ParseForm(tokens).value.1, d, open);
      }
    }
  }

  /** A form is read exactly as far as its delimiters balance, and refused for the first that does not. */
  lemma FormIsReadAsItBalances(tokens: seq<Token>)
    ensures
      match ParseForm(tokens)
      case Ok((_, rest)) =>
        && tokens != [] && !tokens[0].Close?
        && (if tokens[0].Open? then Balance(tokens[1..], [tokens[0].delimiter]) == Balanced(rest) else rest == tokens[1..])
      case Err(error) =>
        if tokens == [] then error == UnexpectedEof
        else if tokens[0].Close? then error == UnexpectedClose
        else tokens[0].Open? && Balance(tokens[1..], [tokens[0].delimiter]) == Unbalanced(error)
  {
    if tokens != [] && tokens[0].Open? {
      FormsBalance(tokens[1..], tokens[0].delimiter, []);
      assert [tokens[0].delimiter] + [] == [tokens[0].delimiter];
    }
  }

  /** The same tokens with every bracket turned into a parenthesis. */
  function Rounded(tokens: seq<Token>): (r: seq<Token>)
    ensures |r| == |tokens|
  {
    seq(|tokens|, i requires 0 <= i < |tokens| =>
      match tokens[i]
      case Open(_) => Open(Parenthesis)
      case Close(_) => Close(Parenthesis)
      case other => other)
  }

  lemma RoundedConcat(a: seq<Token>, b: seq<Token>)
    ensures Rounded(a + b) == Rounded(a) + Rounded(b)
  {
  }

  /** The tokens a form was read from are its own, brackets counting as parentheses. */
  lemma {:induction false} FormIsItsTokens(tokens: seq<Token>) returns (consumed: seq<Token>)
    requires ParseForm(tokens).Ok?
    ensures tokens == consumed + ParseForm(tokens).value.1
    ensures Rounded(consumed) == RoundTrip.TokensOf(ParseForm(tokens).value.0)
    decreases |tokens|, 0
  {
    match tokens[0] {
      case Open(d) =>
        var inner := FormsAreTheirTokens(tokens[1..], d);
        consumed := [Open(d)] + (inner + [Close(d)]);
        RoundedConcat([Open(d)], inner + [Close(d)]);
        RoundedConcat(inner, [Close(d)]);
      case AtomToken(value) =>
        consumed := [tokens[0]];
        RoundTrip.AtomReadsBack(value);
      case TextToken(_) =>
        consumed := [tokens[0]];
    }
  }

  lemma {:induction false} FormsAreTheirTokens(tokens: seq<Token>, d: Delimiter) returns (consumed: seq<Token>)
    requires ParseForms(tokens, d).Ok?
    ensures tokens == consumed + [Close(d)] + ParseForms(tokens, d).value.1
    ensures Rounded(consumed) == RoundTrip.TokensOfAll(ParseForms(tokens, d).value.0)
    decreases |tokens|, 1
  {
    if tokens[0] == Close(d) {
      consumed := [];
    } else {
      var first := FormIsItsTokens(tokens);
      var rest := FormsAreTheirTokens(ParseForm(tokens).value.1, d);
      consumed := first + rest;
      RoundedConcat(first, rest);
      var forms := ParseForms(tokens, d).value.0;
      assert forms[1..] == ParseForms(ParseForm(tokens).value.1, d).value.0;
    }
  }

  // ----- The root -----

  const SECTIONS := ["meta", "inputs", "on", "when", "do"]

  predicate IsSectionNumber(form: Form, k: int) {
    0 <= k < |SECTIONS| && Head(form) == Some(SECTIONS[k])
  }

  ghost predicate IsNumbered(form: Form) {
    exists k :: IsSectionNumber(form, k)
  }

  /** `flow`, and then the sections, some left out but in their order, with a trigger and a body. */
  ghost predicate IsRoot(root: Form) {
    && root.List? && root.forms != [] && root.forms[0] == Symbol("flow")
    && (forall i :: 1 <= i < |root.forms| ==> IsNumbered(root.forms[i]))
    && (forall i, j, a, b ::
          1 <= i < j < |root.forms| && IsSectionNumber(root.forms[i], a) && IsSectionNumber(root.forms[j], b) ==> a < b)
    && (exists i :: 1 <= i < |root.forms| && IsSectionNumber(root.forms[i], 2))
    && (exists i :: 1 <= i < |root.forms| && IsSectionNumber(root.forms[i], 4))
  }

  lemma SectionNumberIff(form: Form, k: int)
    ensures IsSectionNumber(form, k) <==> IsSection(form) && SectionPosition(form) == k
  {
    assert "meta"[0] == 'm' && "inputs"[0] == 'i' && "on"[0] == 'o' && "when"[0] == 'w' && "do"[0] == 'd';
  }

  lemma RootIsValid(root: Form)
    requires IsRoot(root)
    ensures ValidRoot(root)
  {
    forall i | 1 <= i < |root.forms|
      ensures IsSection(root.forms[i]) && IsSectionNumber(root.forms[i], SectionPosition(root.forms[i]))
    {
      var k :| IsSectionNumber(root.forms[i], k);
      SectionNumberIff(root.forms[i], k);
    }
    var on :| 1 <= on < |root.forms| && IsSectionNumber(root.forms[on], 2);
    var body :| 1 <= body < |root.forms| && IsSectionNumber(root.forms[body], 4);
    assert Head(root.forms[on]) == Some("on") && Head(root.forms[body]) == Some("do");
  }

  lemma ValidIsRoot(root: Form)
    requires ValidRoot(root)
    ensures IsRoot(root)
  {
    forall i, k | 1 <= i < |root.forms|
      ensures IsSectionNumber(root.forms[i], k) <==> k == SectionPosition(root.forms[i])
    {
      SectionNumberIff(root.forms[i], k);
    }
    forall i | 1 <= i < |root.forms|
      ensures IsNumbered(root.forms[i])
    {
      assert IsSection(root.forms[i]);
      assert IsSectionNumber(root.forms[i], SectionPosition(root.forms[i]));
    }
    var on :| 1 <= on < |root.forms| && Head(root.forms[on]) == Some("on");
    var body :| 1 <= body < |root.forms| && Head(root.forms[body]) == Some("do");
    assert IsSectionNumber(root.forms[on], 2) && IsSectionNumber(root.forms[body], 4);
  }

  /** The scan of the sections accepts exactly the roots. */
  lemma RootIsValidIff(root: Form)
    ensures CheckRoot(root).Ok? <==> IsRoot(root)
  {
    CheckRootMeaning(root);
    if IsRoot(root) {
      RootIsValid(root);
    }
    if ValidRoot(root) {
      ValidIsRoot(root);
    }
  }

  /** The sections before `i` are known and in order. */
  ghost predicate SoundUpTo(forms: seq<Form>, i: nat) {
    && 1 <= i <= |forms|
    && (forall j :: 1 <= j < i ==> IsNumbered(forms[j]))
    && (forall j, k, a, b :: 1 <= j < k < i && IsSectionNumber(forms[j], a) && IsSectionNumber(forms[k], b) ==> a < b)
  }

  predicate HasNumber(forms: seq<Form>, i: nat, k: int)
    requires 1 <= i <= |forms|
  {
    exists j :: 1 <= j < i && IsSectionNumber(forms[j], k)
  }

  /** What is wrong at section `i`, or with all sections when none is left. */
  ghost predicate FaultAt(forms: seq<Form>, i: nat, error: AstError)
    requires 1 <= i <= |forms|
  {
    match error
    case RootSectionMustBeList => i < |forms| && !forms[i].List?
    case RootSectionNameMissing => i < |forms| && forms[i].List? && Head(forms[i]).None?
    case UnknownRootSection(name) => i < |forms| && Head(forms[i]) == Some(name) && name !in SECTIONS
    case RootSectionOrder(name) =>
      && i < |forms| && Head(forms[i]) == Some(name)
      && exists k, j, m :: IsSectionNumber(forms[i], k) && 1 <= j < i && IsSectionNumber(forms[j], m) && m >= k
    case TriggerMissing => i == |forms| && !HasNumber(forms, i, 2)
    case BodyMissing => i == |forms| && HasNumber(forms, i, 2) && !HasNumber(forms, i, 4)
    case _ => false
  }

  lemma KnownIffNumbered(form: Form)
    requires Head(form).Some?
    ensures IsNumbered(form) <==> Position(Head(form).value).Some?
    ensures IsNumbered(form) <==> Head(form).value in SECTIONS
  {
    if Position(Head(form).value).Some? {
      SectionNumberIff(form, SectionPosition(form));
    }
    if k :| IsSectionNumber(form, k) {
      SectionNumberIff(form, k);
    }
    if Head(form).value in SECTIONS {
      var k :| 0 <= k < |SECTIONS| && SECTIONS[k] == Head(form).value;
      assert IsSectionNumber(form, k);
    }
  }

  lemma {:induction false} SoundFurther(forms: seq<Form>, i: nat, expected: nat)
    requires SoundUpTo(forms, i) && i < |forms| && IsNumbered(forms[i])
    requires forall j, m :: 1 <= j < i && IsSectionNumber(forms[j], m) ==> m < expected
    requires SectionPositionOf(forms[i]) >= expected
    ensures SoundUpTo(forms, i + 1)
    ensures forall j, m :: 1 <= j < i + 1 && IsSectionNumber(forms[j], m) ==> m < SectionPositionOf(forms[i]) + 1
    ensures forall k :: HasNumber(forms, i + 1, k) <==> HasNumber(forms, i, k) || k == SectionPositionOf(forms[i])
  {
    var p := SectionPositionOf(forms[i]);
    forall k
      ensures IsSectionNumber(forms[i], k) <==> k == p
    {
      SectionNumberIff(forms[i], k);
    }
    forall k
      ensures HasNumber(forms, i + 1, k) <==> HasNumber(forms, i, k) || k == p
    {
      if HasNumber(forms, i + 1, k) {
        var j :| 1 <= j < i + 1 && IsSectionNumber(forms[j], k);
        assert j < i ==> HasNumber(forms, i, k);
      }
      if HasNumber(forms, i, k) {
        var j :| 1 <= j < i && IsSectionNumber(forms[j], k);
        assert HasNumber(forms, i + 1, k);
      }
      assert IsSectionNumber(forms[i], p);
    }
  }

  function SectionPositionOf(form: Form): nat {
    if IsSection(form) then SectionPosition(form) else 0
  }

  lemma {:induction false} FaultFrom(forms: seq<Form>, i: nat, expected: nat, trigger: bool, body: bool) returns (at: nat)
    requires SoundUpTo(forms, i)
    requires forall j, m :: 1 <= j < i && IsSectionNumber(forms[j], m) ==> m < expected
    requires expected > 0 ==> exists j :: 1 <= j < i && IsSectionNumber(forms[j], expected - 1)
    requires (trigger <==> HasNumber(forms, i, 2)) && (body <==> HasNumber(forms, i, 4))
    requires CheckSections(forms[i..], expected, trigger, body).Err?
    ensures i <= at && SoundUpTo(forms, at)
    ensures FaultAt(forms, at, CheckSections(forms[i..], expected, trigger, body).error)
    decreases |forms| - i
  {
    at := i;
    if i < |forms| && Head(forms[i]).Some? {
      var form, name := forms[i], Head(forms[i]).value;
      assert forms[i..][0] == form && forms[i..][1..] == forms[i + 1..];
      KnownIffNumbered(form);
      if IsNumbered(form) {
        var p := SectionPosition(form);
        SectionNumberIff(form, p);
        if p >= expected {
          SoundFurther(forms, i, expected);
          SectionNumberIff(form, 2);
          SectionNumberIff(form, 4);
          at := FaultFrom(forms, i + 1, p + 1, trigger || name == "on", body || name == "do");
        }
      }
    }
  }

  /** A root is refused for the first of its sections that is wrong, or for the one that is missing. */
  lemma FirstFaultIsReported(root: Form) returns (at: nat)
    requires Head(root) == Some("flow") && CheckRoot(root).Err?
    ensures SoundUpTo(root.forms, at) && FaultAt(root.forms, at, CheckRoot(root).error)
  {
    at := FaultFrom(root.forms, 1, 0, false, false);
  }

  /** A source text is a flow exactly when it is laid out as the tokens of one form, brackets balanced, and
      that form is a root. */
  lemma SourceIsFlowIff(source: string, ast: Ast)
    ensures ParseSource(source) == Ok(ast)
       <==> && ast.dsl == "robine-flow" && ast.dslVersion == 1 && IsRoot(ast.root)
            && exists tokens :: Lexemes.IsLaidOut(source, tokens) && ParseForm(tokens) == Ok((ast.root, []))
  {
    RootIsValidIff(ast.root);
    forall tokens
      ensures Tokens(source) == Ok(tokens) <==> Lexemes.IsLaidOut(source, tokens)
    {
      Lexemes.TokensAreReadIff(source, tokens);
    }
    if Tokens(source).Ok? {
      assert Lexemes.IsLaidOut(source, Tokens(source).value);
    }
  }
}
