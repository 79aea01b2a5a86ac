// Printing and parsing undo each other.
module RoundTrip {
  import opened Wrappers
  import opened Collections
  import opened FlowAst
  import opened Lexer
  import opened Parser
  import opened Printer

  /** A text the lexer reads as one atom. */
  predicate IsAtomText(v: string) {
    v != "" && v[0] != '"' && forall i :: 0 <= i < |v| ==> !EndsAtom(v[i])
  }

  /** A form that some source text denotes: every atom, printed, reads back as itself. */
  predicate Canonical(form: Form) {
    match form
    case List(forms) => forall f :: f in forms ==> Canonical(f)
    case Text(_) => true
    case _ => IsAtomText(AtomText(form)) && Atom(AtomText(form)) == form
  }

  predicate ValidTokens(tokens: seq<Token>) {
    forall i :: 0 <= i < |tokens| && tokens[i].AtomToken? ==> IsAtomText(tokens[i].value)
  }

  // ----- What is parsed is canonical -----

  lemma {:induction false} AtomLengthStops(s: string)
    ensures forall i :: 0 <= i < AtomLength(s) ==> !EndsAtom(s[i])
  {
    if s != "" && !EndsAtom(s[0]) {
      AtomLengthStops(s[1..]);
      assert forall i :: 1 <= i < AtomLength(s) ==> s[i] == s[1..][i - 1];
    }
  }

  lemma {:induction false} LexedTokensAreValid(s: string)
    ensures Tokens(s).Ok? ==> ValidTokens(Tokens(s).value)
    decreases |s|
  {
    if s == "" {
    } else if IsWhitespace(s[0]) {
      LexedTokensAreValid(s[1..]);
    } else if s[0] == ';' {
      LexedTokensAreValid(SkipComment(s[1..]));
    } else if DelimiterToken(s[0]).Some? {
      LexedTokensAreValid(s[1..]);
    } else if s[0] == '"' {
      if Literal(s[1..]).Ok? {
        LexedTokensAreValid(Literal(s[1..]).value.1);
      }
    } else {
      var n := 1 + AtomLength(s[1..]);
      AtomLengthStops(s[1..]);
      assert forall i :: 1 <= i < n ==> s[i] == s[1..][i - 1];
      assert IsAtomText(s[..n]);
      LexedTokensAreValid(s[n..]);
    }
  }

  lemma AtomReadsBack(v: string)
    ensures !Atom(v).List? && !Atom(v).Text? && AtomText(Atom(v)) == v
  {
    if ParseNumber(v).Some? {
      var n := NumberLength(v);
      assert v == v[..n] + v[n..];
    }
  }

  lemma {:induction false} ParsedFormIsCanonical(tokens: seq<Token>)
    requires ValidTokens(tokens)
    ensures match ParseForm(tokens)
            case Err(_) => true
            case Ok((form, rest)) => Canonical(form) && ValidTokens(rest)
    decreases |tokens|, 0
  {
    if tokens != [] {
      match tokens[0] {
        case AtomToken(value) =>
          AtomReadsBack(value);
        case Open(delimiter) =>
          ParsedFormsAreCanonical(tokens[1..], delimiter);
        case _ =>
      }
    }
  }

  lemma {:induction false} ParsedFormsAreCanonical(tokens: seq<Token>, delimiter: Delimiter)
    requires ValidTokens(tokens)
    ensures match ParseForms(tokens, delimiter)
            case Err(_) => true
            case Ok((forms, rest)) => (forall f :: f in forms ==> Canonical(f)) && ValidTokens(rest)
    decreases |tokens|, 1
  {
    if tokens != [] && !tokens[0].Close? {
      ParsedFormIsCanonical(tokens);
      var first := ParseForm(tokens);
      if first.Ok? {
        ParsedFormsAreCanonical(first.value.1, delimiter);
      }
    }
  }

  // ----- Escaped text reads back -----

  lemma HexDigitReads(d: nat)
    requires d < 16
    ensures HexValue(HexDigit(d)) == Some(d)
  {
  }

  lemma HexNumberStep(d: nat, rest: string, value: nat)
    requires d < 16
    ensures HexNumber([HexDigit(d)] + rest, value) == HexNumber(rest, value * 16 + d)
  {
    HexDigitReads(d);
    assert ([HexDigit(d)] + rest)[1..] == rest;
  }

  lemma HexDigitsOf(n: nat)
    requires n < 0x1_0000
    ensures (((n / 4096) * 16 + n / 256 % 16) * 16 + n / 16 % 16) * 16 + n % 16 == n
  {
    assert n / 256 / 16 == n / 4096 && n / 16 / 16 == n / 256;
  }

  lemma Hex4Reads(n: nat)
    requires n < 0xD800
    ensures UnicodeEscape(Hex4(n)) == Some(n as char)
  {
    var a, b, c, d := n / 4096, n / 256 % 16, n / 16 % 16, n % 16;
    HexNumberStep(d, "", (a * 16 + b) * 16 + c);
    HexNumberStep(c, [HexDigit(d)] + "", a * 16 + b);
    HexNumberStep(b, [HexDigit(c)] + ([HexDigit(d)] + ""), a);
    HexNumberStep(a, [HexDigit(b)] + ([HexDigit(c)] + ([HexDigit(d)] + "")), 0);
    HexDigitsOf(n);
    assert Hex4(n) == [HexDigit(a)] + ([HexDigit(b)] + ([HexDigit(c)] + ([HexDigit(d)] + "")));
    HexDigitReads(a);
    assert Hex4(n)[0] != '+';
  }

  lemma SimpleEscapeReads(e: char, c: char, s: string)
    requires e != 'u' && SimpleEscape(e) == Some(c)
    ensures Literal(['\\', e] + s) == Extend([c], Literal(s))
  {
    assert (['\\', e] + s)[2..] == s;
  }

  lemma UnicodeEscapeReads(hex: string, c: char, s: string)
    requires |hex| == 4 && UnicodeEscape(hex) == Some(c)
    ensures Literal("\\u" + hex + s) == Extend([c], Literal(s))
  {
    var t := "\\u" + hex + s;
    assert t[2..6] == hex;
    assert t[6..] == s;
  }

  lemma PlainCharReads(c: char, s: string)
    requires c != '"' && c != '\\'
    ensures Literal([c] + s) == Extend([c], Literal(s))
  {
    assert ([c] + s)[1..] == s;
  }

  lemma EscapedCharReads(c: char, s: string)
    ensures Literal(EscapeChar(c) + s) == Extend([c], Literal(s))
  {
    if c == '"' || c == '\\' {
      SimpleEscapeReads(c, c, s);
    } else if c == '\n' {
      SimpleEscapeReads('n', c, s);
    } else if c == '\r' {
      SimpleEscapeReads('r', c, s);
    } else if c == '\t' {
      SimpleEscapeReads('t', c, s);
    } else if IsControl(c) {
      Hex4Reads(c as int);
      UnicodeEscapeReads(Hex4(c as int), c, s);
    } else {
      PlainCharReads(c, s);
    }
  }

  lemma ClosingQuoteReads(rest: string)
    ensures Literal("\"" + rest) == Ok(("", rest))
  {
    assert ("\"" + rest)[1..] == rest;
  }

  lemma {:induction false} EscapedTextReads(value: string, rest: string)
    ensures Literal(Escape(value) + ("\"" + rest)) == Ok((value, rest))
  {
    var s := "\"" + rest;
    ClosingQuoteReads(rest);
    if value == "" {
      assert Escape(value) + s == s;
    } else {
      EscapedTextReads(value[1..], rest);
      EscapedCharReads(value[0], Escape(value[1..]) + s);
      Associative(EscapeChar(value[0]), Escape(value[1..]), s);
      assert [value[0]] + value[1..] == value;
    }
  }

  // ----- Printed text lexes to the tokens of the form -----

  function TokensOf(form: Form): seq<Token>
    decreases form, 0
  {
    match form
    case List(forms) => [Open(Parenthesis)] + (TokensOfAll(forms) + [Close(Parenthesis)])
    case Text(value) => [TextToken(value)]
    case _ => [AtomToken(AtomText(form))]
  }

  function TokensOfAll(forms: seq<Form>): seq<Token>
    decreases forms, 1
  {
    if forms == [] then [] else TokensOf(forms[0]) + TokensOfAll(forms[1..])
  }

  predicate Boundary(s: string) {
    s == "" || EndsAtom(s[0])
  }

  lemma {:induction false} AtomLengthOf(v: string, rest: string)
    requires forall i :: 0 <= i < |v| ==> !EndsAtom(v[i])
    requires Boundary(rest)
    ensures AtomLength(v + rest) == |v|
  {
    if v == "" {
      assert v + rest == rest;
    } else {
      AtomLengthOf(v[1..], rest);
      assert (v + rest)[1..] == v[1..] + rest;
    }
  }

  lemma AtomLexes(v: string, rest: string)
    requires IsAtomText(v) && Boundary(rest)
    ensures Tokens(v + rest) == Prepend([AtomToken(v)], Tokens(rest))
  {
    var s := v + rest;
    AtomLengthOf(v[1..], rest);
    assert s[1..] == v[1..] + rest;
    assert s[..|v|] == v && s[|v|..] == rest;
    assert s[0] == v[0] && !EndsAtom(s[0]);
  }

  lemma DelimiterLexes(c: char, rest: string)
    requires DelimiterToken(c).Some?
    ensures Tokens([c] + rest) == Prepend([DelimiterToken(c).value], Tokens(rest))
  {
    assert ([c] + rest)[1..] == rest;
  }

  lemma TextLexes(value: string, rest: string)
    ensures Tokens("\"" + (Escape(value) + "\"") + rest) == Prepend([TextToken(value)], Tokens(rest))
  {
    var s := "\"" + (Escape(value) + "\"") + rest;
    EscapedTextReads(value, rest);
    assert s[1..] == Escape(value) + ("\"" + rest);
  }

  lemma {:induction false} SpacesLex(n: nat, rest: string)
    ensures Tokens(Spaces(n) + rest) == Tokens(rest)
  {
    if n == 0 {
      assert Spaces(n) + rest == rest;
    } else {
      SpacesLex(n - 1, rest);
      assert (Spaces(n) + rest)[1..] == Spaces(n - 1) + rest;
    }
  }

  lemma SeparatorLexes(inline: bool, indent: nat, rest: string)
    ensures Tokens(Separator(inline, indent) + rest) == Tokens(rest)
    ensures EndsAtom(Separator(inline, indent)[0])
  {
    var s := Separator(inline, indent) + rest;
    if inline {
      assert s[1..] == rest;
    } else {
      assert s[1..] == Spaces(indent + 2) + rest;
      SpacesLex(indent + 2, rest);
    }
  }

  lemma {:induction false} PrintLexes(form: Form, indent: nat, rest: string)
    requires Canonical(form) && Boundary(rest)
    ensures Tokens(Print(form, indent) + rest) == Prepend(TokensOf(form), Tokens(rest))
    decreases form, 0
  {
    match form {
      case List(forms) =>
        var close := ")" + rest;
        DelimiterLexes(')', rest);
        if forms == [] {
          DelimiterLexes('(', close);
          assert "()" + rest == "(" + close;
          PrependTwice([Open(Parenthesis)], [Close(Parenthesis)], Tokens(rest));
          assert TokensOf(form) == [Open(Parenthesis)] + [Close(Parenthesis)];
        } else {
          ListLexes(forms, indent, rest);
        }
      case Text(value) =>
        TextLexes(value, rest);
      case _ =>
        AtomLexes(AtomText(form), rest);
    }
  }

  lemma {:induction false} ListLexes(forms: seq<Form>, indent: nat, rest: string)
    requires forms != [] && (forall f :: f in forms ==> Canonical(f)) && Boundary(rest)
    ensures Tokens(Print(List(forms), indent) + rest) == Prepend(TokensOf(List(forms)), Tokens(rest))
    decreases forms, 2
  {
    var inline := AllAtoms(forms);
    var inner := if inline then indent else indent + 2;
    var close := ")" + rest;
    var tail := PrintRest(forms[1..], inline, indent) + close;
    var all := Print(forms[0], inner) + tail;
    assert Print(List(forms), indent) + rest == "(" + all;
    DelimiterLexes('(', all);
    PrintRestLexes(forms[1..], inline, indent, close);
    PrintLexes(forms[0], inner, tail);
    DelimiterLexes(')', rest);
    var open: seq<Token>, first, others, shut: seq<Token> :=
      [Open(Parenthesis)], TokensOf(forms[0]), TokensOfAll(forms[1..]), [Close(Parenthesis)];
    PrependTwice(others, shut, Tokens(rest));
    PrependTwice(first, others + shut, Tokens(rest));
    PrependTwice(open, first + (others + shut), Tokens(rest));
    assert first + (others + shut) == TokensOfAll(forms) + shut;
  }

  lemma {:induction false} PrintRestLexes(forms: seq<Form>, inline: bool, indent: nat, rest: string)
    requires (forall f :: f in forms ==> Canonical(f)) && Boundary(rest)
    ensures Tokens(PrintRest(forms, inline, indent) + rest) == Prepend(TokensOfAll(forms), Tokens(rest))
    ensures Boundary(PrintRest(forms, inline, indent) + rest)
    decreases forms, 1
  {
    if forms == [] {
      assert PrintRest(forms, inline, indent) + rest == rest;
      PrependNothing(Tokens(rest));
    } else {
      var inner := if inline then indent else indent + 2;
      var tail := PrintRest(forms[1..], inline, indent) + rest;
      PrintRestLexes(forms[1..], inline, indent, rest);
      PrintLexes(forms[0], inner, tail);
      var item := Print(forms[0], inner);
      SeparatorLexes(inline, indent, item + tail);
      Associative(item, PrintRest(forms[1..], inline, indent), rest);
      Associative(Separator(inline, indent), item + PrintRest(forms[1..], inline, indent), rest);
      PrependTwice(TokensOf(forms[0]), TokensOfAll(forms[1..]), Tokens(rest));
    }
  }

  // ----- The tokens of a form parse to the form -----

  lemma {:induction false} TokensParse(form: Form, rest: seq<Token>)
    requires Canonical(form)
    ensures ParseForm(TokensOf(form) + rest) == Ok((form, rest))
    ensures TokensOf(form) != [] && !TokensOf(form)[0].Close?
    decreases form, 0
  {
    var tokens := TokensOf(form) + rest;
    match form {
      case List(forms) =>
        TokensParseAll(forms, rest);
        assert tokens[1..] == TokensOfAll(forms) + ([Close(Parenthesis)] + rest);
      case _ =>
        assert tokens[1..] == rest;
    }
  }

  lemma {:induction false} TokensParseAll(forms: seq<Form>, rest: seq<Token>)
    requires forall f :: f in forms ==> Canonical(f)
    ensures ParseForms(TokensOfAll(forms) + ([Close(Parenthesis)] + rest), Parenthesis) == Ok((forms, rest))
    decreases forms, 1
  {
    var closing := [Close(Parenthesis)] + rest;
    var tokens := TokensOfAll(forms) + closing;
    if forms == [] {
      assert tokens == closing && tokens[1..] == rest;
    } else {
      var others := TokensOfAll(forms[1..]) + closing;
      assert tokens == TokensOf(forms[0]) + others;
      TokensParse(forms[0], others);
      TokensParseAll(forms[1..], rest);
      assert [forms[0]] + forms[1..] == forms;
    }
  }

  // ----- The laws -----

  lemma CanonicalFormReadsBack(form: Form)
    requires Canonical(form)
    ensures Tokens(Print(form, 0) + "\n") == Ok(TokensOf(form))
    ensures ParseForm(TokensOf(form)) == Ok((form, []))
  {
    PrintLexes(form, 0, "\n");
    assert "\n"[1..] == "";
    assert Tokens("\n") == Ok([]);
    assert TokensOf(form) + [] == TokensOf(form);
    TokensParse(form, []);
  }

  lemma ParsedIsCanonical(source: string)
    ensures ParseSource(source).Ok? ==>
      var ast := ParseSource(source).value;
      Canonical(ast.root) && ValidateAst(ast).Ok?
  {
    LexedTokensAreValid(source);
    if Tokens(source).Ok? {
      ParsedFormIsCanonical(Tokens(source).value);
    }
  }

  /** A valid flow survives printing and parsing exactly when its atoms are canonical. */
  lemma PrintParse(ast: Ast)
    requires ValidateAst(ast).Ok?
    ensures Format(ast).Ok?
    ensures ParseSource(Format(ast).value) == Ok(ast) <==> Canonical(ast.root)
  {
    if Canonical(ast.root) {
      CanonicalFormReadsBack(ast.root);
    } else {
      ParsedIsCanonical(Format(ast).value);
    }
  }

  /** Whatever parses can be printed, parses back to the same flow, and prints to the same text again. */
  lemma ParsePrintParse(source: string)
    requires ParseSource(source).Ok?
    ensures
      var ast := ParseSource(source).value;
      && Format(ast).Ok?
      && ParseSource(Format(ast).value) == Ok(ast)
      && Format(ParseSource(Format(ast).value).value) == Format(ast)
  {
    ParsedIsCanonical(source);
    PrintParse(ParseSource(source).value);
  }

  /** Two sources of the same flow have the same rendering; different flows have different ones. */
  lemma RenderingIsInjective(source1: string, source2: string)
    requires ParseSource(source1).Ok? && ParseSource(source2).Ok?
    ensures ParseSource(source1) == ParseSource(source2)
       <==> Format(ParseSource(source1).value) == Format(ParseSource(source2).value)
  {
    ParsePrintParse(source1);
    ParsePrintParse(source2);
  }
}
