// What the rendering of a flow looks like: which characters it escapes, and where it breaks its lines.
module PrintLayout {
  import opened FlowAst
  import opened Lexer
  import opened Printer
  import opened RoundTrip
  import Lexemes

  // ----- Escapes -----

  predicate IsControlCode(code: int) {
    0 <= code <= 0x1F || 0x7F <= code <= 0x9F
  }

  /** A character is written as itself, unless it is a quote, a backslash or a control character; then briefly
      when there is a brief way, and with four lower-case digits when there is none. */
  lemma EscapesAreMinimal(c: char)
    ensures EscapeChar(c) == [c] <==> c != '"' && c != '\\' && !IsControlCode(c as int)
    ensures |EscapeChar(c)| == 2 <==> c as int in {0x22, 0x5C, 0x0A, 0x0D, 0x09}
    ensures |EscapeChar(c)| in {1, 2, 6}
    ensures |EscapeChar(c)| == 6 ==> forall i :: 2 <= i < 6 ==> EscapeChar(c)[i] in "0123456789abcdef"
  {
    if |EscapeChar(c)| == 6 {
      HexIsLowerCase(c as int);
    }
  }

  lemma HexIsLowerCase(n: nat)
    requires n < 0x1_0000
    ensures forall i :: 0 <= i < 4 ==> Hex4(n)[i] in "0123456789abcdef"
  {
    HexDigitIsListed(n / 4096);
    HexDigitIsListed(n / 256 % 16);
    HexDigitIsListed(n / 16 % 16);
    HexDigitIsListed(n % 16);
  }

  lemma HexDigitIsListed(d: nat)
    requires d < 16
    ensures HexDigit(d) in "0123456789abcdef"
  {
    assert "0123456789abcdef"[d] == HexDigit(d);
  }

  // ----- Lines -----

  /** An atom, a list of atoms, or a list of just one such form. */
  predicate IsNarrow(form: Form) {
    form.List? ==>
      || (forall i :: 0 <= i < |form.forms| ==> !form.forms[i].List?)
      || (|form.forms| == 1 && IsNarrow(form.forms[0]))
  }

  /** Every line after the first is indented by at least so much. */
  predicate IsIndented(s: string, indent: nat) {
    forall k :: 0 <= k < |s| && s[k] == '\n' ==>
      k + indent < |s| && forall j :: k < j <= k + indent ==> s[j] == ' '
  }

  predicate OneLine(s: string) {
    '\n' !in s
  }

  lemma IndentedConcat(a: string, b: string, indent: nat)
    requires IsIndented(a, indent) && IsIndented(b, indent)
    ensures IsIndented(a + b, indent)
  {
  }

  lemma OneLineIsIndented(s: string, indent: nat)
    requires OneLine(s)
    ensures IsIndented(s, indent)
  {
  }

  lemma AtomIsOneLine(form: Form)
    requires Canonical(form) && !form.List?
    ensures OneLine(Print(form, 0)) && forall indent :: Print(form, indent) == Print(form, 0)
  {
    if form.Text? {
      EscapedIsOneLine(form.value);
    } else {
      Lexemes.WhitespaceIff('\n');
      assert EndsAtom('\n');
    }
  }

  lemma {:induction false} EscapedIsOneLine(s: string)
    ensures OneLine(Escape(s))
  {
    if s != "" {
      EscapedIsOneLine(s[1..]);
      EscapesAreMinimal(s[0]);
      assert OneLine(EscapeChar(s[0]));
    }
  }

  lemma {:induction false} SpacesAre(n: nat)
    ensures |Spaces(n)| == n && forall i :: 0 <= i < n ==> Spaces(n)[i] == ' '
  {
    if n > 0 {
      SpacesAre(n - 1);
    }
  }

  lemma {:induction false} InlineIsOneLine(forms: seq<Form>, indent: nat)
    requires forall f :: f in forms ==> Canonical(f) && !f.List?
    ensures OneLine(PrintRest(forms, true, indent))
  {
    if forms != [] {
      AtomIsOneLine(forms[0]);
      InlineIsOneLine(forms[1..], indent);
    }
  }

  lemma SeparatorIsIndented(indent: nat)
    ensures IsIndented(Separator(false, indent), indent + 2) && '\n' in Separator(false, indent)
  {
    SpacesAre(indent + 2);
    assert Separator(false, indent)[0] == '\n';
  }

  lemma {:induction false} RestIsIndented(forms: seq<Form>, indent: nat)
    requires forall f :: f in forms ==> Canonical(f)
    ensures IsIndented(PrintRest(forms, false, indent), indent + 2)
    ensures forms != [] ==> !OneLine(PrintRest(forms, false, indent))
    decreases forms, 0
  {
    if forms != [] {
      LinesAreIndented(forms[0], indent + 2);
      RestIsIndented(forms[1..], indent);
      NextLineIsIndented(Print(forms[0], indent + 2), PrintRest(forms[1..], false, indent), indent);
    }
  }

  lemma ThreeIndented(a: string, b: string, c: string, indent: nat)
    requires IsIndented(a, indent) && IsIndented(b, indent) && IsIndented(c, indent)
    ensures IsIndented(a + (b + c), indent)
    ensures !OneLine(a) ==> !OneLine(a + (b + c))
  {
    IndentedConcat(b, c, indent);
    IndentedConcat(a, b + c, indent);
  }

  lemma NextLineIsIndented(item: string, rest: string, indent: nat)
    requires IsIndented(item, indent + 4) && IsIndented(rest, indent + 2)
    ensures IsIndented(Separator(false, indent) + (item + rest), indent + 2)
    ensures !OneLine(Separator(false, indent) + (item + rest))
  {
    SeparatorIsIndented(indent);
    IndentedLess(item, indent + 4, indent + 2);
    ThreeIndented(Separator(false, indent), item, rest, indent + 2);
  }

  lemma IndentedLess(s: string, more: nat, less: nat)
    requires IsIndented(s, more) && less <= more
    ensures IsIndented(s, less)
  {
  }

  /** A form is rendered on one line exactly when it is an atom, a list of atoms, or a list of just one such
      form; and every further line is indented by at least two spaces more than the form. */
  lemma {:induction false} LinesAreIndented(form: Form, indent: nat)
    requires Canonical(form)
    ensures IsIndented(Print(form, indent), indent + 2)
    ensures OneLine(Print(form, indent)) <==> IsNarrow(form)
    decreases form, 1
  {
    if !form.List? {
      AtomIsOneLine(form);
    } else if form.forms != [] {
      var forms := form.forms;
      if AllAtoms(forms) {
        AtomIsOneLine(forms[0]);
        assert Print(forms[0], indent) == Print(forms[0], 0);
        InlineIsOneLine(forms[1..], indent);
      } else {
        LinesAreIndented(forms[0], indent + 2);
        RestIsIndented(forms[1..], indent);
        var item, rest := Print(forms[0], indent + 2), PrintRest(forms[1..], false, indent);
        IndentedLess(item, indent + 4, indent + 2);
        ListIsIndented(item, rest, indent + 2);
        assert Print(form, indent) == "(" + (item + (rest + ")"));
        assert rest == "" || !OneLine(rest);
      }
    }
  }

  lemma ListIsIndented(item: string, rest: string, indent: nat)
    requires IsIndented(item, indent) && IsIndented(rest, indent)
    ensures IsIndented("(" + (item + (rest + ")")), indent)
    ensures OneLine("(" + (item + (rest + ")"))) <==> OneLine(item) && OneLine(rest)
  {
    IndentedConcat(rest, ")", indent);
    IndentedConcat(item, rest + ")", indent);
    IndentedConcat("(", item + (rest + ")"), indent);
  }
}
