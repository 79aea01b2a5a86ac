// The deterministic rendering of a flow.
module Printer {
  import opened Wrappers
  import opened FlowAst

  /** The Unicode category Cc. */
  predicate IsControl(c: char) {
    c < '\U{0020}' || '\U{007F}' <= c <= '\U{009F}'
  }

  function HexDigit(d: nat): char
    requires d < 16
  {
    if d < 10 then '0' + d as char else 'a' + (d - 10) as char
  }

  /** Four lower-case hexadecimal digits. */
  function Hex4(n: nat): string
    requires n < 0x1_0000
  {
    [HexDigit(n / 4096), HexDigit(n / 256 % 16), HexDigit(n / 16 % 16), HexDigit(n % 16)]
  }

  function EscapeChar(c: char): string {
    if c == '"' then "\\\""
    else if c == '\\' then "\\\\"
    else if c == '\n' then "\\n"
    else if c == '\r' then "\\r"
    else if c == '\t' then "\\t"
    else if IsControl(c) then "\\u" + Hex4(c as int)
    else [c]
  }

  function Escape(s: string): string {
    if s == "" then "" else EscapeChar(s[0]) + Escape(s[1..])
  }

  function Spaces(n: nat): string {
    if n == 0 then "" else " " + Spaces(n - 1)
  }

  predicate IsAtom(form: Form) {
    !form.List?
  }

  predicate AllAtoms(forms: seq<Form>) {
    forall i :: 0 <= i < |forms| ==> IsAtom(forms[i])
  }

  function Separator(inline: bool, indent: nat): string {
    if inline then " " else "\n" + Spaces(indent + 2)
  }

  /** The text of a form that is neither a list nor a string. */
  function AtomText(form: Form): string {
    match form
    case Symbol(value) => value
    case Keyword(value) => ":" + value
    case Bool(b) => if b then "true" else "false"
    case Nil => "nil"
    case Number(literal, unit) => literal + unit.GetOr("")
    case List(_) => ""
    case Text(_) => ""
  }

  function Print(form: Form, indent: nat): string
    decreases form, 0
  {
    match form
    case List(forms) =>
      if forms == [] then "()"
      else
        var inline := AllAtoms(forms);
        var inner := if inline then indent else indent + 2;
        "(" + (Print(forms[0], inner) + (PrintRest(forms[1..], inline, indent) + ")"))
    case Text(value) => "\"" + (Escape(value) + "\"")
    case _ => AtomText(form)
  }

  /** The remaining forms of a list, each after its separator. */
  function PrintRest(forms: seq<Form>, inline: bool, indent: nat): string
    decreases forms, 1
  {
    if forms == [] then ""
    else
      Separator(inline, indent)
      + (Print(forms[0], if inline then indent else indent + 2) + PrintRest(forms[1..], inline, indent))
  }

  function Format(ast: Ast): Result<string, AstError> {
    var _ :- ValidateAst(ast);
    Ok(Print(ast.root, 0) + "\n")
  }

  // ----- The printer, which appends to a buffer -----

  class TextBuffer {
    var text: string

    constructor ()
      ensures text == ""
    {
      text := "";
    }

    method Push(s: string)
      modifies this
      ensures text == old(text) + s
    {
      text := text + s;
    }
  }

  method PushEscaped(value: string, output: TextBuffer)
    modifies output
    ensures output.text == old(output.text) + Escape(value)
  {
    ghost var start := output.text;
    var i := 0;
    assert value[0..] == value;
    while i < |value|
      invariant i <= |value|
      invariant output.text + Escape(value[i..]) == start + Escape(value)
    {
      ghost var before := output.text;
      var escaped := EscapeChar(value[i]);
      assert value[i..][1..] == value[i + 1..];
      output.Push(escaped);
      AppendTwo(before, escaped, Escape(value[i + 1..]));
      i := i + 1;
    }
    assert output.text + "" == output.text;
  }

  lemma AppendTwo(a: string, b: string, c: string)
    ensures a + b + c == a + (b + c)
  {
  }

  method FormatString(value: string, output: TextBuffer)
    modifies output
    ensures output.text == old(output.text) + ("\"" + (Escape(value) + "\""))
  {
    output.Push("\"");
    PushEscaped(value, output);
    output.Push("\"");
    AppendThree(old(output.text), "\"", Escape(value), "\"");
  }

  method FormatForm(form: Form, indent: nat, output: TextBuffer)
    modifies output
    ensures output.text == old(output.text) + Print(form, indent)
    decreases form, 0
  {
    match form {
      case List(forms) =>
        if forms == [] {
          output.Push("()");
          return;
        }
        FormatList(forms, indent, output);
      case Text(value) =>
        FormatString(value, output);
      case _ =>
        output.Push(AtomText(form));
    }
  }

  method FormatList(forms: seq<Form>, indent: nat, output: TextBuffer)
    requires forms != []
    modifies output
    ensures output.text == old(output.text) + Print(List(forms), indent)
    decreases forms, 2
  {
    ghost var start := output.text;
    var inline := AllAtoms(forms);
    var inner := if inline then indent else indent + 2;
    output.Push("(");
    FormatForm(forms[0], inner, output);
    FormatRest(forms, inline, indent, output);
    output.Push(")");
    AppendFour(start, "(", Print(forms[0], inner), PrintRest(forms[1..], inline, indent), ")");
  }

  /** The loop over the forms after the first. */
  method FormatRest(forms: seq<Form>, inline: bool, indent: nat, output: TextBuffer)
    requires forms != []
    modifies output
    ensures output.text == old(output.text) + PrintRest(forms[1..], inline, indent)
    decreases forms, 1
  {
    ghost var start := output.text;
    var i := 1;
    while i < |forms|
      invariant 1 <= i <= |forms|
      invariant output.text + PrintRest(forms[i..], inline, indent) == start + PrintRest(forms[1..], inline, indent)
    {
      ghost var before := output.text;
      ghost var item := Print(forms[i], if inline then indent else indent + 2);
      assert forms[i..][1..] == forms[i + 1..];
      output.Push(Separator(inline, indent));
      FormatForm(forms[i], if inline then indent else indent + 2, output);
      AppendThree(before, Separator(inline, indent), item, PrintRest(forms[i + 1..], inline, indent));
      i := i + 1;
    }
    assert forms[i..] == [];
  }

  lemma AppendThree(a: string, b: string, c: string, d: string)
    ensures a + b + c + d == a + (b + (c + d))
  {
  }

  lemma AppendFour(a: string, b: string, c: string, d: string, e: string)
    ensures a + b + c + d + e == a + (b + (c + (d + e)))
  {
  }

  method FormatFlow(ast: Ast) returns (r: Result<string, AstError>)
    ensures r == Format(ast)
  {
    if ast.dsl != DSL_NAME {
      return Err(UnknownDsl(ast.dsl));
    }
    if ast.dslVersion != DSL_VERSION {
      return Err(UnsupportedVersion(ast.dslVersion));
    }
    var valid := ValidateRoot(ast.root);
    if valid.Err? {
      return Err(valid.error);
    }
    var output := new TextBuffer();
    FormatForm(ast.root, 0, output);
    assert "" + Print(ast.root, 0) == Print(ast.root, 0);
    output.Push("\n");
    return Ok(output.text);
  }
}
