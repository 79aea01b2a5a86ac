// The parser of flow source text: tokens to forms, source text to a validated flow.
module Parser {
  import opened Wrappers
  import opened FlowAst
  import opened Lexer

  // ----- Atoms -----

  predicate IsDigit(c: char) {
    '0' <= c <= '9'
  }

  /** The length of the longest prefix made of digits, dots and minus signs. */
  function NumberLength(s: string): (n: nat)
    ensures n <= |s|
  {
    if s == "" || !(IsDigit(s[0]) || s[0] == '.' || s[0] == '-') then 0 else 1 + NumberLength(s[1..])
  }

  function Dots(s: string): nat {
    if s == "" then 0 else (if s[0] == '.' then 1 else 0) + Dots(s[1..])
  }

  /** Whether a text of digits, dots and minus signs is a decimal number: an optional minus sign,
      then digits with at most one dot among them. */
  predicate IsDecimal(s: string) {
    var unsigned := if s != "" && s[0] == '-' then s[1..] else s;
    && (forall i :: 0 <= i < |unsigned| ==> IsDigit(unsigned[i]) || unsigned[i] == '.')
    && (exists i :: 0 <= i < |unsigned| && IsDigit(unsigned[i]))
    && Dots(unsigned) <= 1
  }

  function ParseNumber(value: string): Option<Form> {
    var n := NumberLength(value);
    var number, unit := value[..n], value[n..];
    if number == "" || number == "-" || !IsDecimal(number) then None
    else Some(Number(number, if unit == "" then None else Some(unit)))
  }

  function Atom(value: string): Form {
    if value == "true" then Bool(true)
    else if value == "false" then Bool(false)
    else if value == "nil" then Nil
    else if |value| > 1 && value[0] == ':' then Keyword(value[1..])
    else
      match ParseNumber(value)
      case Some(number) => number
      case None => Symbol(value)
  }

  // ----- Specification, on the tokens that are left -----

  function ParseForm(tokens: seq<Token>): (r: Result<(Form, seq<Token>), SyntaxError>)
    ensures r.Ok? ==> |r.value.1| < |tokens|
    decreases |tokens|, 0
  {
    if tokens == [] then Err(UnexpectedEof)
    else
      match tokens[0]
      case Close(_) => Err(UnexpectedClose)
      case TextToken(value) => Ok((Text(value), tokens[1..]))
      case AtomToken(value) => Ok((Atom(value), tokens[1..]))
      case Open(delimiter) =>
        var (forms, rest) :- ParseForms(tokens[1..], delimiter);
        Ok((List(forms), rest))
  }

  /** The forms up to the closing delimiter, which is consumed. */
  function ParseForms(tokens: seq<Token>, delimiter: Delimiter): (r: Result<(seq<Form>, seq<Token>), SyntaxError>)
    ensures r.Ok? ==> |r.value.1| < |tokens|
    decreases |tokens|, 1
  {
    if tokens == [] then Err(UnclosedList)
    else if tokens[0] == Close(delimiter) then Ok(([], tokens[1..]))
    else if tokens[0].Close? then Err(MismatchedDelimiter)
    else
      var (form, rest) :- ParseForm(tokens);
      var (forms, rest') :- ParseForms(rest, delimiter);
      Ok(([form] + forms, rest'))
  }

  function ParseSource(source: string): Result<Ast, SyntaxError> {
    var tokens :- Tokens(source);
    var (root, rest) :- ParseForm(tokens);
    if rest != [] then Err(TrailingForm)
    else
      match NewAst(root)
      case Err(error) => Err(InvalidRoot(error))
      case Ok(ast) => Ok(ast)
  }

  // ----- The parser, which moves an offset over the tokens -----

  function WithForms(
    forms: seq<Form>, r: Result<(seq<Form>, seq<Token>), SyntaxError>): Result<(seq<Form>, seq<Token>), SyntaxError>
  {
    if r.Ok? then Ok((forms + r.value.0, r.value.1)) else r
  }

  lemma WithFormsTwice(a: seq<Form>, b: seq<Form>, r: Result<(seq<Form>, seq<Token>), SyntaxError>)
    ensures WithForms(a, WithForms(b, r)) == WithForms(a + b, r)
  {
    assert r.Ok? ==> a + (b + r.value.0) == a + b + r.value.0;
  }

  class FormParser {
    const tokens: seq<Token>
    var offset: nat

    constructor (tokens: seq<Token>)
      ensures this.tokens == tokens && offset == 0
    {
      this.tokens := tokens;
      offset := 0;
    }

    method Form() returns (r: Result<Form, SyntaxError>)
      requires offset <= |tokens|
      modifies this
      ensures old(offset) <= offset <= |tokens|
      ensures match ParseForm(tokens[old(offset)..])
              case Err(e) => r == Err(e)
              case Ok((form, rest)) => r == Ok(form) && rest == tokens[offset..] && old(offset) < offset
      decreases |tokens| - offset
    {
      if offset == |tokens| {
        return Err(UnexpectedEof);
      }
      var token := tokens[offset];
      assert tokens[offset..][1..] == tokens[offset + 1..];
      offset := offset + 1;
      match token {
        case Close(_) =>
          return Err(UnexpectedClose);
        case TextToken(value) =>
          return Ok(Text(value));
        case AtomToken(value) =>
          return Ok(Atom(value));
        case Open(delimiter) =>
          var forms: seq<Form> := [];
          ghost var start := offset;
          ghost var all := ParseForms(tokens[start..], delimiter);
          assert all.Ok? ==> [] + all.value.0 == all.value.0;
          while true
            invariant start <= offset <= |tokens|
            invariant all == WithForms(forms, ParseForms(tokens[offset..], delimiter))
            decreases |tokens| - offset
          {
            if offset == |tokens| {
              return Err(UnclosedList);
            }
            var next := tokens[offset];
            if next == Close(delimiter) {
              assert tokens[offset..][1..] == tokens[offset + 1..];
              assert forms + [] == forms;
              offset := offset + 1;
              return Ok(List(forms));
            }
            if next.Close? {
              return Err(MismatchedDelimiter);
            }
            var form := Form();
            if form.Err? {
              return Err(form.error);
            }
            WithFormsTwice(forms, [form.value], ParseForms(tokens[offset..], delimiter));
            forms := forms + [form.value];
          }
      }
    }
  }

  method Parse(source: string) returns (r: Result<Ast, SyntaxError>)
    ensures r == ParseSource(source)
  {
    var tokens := Lex(source);
    if tokens.Err? {
      return Err(tokens.error);
    }
    var parser := new FormParser(tokens.value);
    assert tokens.value[0..] == tokens.value;
    var root := parser.Form();
    if root.Err? {
      return Err(root.error);
    }
    if parser.offset < |tokens.value| {
      return Err(TrailingForm);
    }
    var valid := ValidateRoot(root.value);
    if valid.Err? {
      return Err(InvalidRoot(valid.error));
    }
    return Ok(Ast(DSL_NAME, DSL_VERSION, root.value));
  }
}
