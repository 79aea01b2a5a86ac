// The lexer of flow source text.
module Lexer {
  import opened Wrappers
  import opened FlowAst

  datatype Delimiter = Parenthesis | Bracket

  datatype Token =
    | Open(delimiter: Delimiter)
    | Close(delimiter: Delimiter)
    | TextToken(value: string)
    | AtomToken(value: string)

  datatype SyntaxError =
    | UnterminatedString
    | InvalidEscape
    | UnexpectedEof
    | UnexpectedClose
    | UnclosedList
    | MismatchedDelimiter
    | TrailingForm
    | InvalidRoot(error: AstError)

  /** The Unicode property White_Space. */
  predicate IsWhitespace(c: char) {
    || '\U{0009}' <= c <= '\U{000D}' || c == ' ' || c == '\U{0085}' || c == '\U{00A0}'
    || c == '\U{1680}' || '\U{2000}' <= c <= '\U{200A}' || c == '\U{2028}' || c == '\U{2029}'
    || c == '\U{202F}' || c == '\U{205F}' || c == '\U{3000}'
  }

  /** Characters that end an atom. */
  predicate EndsAtom(c: char) {
    IsWhitespace(c) || c == '(' || c == ')' || c == '[' || c == ']' || c == ';'
  }

  // ----- Specification, on the text that is left -----

  function SkipComment(s: string): (rest: string)
    ensures |rest| <= |s|
  {
    if s == "" then "" else if s[0] == '\n' then s[1..] else SkipComment(s[1..])
  }

  /** The length of the longest prefix without a character that ends an atom. */
  function AtomLength(s: string): (n: nat)
    ensures n <= |s|
  {
    if s == "" || EndsAtom(s[0]) then 0 else 1 + AtomLength(s[1..])
  }

  function HexValue(c: char): Option<nat> {
    if '0' <= c <= '9' then Some(c as int - '0' as int)
    else if 'a' <= c <= 'f' then Some(c as int - 'a' as int + 10)
    else if 'A' <= c <= 'F' then Some(c as int - 'A' as int + 10)
    else None
  }

  function HexNumber(digits: string, value: nat): Option<nat> {
    if digits == "" then Some(value)
    else
      match HexValue(digits[0])
      case None => None
      case Some(d) => HexNumber(digits[1..], value * 16 + d)
  }

  /** The character a four-character unicode escape stands for. A leading plus sign is accepted by
      the integer parser; surrogates are not characters. */
  function UnicodeEscape(hex: string): Option<char>
    requires |hex| == 4
  {
    match HexNumber(if hex[0] == '+' then hex[1..] else hex, 0)
    case None => None
    case Some(code) => if code < 0xD800 || 0xE000 <= code < 0x11_0000 then Some(code as char) else None
  }

  function SimpleEscape(c: char): Option<char> {
    if c == '"' || c == '\\' || c == '/' then Some(c)
    else if c == 'b' then Some('\U{0008}')
    else if c == 'f' then Some('\U{000C}')
    else if c == 'n' then Some('\n')
    else if c == 'r' then Some('\r')
    else if c == 't' then Some('\t')
    else None
  }

  /** The text of a string literal whose opening quote has been read, and what follows it. */
  function Literal(s: string): (r: Result<(string, string), SyntaxError>)
    ensures r.Ok? ==> |r.value.1| < |s|
  {
    if s == "" then Err(UnterminatedString)
    else if s[0] == '"' then Ok(("", s[1..]))
    else if s[0] != '\\' then
      var (value, rest) :- Literal(s[1..]);
      Ok(([s[0]] + value, rest))
    else if |s| < 2 then Err(UnterminatedString)
    else if s[1] == 'u' then
      if |s| < 6 then Err(InvalidEscape)
      else
        match UnicodeEscape(s[2..6])
        case None => Err(InvalidEscape)
        case Some(c) =>
          var (value, rest) :- Literal(s[6..]);
          Ok(([c] + value, rest))
    else
      match SimpleEscape(s[1])
      case None => Err(InvalidEscape)
      case Some(c) =>
        var (value, rest) :- Literal(s[2..]);
        Ok(([c] + value, rest))
  }

  function DelimiterToken(c: char): Option<Token> {
    if c == '(' then Some(Open(Parenthesis))
    else if c == ')' then Some(Close(Parenthesis))
    else if c == '[' then Some(Open(Bracket))
    else if c == ']' then Some(Close(Bracket))
    else None
  }

  function Prepend(tokens: seq<Token>, r: Result<seq<Token>, SyntaxError>): Result<seq<Token>, SyntaxError> {
    if r.Ok? then Ok(tokens + r.value) else r
  }

  function Tokens(s: string): Result<seq<Token>, SyntaxError>
    decreases |s|
  {
    if s == "" then Ok([])
    else if IsWhitespace(s[0]) then Tokens(s[1..])
    else if s[0] == ';' then Tokens(SkipComment(s[1..]))
    else if DelimiterToken(s[0]).Some? then Prepend([DelimiterToken(s[0]).value], Tokens(s[1..]))
    else if s[0] == '"' then
      var (value, rest) :- Literal(s[1..]);
      Prepend([TextToken(value)], Tokens(rest))
    else
      var n := 1 + AtomLength(s[1..]);
      Prepend([AtomToken(s[..n])], Tokens(s[n..]))
  }

  // ----- The scanning loops -----

  function Extend(value: string, r: Result<(string, string), SyntaxError>): Result<(string, string), SyntaxError> {
    if r.Ok? then Ok((value + r.value.0, r.value.1)) else r
  }

  lemma ExtendNothing(r: Result<(string, string), SyntaxError>)
    ensures Extend("", r) == r
  {
    assert r.Ok? ==> "" + r.value.0 == r.value.0;
  }

  lemma ExtendTwice(a: string, b: string, r: Result<(string, string), SyntaxError>)
    ensures Extend(a, Extend(b, r)) == Extend(a + b, r)
  {
    assert r.Ok? ==> a + (b + r.value.0) == a + b + r.value.0;
  }

  lemma PrependNothing(r: Result<seq<Token>, SyntaxError>)
    ensures Prepend([], r) == r
  {
    assert r.Ok? ==> [] + r.value == r.value;
  }

  lemma PrependTwice(a: seq<Token>, b: seq<Token>, r: Result<seq<Token>, SyntaxError>)
    ensures Prepend(a, Prepend(b, r)) == Prepend(a + b, r)
  {
    assert r.Ok? ==> a + (b + r.value) == a + b + r.value;
  }

  /** Reads the escape that starts with the backslash at `start`. */
  method ReadEscape(source: string, start: nat) returns (r: Result<char, SyntaxError>, next: nat)
    requires start < |source| && source[start] == '\\'
    ensures start < next <= |source|
    ensures Literal(source[start..]) == match r
                                        case Ok(c) => Extend([c], Literal(source[next..]))
                                        case Err(error) => Err(error)
  {
    ghost var s := source[start..];
    if start + 1 >= |source| {
      return Err(UnterminatedString), start + 1;
    }
    if source[start + 1] == 'u' {
      if start + 6 > |source| {
        return Err(InvalidEscape), start + 1;
      }
      var hex := source[start + 2..start + 6];
      assert hex == s[2..6] && s[6..] == source[start + 6..];
      var decoded := UnicodeEscape(hex);
      return if decoded.None? then Err(InvalidEscape) else Ok(decoded.value), start + 6;
    }
    assert s[2..] == source[start + 2..];
    var decoded := SimpleEscape(source[start + 1]);
    return if decoded.None? then Err(InvalidEscape) else Ok(decoded.value), start + 2;
  }

  method ReadString(source: string, start: nat) returns (r: Result<string, SyntaxError>, next: nat)
    requires start <= |source|
    ensures next <= |source|
    ensures match Literal(source[start..])
            case Err(e) => r == Err(e)
            case Ok((value, rest)) => r == Ok(value) && rest == source[next..] && start < next
  {
    var value := "";
    next := start;
    ExtendNothing(Literal(source[start..]));
    while next < |source|
      invariant start <= next <= |source|
      invariant Literal(source[start..]) == Extend(value, Literal(source[next..]))
    {
      var c := source[next];
      ghost var s := source[next..];
      if c == '"' {
        assert s[1..] == source[next + 1..];
        assert value + "" == value;
        next := next + 1;
        return Ok(value), next;
      } else if c == '\\' {
        var decoded, end := ReadEscape(source, next);
        if decoded.Err? {
          return Err(decoded.error), next;
        }
        ExtendTwice(value, [decoded.value], Literal(source[end..]));
        value := value + [decoded.value];
        next := end;
      } else {
        assert s[1..] == source[next + 1..];
        ExtendTwice(value, [c], Literal(source[next + 1..]));
        value := value + [c];
        next := next + 1;
      }
    }
    return Err(UnterminatedString), next;
  }

  /** The end of the comment that reaches `start`. */
  method EndOfComment(source: string, start: nat) returns (end: nat)
    requires start <= |source|
    ensures start <= end <= |source|
    ensures source[end..] == SkipComment(source[start..])
  {
    end := start;
    while end < |source| && source[end] != '\n'
      invariant start <= end <= |source|
      invariant SkipComment(source[start..]) == SkipComment(source[end..])
    {
      assert source[end..][1..] == source[end + 1..];
      end := end + 1;
    }
    if end < |source| {
      assert source[end..][1..] == source[end + 1..];
      end := end + 1;
    }
  }

  /** The end of the atom whose first character is just before `start`. */
  method EndOfAtom(source: string, start: nat) returns (end: nat)
    requires start <= |source|
    ensures end == start + AtomLength(source[start..])
  {
    end := start;
    while end < |source| && !EndsAtom(source[end])
      invariant start <= end <= |source|
      invariant start + AtomLength(source[start..]) == end + AtomLength(source[end..])
    {
      assert source[end..][1..] == source[end + 1..];
      end := end + 1;
    }
  }

  /** Reads the token that starts at `start`, where there is no space and no comment. */
  method ReadToken(source: string, start: nat) returns (r: Result<Token, SyntaxError>, next: nat)
    requires start < |source| && !IsWhitespace(source[start]) && source[start] != ';'
    ensures start < next <= |source|
    ensures Tokens(source[start..]) == match r
                                       case Ok(token) => Prepend([token], Tokens(source[next..]))
                                       case Err(error) => Err(error)
  {
    var c := source[start];
    ghost var s := source[start..];
    assert s[1..] == source[start + 1..];
    if DelimiterToken(c).Some? {
      return Ok(DelimiterToken(c).value), start + 1;
    }
    if c == '"' {
      var value, end := ReadString(source, start + 1);
      if value.Err? {
        return Err(value.error), start + 1;
      }
      return Ok(TextToken(value.value)), end;
    }
    next := EndOfAtom(source, start + 1);
    assert s[..next - start] == source[start..next] && s[next - start..] == source[next..];
    return Ok(AtomToken(source[start..next])), next;
  }

  method Lex(source: string) returns (r: Result<seq<Token>, SyntaxError>)
    ensures r == Tokens(source)
  {
    var tokens: seq<Token> := [];
    var i := 0;
    assert source[0..] == source;
    PrependNothing(Tokens(source));
    while i < |source|
      invariant i <= |source|
      invariant Tokens(source) == Prepend(tokens, Tokens(source[i..]))
    {
      var c := source[i];
      assert source[i..][1..] == source[i + 1..];
      if IsWhitespace(c) {
        i := i + 1;
      } else if c == ';' {
        i := EndOfComment(source, i + 1);
      } else {
        var token, next := ReadToken(source, i);
        if token.Err? {
          return Err(token.error);
        }
        PrependTwice(tokens, [token.value], Tokens(source[next..]));
        tokens := tokens + [token.value];
        i := next;
      }
    }
    assert tokens + [] == tokens;
    return Ok(tokens);
  }
}
