// The lexical grammar of flow source text, stated by how a text is put together and not by how it is scanned.
module Lexemes {
  import opened Wrappers
  import opened Collections
  import opened Lexer
  import RoundTrip

  // ----- Characters -----

  /** The code points with the Unicode property White_Space. */
  predicate IsWhiteSpaceCode(code: int) {
    code in {
      0x9, 0xA, 0xB, 0xC, 0xD, 0x20, 0x85, 0xA0, 0x1680, 0x2000, 0x2001, 0x2002, 0x2003, 0x2004, 0x2005, 0x2006,
      0x2007, 0x2008, 0x2009, 0x200A, 0x2028, 0x2029, 0x202F, 0x205F, 0x3000}
  }

  lemma WhitespaceIff(c: char)
    ensures IsWhitespace(c) <==> IsWhiteSpaceCode(c as int)
  {
  }

  // ----- String literals, unit by unit -----

  /** A unit of a string literal stands for one character. */
  datatype Unit = Plain(c: char) | Escaped(letter: char) | Unicode(hex: string)

  /** The short escapes of section 7 of RFC 8259, as code points. */
  function ShortEscapes(): map<char, int> {
    map['"' := 0x22, '\\' := 0x5C, '/' := 0x2F, 'b' := 0x08, 'f' := 0x0C, 'n' := 0x0A, 'r' := 0x0D, 't' := 0x09]
  }

  function HexDigits(): map<char, nat> {
    map['0' := 0, '1' := 1, '2' := 2, '3' := 3, '4' := 4, '5' := 5, '6' := 6, '7' := 7, '8' := 8, '9' := 9,
        'a' := 10, 'b' := 11, 'c' := 12, 'd' := 13, 'e' := 14, 'f' := 15,
        'A' := 10, 'B' := 11, 'C' := 12, 'D' := 13, 'E' := 14, 'F' := 15]
  }

  predicate IsHex(s: string) {
    forall i :: 0 <= i < |s| ==> s[i] in HexDigits()
  }

  function HexPositional(s: string): nat
    requires IsHex(s)
  {
    if s == "" then 0 else 16 * HexPositional(s[..|s| - 1]) + HexDigits()[s[|s| - 1]]
  }

  /** Four hexadecimal digits, or three behind a plus sign, which the integer parser of the source accepts. */
  function HexPart(hex: string): string
    requires |hex| == 4
  {
    if hex[0] == '+' then hex[1..] else hex
  }

  /** A code point that is a character: no surrogate, and within the code space. */
  predicate IsCharacter(code: int) {
    0 <= code < 0x11_0000 && !(0xD800 <= code < 0xE000)
  }

  predicate ProperUnit(unit: Unit) {
    match unit
    case Plain(c) => c != '"' && c != '\\'
    case Escaped(letter) => letter in ShortEscapes()
    case Unicode(hex) => |hex| == 4 && IsHex(HexPart(hex)) && IsCharacter(HexPositional(HexPart(hex)))
  }

  function CodeOf(unit: Unit): int
    requires ProperUnit(unit)
  {
    match unit
    case Plain(c) => c as int
    case Escaped(letter) => ShortEscapes()[letter]
    case Unicode(hex) => HexPositional(HexPart(hex))
  }

  function SpellUnit(unit: Unit): string {
    match unit
    case Plain(c) => [c]
    case Escaped(letter) => ['\\', letter]
    case Unicode(hex) => "\\u" + hex
  }

  function Spell(units: seq<Unit>): string {
    if units == [] then "" else SpellUnit(units[0]) + Spell(units[1..])
  }

  predicate ProperUnits(units: seq<Unit>) {
    forall i :: 0 <= i < |units| ==> ProperUnit(units[i])
  }

  /** The units stand for the characters of the text, one each. */
  predicate StandFor(units: seq<Unit>, value: string)
    requires ProperUnits(units)
  {
    |value| == |units| && forall i :: 0 <= i < |units| ==> value[i] as int == CodeOf(units[i])
  }

  lemma HexValueIff(c: char, d: nat)
    ensures HexValue(c) == Some(d) <==> c in HexDigits() && HexDigits()[c] == d
  {
  }

  lemma {:induction false} HexNumberOfConcat(a: string, b: string, value: nat)
    requires HexNumber(a, value).Some?
    ensures HexNumber(a + b, value) == HexNumber(b, HexNumber(a, value).value)
  {
    if a == "" {
      assert a + b == b;
    } else {
      assert (a + b)[1..] == a[1..] + b;
      HexNumberOfConcat(a[1..], b, value * 16 + HexValue(a[0]).value);
    }
  }

  lemma {:induction false} HexNumberIsPositional(s: string)
    requires IsHex(s)
    ensures HexNumber(s, 0) == Some(HexPositional(s))
  {
    if s != "" {
      var most, last := s[..|s| - 1], s[|s| - 1..];
      assert s == most + last && last[1..] == "";
      HexNumberIsPositional(most);
      HexNumberOfConcat(most, last, 0);
      HexValueIff(last[0], HexDigits()[last[0]]);
    }
  }

  lemma {:induction false} HexNumberIsHex(s: string, value: nat)
    ensures HexNumber(s, value).Some? ==> IsHex(s)
  {
    if s != "" && HexValue(s[0]).Some? {
      HexValueIff(s[0], HexValue(s[0]).value);
      HexNumberIsHex(s[1..], value * 16 + HexValue(s[0]).value);
      assert forall i :: 1 <= i < |s| ==> s[i] == s[1..][i - 1];
    }
  }

  /** Four characters are a unicode escape exactly when they are of this kind, and stand for that character. */
  lemma UnicodeEscapeIff(hex: string, c: char)
    requires |hex| == 4
    ensures UnicodeEscape(hex) == Some(c) <==> ProperUnit(Unicode(hex)) && CodeOf(Unicode(hex)) == c as int
  {
    var part := HexPart(hex);
    HexNumberIsHex(part, 0);
    if IsHex(part) {
      HexNumberIsPositional(part);
    }
  }

  lemma SimpleEscapeIff(letter: char, c: char)
    ensures SimpleEscape(letter) == Some(c) <==> letter in ShortEscapes() && ShortEscapes()[letter] == c as int
  {
  }

  lemma UnitReads(unit: Unit, c: char, s: string)
    requires ProperUnit(unit) && CodeOf(unit) == c as int
    ensures Literal(SpellUnit(unit) + s) == Extend([c], Literal(s))
  {
    match unit {
      case Plain(_) => RoundTrip.PlainCharReads(c, s);
      case Escaped(letter) =>
        SimpleEscapeIff(letter, c);
        RoundTrip.SimpleEscapeReads(letter, c, s);
      case Unicode(hex) =>
        UnicodeEscapeIff(hex, c);
        RoundTrip.UnicodeEscapeReads(hex, c, s);
    }
  }

  lemma {:induction false} UnitsRead(units: seq<Unit>, value: string, s: string)
    requires ProperUnits(units) && StandFor(units, value)
    ensures Literal(Spell(units) + s) == Extend(value, Literal(s))
  {
    if units == [] {
      assert Spell(units) + s == s;
      ExtendNothing(Literal(s));
    } else {
      UnitsRead(units[1..], value[1..], s);
      UnitReads(units[0], value[0], Spell(units[1..]) + s);
      Associative(SpellUnit(units[0]), Spell(units[1..]), s);
      ExtendTwice([value[0]], value[1..], Literal(s));
      assert [value[0]] + value[1..] == value;
    }
  }

  /** How a literal goes on: closed, with what follows; or cut off, possibly behind a backslash. */
  datatype Ending = Closed(rest: string) | CutOff | CutEscape

  function EndText(ending: Ending): string {
    match ending
    case Closed(rest) => "\"" + rest
    case CutOff => ""
    case CutEscape => "\\"
  }

  lemma EndingReads(ending: Ending)
    ensures Literal(EndText(ending))
         == if ending.Closed? then Ok(("", ending.rest)) else Err(UnterminatedString)
  {
    if ending.Closed? {
      RoundTrip.ClosingQuoteReads(ending.rest);
    }
  }

  lemma UnitsAndEndRead(units: seq<Unit>, value: string, ending: Ending)
    requires ProperUnits(units) && StandFor(units, value)
    ensures Literal(Spell(units) + EndText(ending))
         == if ending.Closed? then Ok((value, ending.rest)) else Err(UnterminatedString)
  {
    EndingReads(ending);
    UnitsRead(units, value, EndText(ending));
    assert value + "" == value;
  }

  lemma FirstUnit(s: string) returns (unit: Unit)
    requires s != "" && s[0] != '"' && (s[0] == '\\' ==> |s| >= 2)
    requires Literal(s) != Err(InvalidEscape)
    ensures ProperUnit(unit) && SpellUnit(unit) <= s && IsCharacter(CodeOf(unit))
  {
    if s[0] != '\\' {
      unit := Plain(s[0]);
    } else if s[1] == 'u' {
      unit := Unicode(s[2..6]);
      UnicodeEscapeIff(s[2..6], UnicodeEscape(s[2..6]).value);
    } else {
      unit := Escaped(s[1]);
      SimpleEscapeIff(s[1], SimpleEscape(s[1]).value);
    }
  }

  /** A literal that is not refused for an escape is made of units, and then closed or cut off. */
  lemma {:induction false} LiteralHasUnits(s: string) returns (units: seq<Unit>, value: string, ending: Ending)
    requires Literal(s) != Err(InvalidEscape)
    ensures ProperUnits(units) && StandFor(units, value) && s == Spell(units) + EndText(ending)
    decreases |s|
  {
    units, value := [], "";
    if s == "" {
      ending := CutOff;
    } else if s[0] == '"' {
      ending := Closed(s[1..]);
    } else if s == "\\" {
      ending := CutEscape;
    } else {
      var unit := FirstUnit(s);
      var tail := s[|SpellUnit(unit)|..];
      assert s == SpellUnit(unit) + tail;
      UnitReads(unit, CodeOf(unit) as char, tail);
      var more, rest;
      more, rest, ending := LiteralHasUnits(tail);
      units, value := [unit] + more, [CodeOf(unit) as char] + rest;
      assert units[1..] == more;
      Associative(SpellUnit(unit), Spell(more), EndText(ending));
    }
  }

  ghost predicate IsSpelled(s: string, value: string, ending: Ending) {
    exists units :: ProperUnits(units) && StandFor(units, value) && s == Spell(units) + EndText(ending)
  }

  /** A literal is read exactly when it is a row of units up to a quote: as the characters they stand for. */
  lemma LiteralIsReadIff(s: string, value: string, rest: string)
    ensures Literal(s) == Ok((value, rest)) <==> IsSpelled(s, value, Closed(rest))
  {
    if Literal(s).Ok? {
      var units, read, ending := LiteralHasUnits(s);
      UnitsAndEndRead(units, read, ending);
    }
    if IsSpelled(s, value, Closed(rest)) {
      var units :| ProperUnits(units) && StandFor(units, value) && s == Spell(units) + EndText(Closed(rest));
      UnitsAndEndRead(units, value, Closed(rest));
    }
  }

  /** It is unterminated exactly when the text ends behind such units, or behind a backslash. */
  lemma LiteralIsUnterminatedIff(s: string)
    ensures Literal(s) == Err(UnterminatedString)
       <==> exists value :: IsSpelled(s, value, CutOff) || IsSpelled(s, value, CutEscape)
  {
    if Literal(s) == Err(UnterminatedString) {
      var units, value, ending := LiteralHasUnits(s);
      UnitsAndEndRead(units, value, ending);
      assert IsSpelled(s, value, ending);
    }
    if value :| IsSpelled(s, value, CutOff) || IsSpelled(s, value, CutEscape) {
      CutIsUnterminated(s, value, if IsSpelled(s, value, CutOff) then CutOff else CutEscape);
    }
  }

  lemma {:induction false} CutIsUnterminated(s: string, value: string, ending: Ending)
    requires !ending.Closed? && IsSpelled(s, value, ending)
    ensures Literal(s) == Err(UnterminatedString)
  {
    var units :| ProperUnits(units) && StandFor(units, value) && s == Spell(units) + EndText(ending);
    UnitsAndEndRead(units, value, ending);
  }

  // ----- A whole text -----

  /** A piece of a text: a blank, a remark up to the end of its line, a delimiter, a string, or a word. */
  datatype Piece = Blank(c: char) | Remark(text: string) | Mark(c: char) | Quoted(units: seq<Unit>, value: string) | Word(v: string)

  predicate IsWordChar(c: char) {
    !IsWhiteSpaceCode(c as int) && c !in {'(', ')', '[', ']', ';'}
  }

  function Marks(): map<char, Token> {
    map['(' := Open(Parenthesis), ')' := Close(Parenthesis), '[' := Open(Bracket), ']' := Close(Bracket)]
  }

  predicate ProperPiece(piece: Piece) {
    match piece
    case Blank(c) => IsWhiteSpaceCode(c as int)
    case Remark(text) => '\n' !in text
    case Mark(c) => c in Marks()
    case Quoted(units, value) => ProperUnits(units) && StandFor(units, value)
    case Word(v) => v != "" && v[0] != '"' && forall i :: 0 <= i < |v| ==> IsWordChar(v[i])
  }

  function PieceText(piece: Piece): string {
    match piece
    case Blank(c) => [c]
    case Remark(text) => ";" + text + "\n"
    case Mark(c) => [c]
    case Quoted(units, _) => "\"" + (Spell(units) + "\"")
    case Word(v) => v
  }

  function PieceTokens(piece: Piece): seq<Token>
    requires ProperPiece(piece)
  {
    match piece
    case Blank(_) => []
    case Remark(_) => []
    case Mark(c) => [Marks()[c]]
    case Quoted(_, value) => [TextToken(value)]
    case Word(v) => [AtomToken(v)]
  }

  /** Nothing, or a remark without an end of line. */
  predicate IsEnd(end: string) {
    end != "" ==> end[0] == ';' && '\n' !in end
  }

  /** The text is the pieces one after the other, and its end. A word takes all the characters it can. */
  predicate IsLayout(pieces: seq<Piece>, end: string, s: string)
    decreases |pieces|
  {
    if pieces == [] then s == end && IsEnd(end)
    else
      && ProperPiece(pieces[0]) && PieceText(pieces[0]) <= s
      && var rest := s[|PieceText(pieces[0])|..];
         && (pieces[0].Word? && rest != "" ==> !IsWordChar(rest[0]))
         && IsLayout(pieces[1..], end, rest)
  }

  function LayoutTokens(pieces: seq<Piece>): seq<Token>
    requires forall i :: 0 <= i < |pieces| ==> ProperPiece(pieces[i])
  {
    if pieces == [] then [] else PieceTokens(pieces[0]) + LayoutTokens(pieces[1..])
  }

  lemma {:induction false} LayoutIsProper(pieces: seq<Piece>, end: string, s: string)
    requires IsLayout(pieces, end, s)
    ensures forall i :: 0 <= i < |pieces| ==> ProperPiece(pieces[i])
    decreases |pieces|
  {
    if pieces != [] {
      LayoutIsProper(pieces[1..], end, s[|PieceText(pieces[0])|..]);
      assert forall i :: 1 <= i < |pieces| ==> pieces[i] == pieces[1..][i - 1];
    }
  }

  lemma WordCharIff(c: char)
    ensures IsWordChar(c) <==> !EndsAtom(c)
  {
    WhitespaceIff(c);
  }

  lemma {:induction false} RemarkIsSkipped(text: string, rest: string)
    requires '\n' !in text
    ensures SkipComment(text + ("\n" + rest)) == rest && SkipComment(text) == ""
  {
    var s := text + ("\n" + rest);
    if text == "" {
      assert s == "\n" + rest;
    } else {
      assert s[1..] == text[1..] + ("\n" + rest);
      RemarkIsSkipped(text[1..], rest);
    }
  }

  lemma {:induction false} RemarkHasEnd(s: string) returns (text: string)
    ensures '\n' !in text
    ensures if '\n' in s then s == text + ("\n" + SkipComment(s)) else s == text
  {
    if s == "" || s[0] == '\n' {
      text := "";
      assert s != "" ==> s == "" + ("\n" + s[1..]);
    } else {
      var more := RemarkHasEnd(s[1..]);
      text := [s[0]] + more;
      assert s == [s[0]] + s[1..];
    }
  }

  lemma {:induction false} WordTakesAll(v: string, rest: string)
    requires forall i :: 0 <= i < |v| ==> IsWordChar(v[i])
    requires rest != "" ==> !IsWordChar(rest[0])
    ensures AtomLength(v + rest) == |v|
  {
    if v == "" {
      assert v + rest == rest;
      if rest != "" {
        WordCharIff(rest[0]);
      }
    } else {
      WordCharIff(v[0]);
      assert (v + rest)[1..] == v[1..] + rest;
      WordTakesAll(v[1..], rest);
    }
  }

  lemma RemarkLexes(text: string, rest: string)
    requires '\n' !in text
    ensures Tokens(";" + text + "\n" + rest) == Tokens(rest)
  {
    var s := ";" + text + "\n" + rest;
    WhitespaceIff(';');
    assert s[0] == ';' && s[1..] == text + ("\n" + rest);
    RemarkIsSkipped(text, rest);
  }

  lemma StringLexes(body: string, value: string, rest: string)
    requires Literal(body + ("\"" + rest)) == Ok((value, rest))
    ensures Tokens("\"" + (body + "\"") + rest) == Prepend([TextToken(value)], Tokens(rest))
  {
    var s := "\"" + (body + "\"") + rest;
    assert s[0] == '"' && s[1..] == body + ("\"" + rest);
  }

  lemma QuotedLexes(units: seq<Unit>, value: string, rest: string)
    requires ProperUnits(units) && StandFor(units, value)
    ensures Tokens("\"" + (Spell(units) + "\"") + rest) == Prepend([TextToken(value)], Tokens(rest))
  {
    UnitsAndEndRead(units, value, Closed(rest));
    StringLexes(Spell(units), value, rest);
  }

  lemma WordLexes(v: string, rest: string)
    requires ProperPiece(Word(v)) && (rest != "" ==> !IsWordChar(rest[0]))
    ensures Tokens(v + rest) == Prepend([AtomToken(v)], Tokens(rest))
  {
    forall i | 0 <= i < |v|
      ensures !EndsAtom(v[i])
    {
      WordCharIff(v[i]);
    }
    if rest != "" {
      WordCharIff(rest[0]);
    }
    RoundTrip.AtomLexes(v, rest);
  }

  lemma PieceLexes(piece: Piece, rest: string)
    requires ProperPiece(piece) && (piece.Word? && rest != "" ==> !IsWordChar(rest[0]))
    ensures Tokens(PieceText(piece) + rest) == Prepend(PieceTokens(piece), Tokens(rest))
  {
    PrependNothing(Tokens(rest));
    match piece {
      case Blank(c) =>
        WhitespaceIff(c);
        assert ([c] + rest)[1..] == rest;
      case Remark(text) => RemarkLexes(text, rest);
      case Mark(c) => RoundTrip.DelimiterLexes(c, rest);
      case Quoted(units, value) => QuotedLexes(units, value, rest);
      case Word(v) => WordLexes(v, rest);
    }
  }

  lemma {:induction false} LayoutLexes(pieces: seq<Piece>, end: string, s: string)
    requires IsLayout(pieces, end, s)
    ensures forall i :: 0 <= i < |pieces| ==> ProperPiece(pieces[i])
    ensures Tokens(s) == Ok(LayoutTokens(pieces))
    decreases |pieces|
  {
    LayoutIsProper(pieces, end, s);
    if pieces == [] {
      if end != "" {
        RemarkIsSkipped(end[1..], "");
      }
    } else {
      var rest := s[|PieceText(pieces[0])|..];
      assert s == PieceText(pieces[0]) + rest;
      PieceLexes(pieces[0], rest);
      LayoutLexes(pieces[1..], end, rest);
    }
  }

  /** The first piece of a text that lexes and does not end at once. */
  lemma FirstPiece(s: string) returns (piece: Piece)
    requires Tokens(s).Ok? && s != "" && (s[0] == ';' ==> '\n' in s)
    ensures ProperPiece(piece) && PieceText(piece) <= s
    ensures piece.Word? && |PieceText(piece)| < |s| ==> !IsWordChar(s[|PieceText(piece)|])
  {
    WhitespaceIff(s[0]);
    if IsWhitespace(s[0]) {
      piece := Blank(s[0]);
    } else if s[0] == ';' {
      piece := FirstRemark(s);
    } else if DelimiterToken(s[0]).Some? {
      piece := Mark(s[0]);
    } else if s[0] == '"' {
      piece := FirstQuoted(s);
    } else {
      piece := FirstWord(s);
    }
  }

  lemma FirstRemark(s: string) returns (piece: Piece)
    requires s != "" && s[0] == ';' && '\n' in s
    ensures piece.Remark? && ProperPiece(piece) && PieceText(piece) <= s
  {
    var text := RemarkHasEnd(s[1..]);
    piece := Remark(text);
    assert s == ";" + s[1..] && '\n' in s[1..];
    assert s == PieceText(piece) + SkipComment(s[1..]);
  }

  lemma QuotedIsPrefix(body: string, rest: string, s: string)
    requires s != "" && s[0] == '"' && s[1..] == body + ("\"" + rest)
    ensures "\"" + (body + "\"") <= s
  {
    assert s == "\"" + s[1..];
    assert s == "\"" + (body + "\"") + rest;
  }

  lemma FirstQuoted(s: string) returns (piece: Piece)
    requires s != "" && s[0] == '"' && Literal(s[1..]).Ok?
    ensures piece.Quoted? && ProperPiece(piece) && PieceText(piece) <= s
  {
    var units, value, ending := LiteralHasUnits(s[1..]);
    UnitsAndEndRead(units, value, ending);
    piece := Quoted(units, value);
    QuotedIsPrefix(Spell(units), ending.rest, s);
  }

  lemma FirstWord(s: string) returns (piece: Piece)
    requires s != "" && s[0] != '"' && !EndsAtom(s[0])
    ensures piece.Word? && ProperPiece(piece) && PieceText(piece) <= s
    ensures |PieceText(piece)| < |s| ==> !IsWordChar(s[|PieceText(piece)|])
  {
    var n := 1 + AtomLength(s[1..]);
    piece := Word(s[..n]);
    RoundTrip.AtomLengthStops(s[1..]);
    AtomLengthEnds(s[1..]);
    forall i | 0 <= i < n
      ensures IsWordChar(s[..n][i])
    {
      WordCharIff(s[i]);
      assert i > 0 ==> s[i] == s[1..][i - 1];
    }
    if n < |s| {
      WordCharIff(s[n]);
      assert s[n] == s[1..][n - 1];
    }
  }

  lemma {:induction false} AtomLengthEnds(s: string)
    ensures AtomLength(s) < |s| ==> EndsAtom(s[AtomLength(s)])
  {
    if s != "" && !EndsAtom(s[0]) {
      AtomLengthEnds(s[1..]);
    }
  }

  lemma {:induction false} RestLexes(piece: Piece, s: string)
    requires Tokens(s).Ok? && ProperPiece(piece) && PieceText(piece) <= s
    requires piece.Word? && |PieceText(piece)| < |s| ==> !IsWordChar(s[|PieceText(piece)|])
    ensures |PieceText(piece)| > 0 && Tokens(s[|PieceText(piece)|..]).Ok?
  {
    var rest := s[|PieceText(piece)|..];
    assert s == PieceText(piece) + rest;
    PieceLexes(piece, rest);
  }

  lemma {:induction false} LexedHasLayout(s: string) returns (pieces: seq<Piece>, end: string)
    requires Tokens(s).Ok?
    ensures IsLayout(pieces, end, s)
    decreases |s|
  {
    pieces, end := [], s;
    if s != "" && (s[0] == ';' ==> '\n' in s) {
      var piece := FirstPiece(s);
      var rest := s[|PieceText(piece)|..];
      RestLexes(piece, s);
      var more;
      more, end := LexedHasLayout(rest);
      pieces := [piece] + more;
      assert pieces[1..] == more;
    }
  }

  ghost predicate IsLaidOut(s: string, tokens: seq<Token>) {
    exists pieces, end ::
      IsLayout(pieces, end, s) && (forall i :: 0 <= i < |pieces| ==> ProperPiece(pieces[i])) && LayoutTokens(pieces) == tokens
  }

  /** A text lexes to some tokens exactly when it is made of pieces that are those tokens, with blanks and
      remarks between them. */
  lemma TokensAreReadIff(s: string, tokens: seq<Token>)
    ensures Tokens(s) == Ok(tokens) <==> IsLaidOut(s, tokens)
  {
    if Tokens(s) == Ok(tokens) {
      var pieces, end := LexedHasLayout(s);
      LayoutLexes(pieces, end, s);
    }
    if IsLaidOut(s, tokens) {
      var pieces, end :| IsLayout(pieces, end, s) && (forall i :: 0 <= i < |pieces| ==> ProperPiece(pieces[i]))
        && LayoutTokens(pieces) == tokens;
      LayoutLexes(pieces, end, s);
    }
  }
}
