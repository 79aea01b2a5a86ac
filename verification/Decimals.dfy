// What a number atom denotes: how its text is split into a literal and a unit, and the value of the literal.
module Decimals {
  import opened Wrappers
  import opened FlowAst
  import opened Parser
  import opened FlowCompiler
  import IdempotencyKeys
  import Lexer

  // ----- Literal and unit -----

  predicate InNumber(c: char) {
    IsDigit(c) || c == '.' || c == '-'
  }

  /** A unit is absent, or a text that could not have been part of the literal before it. */
  predicate ProperUnit(unit: Option<string>) {
    unit.Some? ==> unit.value != "" && !InNumber(unit.value[0])
  }

  lemma {:induction false} NumberLengthOf(literal: string, unit: string)
    requires forall i :: 0 <= i < |literal| ==> InNumber(literal[i])
    requires unit == "" || !InNumber(unit[0])
    ensures NumberLength(literal + unit) == |literal|
  {
    var s := literal + unit;
    if literal == "" {
      assert s == unit;
    } else {
      assert s[1..] == literal[1..] + unit;
      NumberLengthOf(literal[1..], unit);
    }
  }

  lemma {:induction false} NumberLengthSplits(s: string)
    ensures
      var n := NumberLength(s);
      && (forall i :: 0 <= i < n ==> InNumber(s[i]))
      && (n < |s| ==> !InNumber(s[n]))
  {
    if s != "" && InNumber(s[0]) {
      NumberLengthSplits(s[1..]);
      assert forall i :: 1 <= i < |s| ==> s[i] == s[1..][i - 1];
    }
  }

  lemma DecimalIsInNumber(literal: string)
    requires IsDecimal(literal)
    ensures literal != "" && forall i :: 0 <= i < |literal| ==> InNumber(literal[i])
  {
    var unsigned := if literal != "" && literal[0] == '-' then literal[1..] else literal;
    if unsigned != literal {
      assert forall i :: 1 <= i < |literal| ==> literal[i] == unsigned[i - 1];
    }
  }

  /** An atom is a number exactly when its text is a decimal literal followed by a unit or by nothing, and
      then it has exactly that literal and that unit. */
  lemma AtomIsNumberIff(v: string, literal: string, unit: Option<string>)
    ensures Atom(v) == Number(literal, unit)
       <==> IsDecimal(literal) && ProperUnit(unit) && v == literal + unit.GetOr("")
  {
    if IsDecimal(literal) && ProperUnit(unit) && v == literal + unit.GetOr("") {
      DecimalIsInNumber(literal);
      NumberLengthOf(literal, unit.GetOr(""));
      assert v[..|literal|] == literal && v[|literal|..] == unit.GetOr("");
      assert InNumber(v[0]) && "true"[0] == 't' && "false"[0] == 'f' && "nil"[0] == 'n';
    }
    NumberLengthSplits(v);
    assert v[..NumberLength(v)] + v[NumberLength(v)..] == v;
  }

  /** Every number of the form is a decimal literal with a proper unit. */
  predicate NumbersAreDecimal(form: Form) {
    match form
    case List(forms) => forall f :: f in forms ==> NumbersAreDecimal(f)
    case Number(literal, unit) => IsDecimal(literal) && ProperUnit(unit)
    case _ => true
  }

  lemma {:induction false} ParsedFormHasDecimals(tokens: seq<Lexer.Token>)
    ensures ParseForm(tokens).Ok? ==> NumbersAreDecimal(ParseForm(tokens).value.0)
    decreases |tokens|, 0
  {
    if tokens != [] {
      match tokens[0] {
        case AtomToken(value) =>
          if Atom(value).Number? {
            AtomIsNumberIff(value, Atom(value).literal, Atom(value).unit);
          }
        case Open(delimiter) =>
          ParsedFormsHaveDecimals(tokens[1..], delimiter);
        case _ =>
      }
    }
  }

  lemma {:induction false} ParsedFormsHaveDecimals(tokens: seq<Lexer.Token>, delimiter: Lexer.Delimiter)
    ensures ParseForms(tokens, delimiter).Ok? ==>
      forall f :: f in ParseForms(tokens, delimiter).value.0 ==> NumbersAreDecimal(f)
    decreases |tokens|, 1
  {
    if tokens != [] && !tokens[0].Close? && ParseForm(tokens).Ok? {
      ParsedFormHasDecimals(tokens);
      ParsedFormsHaveDecimals(ParseForm(tokens).value.1, delimiter);
    }
  }

  /** Every number of a parsed flow has a decimal literal, and no unit or a proper one. */
  lemma ParsedNumbersAreDecimal(source: string)
    ensures ParseSource(source).Ok? ==> NumbersAreDecimal(ParseSource(source).value.root)
  {
    if Lexer.Tokens(source).Ok? {
      ParsedFormHasDecimals(Lexer.Tokens(source).value);
    }
  }

  // ----- The value of a literal -----

  /** The value of a row of digits, by position: the last digit counts once, the others ten times. */
  function Positional(s: string): nat
    requires AllDigits(s)
  {
    if s == "" then 0
    else 10 * Positional(s[..|s| - 1]) + (s[|s| - 1] as int - '0' as int)
  }

  /** The parts of a literal: a sign, the digits before the dot and, after a dot, those behind it. */
  datatype Parts = Parts(negative: bool, whole: string, fraction: Option<string>)

  predicate ProperParts(parts: Parts) {
    && AllDigits(parts.whole) && AllDigits(parts.fraction.GetOr(""))
    && parts.whole + parts.fraction.GetOr("") != ""
  }

  function Unsigned(parts: Parts): string {
    parts.whole + (if parts.fraction.Some? then "." + parts.fraction.value else "")
  }

  function LiteralOf(parts: Parts): string {
    (if parts.negative then "-" else "") + Unsigned(parts)
  }

  function Magnitude(parts: Parts): real
    requires ProperParts(parts)
  {
    var fraction := parts.fraction.GetOr("");
    Positional(parts.whole) as real + Positional(fraction) as real / Pow10(|fraction|) as real
  }

  function ValueOf(parts: Parts): real
    requires ProperParts(parts)
  {
    if parts.negative then -Magnitude(parts) else Magnitude(parts)
  }

  lemma {:induction false} DigitsHaveNoDot(s: string)
    requires AllDigits(s)
    ensures Dots(s) == 0
    ensures FractionDigits(s) == 0
  {
    if s != "" {
      DigitsHaveNoDot(s[1..]);
    }
  }

  lemma {:induction false} DotsOfConcat(a: string, b: string)
    ensures Dots(a + b) == Dots(a) + Dots(b)
  {
    if a == "" {
      assert a + b == b;
    } else {
      assert (a + b)[1..] == a[1..] + b;
      DotsOfConcat(a[1..], b);
    }
  }

  lemma {:induction false} FractionDigitsOf(whole: string, fraction: string)
    requires AllDigits(whole)
    ensures FractionDigits(whole + ("." + fraction)) == |fraction|
  {
    var s := whole + ("." + fraction);
    if whole == "" {
      assert s == "." + fraction;
    } else {
      assert s[1..] == whole[1..] + ("." + fraction);
      FractionDigitsOf(whole[1..], fraction);
    }
  }

  lemma {:induction false} MantissaOfConcat(a: string, b: string, value: nat)
    ensures Mantissa(a + b, value) == Mantissa(b, Mantissa(a, value))
  {
    if a == "" {
      assert a + b == b;
    } else {
      assert (a + b)[1..] == a[1..] + b;
      MantissaOfConcat(a[1..], b, if IsDigit(a[0]) then 10 * value + (a[0] as int - '0' as int) else value);
    }
  }

  lemma PowerStep(value: nat, power: nat)
    ensures value * (10 * power) == 10 * (value * power)
  {
  }

  lemma {:induction false} MantissaIsPositional(s: string, value: nat)
    requires AllDigits(s)
    ensures Mantissa(s, value) == value * Pow10(|s|) + Positional(s)
    decreases |s|
  {
    if s != "" {
      var most, last := s[..|s| - 1], s[|s| - 1..];
      assert s == most + last && last[1..] == "";
      MantissaIsPositional(most, value);
      MantissaOfConcat(most, last, value);
      PowerStep(value, Pow10(|most|));
      assert Pow10(|s|) == 10 * Pow10(|most|);
    }
  }

  lemma UnsignedIsDecimal(parts: Parts)
    requires ProperParts(parts)
    ensures Dots(Unsigned(parts)) <= 1
    ensures forall i :: 0 <= i < |Unsigned(parts)| ==> IsDigit(Unsigned(parts)[i]) || Unsigned(parts)[i] == '.'
    ensures exists i :: 0 <= i < |Unsigned(parts)| && IsDigit(Unsigned(parts)[i])
  {
    var s, fraction := Unsigned(parts), parts.fraction.GetOr("");
    DigitsHaveNoDot(parts.whole);
    DigitsHaveNoDot(fraction);
    if parts.fraction.Some? {
      assert ("." + fraction)[1..] == fraction;
      DotsOfConcat(parts.whole, "." + fraction);
      assert Dots("." + fraction) == 1 + Dots(fraction);
    } else {
      assert s == parts.whole;
    }
    assert parts.whole != "" ==> IsDigit(s[0]);
    assert fraction != "" ==> s[|parts.whole| + 1] == fraction[0];
  }

  lemma SignedIsDecimal(literal: string, s: string)
    requires literal != "" && s == if literal[0] == '-' then literal[1..] else literal
    requires Dots(s) <= 1 && forall i :: 0 <= i < |s| ==> IsDigit(s[i]) || s[i] == '.'
    requires exists i :: 0 <= i < |s| && IsDigit(s[i])
    ensures IsDecimal(literal)
  {
  }

  lemma UnsignedHasValue(parts: Parts)
    requires ProperParts(parts)
    ensures Mantissa(Unsigned(parts), 0) as real / Pow10(FractionDigits(Unsigned(parts))) as real == Magnitude(parts)
  {
    var s, fraction := Unsigned(parts), parts.fraction.GetOr("");
    MantissaIsPositional(parts.whole, 0);
    MantissaIsPositional(fraction, Positional(parts.whole));
    if parts.fraction.Some? {
      MantissaOfConcat(parts.whole, "." + fraction, 0);
      assert ("." + fraction)[1..] == fraction;
      FractionDigitsOf(parts.whole, fraction);
    } else {
      assert s == parts.whole;
      DigitsHaveNoDot(s);
    }
    assert Mantissa(s, 0) == Positional(parts.whole) * Pow10(|fraction|) + Positional(fraction);
    ShiftedQuotient(Positional(parts.whole), Positional(fraction), Pow10(|fraction|));
  }

  /** The literal of any proper parts is decimal, and denotes the value of its parts. */
  lemma LiteralHasValue(parts: Parts)
    requires ProperParts(parts)
    ensures IsDecimal(LiteralOf(parts)) && ParseDecimal(LiteralOf(parts)) == Some(ValueOf(parts))
  {
    var s, literal := Unsigned(parts), LiteralOf(parts);
    UnsignedIsDecimal(parts);
    assert s != "" && s[0] != '-';
    assert parts.negative ==> literal[0] == '-' && literal[1..] == s;
    assert !parts.negative ==> literal == s;
    SignedIsDecimal(literal, s);
    UnsignedHasValue(parts);
  }

  lemma ShiftedQuotient(whole: nat, fraction: nat, power: nat)
    requires power > 0
    ensures (whole * power + fraction) as real / power as real == whole as real + fraction as real / power as real
  {
    var p := power as real;
    assert (whole * power) as real == whole as real * p;
    assert (whole as real * p) / p == whole as real;
  }

  /** A text is a decimal literal exactly when it has such parts. */
  lemma DecimalHasParts(literal: string)
    ensures IsDecimal(literal) <==> exists parts :: ProperParts(parts) && LiteralOf(parts) == literal
  {
    if IsDecimal(literal) {
      var parts := Split(literal);
      assert ProperParts(parts) && LiteralOf(parts) == literal;
    }
    forall parts | ProperParts(parts) && LiteralOf(parts) == literal
      ensures IsDecimal(literal)
    {
      LiteralHasValue(parts);
    }
  }

  lemma Split(literal: string) returns (parts: Parts)
    requires IsDecimal(literal)
    ensures ProperParts(parts) && LiteralOf(parts) == literal
  {
    var negative := literal[0] == '-';
    var unsigned := if negative then literal[1..] else literal;
    var whole, fraction := SplitUnsigned(unsigned);
    parts := Parts(negative, whole, fraction);
    assert negative ==> literal == "-" + unsigned;
    assert Unsigned(parts) == unsigned;
  }

  lemma SplitUnsigned(s: string) returns (whole: string, fraction: Option<string>)
    requires Dots(s) <= 1 && forall i :: 0 <= i < |s| ==> IsDigit(s[i]) || s[i] == '.'
    requires exists i :: 0 <= i < |s| && IsDigit(s[i])
    ensures ProperParts(Parts(false, whole, fraction)) && Unsigned(Parts(false, whole, fraction)) == s
  {
    if Dots(s) == 0 {
      NoDotIsDigits(s);
      whole, fraction := s, None;
    } else {
      var before, after := SplitAtDot(s);
      whole, fraction := before, Some(after);
      assert before + after == "" ==> s == ".";
    }
  }

  lemma {:induction false} NoDotIsDigits(s: string)
    requires Dots(s) == 0 && forall i :: 0 <= i < |s| ==> IsDigit(s[i]) || s[i] == '.'
    ensures AllDigits(s)
  {
    if s != "" {
      NoDotIsDigits(s[1..]);
      assert forall i :: 1 <= i < |s| ==> s[i] == s[1..][i - 1];
    }
  }

  lemma {:induction false} SplitAtDot(s: string) returns (whole: string, fraction: string)
    requires Dots(s) == 1 && forall i :: 0 <= i < |s| ==> IsDigit(s[i]) || s[i] == '.'
    ensures AllDigits(whole) && AllDigits(fraction) && s == whole + "." + fraction
  {
    assert forall i :: 1 <= i < |s| ==> s[i] == s[1..][i - 1];
    if s[0] == '.' {
      NoDotIsDigits(s[1..]);
      whole, fraction := "", s[1..];
    } else {
      whole, fraction := SplitAtDot(s[1..]);
      whole := [s[0]] + whole;
    }
  }

  // ----- Numerals -----

  /** The numeral of a natural number is a literal of that value. */
  lemma {:induction false} NumeralIsPositional(n: nat)
    ensures AllDigits(IdempotencyKeys.Decimal(n)) && IdempotencyKeys.Decimal(n) != ""
    ensures Positional(IdempotencyKeys.Decimal(n)) == n
  {
    var s := IdempotencyKeys.Decimal(n);
    if n < 10 {
      assert s[..0] == "";
    } else {
      NumeralIsPositional(n / 10);
      assert s[..|s| - 1] == IdempotencyKeys.Decimal(n / 10);
    }
  }

  lemma {:induction false} NumeralHasValue(n: nat)
    ensures ParseDecimal(IdempotencyKeys.Decimal(n)) == Some(n as real)
  {
    var s := IdempotencyKeys.Decimal(n);
    NumeralIsPositional(n);
    LiteralHasValue(Parts(false, s, None));
    assert LiteralOf(Parts(false, s, None)) == s;
  }

  lemma {:induction false} NumeralIsU8(n: nat)
    ensures ParseU8(IdempotencyKeys.Decimal(n)) == if n < 256 then Some(n) else None
  {
    var s := IdempotencyKeys.Decimal(n);
    NumeralIsPositional(n);
    MantissaIsPositional(s, 0);
    assert IsDigit(s[0]);
  }

  /** A small number is a row of digits, after a plus sign or none, of that value below 256. */
  lemma U8IsPositionalIff(literal: string, n: nat)
    ensures ParseU8(literal) == Some(n)
       <==> exists digits ::
              && (literal == digits || literal == "+" + digits) && digits != "" && AllDigits(digits)
              && Positional(digits) == n < 256
  {
    var digits := if literal != "" && literal[0] == '+' then literal[1..] else literal;
    assert literal == digits || literal == "+" + digits;
    if digits != "" && AllDigits(digits) {
      MantissaIsPositional(digits, 0);
      assert ParseU8(literal) == if Positional(digits) < 256 then Some(Positional(digits)) else None;
    }
    if other :| (literal == other || literal == "+" + other) && other != "" && AllDigits(other) && Positional(other) == n < 256 {
      assert IsDigit(other[0]) && ("+" + other)[1..] == other;
      assert other == digits;
    }
  }

  /** The units are multiples of each other, as units of time are. */
  lemma UnitsAgree(n: nat)
    ensures Duration(n, "ms") == Milliseconds(n)
    ensures Duration(n, "s") == Duration(1_000 * n, "ms") && Duration(n, "m") == Duration(60 * n, "s")
    ensures Duration(n, "h") == Duration(60 * n, "m") && Duration(n, "d") == Duration(24 * n, "h")
  {
    UnitsOfTime();
    WholeDuration(n, "ms");
    WholeDuration(1_000 * n, "ms");
    WholeDuration(60 * n, "s");
    WholeDuration(60 * n, "m");
    WholeDuration(24 * n, "h");
    WholeDuration(n, "s");
    WholeDuration(n, "m");
    WholeDuration(n, "h");
    WholeDuration(n, "d");
  }

  lemma UnitsOfTime()
    ensures UnitMilliseconds("ms") == Some(1) && UnitMilliseconds("s") == Some(1_000)
    ensures UnitMilliseconds("m") == Some(60_000) && UnitMilliseconds("h") == Some(3_600_000)
    ensures UnitMilliseconds("d") == Some(86_400_000)
  {
  }

  function Duration(n: nat, unit: string): Result<nat, PlanError> {
    DurationMilliseconds(IdempotencyKeys.Decimal(n), unit)
  }

  /** The units of time, as multiples of a millisecond. */
  lemma WholeDuration(n: nat, unit: string)
    requires UnitMilliseconds(unit).Some?
    ensures Duration(n, unit) == Milliseconds(n * UnitMilliseconds(unit).value)
  {
    NumeralHasValue(n);
    WholeValue(IdempotencyKeys.Decimal(n), n, unit, UnitMilliseconds(unit).value);
  }

  lemma WholeValue(literal: string, n: nat, unit: string, multiplier: nat)
    requires ParseDecimal(literal) == Some(n as real) && UnitMilliseconds(unit) == Some(multiplier)
    ensures DurationMilliseconds(literal, unit) == Milliseconds(n * multiplier)
  {
    ProductIsWhole(n, multiplier);
  }

  /** At least a millisecond, and at most thirty days. */
  function Milliseconds(n: nat): Result<nat, PlanError> {
    if 1 <= n <= 30 * 86_400_000 then Ok(n) else Err(InvalidWait)
  }

  lemma ProductIsWhole(n: nat, multiplier: nat)
    ensures n as real * multiplier as real == (n * multiplier) as real
    ensures ((n * multiplier) as real).Floor == n * multiplier
  {
  }
}
