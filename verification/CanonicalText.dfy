// The canonical text is JSON: what it spells by the grammar of RFC 8259 is the value it was made of.
module CanonicalText {
  import opened Wrappers
  import opened Collections
  import opened StringOrder
  import opened CanonicalJson
  import CanonicalInjective
  import Lexemes
  import Lexer
  import Printer
  import PrintLayout

  /** The texts one after the other, with a comma between any two. */
  function Joined(parts: seq<string>): string {
    if parts == [] then ""
    else if |parts| == 1 then parts[0]
    else Joined(AllButLast(parts)) + ("," + parts[|parts| - 1])
  }

  /** A string literal of section 7 of RFC 8259 for a text. */
  ghost predicate SpellsString(s: string, value: string) {
    exists body :: s == "\"" + (body + "\"") && Lexemes.IsSpelled(body + "\"", value, Lexemes.Closed(""))
  }

  /** `s` is a JSON text of the value without white space, with the fields of objects in the order of their keys. */
  ghost predicate Spells(s: string, v: Json)
    decreases v, 1
  {
    match v
    case Null => s == "null"
    case Bool(b) => s == if b then "true" else "false"
    case Number(text) => s == text
    case Text(value) => SpellsString(s, value)
    case Array(items) =>
      exists parts: seq<string> ::
        && |parts| == |items| && s == "[" + (Joined(parts) + "]")
        && forall i :: 0 <= i < |items| ==> Spells(parts[i], items[i])
    case Object(entries) =>
      exists order: seq<Entry>, parts: seq<string> ::
        && IsKeyOrder(order, entries) && |parts| == |order| && SpellsFields(parts, v, order)
        && s == "{" + (Joined(parts) + "}")
  }

  ghost predicate SpellsFields(parts: seq<string>, v: Json, order: seq<Entry>)
    requires v.Object? && |parts| == |order|
    decreases v, 0, 1
  {
    forall i :: 0 <= i < |order| && order[i] in v.entries ==> SpellsField(parts[i], v, order[i])
  }

  ghost predicate SpellsField(s: string, v: Json, field: Entry)
    requires v.Object? && field in v.entries
    decreases v, 0, 0
  {
    exists key: string, value: string ::
      s == key + (":" + value) && SpellsString(key, field.key) && Spells(value, field.value)
  }

  /** The same fields, in the order of their keys. */
  ghost predicate IsKeyOrder(order: seq<Entry>, entries: seq<Entry>) {
    && multiset(order) == multiset(entries)
    && forall i, j :: 0 <= i < j < |order| ==> Departs(order[i].key, order[j].key)
  }

  /** `a` is a proper prefix of `b`, or smaller where they first differ. */
  ghost predicate Departs(a: string, b: string) {
    exists k: nat :: DepartsAt(a, b, k)
  }

  lemma QuoteSpells(value: string)
    ensures SpellsString(Quote(value), value)
  {
    CanonicalInjective.QuotedReads(value, "");
    assert "\"" + "" == "\"";
    Lexemes.LiteralIsReadIff(Escape(value) + "\"", value, "");
  }

  lemma {:induction false} JoinedFirst(parts: seq<string>)
    requires |parts| >= 2
    ensures Joined(parts) == parts[0] + ("," + Joined(parts[1..]))
  {
    if |parts| > 2 {
      var fewer, last := AllButLast(parts), parts[|parts| - 1];
      JoinedFirst(fewer);
      assert fewer[1..] == AllButLast(parts[1..]);
      var inner := Joined(AllButLast(parts[1..]));
      Associative(parts[0], "," + inner, "," + last);
      Associative(",", inner, "," + last);
    } else {
      assert AllButLast(parts) == [parts[0]] && parts[1..] == [parts[1]];
    }
  }

  lemma {:induction false} ItemsAreJoined(items: seq<Json>)
    ensures JoinItems(items) == Joined(seq(|items|, i requires 0 <= i < |items| => Canonical(items[i])))
  {
    var parts := seq(|items|, i requires 0 <= i < |items| => Canonical(items[i]));
    if |items| >= 2 {
      var rest := items[1..];
      ItemsAreJoined(rest);
      JoinedFirst(parts);
      assert parts[1..] == seq(|rest|, i requires 0 <= i < |rest| => Canonical(rest[i]));
    }
  }

  lemma {:induction false} FieldsAreJoined(v: Json, order: seq<Entry>)
    requires v.Object? && forall e :: e in order ==> e in v.entries
    ensures JoinEntries(v, order)
         == Joined(seq(|order|, i requires 0 <= i < |order| && order[i] in v.entries => Field(v, order[i])))
  {
    var parts := seq(|order|, i requires 0 <= i < |order| && order[i] in v.entries => Field(v, order[i]));
    if |order| >= 2 {
      var rest := order[1..];
      FieldsAreJoined(v, rest);
      JoinedFirst(parts);
      assert parts[1..] == seq(|rest|, i requires 0 <= i < |rest| && rest[i] in v.entries => Field(v, rest[i]));
    }
  }

  lemma SortedIsKeyOrder(entries: seq<Entry>)
    requires DistinctKeys(entries)
    ensures IsKeyOrder(Sort(entries), entries)
  {
    SortArranges(entries);
    var order := Sort(entries);
    forall i, j | 0 <= i < j < |order|
      ensures Departs(order[i].key, order[j].key)
    {
      BelowIsLexicographic(order[i].key, order[j].key);
    }
  }

  /** The canonical text of a value is a JSON text of that value. */
  lemma {:induction false} CanonicalSpells(v: Json)
    requires WellFormed(v)
    ensures Spells(Canonical(v), v)
    decreases v, 1
  {
    match v {
      case Text(s) => QuoteSpells(s);
      case Array(items) =>
        var parts := seq(|items|, i requires 0 <= i < |items| => Canonical(items[i]));
        ItemsAreJoined(items);
        forall i | 0 <= i < |items|
          ensures Spells(parts[i], items[i])
        {
          CanonicalSpells(items[i]);
        }
      case Object(entries) => ObjectSpells(v);
      case _ =>
    }
  }

  lemma {:induction false} ObjectSpells(v: Json)
    requires v.Object? && WellFormed(v)
    ensures Spells(Canonical(v), v)
    decreases v, 0, 1
  {
    var order := Sort(v.entries);
    var parts := seq(|order|, i requires 0 <= i < |order| && order[i] in v.entries => Field(v, order[i]));
    SortedIsKeyOrder(v.entries);
    FieldsAreJoined(v, order);
    forall i | 0 <= i < |order| && order[i] in v.entries
      ensures SpellsField(parts[i], v, order[i])
    {
      FieldSpells(v, order[i]);
      assert parts[i] == Field(v, order[i]);
    }
    ObjectIsSpelled(Canonical(v), v, order, parts);
  }

  lemma ObjectIsSpelled(s: string, v: Json, order: seq<Entry>, parts: seq<string>)
    requires v.Object? && IsKeyOrder(order, v.entries) && |parts| == |order| && SpellsFields(parts, v, order)
    requires s == "{" + (Joined(parts) + "}")
    ensures Spells(s, v)
  {
  }

  lemma {:induction false} FieldSpells(v: Json, field: Entry)
    requires v.Object? && WellFormed(v) && field in v.entries
    ensures SpellsField(Field(v, field), v, field)
    decreases v, 0, 0
  {
    QuoteSpells(field.key);
    CanonicalSpells(field.value);
  }

  /** A character is written as itself unless it is a quote, a backslash or below the space. */
  lemma EscapesAreMinimal(c: char)
    ensures EscapeChar(c) == [c] <==> c as int >= 0x20 && c as int !in {0x22, 0x5C}
    ensures |EscapeChar(c)| == 2 <==> c as int in {0x22, 0x5C, 0x08, 0x0C, 0x0A, 0x0D, 0x09}
    ensures |EscapeChar(c)| in {1, 2, 6}
    ensures |EscapeChar(c)| == 6 ==> forall i :: 2 <= i < 6 ==> EscapeChar(c)[i] in "0123456789abcdef"
  {
    if |EscapeChar(c)| == 6 {
      PrintLayout.HexIsLowerCase(c as int);
    }
  }
}
