// The canonical text of approval arguments, and the order it forgets.
module CanonicalJson {
  import opened Wrappers
  import opened StringOrder
  import Lexer
  import Printer

  /** A number stands for its rendering by the JSON library. */
  datatype Json =
    | Null
    | Bool(b: bool)
    | Number(text: string)
    | Text(s: string)
    | Array(items: seq<Json>)
    | Object(entries: seq<Entry>)

  datatype Entry = Entry(key: string, value: Json)

  predicate IsNumberChar(c: char) {
    '0' <= c <= '9' || c == '-' || c == '+' || c == '.' || c == 'e' || c == 'E'
  }

  /** Renderings of numbers are non-empty and start with a digit or a minus sign; keys are unique. */
  predicate WellFormed(v: Json) {
    match v
    case Number(text) =>
      text != "" && ('0' <= text[0] <= '9' || text[0] == '-') && forall i :: 0 <= i < |text| ==> IsNumberChar(text[i])
    case Array(items) => forall x :: x in items ==> WellFormed(x)
    case Object(entries) =>
      && (forall e :: e in entries ==> WellFormed(e.value))
      && DistinctKeys(entries)
    case _ => true
  }

  predicate DistinctKeys(entries: seq<Entry>) {
    forall i, j :: 0 <= i < j < |entries| ==> entries[i].key != entries[j].key
  }

  /** Equality up to the order of object keys. */
  ghost predicate Equivalent(a: Json, b: Json)
    decreases a
  {
    match (a, b)
    case (Array(x), Array(y)) =>
      |x| == |y| && forall i :: 0 <= i < |x| ==> Equivalent(x[i], y[i])
    case (Object(x), Object(y)) =>
      && |x| == |y|
      && forall i :: 0 <= i < |x| ==>
           exists j :: 0 <= j < |y| && x[i].key == y[j].key && Equivalent(x[i].value, y[j].value)
    case _ => a == b
  }

  // ----- Sorting by key -----

  function Insert(e: Entry, sorted: seq<Entry>): seq<Entry> {
    if sorted == [] || !Below(sorted[0].key, e.key) then [e] + sorted
    else [sorted[0]] + Insert(e, sorted[1..])
  }

  function Sort(entries: seq<Entry>): (sorted: seq<Entry>)
    ensures |sorted| == |entries|
    ensures forall e :: e in sorted <==> e in entries
  {
    if entries == [] then []
    else
      InsertMembers(entries[0], Sort(entries[1..]));
      Insert(entries[0], Sort(entries[1..]))
  }

  lemma {:induction false} InsertMembers(e: Entry, sorted: seq<Entry>)
    ensures |Insert(e, sorted)| == |sorted| + 1
    ensures forall x :: x in Insert(e, sorted) <==> x == e || x in sorted
  {
    if sorted != [] && Below(sorted[0].key, e.key) {
      InsertMembers(e, sorted[1..]);
      assert forall x :: x in sorted <==> x == sorted[0] || x in sorted[1..];
    }
  }

  predicate Sorted(entries: seq<Entry>) {
    forall i, j :: 0 <= i < j < |entries| ==> Below(entries[i].key, entries[j].key)
  }

  lemma {:induction false} InsertKeepsSorted(e: Entry, sorted: seq<Entry>)
    requires Sorted(sorted) && forall x :: x in sorted ==> x.key != e.key
    ensures Sorted(Insert(e, sorted))
  {
    InsertMembers(e, sorted);
    if sorted != [] {
      BelowTotal(sorted[0].key, e.key);
      if Below(sorted[0].key, e.key) {
        var rest := Insert(e, sorted[1..]);
        InsertMembers(e, sorted[1..]);
        InsertKeepsSorted(e, sorted[1..]);
        forall x | x in rest
          ensures Below(sorted[0].key, x.key)
        {
        }
      } else {
        forall j | 0 <= j < |sorted|
          ensures Below(e.key, sorted[j].key)
        {
          if j > 0 {
            BelowTransitive(e.key, sorted[0].key, sorted[j].key);
          }
        }
      }
    }
  }

  lemma {:induction false} InsertKeepsFields(e: Entry, sorted: seq<Entry>)
    ensures multiset(Insert(e, sorted)) == multiset{e} + multiset(sorted)
  {
    if sorted != [] && Below(sorted[0].key, e.key) {
      InsertKeepsFields(e, sorted[1..]);
      assert sorted == [sorted[0]] + sorted[1..];
    }
  }

  lemma {:induction false} SortKeepsFields(entries: seq<Entry>)
    ensures multiset(Sort(entries)) == multiset(entries)
  {
    if entries != [] {
      SortKeepsFields(entries[1..]);
      InsertKeepsFields(entries[0], Sort(entries[1..]));
      assert entries == [entries[0]] + entries[1..];
    }
  }

  lemma {:induction false} SortSorts(entries: seq<Entry>)
    requires DistinctKeys(entries)
    ensures Sorted(Sort(entries))
  {
    if entries != [] {
      SortSorts(entries[1..]);
      InsertKeepsSorted(entries[0], Sort(entries[1..]));
    }
  }

  /** Sorting brings the fields into key order, and loses and adds none. */
  lemma SortArranges(entries: seq<Entry>)
    requires DistinctKeys(entries)
    ensures Sorted(Sort(entries)) && multiset(Sort(entries)) == multiset(entries)
  {
    SortSorts(entries);
    SortKeepsFields(entries);
  }

  // ----- The canonical text -----

  function EscapeChar(c: char): string {
    if c == '"' then "\\\""
    else if c == '\\' then "\\\\"
    else if c == '\U{0008}' then "\\b"
    else if c == '\U{000C}' then "\\f"
    else if c == '\n' then "\\n"
    else if c == '\r' then "\\r"
    else if c == '\t' then "\\t"
    else if c < ' ' then "\\u" + Printer.Hex4(c as int)
    else [c]
  }

  function Escape(s: string): string {
    if s == "" then "" else EscapeChar(s[0]) + Escape(s[1..])
  }

  function Quote(s: string): string {
    "\"" + (Escape(s) + "\"")
  }

  function Canonical(v: Json): string
    decreases v, 3
  {
    match v
    case Null => "null"
    case Bool(b) => if b then "true" else "false"
    case Number(text) => text
    case Text(s) => Quote(s)
    case Array(items) => "[" + (JoinItems(items) + "]")
    case Object(entries) => "{" + (JoinEntries(v, Sort(entries)) + "}")
  }

  function JoinItems(items: seq<Json>): string
    decreases items, 4
  {
    if items == [] then ""
    else if |items| == 1 then Canonical(items[0])
    else Canonical(items[0]) + ("," + JoinItems(items[1..]))
  }

  function Field(v: Json, e: Entry): string
    requires v.Object? && e in v.entries
    decreases v, 1
  {
    Quote(e.key) + (":" + Canonical(e.value))
  }

  /** The fields of an object, in the given order. */
  function JoinEntries(v: Json, order: seq<Entry>): string
    requires v.Object? && forall e :: e in order ==> e in v.entries
    decreases v, 2, |order|
  {
    if order == [] then ""
    else if |order| == 1 then Field(v, order[0])
    else Field(v, order[0]) + ("," + JoinEntries(v, order[1..]))
  }
}
