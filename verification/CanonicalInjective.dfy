// Two argument values have the same canonical text exactly when they are equal up to key order.
module CanonicalInjective {
  import opened Wrappers
  import opened Collections
  import opened StringOrder
  import Lexer
  import Printer
  import RoundTrip
  import opened CanonicalJson

  // ----- Quoted text is self-delimiting -----

  lemma EscapedCharReads(c: char, s: string)
    ensures Lexer.Literal(EscapeChar(c) + s) == Lexer.Extend([c], Lexer.Literal(s))
  {
    if c == '"' || c == '\\' {
      RoundTrip.SimpleEscapeReads(c, c, s);
    } else if c == '\U{0008}' {
      RoundTrip.SimpleEscapeReads('b', c, s);
    } else if c == '\U{000C}' {
      RoundTrip.SimpleEscapeReads('f', c, s);
    } else if c == '\n' {
      RoundTrip.SimpleEscapeReads('n', c, s);
    } else if c == '\r' {
      RoundTrip.SimpleEscapeReads('r', c, s);
    } else if c == '\t' {
      RoundTrip.SimpleEscapeReads('t', c, s);
    } else if c < ' ' {
      RoundTrip.Hex4Reads(c as int);
      RoundTrip.UnicodeEscapeReads(Printer.Hex4(c as int), c, s);
    } else {
      RoundTrip.PlainCharReads(c, s);
    }
  }

  lemma {:induction false} QuotedReads(value: string, rest: string)
    ensures Lexer.Literal(Escape(value) + ("\"" + rest)) == Ok((value, rest))
  {
    var s := "\"" + rest;
    RoundTrip.ClosingQuoteReads(rest);
    if value == "" {
      assert Escape(value) + s == s;
    } else {
      QuotedReads(value[1..], rest);
      EscapedCharReads(value[0], Escape(value[1..]) + s);
      Associative(EscapeChar(value[0]), Escape(value[1..]), s);
      assert [value[0]] + value[1..] == value;
    }
  }

  lemma QuoteSplits(a: string, x: string, b: string, y: string)
    requires Quote(a) + x == Quote(b) + y
    ensures a == b && x == y
  {
    AppendThree("\"", Escape(a), "\"", x);
    AppendThree("\"", Escape(b), "\"", y);
    SameLength("\"", Escape(a) + ("\"" + x), "\"", Escape(b) + ("\"" + y));
    QuotedReads(a, x);
    QuotedReads(b, y);
  }

  // ----- Every canonical text announces its kind, and ends where a delimiter may follow -----

  /** What may follow a value inside a canonical text. */
  predicate Delimited(rest: string) {
    rest == "" || rest[0] == ',' || rest[0] == ']' || rest[0] == '}'
  }

  datatype Shape = Word(c: char) | Numeric | Quoted | Bracketed | Braced

  function ShapeOf(v: Json): Shape {
    match v
    case Null => Word('n')
    case Bool(b) => Word(if b then 't' else 'f')
    case Number(_) => Numeric
    case Text(_) => Quoted
    case Array(_) => Bracketed
    case Object(_) => Braced
  }

  function ShapeAt(c: char): Shape {
    if c == '"' then Quoted
    else if c == '[' then Bracketed
    else if c == '{' then Braced
    else if IsNumberChar(c) then Numeric
    else Word(c)
  }

  lemma StartsWithShape(v: Json, rest: string)
    requires WellFormed(v)
    ensures Canonical(v) != "" && ShapeAt((Canonical(v) + rest)[0]) == ShapeOf(v)
  {
    assert (Canonical(v) + rest)[0] == Canonical(v)[0];
  }

  lemma NumbersSplit(a: string, x: string, b: string, y: string)
    requires a + x == b + y && Delimited(x) && Delimited(y)
    requires forall i :: 0 <= i < |a| ==> IsNumberChar(a[i])
    requires forall i :: 0 <= i < |b| ==> IsNumberChar(b[i])
    ensures a == b && x == y
  {
    var s := a + x;
    assert |a| < |s| ==> s[|a|] == x[0] && !IsNumberChar(s[|a|]);
    assert |b| < |s| ==> s[|b|] == y[0] && !IsNumberChar(s[|b|]);
    assert forall i :: 0 <= i < |a| ==> s[i] == a[i];
    assert forall i :: 0 <= i < |b| ==> s[i] == b[i];
    assert |a| == |b|;
    assert a == s[..|a|] && b == s[..|b|] && x == s[|a|..] && y == s[|b|..];
  }

  lemma AppendThree(a: string, b: string, c: string, d: string)
    ensures a + (b + c) + d == a + (b + (c + d))
  {
  }

  // ----- Injectivity -----

  lemma {:induction false} CanonicalSplits(v: Json, x: string, w: Json, y: string)
    requires WellFormed(v) && WellFormed(w) && Delimited(x) && Delimited(y)
    requires Canonical(v) + x == Canonical(w) + y
    ensures Equivalent(v, w) && x == y
    decreases v, 3
  {
    StartsWithShape(v, x);
    StartsWithShape(w, y);
    assert ShapeOf(v) == ShapeOf(w);
    match v {
      case Null =>
        SameLength(Canonical(v), x, Canonical(w), y);
      case Bool(_) =>
        SameLength(Canonical(v), x, Canonical(w), y);
      case Number(text) =>
        NumbersSplit(text, x, w.text, y);
      case Text(s) =>
        QuoteSplits(s, x, w.s, y);
      case Array(items) =>
        Unwrap("[", JoinItems(items), "]", x, JoinItems(w.items), y);
        ItemsSplit(items, x, w.items, y);
      case Object(entries) =>
        Unwrap("{", JoinEntries(v, Sort(entries)), "}", x, JoinEntries(w, Sort(w.entries)), y);
        EntriesSplit(v, Sort(entries), x, w, Sort(w.entries), y);
        SortedFieldsMatch(v, w);
    }
  }

  lemma SameLength(a: string, x: string, b: string, y: string)
    requires a + x == b + y && |a| == |b|
    ensures a == b && x == y
  {
    assert a == (a + x)[..|a|] && b == (b + y)[..|b|];
    assert x == (a + x)[|a|..] && y == (b + y)[|b|..];
  }

  lemma Unwrap(open: string, a: string, close: string, x: string, b: string, y: string)
    requires open + (a + close) + x == open + (b + close) + y
    ensures a + (close + x) == b + (close + y)
  {
    AppendThree(open, a, close, x);
    AppendThree(open, b, close, y);
    SameLength(open, a + (close + x), open, b + (close + y));
  }

  lemma {:induction false} ItemsSplit(a: seq<Json>, x: string, b: seq<Json>, y: string)
    requires (forall i :: i in a ==> WellFormed(i)) && (forall i :: i in b ==> WellFormed(i))
    requires JoinItems(a) + ("]" + x) == JoinItems(b) + ("]" + y)
    ensures |a| == |b| && (forall i :: 0 <= i < |a| ==> Equivalent(a[i], b[i])) && x == y
    decreases a, 4
  {
    var s := JoinItems(a) + ("]" + x);
    assert a == [] ==> s == "]" + x;
    assert b == [] ==> s == "]" + y;
    if a != [] {
      var restA := if |a| == 1 then "]" + x else "," + (JoinItems(a[1..]) + ("]" + x));
      ItemsHead(a, x);
      StartsWithShape(a[0], restA);
      assert b != [];
      var restB := if |b| == 1 then "]" + y else "," + (JoinItems(b[1..]) + ("]" + y));
      ItemsHead(b, y);
      CanonicalSplits(a[0], restA, b[0], restB);
      assert restA[0] == restB[0];
      assert |a| == 1 <==> |b| == 1;
      if |a| == 1 {
        SameLength("]", x, "]", y);
      } else {
        SameLength(",", JoinItems(a[1..]) + ("]" + x), ",", JoinItems(b[1..]) + ("]" + y));
        ItemsSplit(a[1..], x, b[1..], y);
        assert forall i :: 1 <= i < |a| ==> a[i] == a[1..][i - 1] && b[i] == b[1..][i - 1];
      }
    } else if b != [] {
      var restB := if |b| == 1 then "]" + y else "," + (JoinItems(b[1..]) + ("]" + y));
      ItemsHead(b, y);
      StartsWithShape(b[0], restB);
      assert false;
    } else {
      SameLength("]", x, "]", y);
    }
  }

  lemma ItemsHead(a: seq<Json>, x: string)
    requires a != []
    ensures JoinItems(a) + ("]" + x)
         == Canonical(a[0]) + (if |a| == 1 then "]" + x else "," + (JoinItems(a[1..]) + ("]" + x)))
  {
    if |a| > 1 {
      AppendThree(Canonical(a[0]), ",", JoinItems(a[1..]), "]" + x);
    }
  }

  /** The fields of two objects, in the given orders, with the same text. */
  ghost predicate FieldsMatch(a: seq<Entry>, b: seq<Entry>) {
    |a| == |b| && forall i :: 0 <= i < |a| ==> a[i].key == b[i].key && Equivalent(a[i].value, b[i].value)
  }

  lemma EntriesHead(v: Json, a: seq<Entry>, x: string)
    requires v.Object? && a != [] && forall e :: e in a ==> e in v.entries
    ensures JoinEntries(v, a) + ("}" + x)
         == Quote(a[0].key)
            + (":" + (Canonical(a[0].value)
                      + (if |a| == 1 then "}" + x else "," + (JoinEntries(v, a[1..]) + ("}" + x)))))
  {
    var q, c := Quote(a[0].key), Canonical(a[0].value);
    AppendThree(q, ":", c, "}" + x);
    if |a| > 1 {
      var rest := JoinEntries(v, a[1..]);
      AppendThree(Field(v, a[0]), ",", rest, "}" + x);
      AppendThree(q, ":", c, "," + (rest + ("}" + x)));
    }
  }

  lemma {:induction false} EntriesSplit(
    v: Json, a: seq<Entry>, x: string, w: Json, b: seq<Entry>, y: string)
    requires v.Object? && (forall e :: e in a ==> e in v.entries) && WellFormed(v)
    requires w.Object? && (forall e :: e in b ==> e in w.entries) && WellFormed(w)
    requires JoinEntries(v, a) + ("}" + x) == JoinEntries(w, b) + ("}" + y)
    ensures FieldsMatch(a, b) && x == y
    decreases v, 2, |a|
  {
    var s := JoinEntries(v, a) + ("}" + x);
    assert a == [] ==> s == "}" + x && s[0] == '}';
    assert b == [] ==> s == "}" + y && s[0] == '}';
    if a != [] {
      EntriesHead(v, a, x);
      assert s[0] == '"';
    }
    if b != [] {
      EntriesHead(w, b, y);
      assert s[0] == '"';
    }
    if a == [] {
      SameLength("}", x, "}", y);
    } else {
      FirstFieldSplits(v, a, x, w, b, y);
      if |a| > 1 {
        EntriesSplit(v, a[1..], x, w, b[1..], y);
        assert forall i :: 1 <= i < |a| ==> a[i] == a[1..][i - 1] && b[i] == b[1..][i - 1];
      }
    }
  }

  lemma {:induction false} FirstFieldSplits(
    v: Json, a: seq<Entry>, x: string, w: Json, b: seq<Entry>, y: string)
    requires v.Object? && (forall e :: e in a ==> e in v.entries) && WellFormed(v)
    requires w.Object? && (forall e :: e in b ==> e in w.entries) && WellFormed(w)
    requires a != [] && b != []
    requires JoinEntries(v, a) + ("}" + x) == JoinEntries(w, b) + ("}" + y)
    ensures a[0].key == b[0].key && Equivalent(a[0].value, b[0].value)
    ensures |a| == 1 <==> |b| == 1
    ensures |a| == 1 ==> x == y
    ensures |a| > 1 ==> JoinEntries(v, a[1..]) + ("}" + x) == JoinEntries(w, b[1..]) + ("}" + y)
    decreases v, 1
  {
    EntriesHead(v, a, x);
    EntriesHead(w, b, y);
    assert a[0] in v.entries && b[0] in w.entries;
    assert WellFormed(a[0].value) && WellFormed(b[0].value);
    var restA := if |a| == 1 then "}" + x else "," + (JoinEntries(v, a[1..]) + ("}" + x));
    var restB := if |b| == 1 then "}" + y else "," + (JoinEntries(w, b[1..]) + ("}" + y));
    QuoteSplits(a[0].key, ":" + (Canonical(a[0].value) + restA), b[0].key, ":" + (Canonical(b[0].value) + restB));
    SameLength(":", Canonical(a[0].value) + restA, ":", Canonical(b[0].value) + restB);
    CanonicalSplits(a[0].value, restA, b[0].value, restB);
    assert restA[0] == restB[0];
    assert |a| == 1 <==> |b| == 1;
    if |a| == 1 {
      SameLength("}", x, "}", y);
    } else {
      SameLength(",", JoinEntries(v, a[1..]) + ("}" + x), ",", JoinEntries(w, b[1..]) + ("}" + y));
    }
  }

  lemma SortedFieldsMatch(v: Json, w: Json)
    requires v.Object? && w.Object?
    requires FieldsMatch(Sort(v.entries), Sort(w.entries))
    ensures Equivalent(v, w)
  {
    var a, b := Sort(v.entries), Sort(w.entries);
    forall i | 0 <= i < |v.entries|
      ensures exists j ::
        0 <= j < |w.entries| && v.entries[i].key == w.entries[j].key
        && Equivalent(v.entries[i].value, w.entries[j].value)
    {
      assert v.entries[i] in a;
      var p :| 0 <= p < |a| && a[p] == v.entries[i];
      assert b[p] in b;
      assert b[p] in w.entries;
      var j :| 0 <= j < |w.entries| && w.entries[j] == b[p];
    }
  }

  // ----- Order insensitivity -----

  lemma {:induction false} EquivalentSameText(v: Json, w: Json)
    requires WellFormed(v) && WellFormed(w) && Equivalent(v, w)
    ensures Canonical(v) == Canonical(w)
    decreases v, 3
  {
    match v {
      case Array(items) =>
        ItemsSameText(items, w.items);
      case Object(entries) =>
        var a, b := Sort(entries), Sort(w.entries);
        EquivalentSorted(v, w);
        EntriesSameText(v, a, w, b);
      case _ =>
    }
  }

  lemma {:induction false} ItemsSameText(a: seq<Json>, b: seq<Json>)
    requires (forall i :: i in a ==> WellFormed(i)) && (forall i :: i in b ==> WellFormed(i))
    requires |a| == |b| && forall i :: 0 <= i < |a| ==> Equivalent(a[i], b[i])
    ensures JoinItems(a) == JoinItems(b)
    decreases a, 4
  {
    if a != [] {
      EquivalentSameText(a[0], b[0]);
      ItemsSameText(a[1..], b[1..]);
    }
  }

  lemma {:induction false} EntriesSameText(v: Json, a: seq<Entry>, w: Json, b: seq<Entry>)
    requires v.Object? && (forall e :: e in a ==> e in v.entries) && WellFormed(v)
    requires w.Object? && (forall e :: e in b ==> e in w.entries) && WellFormed(w)
    requires FieldsMatch(a, b)
    ensures JoinEntries(v, a) == JoinEntries(w, b)
    decreases v, 2, |a|
  {
    if a != [] {
      assert a[0] in v.entries && b[0] in w.entries;
      EquivalentSameText(a[0].value, b[0].value);
      EntriesSameText(v, a[1..], w, b[1..]);
    }
  }

  predicate SortedKeys(keys: seq<string>) {
    forall i, j :: 0 <= i < j < |keys| ==> Below(keys[i], keys[j])
  }

  function Keys(entries: seq<Entry>): (keys: seq<string>)
    ensures |keys| == |entries| && forall i :: 0 <= i < |keys| ==> keys[i] == entries[i].key
  {
    seq(|entries|, i requires 0 <= i < |entries| => entries[i].key)
  }

  lemma {:induction false} AtLeast(a: seq<string>, b: seq<string>, i: nat) returns (j: nat)
    requires SortedKeys(a) && SortedKeys(b) && i < |a| && forall k :: k in a ==> k in b
    ensures i <= j < |b| && b[j] == a[i]
  {
    assert a[i] in b;
    j :| 0 <= j < |b| && b[j] == a[i];
    if i > 0 {
      var before := AtLeast(a, b, i - 1);
      BelowAsymmetric(a[i - 1], a[i]);
      assert before < j;
    }
  }

  lemma {:induction false} AtMost(a: seq<string>, b: seq<string>, i: nat) returns (j: nat)
    requires SortedKeys(a) && SortedKeys(b) && i < |a| == |b| && forall k :: k in a ==> k in b
    ensures j <= i && b[j] == a[i]
    decreases |a| - i
  {
    assert a[i] in b;
    j :| 0 <= j < |b| && b[j] == a[i];
    if i < |a| - 1 {
      var after := AtMost(a, b, i + 1);
      BelowAsymmetric(a[i], a[i + 1]);
      assert j < after;
    }
  }

  /** A sorted key list included in another of the same length is that list. */
  lemma SameKeys(a: seq<string>, b: seq<string>)
    requires SortedKeys(a) && SortedKeys(b) && |a| == |b| && forall k :: k in a ==> k in b
    ensures a == b
  {
    forall i | 0 <= i < |a|
      ensures a[i] == b[i]
    {
      var high := AtLeast(a, b, i);
      var low := AtMost(a, b, i);
      if low < high {
        BelowAsymmetric(b[low], b[high]);
      }
    }
  }

  /** Every field of an object has an equivalent field among the sorted ones of an equivalent object. */
  lemma EquivalentField(v: Json, w: Json, e: Entry) returns (f: Entry)
    requires v.Object? && w.Object? && Equivalent(v, w) && e in Sort(v.entries)
    ensures f in Sort(w.entries) && f.key == e.key && Equivalent(e.value, f.value)
  {
    var i :| 0 <= i < |v.entries| && v.entries[i] == e;
    var j :|
      0 <= j < |w.entries| && v.entries[i].key == w.entries[j].key
      && Equivalent(v.entries[i].value, w.entries[j].value);
    f := w.entries[j];
  }

  lemma EquivalentKeys(v: Json, w: Json)
    requires v.Object? && w.Object? && WellFormed(v) && WellFormed(w) && Equivalent(v, w)
    ensures Keys(Sort(v.entries)) == Keys(Sort(w.entries))
  {
    var a, b := Sort(v.entries), Sort(w.entries);
    SortSorts(v.entries);
    SortSorts(w.entries);
    forall k | k in Keys(a)
      ensures k in Keys(b)
    {
      var i :| 0 <= i < |a| && Keys(a)[i] == k;
      var f := EquivalentField(v, w, a[i]);
      var j :| 0 <= j < |b| && b[j] == f;
      assert Keys(b)[j] == k;
    }
    SameKeys(Keys(a), Keys(b));
  }

  lemma SortedFieldIsUnique(sorted: seq<Entry>, i: nat, f: Entry)
    requires Sorted(sorted) && i < |sorted| && f in sorted && f.key == sorted[i].key
    ensures f == sorted[i]
  {
    var j :| 0 <= j < |sorted| && sorted[j] == f;
    if j < i {
      BelowAsymmetric(sorted[j].key, sorted[i].key);
    } else if i < j {
      BelowAsymmetric(sorted[i].key, sorted[j].key);
    }
  }

  /** Sorted by key, equivalent objects match field by field. */
  lemma EquivalentSorted(v: Json, w: Json)
    requires v.Object? && w.Object? && WellFormed(v) && WellFormed(w) && Equivalent(v, w)
    ensures FieldsMatch(Sort(v.entries), Sort(w.entries))
  {
    var a, b := Sort(v.entries), Sort(w.entries);
    SortSorts(w.entries);
    EquivalentKeys(v, w);
    assert |Keys(a)| == |Keys(b)|;
    forall i | 0 <= i < |a|
      ensures a[i].key == b[i].key && Equivalent(a[i].value, b[i].value)
    {
      assert a[i].key == Keys(a)[i] == Keys(b)[i] == b[i].key;
      var f := EquivalentField(v, w, a[i]);
      SortedFieldIsUnique(b, i, f);
    }
  }

  /** The text an approval is bound to determines its arguments, and depends on nothing else. */
  lemma CanonicalIffEquivalent(v: Json, w: Json)
    requires WellFormed(v) && WellFormed(w)
    ensures Canonical(v) == Canonical(w) <==> Equivalent(v, w)
  {
    if Canonical(v) == Canonical(w) {
      assert Canonical(v) + "" == Canonical(w) + "";
      CanonicalSplits(v, "", w, "");
    }
    if Equivalent(v, w) {
      EquivalentSameText(v, w);
    }
  }
}
