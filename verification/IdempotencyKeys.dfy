// The idempotency keys under which a run addresses the command gateway.
module IdempotencyKeys {

  /** Decimal rendering of a natural number. */
  function Decimal(n: nat): string {
    if n < 10 then [Digit(n)] else Decimal(n / 10) + [Digit(n % 10)]
  }

  function Digit(d: nat): char
    requires d < 10
  {
    '0' + d as char
  }

  predicate IsDigit(c: char) {
    '0' <= c <= '9'
  }

  lemma {:induction false} DecimalIsDigits(n: nat)
    ensures |Decimal(n)| > 0
    ensures forall c :: c in Decimal(n) ==> IsDigit(c)
  {
    if n >= 10 {
      DecimalIsDigits(n / 10);
    }
  }

  lemma {:induction false} DecimalInjective(m: nat, n: nat)
    requires Decimal(m) == Decimal(n)
    ensures m == n
  {
    DecimalIsDigits(m / 10);
    DecimalIsDigits(n / 10);
    if m >= 10 && n >= 10 {
      var s, t := Decimal(m / 10), Decimal(n / 10);
      assert s == Decimal(m)[..|Decimal(m)| - 1];
      assert t == Decimal(n)[..|Decimal(n)| - 1];
      DecimalInjective(m / 10, n / 10);
      assert Decimal(m)[|Decimal(m)| - 1] == Digit(m % 10);
      assert Decimal(n)[|Decimal(n)| - 1] == Digit(n % 10);
    } else {
      assert Decimal(m)[|Decimal(m)| - 1] == Digit(m % 10);
      assert Decimal(n)[|Decimal(n)| - 1] == Digit(n % 10);
    }
  }

  // What a call is for. `attempt` is 0 for a call outside any retry and k for the k-th attempt.
  datatype Kind = Switch | Brightness | Automation
  datatype Tag = Tag(index: nat, attempt: nat, kind: Kind)

  const PREFIX := "flow:"
  const ATTEMPT := ":attempt:"

  function Suffix(kind: Kind): string {
    match kind
    case Switch => ""
    case Brightness => ":brightness"
    case Automation => ":automation"
  }

  /** What follows the action index. */
  function Tail(attempt: nat, kind: Kind): string {
    if attempt == 0 then Suffix(kind) else ATTEMPT + (Decimal(attempt) + Suffix(kind))
  }

  /** The key sent with a call of run `run`. */
  function Key(run: string, tag: Tag): string {
    PREFIX + (run + ("/" + (Decimal(tag.index) + Tail(tag.attempt, tag.kind))))
  }

  /** How the keys read: the run and the action, the attempt within a retry, and what the call is for. */
  lemma KeyText(run: string, index: nat, attempt: nat, kind: Kind)
    ensures
      var action := "flow:" + run + "/" + Decimal(index);
      var tried := if attempt == 0 then action else action + ":attempt:" + Decimal(attempt);
      Key(run, Tag(index, attempt, kind))
      == tried + match kind case Switch => "" case Brightness => ":brightness" case Automation => ":automation"
  {
    AppendFour("flow:", run, "/", Decimal(index), Tail(attempt, kind));
    AppendFour("flow:" + run + "/" + Decimal(index), ":attempt:", Decimal(attempt), Suffix(kind), "");
  }

  lemma AppendFour(a: string, b: string, c: string, d: string, e: string)
    ensures a + (b + (c + (d + e))) == a + b + c + d + e
    ensures a + (b + (c + d)) == a + b + c + d
  {
  }

  /** Run identifiers are UUIDs: no slash occurs in them. */
  predicate IsRunId(run: string) {
    '/' !in run
  }

  lemma SuffixShape(k: Kind)
    ensures Suffix(k) == "" || Suffix(k)[0] == ':'
    ensures |Suffix(k)| > 2 ==> Suffix(k)[2] != ATTEMPT[2]
    ensures 0 < |Suffix(k)| ==> |Suffix(k)| > 2
  {
  }

  lemma SuffixInjective(k1: Kind, k2: Kind)
    requires Suffix(k1) == Suffix(k2)
    ensures k1 == k2
  {
    assert |Suffix(Switch)| == 0;
    assert Suffix(Brightness)[1] == 'b';
    assert Suffix(Automation)[1] == 'a';
  }

  lemma AppendCancel<T>(p: seq<T>, x: seq<T>, y: seq<T>)
    requires p + x == p + y
    ensures x == y
  {
    assert x == (p + x)[|p|..];
    assert y == (p + y)[|p|..];
  }

  /** Two texts cut at the first occurrence of the same separator have the same pieces. */
  lemma SplitUnique(a: string, x: string, b: string, y: string, separator: char)
    requires a + x == b + y
    requires separator !in a && separator !in b
    requires x == "" || x[0] == separator
    requires y == "" || y[0] == separator
    ensures a == b && x == y
  {
    var s := a + x;
    assert |a| < |s| ==> s[|a|] == separator;
    assert |b| < |s| ==> s[|b|] == separator;
    assert forall i :: 0 <= i < |a| ==> s[i] == a[i];
    assert forall i :: 0 <= i < |b| ==> s[i] == b[i];
    assert |a| == |b|;
    assert a == s[..|a|] && b == s[..|b|];
    AppendCancel(a, x, y);
  }

  lemma TailInjective(a1: nat, k1: Kind, a2: nat, k2: Kind)
    requires Tail(a1, k1) == Tail(a2, k2)
    ensures a1 == a2 && k1 == k2
  {
    SuffixShape(k1);
    SuffixShape(k2);
    var n: nat := |ATTEMPT|;
    assert a1 != 0 ==> |Tail(a1, k1)| >= n && Tail(a1, k1)[2] == ATTEMPT[2];
    assert a2 != 0 ==> |Tail(a2, k2)| >= n && Tail(a2, k2)[2] == ATTEMPT[2];
    assert (a1 == 0) == (a2 == 0);
    if a1 != 0 {
      AppendCancel(ATTEMPT, Decimal(a1) + Suffix(k1), Decimal(a2) + Suffix(k2));
      DecimalIsDigits(a1);
      DecimalIsDigits(a2);
      SplitUnique(Decimal(a1), Suffix(k1), Decimal(a2), Suffix(k2), ':');
      DecimalInjective(a1, a2);
    }
    SuffixInjective(k1, k2);
  }

  lemma TailShape(attempt: nat, kind: Kind)
    ensures Tail(attempt, kind) == "" || Tail(attempt, kind)[0] == ':'
  {
    SuffixShape(kind);
    assert ATTEMPT[0] == ':';
  }

  /** Keys are injective in the run, the action index, the attempt and the kind of call. */
  lemma KeyInjective(run1: string, t1: Tag, run2: string, t2: Tag)
    requires IsRunId(run1) && IsRunId(run2)
    requires Key(run1, t1) == Key(run2, t2)
    ensures run1 == run2 && t1 == t2
  {
    var s1, s2 := Tail(t1.attempt, t1.kind), Tail(t2.attempt, t2.kind);
    var r1, r2 := Decimal(t1.index) + s1, Decimal(t2.index) + s2;
    AppendCancel(PREFIX, run1 + ("/" + r1), run2 + ("/" + r2));
    SplitUnique(run1, "/" + r1, run2, "/" + r2, '/');
    AppendCancel("/", r1, r2);
    DecimalIsDigits(t1.index);
    DecimalIsDigits(t2.index);
    TailShape(t1.attempt, t1.kind);
    TailShape(t2.attempt, t2.kind);
    SplitUnique(Decimal(t1.index), s1, Decimal(t2.index), s2, ':');
    DecimalInjective(t1.index, t2.index);
    TailInjective(t1.attempt, t1.kind, t2.attempt, t2.kind);
  }
}
