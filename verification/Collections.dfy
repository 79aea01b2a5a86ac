// Facts about sequences and sets used by several modules.
module Collections {

  function AllButLast<T>(s: seq<T>): seq<T>
    requires s != []
  {
    s[..|s| - 1]
  }

  lemma Associative<T>(a: seq<T>, b: seq<T>, c: seq<T>)
    ensures (a + b) + c == a + (b + c)
  {
  }

  lemma SubsetIsSmaller<T>(a: set<T>, b: set<T>)
    requires a <= b
    ensures |a| <= |b|
  {
    assert b == a + (b - a);
  }

  lemma {:induction false} SizeByInjection<S, T>(positions: set<S>, targets: set<T>, f: S -> T)
    requires forall i :: i in positions ==> f(i) in targets
    requires forall i, j :: i in positions && j in positions && f(i) == f(j) ==> i == j
    ensures |positions| <= |targets|
  {
    if positions != {} {
      var i :| i in positions;
      SizeByInjection(positions - {i}, targets - {f(i)}, f);
    }
  }

  lemma HeadIsIn<T>(s: seq<T>)
    ensures s != [] ==> s[0] in s
  {
  }

  lemma TailHas<T>(s: seq<T>, from: nat, i: nat)
    requires from <= i < |s|
    ensures s[i] in s[from..]
  {
    assert s[from..][i - from] == s[i];
  }

  lemma DistinctBelow(numbers: seq<int>, bound: nat)
    requires forall i :: 0 <= i < |numbers| ==> 0 <= numbers[i] < bound
    requires forall i, j :: 0 <= i < j < |numbers| ==> numbers[i] != numbers[j]
    ensures |numbers| <= bound
  {
    SizeByInjection(NumbersBelow(|numbers|), NumbersBelow(bound), i => if 0 <= i < |numbers| then numbers[i] else -1);
  }

  function NumbersBelow(bound: nat): (r: set<int>)
    ensures |r| == bound
    ensures forall i :: i in r <==> 0 <= i < bound
  {
    if bound == 0 then {} else NumbersBelow(bound - 1) + {bound - 1}
  }
}
