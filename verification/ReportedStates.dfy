// What the store holds for one property of one entity after any sequence of reports.
module ReportedStates {
  import opened Wrappers
  import opened Journal

  datatype Report = Report(state: ReportedState, receivedAt: int)

  function AfterReport(current: Option<StateProperty>, report: Report): Option<StateProperty> {
    if Refuses(current, report.state) then current else Some(Accepted(current, report.state, report.receivedAt))
  }

  function AfterReports(reports: seq<Report>): Option<StateProperty> {
    if reports == [] then None
    else AfterReport(AfterReports(reports[..|reports| - 1]), reports[|reports| - 1])
  }

  /** Report `i` has the greatest source time, and arrived last of those that do. */
  predicate Wins(reports: seq<Report>, i: nat) {
    && i < |reports|
    && (forall j :: 0 <= j < |reports| ==> reports[j].state.sourceAt <= reports[i].state.sourceAt)
    && forall j :: i < j < |reports| ==> reports[j].state.sourceAt < reports[i].state.sourceAt
  }

  predicate Holds(stored: Option<StateProperty>, report: Report) {
    && stored.Some?
    && stored.value.value == report.state.value
    && stored.value.sourceAt == report.state.sourceAt
    && stored.value.receivedAt == report.receivedAt
  }

  /** After any sequence of reports, the one with the greatest source time is stored, the last to arrive
      if there are several. */
  lemma {:induction false} StoredIsLatest(reports: seq<Report>, i: nat)
    requires Wins(reports, i)
    ensures Holds(AfterReports(reports), reports[i])
  {
    var last := |reports| - 1;
    var fewer := reports[..last];
    assert forall j :: 0 <= j < last ==> fewer[j] == reports[j];
    if i < last {
      assert Wins(fewer, i);
      StoredIsLatest(fewer, i);
    } else if fewer != [] {
      var k := WinnerOf(fewer);
      StoredIsLatest(fewer, k);
      assert reports[k].state.sourceAt <= reports[i].state.sourceAt;
    }
  }

  lemma {:induction false} WinnerOf(reports: seq<Report>) returns (i: nat)
    requires reports != []
    ensures Wins(reports, i)
  {
    var last := |reports| - 1;
    var fewer := reports[..last];
    assert forall j :: 0 <= j < last ==> fewer[j] == reports[j];
    i := last;
    if fewer != [] {
      var k := WinnerOf(fewer);
      if reports[k].state.sourceAt > reports[last].state.sourceAt {
        i := k;
      }
    }
  }

  predicate DistinctTimes(reports: seq<Report>) {
    forall i, j :: 0 <= i < j < |reports| ==> reports[i].state.sourceAt != reports[j].state.sourceAt
  }

  /** Reports with distinct source times converge: in whatever order the same reports arrive, the same
      value with the same source time is stored. */
  lemma OrderDoesNotMatter(reports: seq<Report>, others: seq<Report>)
    requires multiset(reports) == multiset(others) && DistinctTimes(reports) && reports != []
    ensures AfterReports(reports).Some? && AfterReports(others).Some?
    ensures AfterReports(reports).value.value == AfterReports(others).value.value
    ensures AfterReports(reports).value.sourceAt == AfterReports(others).value.sourceAt
  {
    assert reports[0] in multiset(others);
    var i := WinnerOf(reports);
    var j := WinnerOf(others);
    StoredIsLatest(reports, i);
    StoredIsLatest(others, j);
    assert reports[i] in multiset(others) && others[j] in multiset(reports);
    var k :| 0 <= k < |others| && others[k] == reports[i];
    var m :| 0 <= m < |reports| && reports[m] == others[j];
    assert m != i ==> reports[m].state.sourceAt != reports[i].state.sourceAt;
  }

  function AcceptedCount(reports: seq<Report>): nat {
    if reports == [] then 0
    else
      var fewer := reports[..|reports| - 1];
      AcceptedCount(fewer) + if Refuses(AfterReports(fewer), reports[|reports| - 1].state) then 0 else 1
  }

  /** The version counts the accepted reports. */
  lemma {:induction false} VersionCountsAccepted(reports: seq<Report>)
    ensures AcceptedCount(reports) == if AfterReports(reports).Some? then AfterReports(reports).value.version else 0
  {
    if reports != [] {
      VersionCountsAccepted(reports[..|reports| - 1]);
    }
  }

  /** The stored source time never decreases, nor does the version. */
  lemma {:induction false} SourceTimeNeverDecreases(reports: seq<Report>, more: seq<Report>)
    requires reports != []
    ensures AfterReports(reports).Some? && AfterReports(reports + more).Some?
    ensures AfterReports(reports).value.sourceAt <= AfterReports(reports + more).value.sourceAt
    ensures AfterReports(reports).value.version <= AfterReports(reports + more).value.version
  {
    if more == [] {
      assert reports + more == reports;
    } else {
      var fewer := more[..|more| - 1];
      SourceTimeNeverDecreases(reports, fewer);
      assert (reports + more)[..|reports + more| - 1] == reports + fewer;
    }
  }

  // ----- Commands that time out -----

  /** A pass over at most `limit` rows leaves no stale command open exactly when every stale command is
      among the first `limit` rows, whatever the status of the rows before it. */
  lemma ExpiryIsCompleteIff(commands: seq<Command>, before: int, limit: nat)
    ensures (forall i :: 0 <= i < |commands| ==> !Stale(ExpiredBefore(commands, before, limit)[i], before))
       <==> forall i :: 0 <= i < |commands| && Stale(commands[i], before) ==> i < limit
  {
    var after := ExpiredBefore(commands, before, limit);
    forall i | 0 <= i < |commands|
      ensures Stale(after[i], before) <==> i >= limit && Stale(commands[i], before)
    {
    }
  }
}
