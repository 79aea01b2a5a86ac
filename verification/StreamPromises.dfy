// What a subscriber of the event stream is promised, over every run of the hand-over and the broadcast.
module StreamPromises {
  import opened Collections
  import opened Reachability
  import opened EventFeed
  import opened EventStream

  lemma DueIsDistinct(s: State)
    requires Valid(s.feed) && BoundsFit(s)
    ensures Distinct(Due(s))
  {
    var c := s.client;
    var taken := s.feed.published[c.start..c.position];
    assert forall i, j :: 0 <= i < j < |taken| ==>
      taken[i] == s.feed.published[c.start + i] && taken[j] == s.feed.published[c.start + j];
    FilteredDistinct(s.feed.topics, c.topics, 0, Numbers(ReplayFrom(c), c.cursor));
    FilteredDistinct(s.feed.topics, c.topics, c.cursor, taken);
    var replayed, live := Matching(s.feed.topics, c.topics, ReplayFrom(c), c.cursor),
                          Filtered(s.feed.topics, c.topics, c.cursor, taken);
    forall n | n in replayed
      ensures n !in live
    {
      FilteredHas(s.feed.topics, c.topics, 0, Numbers(ReplayFrom(c), c.cursor), n);
      FilteredHas(s.feed.topics, c.topics, c.cursor, taken, n);
    }
    DistinctConcat(replayed, live);
  }

  /** In whatever order events are published, none is sent twice, and only wanted events after the
      cursor of the subscriber are sent. */
  lemma SentOnce(s: State)
    requires Reachable(s)
    ensures Distinct(s.client.sent)
    ensures forall n :: n in s.client.sent ==>
      n > s.client.after && 1 <= n <= |s.feed.topics| && s.feed.topics[n - 1] in s.client.topics
  {
    ReachableFits(s);
    DueIsDistinct(s);
    var c := s.client;
    assert c.sent <= Due(s);
    DistinctPrefix(c.sent, Due(s));
    forall n | n in c.sent
      ensures n > c.after && Wanted(s.feed.topics, c.topics, n)
    {
      assert n in Due(s);
      FilteredHas(s.feed.topics, c.topics, 0, Numbers(ReplayFrom(c), c.cursor), n);
      FilteredHas(s.feed.topics, c.topics, c.cursor, s.feed.published[c.start..c.position], n);
      assert c.cursor >= c.after;
    }
  }

  /** In whatever order events are published, a wanted event the journal still held at the replay is
      never passed over: it was sent, is held, or is still to come from the broadcast. */
  lemma NothingPassedOver(s: State, n: nat)
    requires Reachable(s) && (s.client.phase.Replaying? || s.client.phase.Live?)
    requires 1 <= n <= |s.feed.topics| && s.feed.topics[n - 1] in s.client.topics
    requires n > s.client.after && n > s.client.purgedAtReplay
    ensures s.client.position <= |s.feed.published|
    ensures || n in s.client.sent || n in Held(s.client.phase)
            || n in s.feed.published[s.client.position..] || n !in s.feed.published
  {
    ReachableFits(s);
    if n <= s.client.cursor {
      ReplayedIsDue(s, n);
    } else if i :| 0 <= i < |s.feed.published| && s.feed.published[i] == n {
      if i >= s.client.position {
        TailHas(s.feed.published, s.client.position, i);
      } else {
        TakenIsDue(s, i);
      }
    }
    assert n in Due(s) ==> n in s.client.sent + Held(s.client.phase);
  }

  lemma ReplayedIsDue(s: State, n: nat)
    requires Fits(s) && Wanted(s.feed.topics, s.client.topics, n) && ReplayFrom(s.client) < n <= s.client.cursor
    ensures n in Due(s)
  {
    var c := s.client;
    FilteredHas(s.feed.topics, c.topics, 0, Numbers(ReplayFrom(c), c.cursor), n);
    assert Numbers(ReplayFrom(c), c.cursor)[n - ReplayFrom(c) - 1] == n;
  }

  lemma TakenIsDue(s: State, i: nat)
    requires Fits(s) && s.client.joined && i < s.client.position
    requires
      var n := s.feed.published[i];
      n > s.client.cursor && n > ReplayFrom(s.client) && Wanted(s.feed.topics, s.client.topics, n)
    ensures s.feed.published[i] in Due(s)
  {
    var c := s.client;
    var taken := s.feed.published[c.start..c.position];
    assert i >= c.start;
    assert taken[i - c.start] == s.feed.published[i];
    FilteredHas(s.feed.topics, c.topics, c.cursor, taken, s.feed.published[i]);
  }

  lemma BaseInOrder(s: State)
    requires Fits(s) && s.client.joined && InOrder(s.feed)
    ensures s.client.after <= s.client.base <= Max(s.client.after, s.client.purgedAtReplay)
    ensures ReplayFrom(s.client) < s.client.cursor ==>
      s.client.base == ReplayFrom(s.client) && s.client.start <= s.client.cursor
  {
    var c := s.client;
    assert c.start > 0 ==> s.feed.published[c.start - 1] == c.start;
  }

  /** Consecutive numbers taken after the replay continue it. */
  lemma ReplayContinues(topics: seq<string>, wanted: set<string>, from: nat, cursor: nat, start: nat, position: nat)
    ensures from < cursor && start <= cursor ==>
      Matching(topics, wanted, from, cursor) + Matching(topics, wanted, Max(cursor, start), position)
      == Matching(topics, wanted, from, Max(cursor, position))
    ensures cursor <= from ==>
      Matching(topics, wanted, from, cursor) + Matching(topics, wanted, Max(cursor, start), position)
      == Matching(topics, wanted, Max(cursor, start), Max(cursor, position))
  {
    if from < cursor <= position {
      MatchingSplit(topics, wanted, from, cursor, position);
    }
    assert position <= cursor ==> Matching(topics, wanted, Max(cursor, start), position) == [];
    assert cursor <= from ==> Matching(topics, wanted, from, cursor) == [];
  }

  lemma DueInOrder(s: State)
    requires Fits(s) && s.client.joined && InOrder(s.feed)
    ensures Due(s) == Matching(s.feed.topics, s.client.topics, s.client.base, Max(s.client.cursor, s.client.position))
  {
    var c := s.client;
    assert s.feed.published[c.start..c.position] == Numbers(c.start, c.position);
    FilteredNumbers(s.feed.topics, c.topics, c.cursor, c.start, c.position);
    BaseInOrder(s);
    ReplayContinues(s.feed.topics, c.topics, ReplayFrom(c), c.cursor, c.start, c.position);
  }

  /** What was sent ends where it ends: it is every wanted event up to its last. */
  lemma {:induction false} PrefixEndsAtLast(topics: seq<string>, wanted: set<string>, from: nat, end: nat, sent: seq<nat>)
    requires sent != [] && sent <= Matching(topics, wanted, from, end)
    ensures from < sent[|sent| - 1] <= end && sent == Matching(topics, wanted, from, sent[|sent| - 1])
    decreases end
  {
    if from < end {
      MatchingStep(topics, wanted, from, end);
      if sent != Matching(topics, wanted, from, end) || !Wanted(topics, wanted, end) {
        PrefixEndsAtLast(topics, wanted, from, end - 1, sent);
      }
    }
  }

  // ----- In turn -----

  /** The last of the wanted events, or `edge` if there is none. */
  function EdgeAfter(topics: seq<string>, wanted: set<string>, above: nat, edge: nat, events: seq<nat>): nat {
    var taken := Filtered(topics, wanted, above, events);
    if taken == [] then edge else taken[|taken| - 1]
  }

  /** Each wanted event above `above` is, when it comes, the next wanted one. */
  predicate ComesInTurn(topics: seq<string>, wanted: set<string>, above: nat, edge: nat, events: seq<nat>) {
    events == [] ||
    var fewer, n := AllButLast(events), events[|events| - 1];
    && ComesInTurn(topics, wanted, above, edge, fewer)
    && (n > above && Wanted(topics, wanted, n) ==>
          Matching(topics, wanted, EdgeAfter(topics, wanted, above, edge, fewer), n) == [n])
  }

  lemma {:induction false} InTurnFollows(topics: seq<string>, wanted: set<string>, above: nat, edge: nat, events: seq<nat>)
    requires ComesInTurn(topics, wanted, above, edge, events) && edge <= |topics|
    ensures
      var last := EdgeAfter(topics, wanted, above, edge, events);
      edge <= last <= |topics| && Filtered(topics, wanted, above, events) == Matching(topics, wanted, edge, last)
  {
    if events != [] {
      var fewer, n := AllButLast(events), events[|events| - 1];
      InTurnFollows(topics, wanted, above, edge, fewer);
      var last := EdgeAfter(topics, wanted, above, edge, fewer);
      if n > above && Wanted(topics, wanted, n) {
        assert last < n;
        MatchingSplit(topics, wanted, edge, last, n);
      }
    }
  }

  /** One more event keeps to the order of the journal exactly when it is the next wanted one. */
  lemma NextIffPrefix(topics: seq<string>, wanted: set<string>, edge: nat, last: nat, n: nat)
    requires edge <= last <= |topics| && Wanted(topics, wanted, n)
    ensures Matching(topics, wanted, last, n) == [n]
       <==> Matching(topics, wanted, edge, last) + [n] <= Matching(topics, wanted, edge, |topics|)
  {
    var before := Matching(topics, wanted, edge, last);
    if Matching(topics, wanted, last, n) == [n] {
      MatchingSplit(topics, wanted, edge, last, n);
      MatchingSplit(topics, wanted, edge, n, |topics|);
    }
    if before + [n] <= Matching(topics, wanted, edge, |topics|) {
      PrefixEndsAtLast(topics, wanted, edge, |topics|, before + [n]);
      if n <= last {
        MatchingSplit(topics, wanted, edge, n, last);
      } else {
        MatchingSplit(topics, wanted, edge, last, n);
      }
    }
  }

  /** The wanted events are the first so many above `edge` exactly when each comes in turn. */
  lemma {:induction false} PrefixIffInTurn(topics: seq<string>, wanted: set<string>, above: nat, edge: nat, events: seq<nat>)
    requires edge <= |topics|
    ensures Filtered(topics, wanted, above, events) <= Matching(topics, wanted, edge, |topics|)
       <==> ComesInTurn(topics, wanted, above, edge, events)
  {
    if events != [] {
      var fewer, n := AllButLast(events), events[|events| - 1];
      PrefixIffInTurn(topics, wanted, above, edge, fewer);
      if n > above && Wanted(topics, wanted, n) && ComesInTurn(topics, wanted, above, edge, fewer) {
        InTurnFollows(topics, wanted, above, edge, fewer);
        NextIffPrefix(topics, wanted, edge, EdgeAfter(topics, wanted, above, edge, fewer), n);
      }
    }
  }

  /** Where the replay ends, and the events taken from the broadcast must go on. */
  function Edge(c: Subscriber): nat {
    Max(c.base, c.cursor)
  }

  /** What the producer took from the broadcast. */
  function Taken(s: State): seq<nat> {
    if s.client.start <= s.client.position <= |s.feed.published|
    then s.feed.published[s.client.start..s.client.position] else []
  }

  /** Each wanted event above the cursor that the producer took was the next wanted one. */
  predicate TakenInTurn(s: State) {
    ComesInTurn(s.feed.topics, s.client.topics, s.client.cursor, Edge(s.client), Taken(s))
  }

  /** The last number of what is due. */
  function LastDue(s: State): nat {
    EdgeAfter(s.feed.topics, s.client.topics, s.client.cursor, Edge(s.client), Taken(s))
  }

  lemma DueFromBase(s: State)
    requires Fits(s) && s.client.joined
    ensures s.client.after <= s.client.base
    ensures Due(s) == Matching(s.feed.topics, s.client.topics, s.client.base, Edge(s.client))
                      + Filtered(s.feed.topics, s.client.topics, s.client.cursor, Taken(s))
  {
  }

  lemma PrefixAfter<T>(a: seq<T>, b: seq<T>, c: seq<T>)
    ensures a + b <= a + c <==> b <= c
  {
    assert b <= c ==> c == b + c[|b|..];
    assert (a + b)[|a|..] == b && (a + c)[|a|..] == c;
  }

  lemma BaseIsBounded(s: State)
    requires Fits(s) && s.client.joined
    ensures Edge(s.client) <= |s.feed.topics|
  {
    PublishedIsBounded(s.feed);
  }

  /** In whatever order events are published, what was sent and is held is the first so many wanted
      events above `base` exactly when each wanted event above the cursor that the producer took was
      the next wanted one. */
  lemma SentIsPrefixIff(s: State)
    requires Reachable(s) && (s.client.phase.Replaying? || s.client.phase.Live?)
    ensures s.client.sent + Held(s.client.phase)
            <= Matching(s.feed.topics, s.client.topics, s.client.base, |s.feed.topics|)
       <==> TakenInTurn(s)
  {
    ReachableFits(s);
    DueFromBase(s);
    BaseIsBounded(s);
    var c, topics := s.client, s.feed.topics;
    MatchingSplit(topics, c.topics, c.base, Edge(c), |topics|);
    PrefixIffInTurn(topics, c.topics, c.cursor, Edge(c), Taken(s));
    PrefixAfter(
      Matching(topics, c.topics, c.base, Edge(c)), Filtered(topics, c.topics, c.cursor, Taken(s)),
      Matching(topics, c.topics, Edge(c), |topics|));
  }

  /** What is due when events come in turn. */
  lemma DueInTurn(s: State)
    requires Fits(s) && s.client.joined && TakenInTurn(s)
    ensures s.client.base <= LastDue(s) <= |s.feed.topics|
    ensures Due(s) == Matching(s.feed.topics, s.client.topics, s.client.base, LastDue(s))
  {
    var c, topics := s.client, s.feed.topics;
    DueFromBase(s);
    BaseIsBounded(s);
    InTurnFollows(topics, c.topics, c.cursor, Edge(c), Taken(s));
    MatchingSplit(topics, c.topics, c.base, Edge(c), LastDue(s));
  }

  /** What has been sent at any moment, also after the connection was closed. */
  lemma SentIsPrefix(s: State)
    requires Reachable(s) && (s.client.joined ==> TakenInTurn(s))
    ensures s.client.sent <= Matching(s.feed.topics, s.client.topics, s.client.base, |s.feed.topics|)
  {
    ReachableFits(s);
    var c := s.client;
    if c.joined {
      DueInTurn(s);
      MatchingSplit(s.feed.topics, c.topics, c.base, LastDue(s), |s.feed.topics|);
      assert c.sent <= Due(s);
    }
  }

  /** Publication in the order of the journal is enough for events to come in turn, and then nothing
      lies between the requested cursor and `base` but events purged before the replay was read. */
  lemma InOrderComesInTurn(s: State)
    requires Reachable(s) && InOrder(s.feed) && s.client.joined
    ensures TakenInTurn(s)
    ensures s.client.after <= s.client.base <= Max(s.client.after, s.client.purgedAtReplay)
  {
    ReachableFits(s);
    DueFromBase(s);
    BaseIsBounded(s);
    BaseInOrder(s);
    DueInOrder(s);
    InOrderStaysBehind(s.feed);
    var c, topics := s.client, s.feed.topics;
    var upTo := Max(c.cursor, c.position);
    MatchingSplit(topics, c.topics, c.base, upTo, |topics|);
    MatchingSplit(topics, c.topics, c.base, Edge(c), |topics|);
    PrefixIffInTurn(topics, c.topics, c.cursor, Edge(c), Taken(s));
    PrefixAfter(
      Matching(topics, c.topics, c.base, Edge(c)), Filtered(topics, c.topics, c.cursor, Taken(s)),
      Matching(topics, c.topics, Edge(c), |topics|));
  }

  // ----- Purges during the hand-over -----

  predicate NoneWanted(s: State, from: nat, upTo: nat) {
    forall n :: from < n <= upTo ==> !Wanted(s.feed.topics, s.client.topics, n)
  }

  lemma {:induction false} NoneWantedIffEmpty(s: State, from: nat, upTo: nat)
    ensures NoneWanted(s, from, upTo) <==> Matching(s.feed.topics, s.client.topics, from, upTo) == []
  {
    if from < upTo {
      NoneWantedIffEmpty(s, from, upTo - 1);
      MatchingStep(s.feed.topics, s.client.topics, from, upTo);
    }
  }

  /** A subscriber misses nothing after its cursor, up to the last event it was given, exactly when no
      wanted number lies between its cursor and `base`. */
  lemma CursorIsResumedIff(s: State)
    requires Reachable(s) && (s.client.phase.Replaying? || s.client.phase.Live?)
    requires TakenInTurn(s)
    ensures s.client.sent + Held(s.client.phase)
            == Matching(s.feed.topics, s.client.topics, s.client.after, LastDue(s))
       <==> NoneWanted(s, s.client.after, s.client.base)
  {
    ReachableFits(s);
    DueFromBase(s);
    DueInTurn(s);
    MatchingSplit(s.feed.topics, s.client.topics, s.client.after, s.client.base, LastDue(s));
    NoneWantedIffEmpty(s, s.client.after, s.client.base);
  }

  /** When the replay found a row, the numbers that can be missing are those purged before it was read. */
  lemma BaseIsPurged(s: State)
    requires Reachable(s) && s.client.joined && s.client.cursor > s.client.after
    ensures s.client.base == Max(s.client.after, s.client.purgedAtReplay)
    ensures NoneWanted(s, s.client.after, s.client.base) <==> NoneWanted(s, s.client.after, s.client.purgedAtReplay)
  {
    ReachableFits(s);
  }

  /** What was sent is a first part of the wanted events after the cursor if none of them was purged
      before the replay was read, in particular if a nonzero cursor was accepted and nothing was purged
      during the hand-over. */
  lemma CursorIsResumed(s: State)
    requires Reachable(s) && InOrder(s.feed) && s.client.joined
    requires || NoneWanted(s, s.client.after, s.client.purgedAtReplay)
             || (s.client.after != 0 && s.client.purgedAtLatest == s.client.purgedAtReplay)
    ensures NoneWanted(s, s.client.after, s.client.base)
    ensures s.client.sent <= Matching(s.feed.topics, s.client.topics, s.client.after, |s.feed.topics|)
  {
    ReachableFits(s);
    InOrderComesInTurn(s);
    SentIsPrefix(s);
    BaseIsBounded(s);
    NoneWantedIffEmpty(s, s.client.after, s.client.base);
    MatchingSplit(s.feed.topics, s.client.topics, s.client.after, s.client.base, |s.feed.topics|);
  }

  /** A client that loses its connection and subscribes again from the last event it was sent has been
      given, over both connections, every wanted event up to the last, exactly when no wanted number
      lies between its new cursor and the new `base`. */
  lemma ReconnectionContinuesIff(first: State, second: State)
    requires Reachable(first) && Reachable(second) && Extends(first.feed, second.feed)
    requires first.client.sent != [] && second.client.topics == first.client.topics
    requires TakenInTurn(first)
    requires second.client.after == first.client.sent[|first.client.sent| - 1]
    requires second.client.phase.Replaying? || second.client.phase.Live?
    requires TakenInTurn(second)
    ensures first.client.sent + (second.client.sent + Held(second.client.phase))
            == Matching(second.feed.topics, first.client.topics, first.client.base, LastDue(second))
       <==> NoneWanted(second, second.client.after, second.client.base)
  {
    FirstEndsAtCursor(first, second);
    ReachableFits(second);
    DueFromBase(second);
    DueInTurn(second);
    CursorIsResumedIff(second);
    var topics, wanted, after := second.feed.topics, first.client.topics, second.client.after;
    MatchingSplit(topics, wanted, first.client.base, after, LastDue(second));
    SameAfter(
      first.client.sent, second.client.sent + Held(second.client.phase), Matching(topics, wanted, after, LastDue(second)));
  }

  lemma FirstEndsAtCursor(first: State, second: State)
    requires Reachable(first) && Extends(first.feed, second.feed) && first.client.sent != [] && TakenInTurn(first)
    requires second.client.after == first.client.sent[|first.client.sent| - 1]
    ensures first.client.base <= second.client.after
    ensures first.client.sent == Matching(second.feed.topics, first.client.topics, first.client.base, second.client.after)
  {
    var wanted, base := first.client.topics, first.client.base;
    SentIsPrefix(first);
    MatchingStays(first.feed.topics, second.feed.topics, wanted, base, |first.feed.topics|);
    PrefixEndsAtLast(second.feed.topics, wanted, base, |first.feed.topics|, first.client.sent);
  }

  lemma SameAfter<T>(a: seq<T>, b: seq<T>, c: seq<T>)
    ensures a + b == a + c <==> b == c
  {
    assert (a + b)[|a|..] == b && (a + c)[|a|..] == c;
  }

  lemma ReachesFurther(s: State, action: Action) returns (t: State)
    requires Reachable(s) && Possible(s, action)
    ensures t == Step(s, action) && Reachable(t)
  {
    t := Step(s, action);
    var feed, topics, after :| Valid(feed) && Reaches(Steps(), Subscribe(feed, topics, after), s);
    ReachesOn(Steps(), Subscribe(feed, topics, after), s, action, t);
  }

  lemma JoinsEmptyFeed(topic: string) returns (s: State)
    ensures Reachable(s) && s.feed == NEW && s.client.phase == Live([], true)
    ensures s.client.topics == {topic} && s.client.position == s.client.cursor == 0 && s.client.sent == []
  {
    var start := Subscribe(NEW, {topic}, 0);
    LeadsNowhere(Steps(), start);
    s := ReachesFurther(start, ReadLatest);
    s := ReachesFurther(s, ReadEarliest);
    s := ReachesFurther(s, ReadReplay);
    s := ReachesFurther(s, GoLive);
  }

  lemma IsPassedOn(s: State, n: nat) returns (t: State)
    requires Reachable(s) && s.client.phase == Live([], true) && s.client.position < |s.feed.published| < 512
    requires s.feed.published[s.client.position] == n
    requires n > s.client.cursor && Wanted(s.feed.topics, s.client.topics, n)
    ensures Reachable(t) && t.feed == s.feed
    ensures t.client == s.client.(position := s.client.position + 1, sent := s.client.sent + [n])
  {
    t := ReachesFurther(s, Produce);
    assert t.client == s.client.(position := s.client.position + 1, phase := Live([] + [n], true));
    assert ([] + [n])[1..] == [];
    t := ReachesFurther(t, Consume);
  }

  /** Publication out of order is passed on as it is: the promise above needs its condition. */
  lemma LatePublicationReorders(topic: string) returns (s: State)
    ensures Reachable(s) && s.client.topics == {topic} && s.feed.topics == [topic, topic] && s.client.sent == [2, 1]
  {
    s := JoinsEmptyFeed(topic);
    s := ReachesFurther(s, Other(Commit(topic)));
    s := ReachesFurther(s, Other(Commit(topic)));
    s := ReachesFurther(s, Other(Publish(2)));
    s := ReachesFurther(s, Other(Publish(1)));
    s := IsPassedOn(s, 2);
    s := IsPassedOn(s, 1);
  }

  lemma PurgeAfterChecks(topic: string) returns (s: State)
    ensures Reachable(s) && s.feed == Feed([topic, topic, topic], 2, [1, 2, 3])
    ensures s.client == Subscribe(Feed([topic, topic, topic], 0, [1, 2, 3]), {topic}, 1).client.(phase := Accepted)
  {
    var feed := Feed([topic, topic, topic], 0, [1, 2, 3]);
    var start := Subscribe(feed, {topic}, 1);
    LeadsNowhere(Steps(), start);
    assert Valid(feed);
    s := ReachesFurther(start, ReadLatest);
    s := ReachesFurther(s, ReadEarliest);
    s := ReachesFurther(s, Other(Purge(2)));
  }

  lemma PurgeBeforeReplay(topic: string) returns (s: State)
    ensures Reachable(s) && s.client.phase == Replaying([3]) && s.client.sent == []
    ensures s.feed == Feed([topic, topic, topic], 2, [1, 2, 3])
    ensures s.client.topics == {topic} && s.client.after == 1 && s.client.base == s.client.purgedAtReplay == 2
  {
    s := PurgeAfterChecks(topic);
    assert EventsAfter(s.feed, 1, REPLAY_LIMIT + 1) == [3];
    FilteredStep(s.feed.topics, {topic}, 0, [], 3);
    assert [] + [3] == [3];
    s := ReachesFurther(s, ReadReplay);
  }

  /** A purge between the check of the cursor and the replay leaves a gap after an accepted cursor. */
  lemma PurgeDuringHandOverLeavesGap(topic: string) returns (s: State)
    ensures Reachable(s) && s.client.after == 1 && s.client.sent == [3]
    ensures Wanted(s.feed.topics, s.client.topics, 2) && s.feed.published == [1, 2, 3]
  {
    s := PurgeBeforeReplay(topic);
    s := ReachesFurther(s, SendReplayed);
  }

  lemma PurgeBeforePublication(topic: string) returns (s: State)
    ensures Reachable(s) && s.feed == Feed([topic], 1, []) && s.client.phase == Live([], true)
    ensures s.client.topics == {topic} && s.client.after == 0 && s.client.purgedAtReplay == 1
    ensures s.client.position == s.client.cursor == 0 && s.client.sent == []
  {
    var feed := Feed([topic], 0, []);
    var start := Subscribe(feed, {topic}, 0);
    LeadsNowhere(Steps(), start);
    assert Valid(feed);
    s := ReachesFurther(start, ReadLatest);
    s := ReachesFurther(s, ReadEarliest);
    s := ReachesFurther(s, Other(Purge(1)));
    s := ReachesFurther(s, ReadReplay);
    s := ReachesFurther(s, GoLive);
  }

  /** A number purged before the replay is not always missing: it may still be published. */
  lemma PurgedIsStillSent(topic: string) returns (s: State)
    ensures Reachable(s) && s.client.after == 0 && s.client.purgedAtReplay == 1 && s.client.sent == [1]
    ensures Wanted(s.feed.topics, s.client.topics, 1)
  {
    s := PurgeBeforePublication(topic);
    s := ReachesFurther(s, Other(Publish(1)));
    s := IsPassedOn(s, 1);
  }
}
