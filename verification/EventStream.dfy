// One WebSocket subscriber: it is replayed the journal from its cursor, then follows the broadcast.
module EventStream {
  import opened Wrappers
  import opened Collections
  import opened Reachability
  import opened EventFeed

  const OUTBOUND_CAPACITY: nat := 128
  const REPLAY_LIMIT: nat := 500

  function SaturatingPred(n: nat): nat {
    if n == 0 then 0 else n - 1
  }

  predicate CursorIsOutsideRetention(after: nat, earliest: Option<nat>) {
    after != 0 && earliest.Some? && after < SaturatingPred(earliest.value)
  }

  /** Where the subscriber stands: it reads the bounds of the journal, the replay, sends the replay, and
      goes live. While it is live a producer moves events from the broadcast to the outbound queue. */
  datatype Phase =
    | Subscribed
    | BelowLatest
    | Accepted
    | Replaying(rest: seq<nat>)
    | Live(queue: seq<nat>, producing: bool)
    | Closed

  /** `cursor` is the one announced when the subscriber is ready, that is, once the replay is read and
      it has `joined`. The fields from `start` on are history: where the broadcast stood at the
      subscription, how far the journal was purged when the latest number and the replay were read, and
      the number above which events are sent. */
  datatype Subscriber = Subscriber(
    topics: set<string>,
    after: nat,
    phase: Phase,
    position: nat,
    cursor: nat,
    sent: seq<nat>,
    joined: bool,
    start: nat,
    purgedAtLatest: nat,
    purgedAtReplay: nat,
    base: nat)

  datatype State = State(feed: Feed, client: Subscriber)

  datatype Action =
    | Other(change: Change)
    | ReadLatest
    | ReadEarliest
    | ReadReplay
    | SendReplayed
    | GoLive
    | Produce
    | Consume
    | Close

  predicate Wanted(topics: seq<string>, wanted: set<string>, n: nat) {
    1 <= n <= |topics| && topics[n - 1] in wanted
  }

  /** The events above `above` with a wanted topic, in the order given. */
  function Filtered(topics: seq<string>, wanted: set<string>, above: nat, events: seq<nat>): seq<nat> {
    if events == [] then []
    else
      var n := events[|events| - 1];
      Filtered(topics, wanted, above, events[..|events| - 1]) + if n > above && Wanted(topics, wanted, n) then [n] else []
  }

  /** The wanted events of the journal above `from`, up to and including `to`. */
  function Matching(topics: seq<string>, wanted: set<string>, from: nat, to: nat): seq<nat> {
    Filtered(topics, wanted, 0, Numbers(from, to))
  }

  function Subscribe(feed: Feed, topics: set<string>, after: nat): State {
    State(feed, Subscriber(topics, after, Subscribed, |feed.published|, after, [], false, |feed.published|, 0, 0, after))
  }

  predicate Possible(s: State, action: Action) {
    match action
    case Other(change) => CanChange(s.feed, change)
    case ReadLatest => s.client.phase.Subscribed?
    case ReadEarliest => s.client.phase.BelowLatest?
    case ReadReplay => s.client.phase.Accepted?
    case SendReplayed => s.client.phase.Replaying? && s.client.phase.rest != []
    case GoLive => s.client.phase.Replaying? && s.client.phase.rest == []
    case Produce => s.client.phase.Live? && s.client.phase.producing && s.client.position < |s.feed.published|
    case Consume => s.client.phase.Live? && s.client.phase.queue != []
    case Close => true
  }

  function Step(s: State, action: Action): State
    requires Possible(s, action)
  {
    var c := s.client;
    match action
    case Other(change) => s.(feed := Changed(s.feed, change))
    case ReadLatest =>
      var phase := if c.after > Latest(s.feed) then Closed else BelowLatest;
      s.(client := c.(phase := phase, purgedAtLatest := s.feed.purged))
    case ReadEarliest =>
      var phase := if CursorIsOutsideRetention(c.after, Earliest(s.feed)) then Closed else Accepted;
      s.(client := c.(phase := phase))
    case ReadReplay => s.(client := Replayed(c, s.feed))
    case SendReplayed => s.(client := c.(sent := c.sent + [c.phase.rest[0]], phase := Replaying(c.phase.rest[1..])))
    case GoLive => s.(client := c.(phase := Live([], true)))
    case Produce => s.(client := Produced(c, s.feed))
    case Consume =>
      s.(client := c.(sent := c.sent + [c.phase.queue[0]], phase := Live(c.phase.queue[1..], c.phase.producing)))
    case Close => s.(client := c.(phase := Closed))
  }

  function Replayed(c: Subscriber, feed: Feed): Subscriber {
    var replay := EventsAfter(feed, c.after, REPLAY_LIMIT + 1);
    if |replay| > REPLAY_LIMIT then c.(phase := Closed)
    else
      c.(phase := Replaying(Filtered(feed.topics, c.topics, 0, replay)),
         joined := true,
         cursor := if replay == [] then c.after else replay[|replay| - 1],
         purgedAtReplay := feed.purged,
         base := if replay == [] then Max(c.after, c.start) else Max(c.after, feed.purged))
  }

  /** The producer takes one event from the broadcast. It stops, leaving the event, when it lags or when
      the outbound queue is full. */
  function Produced(c: Subscriber, feed: Feed): Subscriber
    requires c.phase.Live? && c.position < |feed.published|
  {
    var n := feed.published[c.position];
    var stopped := c.(phase := Live(c.phase.queue, false));
    if Lagged(feed, c.position) then stopped
    else if n > c.cursor && Wanted(feed.topics, c.topics, n) then
      if |c.phase.queue| >= OUTBOUND_CAPACITY then stopped
      else c.(position := c.position + 1, phase := Live(c.phase.queue + [n], true))
    else c.(position := c.position + 1)
  }

  predicate StepsTo(before: State, action: Action, after: State) {
    Possible(before, action) && after == Step(before, action)
  }

  ghost function Steps(): (State, Action, State) -> bool {
    (before, action, after) => StepsTo(before, action, after)
  }

  /** `s` is reached by a subscriber that joined a valid feed. */
  ghost predicate Reachable(s: State) {
    exists feed, topics, after :: Valid(feed) && Reaches(Steps(), Subscribe(feed, topics, after), s)
  }

  // ----- Retention -----

  predicate Purged(feed: Feed, n: nat) {
    1 <= n <= feed.purged
  }

  /** The check refuses exactly the nonzero cursors some later event of which was purged, provided that
      a row is left. */
  lemma OutsideIffLaterEventPurged(feed: Feed, after: nat)
    requires Valid(feed)
    ensures CursorIsOutsideRetention(after, Earliest(feed))
       <==> after != 0 && feed.purged < |feed.topics| && exists n :: after < n && Purged(feed, n)
  {
    if after < feed.purged {
      assert Purged(feed, feed.purged);
    }
  }

  /** Once every row is purged the check accepts any cursor, also one some later event of which is gone. */
  lemma FullyPurgedIsNotOutside(topic: string) returns (feed: Feed, after: nat)
    ensures Valid(feed) && after != 0 && Purged(feed, after + 1) && !CursorIsOutsideRetention(after, Earliest(feed))
  {
    feed, after := Feed([topic, topic], 2, []), 1;
  }

  /** The two checks together accept a nonzero cursor exactly when rows are left, the cursor was issued,
      and no later event was purged. */
  lemma AcceptedIffNothingMissing(feed: Feed, after: nat)
    requires Valid(feed) && after != 0
    ensures !(after > Latest(feed) || CursorIsOutsideRetention(after, Earliest(feed)))
       <==> feed.purged < |feed.topics| && after <= |feed.topics| && !exists n :: after < n && Purged(feed, n)
  {
    if after < feed.purged {
      assert Purged(feed, feed.purged);
    }
  }

  // ----- Filtering -----

  lemma FilteredStep(topics: seq<string>, wanted: set<string>, above: nat, events: seq<nat>, n: nat)
    ensures Filtered(topics, wanted, above, events + [n])
         == Filtered(topics, wanted, above, events) + if n > above && Wanted(topics, wanted, n) then [n] else []
  {
    assert (events + [n])[..|events|] == events;
  }

  lemma {:induction false} FilteredStays(
    topics: seq<string>, later: seq<string>, wanted: set<string>, above: nat, events: seq<nat>)
    requires topics <= later && forall i :: 0 <= i < |events| ==> 1 <= events[i] <= |topics|
    ensures Filtered(topics, wanted, above, events) == Filtered(later, wanted, above, events)
  {
    if events != [] {
      FilteredStays(topics, later, wanted, above, events[..|events| - 1]);
      assert 1 <= events[|events| - 1] <= |topics|;
    }
  }

  lemma {:induction false} FilteredConcat(topics: seq<string>, wanted: set<string>, above: nat, a: seq<nat>, b: seq<nat>)
    ensures Filtered(topics, wanted, above, a + b)
         == Filtered(topics, wanted, above, a) + Filtered(topics, wanted, above, b)
  {
    if b == [] {
      assert a + b == a;
    } else {
      var n := b[|b| - 1];
      FilteredConcat(topics, wanted, above, a, b[..|b| - 1]);
      assert b == b[..|b| - 1] + [n] && a + b == (a + b[..|b| - 1]) + [n];
      FilteredStep(topics, wanted, above, a + b[..|b| - 1], n);
    }
  }

  lemma {:induction false} FilteredHas(topics: seq<string>, wanted: set<string>, above: nat, events: seq<nat>, n: nat)
    ensures n in Filtered(topics, wanted, above, events) <==> n in events && n > above && Wanted(topics, wanted, n)
  {
    if events != [] {
      FilteredHas(topics, wanted, above, events[..|events| - 1], n);
      assert events == events[..|events| - 1] + [events[|events| - 1]];
    }
  }

  predicate Distinct(s: seq<nat>) {
    forall i, j :: 0 <= i < j < |s| ==> s[i] != s[j]
  }

  lemma {:induction false} FilteredDistinct(topics: seq<string>, wanted: set<string>, above: nat, events: seq<nat>)
    requires Distinct(events)
    ensures Distinct(Filtered(topics, wanted, above, events))
  {
    if events != [] {
      var fewer := events[..|events| - 1];
      FilteredDistinct(topics, wanted, above, fewer);
      FilteredHas(topics, wanted, above, fewer, events[|events| - 1]);
    }
  }

  lemma MatchingSplit(topics: seq<string>, wanted: set<string>, a: nat, b: nat, c: nat)
    requires a <= b <= c
    ensures Matching(topics, wanted, a, b) + Matching(topics, wanted, b, c) == Matching(topics, wanted, a, c)
  {
    NumbersSplit(a, b, c);
    FilteredConcat(topics, wanted, 0, Numbers(a, b), Numbers(b, c));
  }

  lemma MatchingStep(topics: seq<string>, wanted: set<string>, from: nat, to: nat)
    requires from < to
    ensures Matching(topics, wanted, from, to)
         == Matching(topics, wanted, from, to - 1) + if Wanted(topics, wanted, to) then [to] else []
  {
    FilteredStep(topics, wanted, 0, Numbers(from, to - 1), to);
  }

  /** A filter above `above` of consecutive numbers starts where the numbers pass it. */
  lemma {:induction false} FilteredNumbers(topics: seq<string>, wanted: set<string>, above: nat, from: nat, to: nat)
    ensures Filtered(topics, wanted, above, Numbers(from, to)) == Matching(topics, wanted, Max(above, from), to)
  {
    if from < to {
      FilteredNumbers(topics, wanted, above, from, to - 1);
      FilteredStep(topics, wanted, above, Numbers(from, to - 1), to);
      if above < to {
        MatchingStep(topics, wanted, Max(above, from), to);
      }
    }
  }

  lemma DistinctConcat(a: seq<nat>, b: seq<nat>)
    requires Distinct(a) && Distinct(b) && forall n :: n in a ==> n !in b
    ensures Distinct(a + b)
  {
    forall i, j | 0 <= i < j < |a + b|
      ensures (a + b)[i] != (a + b)[j]
    {
      assert i < |a| ==> a[i] in a;
      assert j >= |a| ==> b[j - |a|] in b;
    }
  }

  lemma DistinctPrefix(a: seq<nat>, b: seq<nat>)
    requires Distinct(b) && a <= b
    ensures Distinct(a)
  {
    assert forall i :: 0 <= i < |a| ==> a[i] == b[i];
  }

  // ----- What the subscriber has been given -----

  /** The first number of the replay is the one after this. */
  function ReplayFrom(c: Subscriber): nat {
    Max(c.after, c.purgedAtReplay)
  }

  /** The replay, and the part of the broadcast the producer has taken. */
  function Due(s: State): seq<nat>
    requires s.client.start <= s.client.position <= |s.feed.published|
  {
    var c := s.client;
    Matching(s.feed.topics, c.topics, ReplayFrom(c), c.cursor)
    + Filtered(s.feed.topics, c.topics, c.cursor, s.feed.published[c.start..c.position])
  }

  function Held(phase: Phase): seq<nat> {
    match phase
    case Replaying(rest) => rest
    case Live(queue, _) => queue
    case _ => []
  }

  /** The bounds read during the hand-over. */
  predicate BoundsFit(s: State) {
    var c := s.client;
    && c.start <= c.position <= |s.feed.published|
    && (c.phase.Live? || c.phase.Closed? || c.position == c.start)
    && (c.phase.Subscribed? || c.phase.Closed? || c.after <= |s.feed.topics|)
    && c.purgedAtLatest <= s.feed.purged
    && (c.phase.BelowLatest? && c.after != 0 && c.purgedAtLatest == s.feed.purged ==> s.feed.purged < |s.feed.topics|)
    && (c.phase.Accepted? && c.after != 0 && c.purgedAtLatest == s.feed.purged ==> c.purgedAtLatest <= c.after)
  }

  /** What the replay left: every event published before the subscription lies below it. */
  predicate ReplayFits(s: State)
    requires BoundsFit(s)
  {
    var c := s.client;
    && (c.joined ==>
          && ReplayFrom(c) <= |s.feed.topics| && c.cursor <= |s.feed.topics|
          && (forall i :: 0 <= i < c.start ==> s.feed.published[i] <= Max(ReplayFrom(c), c.cursor))
          && (if ReplayFrom(c) < c.cursor then c.base == ReplayFrom(c)
              else c.cursor == c.after && c.base == Max(c.after, c.start))
          && (c.after != 0 && c.purgedAtLatest == c.purgedAtReplay ==> c.purgedAtReplay <= c.after))
  }

  predicate SentFits(s: State)
    requires BoundsFit(s)
  {
    var c := s.client;
    match c.phase
    case Replaying(rest) => c.joined && c.sent + rest == Due(s)
    case Live(queue, _) => c.joined && c.sent + queue == Due(s) && |queue| <= OUTBOUND_CAPACITY
    case Closed => if c.joined then c.sent <= Due(s) else c.sent == []
    case _ => !c.joined && c.sent == []
  }

  predicate Fits(s: State) {
    Valid(s.feed) && BoundsFit(s) && ReplayFits(s) && SentFits(s)
  }

  lemma MatchingStays(topics: seq<string>, later: seq<string>, wanted: set<string>, from: nat, to: nat)
    requires topics <= later && to <= |topics|
    ensures Matching(topics, wanted, from, to) == Matching(later, wanted, from, to)
  {
    FilteredStays(topics, later, wanted, 0, Numbers(from, to));
  }

  lemma DueStays(s: State, later: Feed)
    requires Valid(s.feed) && BoundsFit(s) && s.client.cursor <= |s.feed.topics| && Extends(s.feed, later)
    ensures Due(s) == Due(s.(feed := later))
  {
    var c := s.client;
    var taken := s.feed.published[c.start..c.position];
    assert later.published[c.start..c.position] == taken;
    assert forall i :: 0 <= i < |taken| ==> taken[i] == s.feed.published[c.start + i];
    FilteredStays(s.feed.topics, later.topics, c.topics, c.cursor, taken);
    MatchingStays(s.feed.topics, later.topics, c.topics, ReplayFrom(c), c.cursor);
  }

  lemma OtherKeepsFits(s: State, change: Change)
    requires Fits(s) && CanChange(s.feed, change)
    ensures Fits(Step(s, Other(change)))
  {
    var later := Changed(s.feed, change);
    ChangeExtends(s.feed, change);
    if s.client.joined {
      DueStays(s, later);
      assert forall i :: 0 <= i < s.client.start ==> later.published[i] == s.feed.published[i];
    }
  }

  /** The rows read are the consecutive numbers up to the end of the journal. */
  lemma ReplayReads(c: Subscriber, feed: Feed)
    requires feed.purged <= |feed.topics| && Replayed(c, feed).phase.Replaying?
    ensures
      var from, d := Max(c.after, feed.purged), Replayed(c, feed);
      && d.phase.rest == Matching(feed.topics, c.topics, from, d.cursor)
      && (if from < |feed.topics| then d.cursor == |feed.topics| && d.base == from
          else d.cursor == c.after && d.base == Max(c.after, c.start))
  {
    var replay := EventsAfter(feed, c.after, REPLAY_LIMIT + 1);
    assert replay == Numbers(Max(c.after, feed.purged), |feed.topics|);
  }

  lemma ReplayKeepsFits(s: State)
    requires Fits(s) && s.client.phase.Accepted?
    ensures Fits(Step(s, ReadReplay))
  {
    var t := Step(s, ReadReplay);
    if t.client.phase.Replaying? {
      ReplayReads(s.client, s.feed);
      assert s.feed.published[t.client.start..t.client.position] == [];
      assert Due(t) == Held(t.client.phase);
    }
  }

  /** Taking one event from the broadcast makes it due if it is wanted and was not replayed. */
  lemma DueGrows(s: State, t: State)
    requires BoundsFit(s) && s.client.position < |s.feed.published| && t.feed == s.feed
    requires t.client == s.client.(position := s.client.position + 1, phase := t.client.phase)
    ensures
      var c, n := s.client, s.feed.published[s.client.position];
      Due(t) == Due(s) + if n > c.cursor && Wanted(s.feed.topics, c.topics, n) then [n] else []
  {
    var c := s.client;
    var n := s.feed.published[c.position];
    assert s.feed.published[c.start..c.position + 1] == s.feed.published[c.start..c.position] + [n];
    FilteredStep(s.feed.topics, c.topics, c.cursor, s.feed.published[c.start..c.position], n);
  }

  lemma TakeKeepsFits(s: State, t: State)
    requires Fits(s) && s.client.phase.Live? && s.client.position < |s.feed.published| && t.feed == s.feed
    requires t.client == s.client.(position := s.client.position + 1, phase := t.client.phase)
    requires
      var c, n := s.client, s.feed.published[s.client.position];
      var taken := n > c.cursor && Wanted(s.feed.topics, c.topics, n);
      && t.client.phase == Live(c.phase.queue + (if taken then [n] else []), true)
      && |t.client.phase.queue| <= OUTBOUND_CAPACITY
    ensures Fits(t)
  {
    DueGrows(s, t);
    var c, n := s.client, s.feed.published[s.client.position];
    var more := if n > c.cursor && Wanted(s.feed.topics, c.topics, n) then [n] else [];
    assert c.sent + (c.phase.queue + more) == (c.sent + c.phase.queue) + more;
  }

  lemma StopKeepsFits(s: State, t: State)
    requires Fits(s) && s.client.phase.Live? && t.feed == s.feed
    requires t.client == s.client.(phase := Live(s.client.phase.queue, false))
    ensures Fits(t)
  {
    assert Due(t) == Due(s);
  }

  /** The producer takes the event or stops. */
  lemma ProducedShape(c: Subscriber, feed: Feed)
    requires c.phase.Live? && c.phase.producing && c.position < |feed.published| && |c.phase.queue| <= OUTBOUND_CAPACITY
    ensures
      var n, p := feed.published[c.position], Produced(c, feed);
      var taken := n > c.cursor && Wanted(feed.topics, c.topics, n);
      var queue := c.phase.queue + if taken then [n] else [];
      || p == c.(phase := Live(c.phase.queue, false))
      || (p == c.(position := c.position + 1, phase := Live(queue, true)) && |queue| <= OUTBOUND_CAPACITY)
  {
    assert c.phase.queue + [] == c.phase.queue;
  }

  lemma ProduceKeepsFits(s: State)
    requires Fits(s) && Possible(s, Produce)
    ensures Fits(Step(s, Produce))
  {
    var t := Step(s, Produce);
    ProducedShape(s.client, s.feed);
    if t.client == s.client.(phase := Live(s.client.phase.queue, false)) {
      StopKeepsFits(s, t);
    } else {
      TakeKeepsFits(s, t);
    }
  }

  lemma HeldMoves(sent: seq<nat>, held: seq<nat>)
    requires held != []
    ensures (sent + [held[0]]) + held[1..] == sent + held
  {
  }

  lemma SendKeepsFits(s: State, action: Action)
    requires Fits(s) && Possible(s, action) && (action.SendReplayed? || action.Consume?)
    ensures Fits(Step(s, action))
  {
    assert Due(Step(s, action)) == Due(s);
    if action.SendReplayed? {
      HeldMoves(s.client.sent, s.client.phase.rest);
    } else {
      HeldMoves(s.client.sent, s.client.phase.queue);
    }
  }

  lemma StepKeepsFits(s: State, action: Action)
    requires Fits(s) && Possible(s, action)
    ensures Fits(Step(s, action))
  {
    match action {
      case Other(change) => OtherKeepsFits(s, change);
      case ReadReplay => ReplayKeepsFits(s);
      case Produce => ProduceKeepsFits(s);
      case SendReplayed => SendKeepsFits(s, action);
      case Consume => SendKeepsFits(s, action);
      case _ =>
    }
  }

  lemma ReachableFits(s: State)
    requires Reachable(s)
    ensures Fits(s)
  {
    var feed, topics, cursor :| Valid(feed) && Reaches(Steps(), Subscribe(feed, topics, cursor), s);
    forall before, action, after | Fits(before) && Steps()(before, action, after)
      ensures Fits(after)
    {
      StepKeepsFits(before, action);
    }
    ReachesKeeps(Steps(), x => Fits(x), Subscribe(feed, topics, cursor), s);
  }
}
