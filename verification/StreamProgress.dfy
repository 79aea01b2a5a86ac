// When the steps of the event stream refuse a subscriber, and that otherwise it is given what it asks for.
module StreamProgress {
  import opened Wrappers
  import opened Collections
  import opened Reachability
  import opened EventFeed
  import opened EventStream

  // ----- Refusals -----

  /** The cursor asks for a beginning that the journal still has: anything, or all after an issued number. */
  predicate IsResumable(feed: Feed, after: nat) {
    after == 0 || (after <= |feed.topics| && feed.purged <= after && feed.purged < |feed.topics|)
  }

  /** With a journal at rest the handshake accepts exactly the cursors that can be resumed. */
  lemma HandshakeAcceptsIff(feed: Feed, topics: set<string>, after: nat)
    requires Valid(feed)
    ensures
      var s := Step(Subscribe(feed, topics, after), ReadLatest);
      if s.client.phase.BelowLatest? then
        Step(s, ReadEarliest).client.phase == if IsResumable(feed, after) then Accepted else Closed
      else s.client.phase.Closed? && !IsResumable(feed, after)
  {
    if after != 0 {
      AcceptedIffNothingMissing(feed, after);
      assert after < feed.purged ==> Purged(feed, feed.purged);
    }
  }

  /** A subscriber is refused exactly when more than 500 rows are left above its cursor. */
  lemma ReplayIsRefusedIff(s: State)
    requires Valid(s.feed) && s.client.phase.Accepted?
    ensures Step(s, ReadReplay).client.phase.Closed?
       <==> |s.feed.topics| - Max(s.client.after, s.feed.purged) > 500
  {
  }

  /** The producer stops exactly when more than 512 events were published since its last, or a wanted one
      finds 128 others waiting; otherwise it takes the next event. */
  lemma ProducerStopsIff(s: State)
    requires Possible(s, Produce)
    ensures
      var c, next := s.client, Step(s, Produce).client;
      var n := s.feed.published[c.position];
      var isWanted := n > c.cursor && 1 <= n <= |s.feed.topics| && s.feed.topics[n - 1] in c.topics;
      && next.phase.Live?
      && (!next.phase.producing <==>
            |s.feed.published| - c.position > 512 || (isWanted && |c.phase.queue| >= 128))
      && (next.phase.producing ==>
            && next.position == c.position + 1
            && next.phase.queue == c.phase.queue + if isWanted then [n] else [])
      && (!next.phase.producing ==> next.position == c.position && next.phase.queue == c.phase.queue)
      && next.sent == c.sent
  {
  }

  // ----- Progress -----

  lemma ReachesThrough(s: State, action: Action, t: State, end: State)
    requires StepsTo(s, action, t) && Reaches(Steps(), t, end)
    ensures Reaches(Steps(), s, end)
  {
    LeadsNowhere(Steps(), s);
    ReachesOn(Steps(), s, s, action, t);
    var actions :| Leads(Steps(), t, actions, end);
    LeadsThrough(s, action, t, actions, end);
  }

  lemma {:induction false} LeadsThrough(s: State, action: Action, t: State, actions: seq<Action>, end: State)
    requires StepsTo(s, action, t) && Leads(Steps(), t, actions, end)
    ensures Reaches(Steps(), s, end)
    decreases |actions|
  {
    if actions == [] {
      var states :| IsRun(Steps(), states, actions) && states[0] == t && states[|actions|] == end;
      LeadsNowhere(Steps(), s);
      ReachesOn(Steps(), s, s, action, t);
    } else {
      var middle := LastStep(Steps(), t, actions, end);
      LeadsThrough(s, action, t, actions[..|actions| - 1], middle);
      ReachesOn(Steps(), s, middle, actions[|actions| - 1], end);
    }
  }

  function Taken(topics: seq<string>, wanted: set<string>, above: nat, n: nat): seq<nat> {
    if n > above && Wanted(topics, wanted, n) then [n] else []
  }

  lemma {:induction false} FilteredFirst(topics: seq<string>, wanted: set<string>, above: nat, events: seq<nat>)
    requires events != []
    ensures Filtered(topics, wanted, above, events)
         == Taken(topics, wanted, above, events[0]) + Filtered(topics, wanted, above, events[1..])
  {
    assert events == [events[0]] + events[1..];
    FilteredConcat(topics, wanted, above, [events[0]], events[1..]);
    FilteredStep(topics, wanted, above, [], events[0]);
    assert [] + [events[0]] == [events[0]];
    assert Filtered(topics, wanted, above, [events[0]]) == Taken(topics, wanted, above, events[0]);
  }

  /** A live subscriber that is not too far behind can be sent all it holds and all that was published. */
  lemma {:induction false} LiveCatchesUp(s: State) returns (t: State)
    requires s.client.phase.Live? && s.client.phase.producing && |s.client.phase.queue| <= 1
    requires s.client.position <= |s.feed.published| <= s.client.position + 512
    ensures Reaches(Steps(), s, t) && t.feed == s.feed && t.client.phase == Live([], true)
    ensures t.client.sent == s.client.sent + s.client.phase.queue
                             + Filtered(s.feed.topics, s.client.topics, s.client.cursor, s.feed.published[s.client.position..])
    decreases |s.feed.published| - s.client.position, |s.client.phase.queue|
  {
    var c, published := s.client, s.feed.published;
    if c.phase.queue != [] {
      var next := Step(s, Consume);
      t := LiveCatchesUp(next);
      ReachesThrough(s, Consume, next, t);
      assert c.phase.queue == [c.phase.queue[0]] && next.client.phase.queue == [];
    } else if c.position < |published| {
      var next, n := Step(s, Produce), published[c.position];
      ProducerStopsIff(s);
      t := LiveCatchesUp(next);
      ReachesThrough(s, Produce, next, t);
      FilteredFirst(s.feed.topics, c.topics, c.cursor, published[c.position..]);
      assert published[c.position..][1..] == published[c.position + 1..];
      assert next.client.sent + next.client.phase.queue
          == c.sent + c.phase.queue + Taken(s.feed.topics, c.topics, c.cursor, n);
      Associative(
        c.sent + c.phase.queue, Taken(s.feed.topics, c.topics, c.cursor, n),
        Filtered(s.feed.topics, c.topics, c.cursor, published[c.position + 1..]));
    } else {
      t := s;
      LeadsNowhere(Steps(), s);
      assert published[c.position..] == [];
    }
  }

  lemma {:induction false} ReplayIsSent(s: State) returns (t: State)
    requires s.client.phase.Replaying?
    ensures Reaches(Steps(), s, t) && t.feed == s.feed
    ensures t.client == s.client.(phase := Live([], true), sent := s.client.sent + s.client.phase.rest)
    decreases |s.client.phase.rest|
  {
    var rest := s.client.phase.rest;
    if rest != [] {
      var next := Step(s, SendReplayed);
      t := ReplayIsSent(next);
      ReachesThrough(s, SendReplayed, next, t);
      assert rest == [rest[0]] + rest[1..];
    } else {
      t := Step(s, GoLive);
      LeadsNowhere(Steps(), s);
      ReachesOn(Steps(), s, s, GoLive, t);
      assert s.client.sent + rest == s.client.sent;
    }
  }

  /** A subscriber with a cursor that can be resumed, and not more than 500 rows behind, can be sent every
      wanted row that is left above it, and is live then. */
  lemma SubscriberIsServed(feed: Feed, topics: set<string>, after: nat) returns (t: State)
    requires Valid(feed) && IsResumable(feed, after) && |feed.topics| - Max(after, feed.purged) <= 500
    ensures Reaches(Steps(), Subscribe(feed, topics, after), t) && t.feed == feed && t.client.phase == Live([], true)
    ensures t.client.sent == Matching(feed.topics, topics, Max(after, feed.purged), |feed.topics|)
  {
    var s := Subscribe(feed, topics, after);
    HandshakeAcceptsIff(feed, topics, after);
    var below := Step(s, ReadLatest);
    var accepted := Step(below, ReadEarliest);
    ReplayIsRefusedIff(accepted);
    var replaying := Step(accepted, ReadReplay);
    t := ReplayIsSent(replaying);
    ReachesThrough(accepted, ReadReplay, replaying, t);
    ReachesThrough(below, ReadEarliest, accepted, t);
    ReachesThrough(s, ReadLatest, below, t);
  }
}
