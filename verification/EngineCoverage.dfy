// What the automation engine has taken from the broadcast is not left behind.
module EngineCoverage {
  import opened Wrappers
  import opened EventFeed
  import opened Reachability
  import opened AutomationEngine

  /** Every event published before a position is at or below the cursor, or its row is purged. */
  predicate TakenUpTo(feed: Feed, position: nat, cursor: nat) {
    forall i :: 0 <= i < position && i < |feed.published| ==> feed.published[i] <= cursor || feed.published[i] <= feed.purged
  }

  predicate TakenFits(s: State) {
    match s.phase
    case Live(position, cursor) => TakenUpTo(s.feed, position, cursor)
    case Saving(position, cursor, _, true) => TakenUpTo(s.feed, position, cursor)
    case _ => true
  }

  lemma StepKeepsTaken(s: State, action: Action)
    requires Fits(s) && TakenFits(s) && Possible(s, action)
    ensures TakenFits(Step(s, action))
  {
    if action.Other? {
      ChangeExtends(s.feed, action.change);
      assert s.feed.published <= Step(s, action).feed.published;
    } else if action.ReadBatch? && EventsAfter(s.feed, s.phase.cursor, BATCH) == [] {
      assert |s.feed.topics| <= Max(s.phase.cursor, s.feed.purged);
    }
  }

  /** In any publication order and with any crashes, an engine that is live has left no event behind of those
      it took from the broadcast or found published when it last caught up: each is at or below its cursor, or
      purged. */
  lemma NothingTakenIsLeft(s: State, i: nat)
    requires Reachable(s) && s.phase.Live? && i < s.phase.position
    ensures s.phase.position <= |s.feed.published|
    ensures s.feed.published[i] <= s.phase.cursor || s.feed.published[i] <= s.feed.purged
  {
    var kept := x => Fits(x) && TakenFits(x);
    forall before, action, after | kept(before) && Steps()(before, action, after)
      ensures kept(after)
    {
      StepKeepsFits(before, action);
      StepKeepsTaken(before, action);
    }
    ReachesKeeps(Steps(), kept, OFF, s);
  }

  /** An event that is received is handled at once exactly when it is above the cursor and the receiver has not
      lost more than 512; a receiver that has goes back to the journal. */
  lemma ReceivedIsHandledIff(s: State)
    requires Possible(s, Receive)
    ensures
      var n, lag := s.feed.published[s.phase.position], |s.feed.published| - s.phase.position;
      var t := Step(s, Receive);
      && (t.handled == s.handled + [n] <==> lag <= 512 && n > s.phase.cursor)
      && (t.handled == s.handled <==> !(lag <= 512 && n > s.phase.cursor))
      && (t.phase.Replaying? <==> lag > 512)
      && (lag > 512 ==> t.phase.position == |s.feed.published| - 512 && t.phase.cursor == s.phase.cursor)
  {
    assert |s.handled + [s.feed.published[s.phase.position]]| != |s.handled|;
  }
}
