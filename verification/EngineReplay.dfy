// The replay loop of the automation engine: read a batch of the journal, handle and save its events
// one by one, and read again until nothing is left.
module EngineReplay {
  import opened Wrappers
  import opened EventFeed
  import opened AutomationEngine

  /** The events handled by a replay whose reads of the journal find the feeds `views`, one after the
      other. Handlers commit events of their own, so that each read may find more. */
  function Replayed(cursor: nat, views: seq<Feed>): seq<nat>
    decreases |views|
  {
    if views == [] then []
    else
      var batch := EventsAfter(views[0], cursor, BATCH);
      if batch == [] then [] else batch + Replayed(batch[|batch| - 1], views[1..])
  }

  function LastOr(events: seq<nat>, cursor: nat): nat {
    if events == [] then cursor else events[|events| - 1]
  }

  /** The reads end with one that finds nothing after the events handled so far. */
  predicate Finishes(cursor: nat, views: seq<Feed>)
    decreases |views|
  {
    views != [] &&
    var batch := EventsAfter(views[0], cursor, BATCH);
    batch == [] || Finishes(batch[|batch| - 1], views[1..])
  }

  class Engine {
    var cursor: nat
    var saved: Option<nat>
    var handled: seq<nat>

    constructor (saved: Option<nat>, latest: nat)
      ensures cursor == saved.GetOr(latest) && this.saved == Some(cursor) && handled == []
    {
      cursor := saved.GetOr(latest);
      this.saved := Some(saved.GetOr(latest));
      handled := [];
    }

    method SaveCursor(sequence: nat)
      modifies this`saved
      ensures saved == Some(Max(old(saved).GetOr(0), sequence))
    {
      match saved {
        case Some(before) => saved := Some(Max(before, sequence));
        case None => saved := Some(sequence);
      }
    }

    /** Handles the events of one batch, each before its cursor is saved. */
    method HandleBatch(batch: seq<nat>)
      requires saved == Some(cursor) && Increasing([cursor] + batch)
      modifies this
      ensures handled == old(handled) + batch
      ensures cursor == LastOr(batch, old(cursor)) && saved == Some(cursor)
    {
      for i := 0 to |batch|
        invariant handled == old(handled) + batch[..i]
        invariant cursor == LastOr(batch[..i], old(cursor)) && saved == Some(cursor)
      {
        assert cursor == ([old(cursor)] + batch)[i] && batch[i] == ([old(cursor)] + batch)[i + 1];
        assert batch[..i + 1] == batch[..i] + [batch[i]];
        handled := handled + [batch[i]];
        cursor := batch[i];
        SaveCursor(cursor);
      }
      assert batch[..|batch|] == batch;
    }

    method ReplayAutomationEvents(views: seq<Feed>) returns (finished: bool)
      requires saved == Some(cursor)
      modifies this
      ensures handled == old(handled) + Replayed(old(cursor), views)
      ensures cursor == LastOr(Replayed(old(cursor), views), old(cursor))
      ensures saved == Some(cursor)
      ensures finished <==> Finishes(old(cursor), views)
    {
      ghost var done := [];
      for i := 0 to |views|
        invariant saved == Some(cursor) && handled == old(handled) + done && cursor == LastOr(done, old(cursor))
        invariant Replayed(old(cursor), views) == done + Replayed(cursor, views[i..])
        invariant Finishes(old(cursor), views) <==> Finishes(cursor, views[i..])
      {
        var batch := EventsAfter(views[i], cursor, BATCH);
        ReplayStep(cursor, views[i..]);
        assert views[i..][1..] == views[i + 1..];
        if batch == [] {
          return true;
        }
        HandleBatch(batch);
        Regroup(old(handled), done, batch, Replayed(cursor, views[i + 1..]));
        done := done + batch;
      }
      return false;
    }
  }

  lemma Regroup(a: seq<nat>, b: seq<nat>, c: seq<nat>, d: seq<nat>)
    ensures (a + b) + c == a + (b + c)
    ensures b + (c + d) == (b + c) + d
  {
  }

  lemma ReplayStep(cursor: nat, views: seq<Feed>)
    requires views != []
    ensures
      var batch := EventsAfter(views[0], cursor, BATCH);
      && Increasing([cursor] + batch)
      && Replayed(cursor, views) == (if batch == [] then [] else batch + Replayed(LastOr(batch, cursor), views[1..]))
      && (Finishes(cursor, views) <==> batch == [] || Finishes(LastOr(batch, cursor), views[1..]))
  {
  }

  /** Each read finds the journal as an earlier read left it or further on. */
  predicate Successive(views: seq<Feed>) {
    && (forall i :: 0 <= i < |views| ==> Valid(views[i]))
    && forall i, j :: 0 <= i < j < |views| ==> Extends(views[i], views[j])
  }

  lemma IncreasingJoin(a: seq<nat>, b: seq<nat>)
    requires a != [] && Increasing(a) && Increasing(b) && forall n :: n in b ==> n > a[|a| - 1]
    ensures Increasing(a + b)
    ensures forall n :: n in a + b ==> n >= a[0]
  {
    forall i, j | 0 <= i < j < |a + b|
      ensures (a + b)[i] < (a + b)[j]
    {
      assert j >= |a| ==> b[j - |a|] in b;
      assert i < |a| ==> a[i] <= a[|a| - 1];
    }
    assert a[0] <= a[|a| - 1];
  }

  /** A replay handles events of the journal in strictly increasing order, each after the cursor. */
  lemma {:induction false} ReplayIncreases(cursor: nat, views: seq<Feed>)
    ensures Increasing(Replayed(cursor, views))
    ensures forall n :: n in Replayed(cursor, views) ==> n > cursor
    decreases |views|
  {
    if views != [] {
      var batch := EventsAfter(views[0], cursor, BATCH);
      if batch != [] {
        ReplayIncreases(batch[|batch| - 1], views[1..]);
        IncreasingJoin(batch, Replayed(batch[|batch| - 1], views[1..]));
      }
    }
  }

  /** When one of the reads was made, the journal held nothing after `cursor`. */
  predicate ReachesEnd(views: seq<Feed>, cursor: nat) {
    exists i :: 0 <= i < |views| && |views[i].topics| <= cursor
  }

  lemma LaterReachesEnd(views: seq<Feed>, cursor: nat)
    requires views != [] && ReachesEnd(views[1..], cursor)
    ensures ReachesEnd(views, cursor)
  {
    var i :| 0 <= i < |views[1..]| && |views[1..][i].topics| <= cursor;
    assert views[i + 1] == views[1..][i];
  }

  lemma BatchIsNumbers(feed: Feed, cursor: nat)
    requires Valid(feed) && feed.purged <= cursor
    ensures
      var batch := EventsAfter(feed, cursor, BATCH);
      && LastOr(batch, cursor) >= cursor && batch == Numbers(cursor, LastOr(batch, cursor))
      && (batch == [] ==> |feed.topics| <= cursor)
  {
  }

  /** If no row after the cursor is purged, a replay handles every event after the cursor, up to its
      last, and when it finishes the journal held none after it. */
  lemma {:induction false} ReplayIsComplete(cursor: nat, views: seq<Feed>)
    requires Successive(views) && forall i :: 0 <= i < |views| ==> views[i].purged <= cursor
    ensures Replayed(cursor, views) == Numbers(cursor, LastOr(Replayed(cursor, views), cursor))
    ensures LastOr(Replayed(cursor, views), cursor) >= cursor
    ensures Finishes(cursor, views) ==> ReachesEnd(views, LastOr(Replayed(cursor, views), cursor))
    decreases |views|
  {
    if views != [] {
      var batch := EventsAfter(views[0], cursor, BATCH);
      ReplayStep(cursor, views);
      BatchIsNumbers(views[0], cursor);
      if batch != [] {
        var last, rest := LastOr(batch, cursor), views[1..];
        ReplayIsComplete(last, rest);
        NumbersSplit(cursor, last, LastOr(Replayed(last, rest), last));
        assert LastOr(Replayed(cursor, views), cursor) == LastOr(Replayed(last, rest), last);
        if Finishes(cursor, views) {
          LaterReachesEnd(views, LastOr(Replayed(last, rest), last));
        }
      }
    }
  }
}
