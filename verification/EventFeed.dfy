// The event journal as its consumers see it: rows numbered from 1, a purged prefix, and a broadcast
// of the committed events in the order they were published.
module EventFeed {
  import opened Wrappers
  import opened Collections

  const BROADCAST_CAPACITY: nat := 512

  /** Event `n` has topic `topics[n - 1]`; the rows up to `purged` have been deleted. */
  datatype Feed = Feed(topics: seq<string>, purged: nat, published: seq<nat>)

  /** What other parts of the program do to the journal at any moment. */
  datatype Change = Commit(topic: string) | Publish(sequence: nat) | Purge(count: nat)

  predicate Valid(feed: Feed) {
    && feed.purged <= |feed.topics|
    && (forall i :: 0 <= i < |feed.published| ==> 1 <= feed.published[i] <= |feed.topics|)
    && forall i, j :: 0 <= i < j < |feed.published| ==> feed.published[i] != feed.published[j]
  }

  const NEW := Feed([], 0, [])

  predicate CanChange(feed: Feed, change: Change) {
    match change
    case Commit(_) => true
    case Publish(n) => 1 <= n <= |feed.topics| && n !in feed.published
    case Purge(count) => feed.purged + count <= |feed.topics|
  }

  function Changed(feed: Feed, change: Change): Feed {
    match change
    case Commit(topic) => feed.(topics := feed.topics + [topic])
    case Publish(n) => feed.(published := feed.published + [n])
    case Purge(count) => feed.(purged := feed.purged + count)
  }

  /** A later feed of the same journal. */
  predicate Extends(feed: Feed, later: Feed) {
    && feed.topics <= later.topics
    && feed.purged <= later.purged
    && feed.published <= later.published
  }

  lemma ChangeExtends(feed: Feed, change: Change)
    requires Valid(feed) && CanChange(feed, change)
    ensures Valid(Changed(feed, change)) && Extends(feed, Changed(feed, change))
  {
  }

  /** Events are published in the order of their numbers. */
  predicate InOrder(feed: Feed) {
    forall i :: 0 <= i < |feed.published| ==> feed.published[i] == i + 1
  }

  lemma InOrderBefore(feed: Feed, later: Feed)
    requires Extends(feed, later) && InOrder(later)
    ensures InOrder(feed)
  {
    assert forall i :: 0 <= i < |feed.published| ==> feed.published[i] == later.published[i];
  }

  lemma InOrderStaysBehind(feed: Feed)
    requires Valid(feed) && InOrder(feed)
    ensures |feed.published| <= |feed.topics|
  {
    if feed.published != [] {
      assert feed.published[|feed.published| - 1] == |feed.published|;
    }
  }

  lemma PublishedIsBounded(feed: Feed)
    requires Valid(feed)
    ensures |feed.published| <= |feed.topics|
  {
    var numbers: seq<int> := seq(|feed.published|, i requires 0 <= i < |feed.published| => feed.published[i] - 1);
    DistinctBelow(numbers, |feed.topics|);
  }

  // ----- Reads of the table -----

  function Latest(feed: Feed): nat {
    if feed.purged < |feed.topics| then |feed.topics| else 0
  }

  function Earliest(feed: Feed): Option<nat> {
    if feed.purged < |feed.topics| then Some(feed.purged + 1) else None
  }

  function Max(a: nat, b: nat): nat {
    if a < b then b else a
  }

  /** The numbers above `from`, up to and including `to`. */
  function Numbers(from: nat, to: nat): (r: seq<nat>)
    ensures |r| == if from < to then to - from else 0
    ensures forall i :: 0 <= i < |r| ==> r[i] == from + 1 + i
  {
    if to <= from then [] else Numbers(from, to - 1) + [to]
  }

  lemma NumbersSplit(a: nat, b: nat, c: nat)
    requires a <= b <= c
    ensures Numbers(a, b) + Numbers(b, c) == Numbers(a, c)
  {
  }

  /** The first `limit` retained events above `after`. */
  function EventsAfter(feed: Feed, after: nat, limit: nat): seq<nat> {
    var from := Max(after, feed.purged);
    if from + limit < |feed.topics| then Numbers(from, from + limit) else Numbers(from, |feed.topics|)
  }

  /** The next event of a receiver at `position`, or nothing if the broadcast has overwritten it. */
  predicate Lagged(feed: Feed, position: nat) {
    position + BROADCAST_CAPACITY < |feed.published|
  }
}
