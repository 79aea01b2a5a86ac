// What the journal of the store is good for: each topic of it rebuilds its tables, and what is left of
// it after a purge is the feed its consumers follow.
module JournalLaws {
  import opened Wrappers
  import opened Journal
  import opened Store
  import EventFeed

  datatype Topic = AreaTopic | AdapterTopic | AutomationTopic | StateTopic | CommandTopic

  function TopicOf(data: EventData): Topic {
    match data
    case AreaCreated(_) => AreaTopic
    case AdapterHealthChanged(_) => AdapterTopic
    case FlowCreated(_) => AutomationTopic
    case FlowUpdated(_) => AutomationTopic
    case StateReported(_) => StateTopic
    case _ => CommandTopic
  }

  function OnTopics(journal: seq<Event>, topics: set<Topic>): seq<Event> {
    if journal == [] then []
    else
      OnTopics(journal[..|journal| - 1], topics)
      + if TopicOf(journal[|journal| - 1].data) in topics then [journal[|journal| - 1]] else []
  }

  /** The tables accounted for by some topics. */
  function Restricted(tables: Tables, topics: set<Topic>): Tables {
    Tables(
      if CommandTopic in topics then tables.commands else [],
      if StateTopic in topics then tables.entityState else map[],
      if AutomationTopic in topics then tables.flows else map[],
      if AreaTopic in topics then tables.areas else map[],
      if AdapterTopic in topics then tables.adapterHealth else map[])
  }

  lemma CommandOnTopic(tables: Tables, data: EventData, topics: set<Topic>)
    requires TopicOf(data) == CommandTopic
    ensures Restricted(Applied(tables, data), topics)
         == if TopicOf(data) in topics then Applied(Restricted(tables, topics), data) else Restricted(tables, topics)
  {
  }

  lemma AppliedOnTopic(tables: Tables, data: EventData, topics: set<Topic>)
    ensures Restricted(Applied(tables, data), topics)
         == if TopicOf(data) in topics then Applied(Restricted(tables, topics), data) else Restricted(tables, topics)
  {
    match data
    case AreaCreated(_) =>
    case AdapterHealthChanged(_) =>
    case FlowCreated(_) =>
    case FlowUpdated(_) =>
    case StateReported(_) =>
    case _ => CommandOnTopic(tables, data, topics);
  }

  /** A subscriber that has been sent the events of its topics can rebuild the tables of those topics:
      no event of another topic touches them. */
  lemma {:induction false} TopicsRebuildTheirTables(journal: seq<Event>, topics: set<Topic>)
    ensures Replay(OnTopics(journal, topics)) == Restricted(Replay(journal), topics)
  {
    if journal != [] {
      var fewer, event := journal[..|journal| - 1], journal[|journal| - 1];
      TopicsRebuildTheirTables(fewer, topics);
      AppliedOnTopic(Replay(fewer), event.data, topics);
      ReplayStep(OnTopics(fewer, topics), event);
      assert OnTopics(fewer, topics) + [] == OnTopics(fewer, topics);
    }
  }

  // ----- The table row is the last event about it -----

  predicate AboutCommand(event: Event, id: string) {
    TopicOf(event.data) == CommandTopic && event.data.command.id == id
  }

  predicate RequestsCommand(event: Event, id: string) {
    event.data.CommandRequested? && event.data.command.id == id
  }

  predicate EverRequested(journal: seq<Event>, id: string) {
    exists j :: 0 <= j < |journal| && RequestsCommand(journal[j], id)
  }

  /** The command table has a row for each command that was requested. */
  lemma {:induction false} RowIffRequested(journal: seq<Event>, id: string)
    ensures HasCommand(Replay(journal).commands, id) <==> EverRequested(journal, id)
  {
    if journal != [] {
      var fewer, event := journal[..|journal| - 1], journal[|journal| - 1];
      RowIffRequested(fewer, id);
      EverRequestedStep(fewer, event, id);
      assert journal == fewer + [event];
      HasCommandStep(Replay(fewer), event.data, id);
    }
  }

  lemma EverRequestedStep(fewer: seq<Event>, event: Event, id: string)
    ensures EverRequested(fewer + [event], id) <==> EverRequested(fewer, id) || RequestsCommand(event, id)
  {
    if EverRequested(fewer, id) {
      var j :| 0 <= j < |fewer| && RequestsCommand(fewer[j], id);
      assert (fewer + [event])[j] == fewer[j];
    }
    assert (fewer + [event])[|fewer|] == event;
  }

  lemma StoredHasSame(commands: seq<Command>, command: Command, id: string)
    ensures HasCommand(Stored(commands, command), id) <==> HasCommand(commands, id)
  {
    if HasCommand(commands, id) {
      var i :| 0 <= i < |commands| && commands[i].id == id;
      assert Stored(commands, command)[i].id == id;
    }
  }

  lemma HasCommandStep(tables: Tables, data: EventData, id: string)
    ensures HasCommand(Applied(tables, data).commands, id)
       <==> HasCommand(tables.commands, id) || (data.CommandRequested? && data.command.id == id)
  {
    if TopicOf(data) == CommandTopic {
      StoredHasSame(tables.commands, data.command, id);
      if data.CommandRequested? && !HasCommand(tables.commands, data.command.id) {
        var more := tables.commands + [data.command];
        assert more[|tables.commands|] == data.command;
        assert forall i :: 0 <= i < |tables.commands| ==> more[i] == tables.commands[i];
      }
    }
  }

  lemma {:induction false} RowIsLastEvent(journal: seq<Event>, i: nat, id: string)
    requires i < |journal| && AboutCommand(journal[i], id)
    requires forall j :: i < j < |journal| ==> !AboutCommand(journal[j], id)
    ensures forall k :: 0 <= k < |Replay(journal).commands| && Replay(journal).commands[k].id == id ==>
      Replay(journal).commands[k] == journal[i].data.command
  {
    var last := |journal| - 1;
    var fewer := journal[..last];
    if i < last {
      RowIsLastEvent(fewer, i, id);
      assert !AboutCommand(journal[last], id);
    }
  }

  /** A command has a row exactly when it was requested, and the row is what the last event about the
      command says. */
  lemma CommandIsLastEvent(journal: seq<Event>, i: nat, id: string)
    requires i < |journal| && AboutCommand(journal[i], id)
    requires forall j :: i < j < |journal| ==> !AboutCommand(journal[j], id)
    ensures EverRequested(journal, id) <==>
      exists k :: 0 <= k < |Replay(journal).commands| && Replay(journal).commands[k].id == id
                  && Replay(journal).commands[k] == journal[i].data.command
  {
    RowIffRequested(journal, id);
    RowIsLastEvent(journal, i, id);
  }

  /** A stored state is what the last report event for its place says. */
  lemma {:induction false} StateIsLastEvent(journal: seq<Event>, i: nat)
    requires i < |journal| && journal[i].data.StateReported?
    requires forall j :: i < j < |journal| && journal[j].data.StateReported? ==>
      (journal[j].data.state.entityId, journal[j].data.state.key)
      != (journal[i].data.state.entityId, journal[i].data.state.key)
    ensures
      var state := journal[i].data.state;
      Found(Replay(journal).entityState, state.entityId, state.key) == Some(state)
  {
    var last := |journal| - 1;
    if i < last {
      StateIsLastEvent(journal[..last], i);
    }
  }

  // ----- Retention -----

  /** Events carry the time at which they were committed. */
  predicate Timed(journal: seq<Event>) {
    forall i, j :: 0 <= i < j < |journal| ==> journal[i].occurredAt <= journal[j].occurredAt
  }

  predicate IsSuffix(events: seq<Event>, journal: seq<Event>) {
    |events| <= |journal| && events == journal[|journal| - |events|..]
  }

  /** If the clock did not go back, the purge deletes a prefix of the journal. */
  lemma {:induction false} PurgeKeepsSuffix(events: seq<Event>, journal: seq<Event>, cutoff: int, batchSize: nat)
    requires IsSuffix(events, journal) && Timed(journal)
    ensures IsSuffix(Pruned(events, cutoff, batchSize), journal)
    decreases |events|
  {
    if events != [] && batchSize > 0 {
      if events[0].occurredAt < cutoff {
        PurgeKeepsSuffix(events[1..], journal, cutoff, batchSize - 1);
      } else {
        NothingOldLeft(events, cutoff, batchSize, journal);
      }
    }
  }

  lemma {:induction false} NothingOldLeft(events: seq<Event>, cutoff: int, batchSize: nat, journal: seq<Event>)
    requires IsSuffix(events, journal) && Timed(journal)
    requires events != [] ==> events[0].occurredAt >= cutoff
    ensures Pruned(events, cutoff, batchSize) == events
    decreases |events|
  {
    if |events| > 1 && batchSize > 0 {
      var start := |journal| - |events|;
      assert events[0] == journal[start] && events[1] == journal[start + 1];
      NothingOldLeft(events[1..], cutoff, batchSize, journal);
    }
  }

  /** The journal as its consumers see it. */
  function FeedOf(events: seq<Event>, journal: seq<Event>, name: Topic -> string, published: seq<nat>): EventFeed.Feed
    requires |events| <= |journal|
  {
    EventFeed.Feed(
      seq(|journal|, i requires 0 <= i < |journal| => name(TopicOf(journal[i].data))), |journal| - |events|, published)
  }

  function Sequences(events: seq<Event>): (r: seq<nat>)
    ensures |r| == |events| && forall i :: 0 <= i < |r| ==> r[i] == events[i].sequence
  {
    seq(|events|, i requires 0 <= i < |events| => events[i].sequence)
  }

  lemma FeedReadStep(feed: EventFeed.Feed, after: nat, limit: nat)
    requires feed.purged < |feed.topics|
    ensures
      var next, n := feed.(purged := feed.purged + 1), feed.purged + 1;
      && (n <= after ==> EventFeed.EventsAfter(feed, after, limit) == EventFeed.EventsAfter(next, after, limit))
      && (n > after && limit > 0 ==>
            EventFeed.EventsAfter(feed, after, limit) == [n] + EventFeed.EventsAfter(next, after, limit - 1))
  {
  }

  lemma SequencesStep(event: Event, rest: seq<Event>)
    ensures Sequences([event] + rest) == [event.sequence] + Sequences(rest)
  {
  }

  lemma RowsReadStep(events: seq<Event>, after: nat, limit: nat)
    requires events != []
    ensures events[0].sequence <= after ==>
      Sequences(RowsAfter(events, after, limit)) == Sequences(RowsAfter(events[1..], after, limit))
    ensures events[0].sequence > after && limit > 0 ==>
      Sequences(RowsAfter(events, after, limit))
      == [events[0].sequence] + Sequences(RowsAfter(events[1..], after, limit - 1))
  {
    if events[0].sequence > after && limit > 0 {
      SequencesStep(events[0], RowsAfter(events[1..], after, limit - 1));
    }
  }

  lemma FeedOfRest(events: seq<Event>, journal: seq<Event>, name: Topic -> string, published: seq<nat>)
    requires IsSuffix(events, journal) && Numbered(journal) && events != []
    ensures IsSuffix(events[1..], journal)
    ensures
      var feed := FeedOf(events, journal, name, published);
      && feed.purged < |feed.topics| && events[0].sequence == feed.purged + 1
      && FeedOf(events[1..], journal, name, published) == feed.(purged := feed.purged + 1)
  {
    assert events[0] == journal[|journal| - |events|];
  }

  /** A read of the rows after a cursor gives the numbers a consumer expects of its feed. */
  lemma {:induction false} ReadIsFeedRead(
    events: seq<Event>, journal: seq<Event>, name: Topic -> string, published: seq<nat>, after: nat, limit: nat)
    requires IsSuffix(events, journal) && Numbered(journal)
    ensures Sequences(RowsAfter(events, after, limit))
         == EventFeed.EventsAfter(FeedOf(events, journal, name, published), after, limit)
    decreases |events|
  {
    if events != [] && limit > 0 {
      FeedOfRest(events, journal, name, published);
      FeedReadStep(FeedOf(events, journal, name, published), after, limit);
      RowsReadStep(events, after, limit);
      ReadIsFeedRead(
        events[1..], journal, name, published, after, if events[0].sequence > after then limit - 1 else limit);
    }
  }
}
