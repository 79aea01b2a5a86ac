// The store: every write changes a table and appends the event that says so, in one transaction.
module Store {
  import opened Wrappers
  import opened Journal

  datatype StoreError = Duplicate | Missing

  function Lower(c: char): char {
    if 'A' <= c <= 'Z' then 'a' + (c - 'A') else c
  }

  predicate SameName(a: string, b: string) {
    |a| == |b| && forall i :: 0 <= i < |a| ==> Lower(a[i]) == Lower(b[i])
  }

  class SqliteStore {
    var commands: seq<Command>
    var entityState: map<(string, string), StateProperty>
    var flows: map<string, Flow>
    var areas: map<string, Area>
    var adapterHealth: map<string, AdapterHealth>
    /** The rows of the event table that were not purged. */
    var events: seq<Event>
    var lastSequence: nat
    /** Every event ever committed. */
    ghost var journal: seq<Event>

    ghost function Current(): Tables
      reads this
    {
      Tables(commands, entityState, flows, areas, adapterHealth)
    }

    ghost predicate Valid()
      reads this
    {
      && Current() == Replay(journal)
      && UniqueCommands(commands)
      && Numbered(journal) && lastSequence == |journal|
      && IsRemainder(events, journal)
    }

    constructor ()
      ensures Valid() && journal == []
    {
      commands, entityState, flows, areas, adapterHealth := [], map[], map[], map[], map[];
      events, lastSequence, journal := [], 0, [];
    }

    /** Appends one event; the sequence is never reused. The table it accounts for is written before. */
    method InsertEvent(data: EventData, now: int, correlationId: Option<string>) returns (event: Event)
      requires Numbered(journal) && lastSequence == |journal| && IsRemainder(events, journal)
      modifies this`events, this`lastSequence, this`journal
      ensures event == Event(|old(journal)| + 1, now, correlationId, data)
      ensures journal == old(journal) + [event] && events == old(events) + [event]
      ensures Numbered(journal) && lastSequence == |journal| && IsRemainder(events, journal)
      ensures Replay(journal) == Applied(Replay(old(journal)), data)
    {
      event := Event(lastSequence + 1, now, correlationId, data);
      RemainderGrows(events, journal, event);
      ReplayStep(journal, event);
      events := events + [event];
      lastSequence := lastSequence + 1;
      journal := journal + [event];
    }

    method CreateArea(id: string, name: string, now: int) returns (r: Result<Event, StoreError>)
      requires Valid()
      modifies this
      ensures Valid()
      ensures r.Err? <==> id in old(areas) || exists a :: a in old(areas) && SameName(old(areas)[a].name, name)
      ensures r.Err? ==> Current() == old(Current()) && journal == old(journal)
      ensures r.Ok? ==>
        && journal == old(journal) + [r.value] && r.value == Event(|journal|, now, None, AreaCreated(Area(id, name)))
        && Current() == old(Current()).(areas := old(areas)[id := Area(id, name)])
    {
      if id in areas || exists a :: a in areas && SameName(areas[a].name, name) {
        return Err(Duplicate);
      }
      areas := areas[id := Area(id, name)];
      var event := InsertEvent(AreaCreated(Area(id, name)), now, None);
      return Ok(event);
    }

    method UpsertAdapterHealth(health: AdapterHealth) returns (event: Event)
      requires Valid()
      modifies this
      ensures Valid()
      ensures journal == old(journal) + [event]
      ensures event == Event(|journal|, health.observedAt, None, AdapterHealthChanged(health))
      ensures Current() == old(Current()).(adapterHealth := old(adapterHealth)[health.adapterId := health])
    {
      adapterHealth := adapterHealth[health.adapterId := health];
      event := InsertEvent(AdapterHealthChanged(health), health.observedAt, None);
    }

    method CreateFlow(flow: Flow, now: int) returns (r: Result<Event, StoreError>)
      requires Valid()
      modifies this
      ensures Valid()
      ensures r.Err? <==> flow.id in old(flows)
      ensures r.Err? ==> Current() == old(Current()) && journal == old(journal)
      ensures r.Ok? ==>
        && journal == old(journal) + [r.value] && r.value == Event(|journal|, now, None, FlowCreated(flow))
        && Current() == old(Current()).(flows := old(flows)[flow.id := flow])
    {
      if flow.id in flows {
        return Err(Duplicate);
      }
      flows := flows[flow.id := flow];
      var event := InsertEvent(FlowCreated(flow), now, None);
      return Ok(event);
    }

    method UpdateFlow(flow: Flow, now: int) returns (r: Result<Event, StoreError>)
      requires Valid()
      modifies this
      ensures Valid()
      ensures r.Err? <==> flow.id !in old(flows)
      ensures r.Err? ==> Current() == old(Current()) && journal == old(journal)
      ensures r.Ok? ==>
        && journal == old(journal) + [r.value] && r.value == Event(|journal|, now, None, FlowUpdated(flow))
        && Current() == old(Current()).(flows := old(flows)[flow.id := flow])
    {
      if flow.id !in flows {
        return Err(Missing);
      }
      flows := flows[flow.id := flow];
      var event := InsertEvent(FlowUpdated(flow), now, None);
      return Ok(event);
    }

    method CreateCommand(command: Command) returns (r: Result<Event, StoreError>)
      requires Valid()
      modifies this
      ensures Valid()
      ensures r.Err? <==> Taken(old(commands), command)
      ensures r.Err? ==> Current() == old(Current()) && journal == old(journal)
      ensures r.Ok? ==>
        && journal == old(journal) + [r.value]
        && r.value == Event(|journal|, command.requestedAt, Some(command.correlationId), CommandRequested(command))
        && Current() == old(Current()).(commands := old(commands) + [command])
    {
      if exists i :: 0 <= i < |commands|
                     && (commands[i].id == command.id || commands[i].idempotencyKey == command.idempotencyKey) {
        return Err(Duplicate);
      }
      commands := commands + [command];
      var event := InsertEvent(CommandRequested(command), command.requestedAt, Some(command.correlationId));
      return Ok(event);
    }

    method FindCommandByIdempotency(key: string) returns (found: Option<Command>)
      requires Valid()
      ensures found.Some? ==> found.value in commands && found.value.idempotencyKey == key
      ensures found.None? ==> forall i :: 0 <= i < |commands| ==> commands[i].idempotencyKey != key
    {
      for i := 0 to |commands|
        invariant forall k :: 0 <= k < i ==> commands[k].idempotencyKey != key
      {
        if commands[i].idempotencyKey == key {
          return Some(commands[i]);
        }
      }
      return None;
    }

    /** Writes the status of one row, whatever it was, and appends the event. */
    method WriteStatus(i: nat, status: Status, reason: Option<string>, now: int, correlationId: Option<string>)
      returns (event: Event)
      requires Valid() && i < |commands|
      modifies this
      ensures Valid()
      ensures commands == old(commands)[i := WithStatus(old(commands)[i], status)]
      ensures event == Event(|journal|, now, correlationId, TransitionData(commands[i], reason))
      ensures journal == old(journal) + [event] && Current() == old(Current()).(commands := commands)
    {
      var command := WithStatus(commands[i], status);
      StoredInRow(commands, i, command);
      TransitionStores(Current(), command, reason);
      commands := commands[i := command];
      event := InsertEvent(TransitionData(command, reason), now, correlationId);
    }

    method TransitionCommand(id: string, status: Status, reason: Option<string>, now: int)
      returns (r: Result<Event, StoreError>)
      requires Valid()
      modifies this
      ensures Valid()
      ensures r.Err? <==> !HasCommand(old(commands), id)
      ensures r.Err? ==> Current() == old(Current()) && journal == old(journal)
      ensures r.Ok? ==> exists i :: 0 <= i < |commands| && Moved(old(commands), commands, i, id, status)
                                    && r.value == Event(
                                         |journal|, now, Some(commands[i].correlationId),
                                         TransitionData(commands[i], reason))
      ensures r.Ok? ==> journal == old(journal) + [r.value] && Current() == old(Current()).(commands := commands)
    {
      var i := 0;
      while i < |commands| && commands[i].id != id
        invariant 0 <= i <= |commands| && forall k :: 0 <= k < i ==> commands[k].id != id
      {
        i := i + 1;
      }
      if i == |commands| {
        return Err(Missing);
      }
      var event := WriteStatus(i, status, reason, now, Some(commands[i].correlationId));
      assert Moved(old(commands), commands, i, id, status);
      return Ok(event);
    }

    ghost function StateAt(state: ReportedState): Option<StateProperty>
      reads this
    {
      Found(entityState, state.entityId, state.key)
    }

    /** Accepts a report, unless a later one is stored, and confirms the open commands that asked for
        the reported value. */
    method ApplyReportedState(state: ReportedState, now: int) returns (result: seq<Event>)
      requires Valid()
      modifies this
      ensures Valid() && journal == old(journal) + result
      ensures Refuses(old(StateAt(state)), state) ==> result == [] && Current() == old(Current())
      ensures !Refuses(old(StateAt(state)), state) ==>
        var property := Accepted(old(StateAt(state)), state, now);
        && Current() == old(Current()).(entityState := old(entityState)[(state.entityId, state.key) := property],
                                        commands := ConfirmedBy(old(commands), property))
        && Notes(result) == [Note(now, None, StateReported(property))] + Confirmations(old(commands), property, now)
    {
      var current := Found(entityState, state.entityId, state.key);
      if Refuses(current, state) {
        return [];
      }
      var property := Accepted(current, state, now);
      var reported := SaveProperty(property, now);
      ghost var start := old(journal);
      var confirmed := ConfirmCommands(property, now);
      Appended(start, [reported], confirmed);
      result := [reported] + confirmed;
    }

    method SaveProperty(property: StateProperty, now: int) returns (event: Event)
      requires Valid()
      modifies this
      ensures Valid() && journal == old(journal) + [event]
      ensures event == Event(|journal|, now, None, StateReported(property))
      ensures Current() == old(Current()).(entityState := old(entityState)[(property.entityId, property.key) := property])
    {
      entityState := entityState[(property.entityId, property.key) := property];
      event := InsertEvent(StateReported(property), now, None);
    }

    method ConfirmRow(i: nat, property: StateProperty, now: int) returns (more: seq<Event>)
      requires Valid() && i < |commands|
      modifies this
      ensures Valid() && journal == old(journal) + more && Current() == old(Current()).(commands := commands)
      ensures commands == old(commands)[i := AfterReport(old(commands)[i], property)]
      ensures Notes(more) == Confirmation(old(commands)[i], property, now)
    {
      if Confirms(commands[i], property) {
        var event := WriteStatus(i, Status.Confirmed, None, now, None);
        return [event];
      }
      return [];
    }

    method ConfirmCommands(property: StateProperty, now: int) returns (result: seq<Event>)
      requires Valid()
      modifies this
      ensures Valid() && journal == old(journal) + result
      ensures Current() == old(Current()).(commands := ConfirmedBy(old(commands), property))
      ensures Notes(result) == Confirmations(old(commands), property, now)
    {
      result := [];
      ghost var rows, start := commands, journal;
      ghost var confirmed := ConfirmedBy(rows, property);
      for i := 0 to |commands|
        invariant Valid() && journal == start + result
        invariant Current() == old(Current()).(commands := commands)
        invariant PartDone(commands, rows, confirmed, i)
        invariant Notes(result) == Confirmations(rows[..i], property, now)
      {
        var more := ConfirmRow(i, property, now);
        ConfirmationsStep(rows, property, now, i);
        Appended(start, result, more);
        result := result + more;
      }
      assert rows[..|rows|] == rows;
    }

    method ExpireRow(i: nat, before: int, now: int) returns (more: seq<Event>)
      requires Valid() && i < |commands|
      modifies this
      ensures Valid() && journal == old(journal) + more && Current() == old(Current()).(commands := commands)
      ensures commands == old(commands)[i := AfterTimeout(old(commands)[i], before)]
      ensures Notes(more) == Expiration(old(commands)[i], before, now)
    {
      if Stale(commands[i], before) {
        var event := WriteStatus(i, Status.Expired, None, now, Some(commands[i].correlationId));
        return [event];
      }
      return [];
    }

    method ExpireCommands(before: int, now: int, limit: nat) returns (result: seq<Event>)
      requires Valid()
      modifies this
      ensures Valid() && journal == old(journal) + result
      ensures Current() == old(Current()).(commands := ExpiredBefore(old(commands), before, limit))
      ensures Notes(result) == Expirations(First(old(commands), limit), before, now)
    {
      result := [];
      ghost var rows, start := commands, journal;
      ghost var expired := ExpiredBefore(rows, before, limit);
      var count := |First(commands, limit)|;
      for i := 0 to count
        invariant Valid() && journal == start + result
        invariant Current() == old(Current()).(commands := commands)
        invariant PartDone(commands, rows, expired, i)
        invariant Notes(result) == Expirations(rows[..i], before, now)
      {
        var more := ExpireRow(i, before, now);
        ExpirationsStep(rows, before, now, i);
        Appended(start, result, more);
        result := result + more;
      }
      OnlyFirstExpire(commands, rows, before, limit);
    }

    method EventsAfter(after: nat, limit: nat) returns (rows: seq<Event>)
      requires Valid()
      ensures rows == RowsAfter(events, after, limit)
    {
      rows := [];
      for i := 0 to |events|
        invariant |rows| <= limit
        invariant RowsAfter(events, after, limit) == rows + RowsAfter(events[i..], after, limit - |rows|)
      {
        var rest := events[i..];
        assert rest[1..] == events[i + 1..] && rest[0] == events[i];
        if |rows| == limit {
          return;
        }
        if events[i].sequence > after {
          rows := rows + [events[i]];
        }
      }
    }

    method EarliestEventSequence() returns (r: Option<nat>)
      requires Valid()
      ensures r.None? <==> events == []
      ensures forall i :: 0 <= i < |events| ==> r.Some? && r.value <= events[i].sequence
      ensures r.Some? ==> exists i :: 0 <= i < |events| && events[i].sequence == r.value
    {
      return if events == [] then None else Some(events[0].sequence);
    }

    method LatestEventSequence() returns (r: nat)
      requires Valid()
      ensures events == [] ==> r == 0
      ensures forall i :: 0 <= i < |events| ==> events[i].sequence <= r
      ensures events != [] ==> exists i :: 0 <= i < |events| && events[i].sequence == r
    {
      return if events == [] then 0 else events[|events| - 1].sequence;
    }

    /** Deletes at most `batchSize` of the event rows that are too old. The journal they record is not
        undone, and their numbers are not used again. */
    method PruneEvents(cutoff: int, batchSize: nat) returns (r: Option<nat>)
      requires Valid()
      modifies this`events
      ensures Valid() && Current() == old(Current()) && journal == old(journal) && lastSequence == old(lastSequence)
      ensures r.None? <==> !(1 <= batchSize <= 10_000)
      ensures events == if r.None? then old(events) else Pruned(old(events), cutoff, batchSize)
      ensures r.Some? ==> r.value + |events| == |old(events)|
    {
      if !(1 <= batchSize <= 10_000) {
        return None;
      }
      PrunedIsRemainder(events, journal, cutoff, batchSize);
      var kept, deleted := DeleteOldest(events, cutoff, batchSize);
      events := kept;
      return Some(deleted);
    }
  }

  method DeleteOldest(rows: seq<Event>, cutoff: int, batchSize: nat) returns (kept: seq<Event>, deleted: nat)
    ensures kept == Pruned(rows, cutoff, batchSize)
    ensures deleted <= batchSize && deleted + |kept| == |rows|
  {
    kept, deleted := [], 0;
    for i := 0 to |rows|
      invariant deleted <= batchSize && deleted + |kept| == i
      invariant Pruned(rows, cutoff, batchSize) == kept + Pruned(rows[i..], cutoff, batchSize - deleted)
    {
      var rest := rows[i..];
      PrunedStep(rest, cutoff, batchSize - deleted);
      assert rest[1..] == rows[i + 1..];
      if deleted < batchSize && rows[i].occurredAt < cutoff {
        deleted := deleted + 1;
      } else {
        kept := kept + [rows[i]];
      }
    }
  }

  /** The first `i` rows are those of `after`, the others still those of `before`. */
  predicate PartDone(rows: seq<Command>, before: seq<Command>, after: seq<Command>, i: nat) {
    && |rows| == |before| == |after|
    && (forall k :: 0 <= k < i && k < |rows| ==> rows[k] == after[k])
    && forall k :: i <= k < |rows| ==> rows[k] == before[k]
  }

  function First(commands: seq<Command>, limit: nat): (r: seq<Command>)
    ensures |r| == (if limit < |commands| then limit else |commands|) && r <= commands
  {
    if limit < |commands| then commands[..limit] else commands
  }

  lemma OnlyFirstExpire(rows: seq<Command>, start: seq<Command>, before: int, limit: nat)
    requires PartDone(rows, start, ExpiredBefore(start, before, limit), |First(start, limit)|)
    ensures rows == ExpiredBefore(start, before, limit)
    ensures start[..|First(start, limit)|] == First(start, limit)
  {
  }

  lemma Appended(start: seq<Event>, result: seq<Event>, more: seq<Event>)
    ensures (start + result) + more == start + (result + more)
    ensures Notes(result + more) == Notes(result) + Notes(more)
  {
  }

  /** The first `limit` rows with a sequence above `after`. */
  function RowsAfter(events: seq<Event>, after: nat, limit: nat): seq<Event> {
    if events == [] || limit == 0 then []
    else if events[0].sequence > after then [events[0]] + RowsAfter(events[1..], after, limit - 1)
    else RowsAfter(events[1..], after, limit)
  }

  /** The rows left when the first `batchSize` old ones are deleted. */
  function Pruned(events: seq<Event>, cutoff: int, batchSize: nat): seq<Event> {
    if events == [] || batchSize == 0 then events
    else if events[0].occurredAt < cutoff then Pruned(events[1..], cutoff, batchSize - 1)
    else [events[0]] + Pruned(events[1..], cutoff, batchSize)
  }

  lemma PrunedStep(events: seq<Event>, cutoff: int, batchSize: nat)
    requires events != []
    ensures Pruned(events, cutoff, batchSize)
         == if batchSize > 0 && events[0].occurredAt < cutoff then Pruned(events[1..], cutoff, batchSize - 1)
            else [events[0]] + Pruned(events[1..], cutoff, batchSize)
  {
  }

  lemma {:induction false} PrunedIsRemainder(events: seq<Event>, journal: seq<Event>, cutoff: int, batchSize: nat)
    requires IsRemainder(events, journal)
    ensures IsRemainder(Pruned(events, cutoff, batchSize), journal)
    ensures forall e :: e in Pruned(events, cutoff, batchSize) ==> e in events
  {
    if events != [] && batchSize > 0 {
      assert IsRemainder(events[1..], journal);
      if events[0].occurredAt < cutoff {
        PrunedIsRemainder(events[1..], journal, cutoff, batchSize - 1);
      } else {
        PrunedIsRemainder(events[1..], journal, cutoff, batchSize);
        HeadBefore(events, journal, Pruned(events[1..], cutoff, batchSize));
      }
    }
  }

  lemma HeadBefore(events: seq<Event>, journal: seq<Event>, rest: seq<Event>)
    requires events != [] && IsRemainder(events, journal) && IsRemainder(rest, journal)
    requires forall e :: e in rest ==> e in events[1..]
    ensures IsRemainder([events[0]] + rest, journal)
  {
    forall k | 0 <= k < |rest|
      ensures events[0].sequence < rest[k].sequence
    {
      assert rest[k] in events[1..];
    }
  }

  predicate Taken(commands: seq<Command>, command: Command) {
    exists i :: 0 <= i < |commands|
                && (commands[i].id == command.id || commands[i].idempotencyKey == command.idempotencyKey)
  }

  predicate Moved(before: seq<Command>, after: seq<Command>, i: nat, id: string, status: Status) {
    && i < |before| && before[i].id == id
    && after == before[i := WithStatus(before[i], status)]
  }

  predicate Numbered(journal: seq<Event>) {
    forall i :: 0 <= i < |journal| ==> journal[i].sequence == i + 1
  }

  /** The rows left of a journal, in its order. */
  predicate IsRemainder(events: seq<Event>, journal: seq<Event>) {
    && (forall i :: 0 <= i < |events| ==>
          1 <= events[i].sequence <= |journal| && journal[events[i].sequence - 1] == events[i])
    && forall i, j :: 0 <= i < j < |events| ==> events[i].sequence < events[j].sequence
  }

  lemma RemainderGrows(events: seq<Event>, journal: seq<Event>, event: Event)
    requires IsRemainder(events, journal) && event.sequence == |journal| + 1
    ensures IsRemainder(events + [event], journal + [event])
  {
  }
}
