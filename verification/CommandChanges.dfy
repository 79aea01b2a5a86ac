// What reports and timeouts make of the command table, and what the journal tells of it.
module CommandChanges {
  import opened Wrappers
  import opened Journal
  import opened Store

  // ----- Which rows change -----

  predicate IsOpen(command: Command) {
    command.status in {Status.Requested, Status.Dispatched}
  }

  /** The command is open and asks for what is now stored. */
  predicate AsksFor(command: Command, property: StateProperty) {
    IsOpen(command) && (command.entityId, command.key, command.value) == (property.entityId, property.key, property.value)
  }

  /** The command is open and was requested before a time. */
  predicate IsOverdue(command: Command, before: int) {
    IsOpen(command) && before > command.requestedAt
  }

  /** A report confirms exactly the open commands that ask for what it reports, and leaves none of them open. */
  lemma ReportConfirmsIff(commands: seq<Command>, property: StateProperty, i: nat)
    requires i < |commands|
    ensures
      var after := ConfirmedBy(commands, property);
      && |after| == |commands|
      && (after[i] != commands[i] <==> AsksFor(commands[i], property))
      && (after[i] != commands[i] ==> after[i] == commands[i].(status := Status.Confirmed))
      && !AsksFor(after[i], property)
  {
  }

  /** A pass expires exactly the open commands among the first rows that are older than the timeout, and leaves
      none of those open. */
  lemma PassExpiresIff(commands: seq<Command>, before: int, limit: nat, i: nat)
    requires i < |commands|
    ensures
      var after := ExpiredBefore(commands, before, limit);
      && |after| == |commands|
      && (after[i] != commands[i] <==> i < limit && IsOverdue(commands[i], before))
      && (after[i] != commands[i] ==> after[i] == commands[i].(status := Status.Expired))
      && (i < limit ==> !IsOverdue(after[i], before))
  {
  }

  // ----- What is told of them -----

  /** The status a command event says its command has. */
  function StatusSaid(data: EventData): Option<Status> {
    match data
    case CommandRequested(_) => Some(Requested)
    case CommandDispatched(_) => Some(Dispatched)
    case CommandConfirmed(_) => Some(Confirmed)
    case CommandFailed(_, _) => Some(Failed)
    case CommandExpired(_) => Some(Expired)
    case _ => None
  }

  /** A note on the command as it is after a change. */
  predicate Tells(note: Note, after: Command, at: int, carries: bool) {
    && note.at == at && note.correlationId == (if carries then Some(after.correlationId) else None)
    && StatusSaid(note.data) == Some(after.status) && note.data.command == after
  }

  /** One note for every row that changed, in the order of the rows, and no other. */
  predicate TellsChanges(notes: seq<Note>, before: seq<Command>, after: seq<Command>, at: int, carries: bool)
    requires |before| == |after|
    decreases |before|
  {
    if before == [] then notes == []
    else
      var n := |before| - 1;
      if after[n] == before[n] then TellsChanges(notes, before[..n], after[..n], at, carries)
      else
        && notes != [] && Tells(notes[|notes| - 1], after[n], at, carries)
        && TellsChanges(notes[..|notes| - 1], before[..n], after[..n], at, carries)
  }

  lemma OneMoreRow(fewer: seq<Note>, more: seq<Note>, before: seq<Command>, after: seq<Command>, at: int, carries: bool)
    requires |before| == |after| > 0
    requires TellsChanges(fewer, before[..|before| - 1], after[..|before| - 1], at, carries)
    requires
      if after[|before| - 1] == before[|before| - 1] then more == []
      else |more| == 1 && Tells(more[0], after[|before| - 1], at, carries)
    ensures TellsChanges(fewer + more, before, after, at, carries)
  {
    if more == [] {
      assert fewer + more == fewer;
    } else {
      assert (fewer + more)[..|fewer|] == fewer;
    }
  }

  /** A report tells of each command it confirms, without the cause of the command. */
  lemma {:induction false} ReportTellsChanges(commands: seq<Command>, property: StateProperty, now: int)
    ensures TellsChanges(
      Confirmations(commands, property, now), commands, ConfirmedBy(commands, property), now, false)
    decreases |commands|
  {
    if commands != [] {
      var n := |commands| - 1;
      var after := ConfirmedBy(commands, property);
      ReportTellsChanges(commands[..n], property, now);
      ReportConfirmsIff(commands, property, n);
      assert after[..n] == ConfirmedBy(commands[..n], property);
      OneMoreRow(
        Confirmations(commands[..n], property, now), Confirmation(commands[n], property, now), commands, after, now, false);
    }
  }

  lemma LastRowExpires(commands: seq<Command>, before: int, now: int)
    requires commands != []
    ensures
      var n := |commands| - 1;
      Expirations(commands, before, now) == Expirations(commands[..n], before, now) + Expiration(commands[n], before, now)
  {
  }

  lemma {:induction false} RowsAreTold(commands: seq<Command>, before: int, now: int, limit: nat)
    requires |commands| <= limit
    ensures TellsChanges(Expirations(commands, before, now), commands, ExpiredBefore(commands, before, limit), now, true)
    decreases |commands|
  {
    if commands != [] {
      var n, after := |commands| - 1, ExpiredBefore(commands, before, limit);
      RowsAreTold(commands[..n], before, now, limit);
      assert after[..n] == ExpiredBefore(commands[..n], before, limit);
      LastRowExpires(commands, before, now);
      assert after[n] == AfterTimeout(commands[n], before);
      OneMoreRow(
        Expirations(commands[..n], before, now), Expiration(commands[n], before, now), commands, after, now, true);
    }
  }

  /** A pass of expiry tells of each command it expires, with its cause. */
  lemma {:induction false} PassTellsChanges(commands: seq<Command>, before: int, now: int, limit: nat)
    ensures TellsChanges(
      Expirations(First(commands, limit), before, now), commands, ExpiredBefore(commands, before, limit), now, true)
    decreases |commands|
  {
    if |commands| <= limit {
      RowsAreTold(commands, before, now, limit);
      assert First(commands, limit) == commands;
    } else {
      var n := |commands| - 1;
      PassTellsChanges(commands[..n], before, now, limit);
      assert First(commands, limit) == First(commands[..n], limit);
      assert ExpiredBefore(commands, before, limit)[..n] == ExpiredBefore(commands[..n], before, limit);
      assert ExpiredBefore(commands, before, limit)[n] == commands[n];
    }
  }

  /** The event of a transition says the new status, and of a failure why. */
  lemma TransitionSaysStatus(command: Command, reason: Option<string>)
    ensures
      var data := TransitionData(command, reason);
      && StatusSaid(data) == Some(command.status) && data.command == command
      && (data.CommandFailed? ==> data.reason == match reason case Some(why) => why case None => "command failed")
  {
  }

  // ----- Names -----

  /** The same letter in either case, or the same character. */
  predicate SameLetter(a: char, b: char) {
    || a == b
    || (0x41 <= a as int <= 0x5A && b as int == a as int + 0x20)
    || (0x41 <= b as int <= 0x5A && a as int == b as int + 0x20)
  }

  /** Two names are the same exactly when they differ at most in the case of their ASCII letters. */
  lemma SameNameIff(a: string, b: string)
    ensures SameName(a, b) <==> |a| == |b| && forall i :: 0 <= i < |a| ==> SameLetter(a[i], b[i])
  {
    forall c: char, d: char
      ensures Lower(c) == Lower(d) <==> SameLetter(c, d)
    {
    }
  }

  // ----- What a purge deletes -----

  /** How many rows are older than the cutoff. */
  function OldCount(events: seq<Event>, cutoff: int): nat {
    if events == [] then 0
    else OldCount(events[..|events| - 1], cutoff) + if cutoff > events[|events| - 1].occurredAt then 1 else 0
  }

  lemma {:induction false} OldCountFirst(events: seq<Event>, cutoff: int)
    requires events != []
    ensures OldCount(events, cutoff) == OldCount(events[1..], cutoff) + if cutoff > events[0].occurredAt then 1 else 0
  {
    if |events| > 1 {
      var fewer := events[..|events| - 1];
      OldCountFirst(fewer, cutoff);
      assert fewer[1..] == events[1..][..|events| - 2];
    } else {
      assert events[1..] == [] && events[..0] == [];
    }
  }

  /** A purge deletes a row exactly when it is old and fewer old rows than the batch come before it. */
  lemma {:induction false} RowIsDeletedIff(events: seq<Event>, cutoff: int, batchSize: nat, i: nat)
    requires i < |events| && forall j, k :: 0 <= j < k < |events| ==> events[j] != events[k]
    ensures events[i] !in Pruned(events, cutoff, batchSize)
       <==> cutoff > events[i].occurredAt && OldCount(events[..i], cutoff) < batchSize
    decreases |events|
  {
    var rest := events[1..];
    PrunedStep(events, cutoff, batchSize);
    var deleted := batchSize > 0 && events[0].occurredAt < cutoff;
    PrunedAreThere(rest, cutoff, if deleted then batchSize - 1 else batchSize);
    assert events[0] !in rest;
    if i > 0 {
      assert rest[i - 1] == events[i] && rest[..i - 1] == events[..i][1..];
      OldCountFirst(events[..i], cutoff);
      if batchSize > 0 {
        RowIsDeletedIff(rest, cutoff, if deleted then batchSize - 1 else batchSize, i - 1);
      }
    }
  }

  lemma {:induction false} PrunedAreThere(events: seq<Event>, cutoff: int, batchSize: nat)
    ensures forall e :: e in Pruned(events, cutoff, batchSize) ==> e in events
  {
    if events != [] && batchSize > 0 {
      PrunedAreThere(events[1..], cutoff, if events[0].occurredAt < cutoff then batchSize - 1 else batchSize);
    }
  }
}
