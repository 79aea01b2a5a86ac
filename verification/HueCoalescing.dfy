// Concurrent dispatch to a Hue bridge. Commands for the same property of the same light absorb one
// another while they wait, so that only the newest is sent.
module HueCoalescing {
  import opened Wrappers
  import opened Collections
  import opened Reachability
  import opened HueGate

  datatype HueValue =
    | On(on: bool)
    | Brightness(percentage: real)
    | ColorTemperature(mirek: nat)
    | Color(x: real, y: real)

  datatype Key = Key(resourceId: string, property: string)

  datatype PendingValue = PendingValue(revision: nat, value: HueValue)

  type Table = map<Key, PendingValue>

  /** How a dispatch ends. */
  datatype Outcome = Delivered | BridgeFailed | QueueFull | Superseded | Disappeared

  // ----- The table of pending values -----

  function CurrentValue(pending: Table, key: Key, revision: nat): Result<HueValue, Outcome> {
    if key !in pending then Err(Disappeared)
    else if pending[key].revision != revision then Err(Superseded)
    else Ok(pending[key].value)
  }

  function Removed(pending: Table, key: Key, revision: nat): Table {
    if key in pending && pending[key].revision == revision then pending - {key} else pending
  }

  class PendingTable {
    var pending: Table
    var revision: nat

    constructor ()
      ensures pending == map[] && revision == 0
    {
      pending := map[];
      revision := 0;
    }

    method TakeRevision() returns (taken: nat)
      modifies this`revision
      ensures taken == revision == old(revision) + 1
    {
      revision := revision + 1;
      taken := revision;
    }

    method Insert(key: Key, value: PendingValue)
      modifies this`pending
      ensures pending == old(pending)[key := value]
    {
      pending := pending[key := value];
    }

    method CurrentPendingValue(key: Key, revision: nat) returns (r: Result<HueValue, Outcome>)
      ensures r == CurrentValue(pending, key, revision)
    {
      if key in pending {
        if pending[key].revision == revision {
          return Ok(pending[key].value);
        }
        return Err(Superseded);
      }
      return Err(Disappeared);
    }

    method RemovePendingIfCurrent(key: Key, revision: nat)
      modifies this`pending
      ensures pending == Removed(old(pending), key, revision)
    {
      if key in pending && pending[key].revision == revision {
        pending := map k | k in pending && k != key :: pending[k];
      }
    }
  }

  // ----- One dispatch as the steps of its thread -----

  datatype Phase =
    | Numbered
    | Staged(since: int)
    | Passed
    | Refused
    | Waiting
    | Cleared(cleared: HueValue)
    | Stale(why: Outcome)
    | Calling
    | Answered(ok: bool)
    | Ended(outcome: Outcome)

  datatype Dispatch = Dispatch(key: Key, value: HueValue, revision: nat, slot: Option<int>, phase: Phase)

  datatype Call = Call(id: nat, key: Key, value: HueValue)

  /** The dispatcher shared by the threads, with the threads themselves. `last` and `calls` are its
      history: the dispatch inserted last under each key, and every call made to the bridge. */
  datatype State = State(
    pending: Table,
    revision: nat,
    nextLightAt: int,
    now: int,
    dispatches: map<nat, Dispatch>,
    last: map<Key, nat>,
    calls: seq<Call>)

  /** One step: `Begin` to `Drop` are taken by the thread of a dispatch, between its own locks. */
  datatype Action =
    | Begin(id: nat, key: Key, value: HueValue)
    | InsertPending(id: nat)
    | FirstCheck(id: nat)
    | ReserveSlot(id: nat)
    | SecondCheck(id: nat)
    | CallBridge(id: nat)
    | BridgeAnswers(id: nat, ok: bool)
    | Drop(id: nat)
    | Tick(elapsed: nat)

  predicate Possible(s: State, action: Action, policy: Policy) {
    match action
    case Begin(id, _, _) => id !in s.dispatches
    case InsertPending(id) => id in s.dispatches && s.dispatches[id].phase.Numbered?
    case FirstCheck(id) =>
      id in s.dispatches && s.dispatches[id].phase.Staged? && s.dispatches[id].phase.since + policy.window <= s.now
    case ReserveSlot(id) => id in s.dispatches && s.dispatches[id].phase.Passed?
    case SecondCheck(id) =>
      && id in s.dispatches && s.dispatches[id].phase.Waiting?
      && s.dispatches[id].slot.Some? && s.dispatches[id].slot.value <= s.now
    case CallBridge(id) => id in s.dispatches && s.dispatches[id].phase.Cleared?
    case BridgeAnswers(id, _) => id in s.dispatches && s.dispatches[id].phase.Calling?
    case Drop(id) =>
      && id in s.dispatches
      && var phase := s.dispatches[id].phase;
         phase.Refused? || phase.Stale? || phase.Answered?
    case Tick(_) => true
  }

  function Enter(s: State, id: nat, phase: Phase): State
    requires id in s.dispatches
  {
    s.(dispatches := s.dispatches[id := s.dispatches[id].(phase := phase)])
  }

  function Step(s: State, action: Action, policy: Policy): State
    requires Possible(s, action, policy)
  {
    match action
    case Begin(id, key, value) =>
      s.(revision := s.revision + 1,
         dispatches := s.dispatches[id := Dispatch(key, value, s.revision + 1, None, Numbered)])
    case InsertPending(id) =>
      var d := s.dispatches[id];
      Enter(s, id, Staged(s.now)).(
      pending := s.pending[d.key := PendingValue(d.revision, d.value)],
      last := s.last[d.key := id])
    case FirstCheck(id) =>
      var d := s.dispatches[id];
      (match CurrentValue(s.pending, d.key, d.revision)
       case Ok(_) => Enter(s, id, Passed)
       case Err(why) => Enter(s, id, Ended(why)))
    case ReserveSlot(id) =>
      var d := s.dispatches[id];
      var (slot, next) := Reserved(s.nextLightAt, s.now, policy);
      s.(nextLightAt := next,
         dispatches := s.dispatches[id := d.(slot := slot, phase := if slot.Some? then Waiting else Refused)])
    case SecondCheck(id) =>
      var d := s.dispatches[id];
      (match CurrentValue(s.pending, d.key, d.revision)
       case Ok(value) => Enter(s, id, Cleared(value))
       case Err(why) => Enter(s, id, Stale(why)))
    case CallBridge(id) =>
      var d := s.dispatches[id];
      Enter(s, id, Calling).(calls := s.calls + [Call(id, d.key, d.phase.cleared)])
    case BridgeAnswers(id, ok) => Enter(s, id, Answered(ok))
    case Drop(id) =>
      var d := s.dispatches[id];
      Enter(s, id, Ended(OutcomeOf(d.phase))).(pending := Removed(s.pending, d.key, d.revision))
    case Tick(elapsed) => s.(now := s.now + elapsed)
  }

  function OutcomeOf(phase: Phase): Outcome
    requires phase.Refused? || phase.Stale? || phase.Answered?
  {
    match phase
    case Refused => QueueFull
    case Stale(why) => why
    case Answered(ok) => if ok then Delivered else BridgeFailed
  }

  function Idle(start: int): State {
    State(map[], 0, start, start, map[], map[], [])
  }

  predicate StepsTo(before: State, action: Action, after: State, policy: Policy) {
    Possible(before, action, policy) && after == Step(before, action, policy)
  }

  /** The steps of the threads, in any order. */
  ghost function Steps(policy: Policy): (State, Action, State) -> bool {
    (before, action, after) => StepsTo(before, action, after, policy)
  }

  ghost predicate Reachable(s: State, start: int, policy: Policy) {
    Reaches(Steps(policy), Idle(start), s)
  }

  // ----- What every step keeps -----

  predicate Inserted(d: Dispatch) {
    !d.phase.Numbered?
  }

  /** Inserted, and its thread has not returned. */
  predicate InFlight(d: Dispatch) {
    !d.phase.Numbered? && !d.phase.Ended?
  }

  predicate Called(d: Dispatch) {
    || d.phase.Calling? || d.phase.Answered?
    || (d.phase.Ended? && (d.phase.outcome == Delivered || d.phase.outcome == BridgeFailed))
  }

  predicate LostItsPlace(d: Dispatch) {
    || d.phase.Stale?
    || (d.phase.Ended? && (d.phase.outcome == Superseded || d.phase.outcome == Disappeared))
  }

  predicate RevisionsAreUnique(s: State) {
    && (forall i :: i in s.dispatches ==> s.dispatches[i].revision <= s.revision)
    && forall i, j :: i in s.dispatches && j in s.dispatches && s.dispatches[i].revision == s.dispatches[j].revision
                      ==> i == j
  }

  predicate LastFits(s: State) {
    && (forall i :: i in s.dispatches && Inserted(s.dispatches[i]) ==> s.dispatches[i].key in s.last)
    && forall k :: k in s.last ==>
         && s.last[k] in s.dispatches
         && s.dispatches[s.last[k]].key == k
         && Inserted(s.dispatches[s.last[k]])
         && !LostItsPlace(s.dispatches[s.last[k]])
  }

  /** A key is pending exactly while the dispatch inserted last under it is in flight, and then holds
      the revision and the value of that dispatch. */
  predicate PendingFits(s: State)
    requires LastFits(s)
  {
    && s.pending.Keys <= s.last.Keys
    && forall k :: k in s.last ==> EntryFits(s.pending, k, s.dispatches[s.last[k]])
  }

  predicate EntryFits(pending: Table, key: Key, newest: Dispatch) {
    if InFlight(newest) then key in pending && pending[key] == PendingValue(newest.revision, newest.value)
    else key !in pending
  }

  predicate Listed(calls: seq<Call>, id: nat) {
    exists c :: 0 <= c < |calls| && calls[c].id == id
  }

  predicate PhaseFits(d: Dispatch, now: int) {
    && (d.phase.Stale? ==> d.phase.why == Superseded || d.phase.why == Disappeared)
    && (d.phase.Cleared? ==> d.phase.cleared == d.value)
    && (d.phase.Numbered? || d.phase.Staged? || d.phase.Passed? ==> d.slot.None?)
    && (d.phase.Waiting? || d.phase.Cleared? || Called(d) ==> d.slot.Some?)
    && (d.phase.Cleared? || Called(d) ==> d.slot.GetOr(now) <= now)
  }

  predicate PhasesFit(s: State) {
    forall i :: i in s.dispatches ==> PhaseFits(s.dispatches[i], s.now)
  }

  predicate CallsFit(s: State) {
    && (forall i :: i in s.dispatches && Called(s.dispatches[i]) ==> Listed(s.calls, i))
    && (forall c :: 0 <= c < |s.calls| ==>
          && s.calls[c].id in s.dispatches
          && Called(s.dispatches[s.calls[c].id])
          && s.calls[c].key == s.dispatches[s.calls[c].id].key
          && s.calls[c].value == s.dispatches[s.calls[c].id].value)
    && forall b, c :: 0 <= b < c < |s.calls| ==> s.calls[b].id != s.calls[c].id
  }

  /** Slots start at `start` and are an interval apart. */
  predicate SlotsFit(s: State, start: int, policy: Policy) {
    && start <= s.now && start <= s.nextLightAt
    && (forall i :: i in s.dispatches && s.dispatches[i].slot.Some? ==>
          start <= s.dispatches[i].slot.value && s.dispatches[i].slot.value + policy.interval <= s.nextLightAt)
    && forall i, j :: i in s.dispatches && j in s.dispatches && i != j
                      && s.dispatches[i].slot.Some? && s.dispatches[j].slot.Some? ==>
         Apart(s.dispatches[i].slot.value, s.dispatches[j].slot.value, policy.interval)
  }

  predicate Apart(a: int, b: int, interval: nat) {
    a + interval <= b || b + interval <= a
  }

  predicate TableFits(s: State) {
    RevisionsAreUnique(s) && LastFits(s) && PendingFits(s)
  }

  predicate Fits(s: State, start: int, policy: Policy) {
    TableFits(s) && PhasesFit(s) && CallsFit(s) && SlotsFit(s, start, policy)
  }

  predicate SameCommand(d: Dispatch, e: Dispatch) {
    d.key == e.key && d.value == e.value && d.revision == e.revision
  }

  /** A dispatch in flight finds its own value in the table exactly when it is the one inserted last
      under its key. */
  lemma CheckPassesIffLast(s: State, id: nat)
    requires TableFits(s) && id in s.dispatches && InFlight(s.dispatches[id])
    ensures
      var d := s.dispatches[id];
      && d.key in s.last
      && (s.last[d.key] == id ==> CurrentValue(s.pending, d.key, d.revision) == Ok(d.value))
      && (s.last[d.key] != id ==> CurrentValue(s.pending, d.key, d.revision).Err?)
  {
  }

  /** A step that moves one dispatch and leaves the table alone. */
  lemma MoveKeepsTable(s: State, id: nat, e: Dispatch, t: State)
    requires TableFits(s) && id in s.dispatches && Inserted(s.dispatches[id])
    requires SameCommand(s.dispatches[id], e) && Inserted(e)
    requires s.last[e.key] == id ==> (InFlight(e) <==> InFlight(s.dispatches[id])) && !LostItsPlace(e)
    requires t.dispatches == s.dispatches[id := e]
    requires t.pending == s.pending && t.last == s.last && t.revision == s.revision
    ensures TableFits(t)
  {
    var d := s.dispatches[id];
    forall i | i in t.dispatches
      ensures i in s.dispatches && SameCommand(s.dispatches[i], t.dispatches[i])
      ensures Inserted(t.dispatches[i]) <==> Inserted(s.dispatches[i])
    {
    }
    assert RevisionsAreUnique(t);
    forall k | k in t.last
      ensures InFlight(t.dispatches[t.last[k]]) <==> InFlight(s.dispatches[s.last[k]])
      ensures !LostItsPlace(t.dispatches[t.last[k]])
    {
    }
  }

  lemma RevisionsStay(s: State, t: State)
    requires RevisionsAreUnique(s) && t.revision == s.revision
    requires forall i :: i in t.dispatches ==> i in s.dispatches && SameCommand(s.dispatches[i], t.dispatches[i])
    ensures RevisionsAreUnique(t)
  {
  }

  lemma LastStays(s: State, t: State)
    requires LastFits(s) && t.last == s.last && t.dispatches.Keys == s.dispatches.Keys
    requires forall i :: i in t.dispatches ==>
      && SameCommand(s.dispatches[i], t.dispatches[i])
      && (Inserted(t.dispatches[i]) <==> Inserted(s.dispatches[i]))
    requires forall k :: k in s.last ==> s.last[k] in t.dispatches && !LostItsPlace(t.dispatches[s.last[k]])
    ensures LastFits(t)
  {
  }

  lemma BeginKeepsTable(s: State, id: nat, d: Dispatch, t: State)
    requires TableFits(s) && id !in s.dispatches && d.phase.Numbered? && d.revision == s.revision + 1
    requires t.dispatches == s.dispatches[id := d]
    requires t.pending == s.pending && t.last == s.last && t.revision == s.revision + 1
    ensures TableFits(t)
  {
    assert forall i :: i in t.dispatches && i != id ==> i in s.dispatches && t.dispatches[i] == s.dispatches[i];
    assert forall k :: k in t.last ==> t.last[k] != id;
  }

  lemma InsertKeepsLast(s: State, id: nat, e: Dispatch, t: State)
    requires LastFits(s) && id in s.dispatches && s.dispatches[id].phase.Numbered? && e.phase.Staged?
    requires SameCommand(s.dispatches[id], e)
    requires t.dispatches == s.dispatches[id := e] && t.last == s.last[e.key := id]
    ensures LastFits(t)
  {
    assert forall k :: k in s.last ==> s.last[k] != id;
  }

  lemma InsertKeepsEntries(s: State, id: nat, e: Dispatch, t: State)
    requires LastFits(s) && PendingFits(s) && LastFits(t)
    requires id in s.dispatches && s.dispatches[id].phase.Numbered? && e.phase.Staged?
    requires t.dispatches == s.dispatches[id := e] && t.last == s.last[e.key := id]
    requires t.pending == s.pending[e.key := PendingValue(e.revision, e.value)]
    ensures PendingFits(t)
  {
    forall k | k in t.last && k != e.key
      ensures EntryFits(t.pending, k, t.dispatches[t.last[k]])
    {
      assert s.last[k] != id;
      assert EntryFits(s.pending, k, s.dispatches[s.last[k]]);
    }
    assert EntryFits(t.pending, e.key, t.dispatches[id]);
  }

  lemma InsertKeepsTable(s: State, id: nat, since: int, t: State)
    requires TableFits(s) && id in s.dispatches && s.dispatches[id].phase.Numbered?
    requires
      var d := s.dispatches[id];
      && t.dispatches == s.dispatches[id := d.(phase := Staged(since))]
      && t.pending == s.pending[d.key := PendingValue(d.revision, d.value)]
      && t.last == s.last[d.key := id] && t.revision == s.revision
    ensures TableFits(t)
  {
    RevisionsStay(s, t);
    InsertKeepsLast(s, id, t.dispatches[id], t);
    InsertKeepsEntries(s, id, t.dispatches[id], t);
  }

  lemma ReturnKeepsLast(s: State, id: nat, e: Dispatch, t: State)
    requires TableFits(s) && id in s.dispatches && InFlight(s.dispatches[id])
    requires SameCommand(s.dispatches[id], e) && Inserted(e) && !LostItsPlace(e)
    requires t.dispatches == s.dispatches[id := e] && t.last == s.last && t.revision == s.revision
    ensures RevisionsAreUnique(t) && LastFits(t)
  {
    assert t.dispatches.Keys == s.dispatches.Keys;
    RevisionsStay(s, t);
    LastStays(s, t);
  }

  /** The last dispatch under its key returns, and takes its entry with it. */
  lemma ReturnKeepsTable(s: State, id: nat, outcome: Outcome, t: State)
    requires TableFits(s) && id in s.dispatches && InFlight(s.dispatches[id])
    requires s.last[s.dispatches[id].key] == id && outcome != Superseded && outcome != Disappeared
    requires
      var d := s.dispatches[id];
      && t.dispatches == s.dispatches[id := d.(phase := Ended(outcome))]
      && t.pending == s.pending - {d.key} && t.last == s.last && t.revision == s.revision
    ensures TableFits(t)
  {
    ReturnKeepsLast(s, id, t.dispatches[id], t);
    forall k | k in t.last
      ensures EntryFits(t.pending, k, t.dispatches[t.last[k]])
    {
      assert EntryFits(s.pending, k, s.dispatches[s.last[k]]);
    }
  }

  lemma DropKeepsTable(s: State, id: nat, outcome: Outcome, t: State)
    requires TableFits(s) && id in s.dispatches && InFlight(s.dispatches[id])
    requires s.last[s.dispatches[id].key] == id ==> outcome != Superseded && outcome != Disappeared
    requires
      var d := s.dispatches[id];
      && t.dispatches == s.dispatches[id := d.(phase := Ended(outcome))]
      && t.pending == Removed(s.pending, d.key, d.revision) && t.last == s.last && t.revision == s.revision
    ensures TableFits(t)
  {
    CheckPassesIffLast(s, id);
    if s.last[s.dispatches[id].key] != id {
      MoveKeepsTable(s, id, t.dispatches[id], t);
    } else {
      ReturnKeepsTable(s, id, outcome, t);
    }
  }

  lemma StepKeepsTable(s: State, action: Action, policy: Policy)
    requires TableFits(s) && PhasesFit(s) && Possible(s, action, policy)
    ensures TableFits(Step(s, action, policy))
  {
    var t := Step(s, action, policy);
    match action {
      case Begin(id, _, _) => BeginKeepsTable(s, id, t.dispatches[id], t);
      case InsertPending(id) => InsertKeepsTable(s, id, s.now, t);
      case FirstCheck(id) =>
        CheckPassesIffLast(s, id);
        MoveKeepsTable(s, id, t.dispatches[id], t);
      case ReserveSlot(id) => MoveKeepsTable(s, id, t.dispatches[id], t);
      case SecondCheck(id) =>
        CheckPassesIffLast(s, id);
        MoveKeepsTable(s, id, t.dispatches[id], t);
      case CallBridge(id) => MoveKeepsTable(s, id, t.dispatches[id], t);
      case BridgeAnswers(id, _) => MoveKeepsTable(s, id, t.dispatches[id], t);
      case Drop(id) => DropKeepsTable(s, id, OutcomeOf(s.dispatches[id].phase), t);
      case Tick(_) =>
    }
  }

  /** A step moves at most the dispatch it belongs to. */
  lemma OthersStay(s: State, action: Action, policy: Policy)
    requires Possible(s, action, policy)
    ensures
      var t := Step(s, action, policy);
      && (if action.Tick? then t.dispatches == s.dispatches
          else action.id in t.dispatches && t.dispatches == s.dispatches[action.id := t.dispatches[action.id]])
      && s.now <= t.now
  {
    var t := Step(s, action, policy);
    if action.Tick? {
    } else {
      var id := action.id;
      assert id in t.dispatches;
      assert t.dispatches == s.dispatches[id := t.dispatches[id]];
    }
  }

  predicate ChecksOwnValue(s: State, d: Dispatch) {
    match CurrentValue(s.pending, d.key, d.revision)
    case Ok(value) => value == d.value
    case Err(why) => why == Superseded || why == Disappeared
  }

  lemma SubjectFits(s: State, action: Action, policy: Policy)
    requires Possible(s, action, policy) && !action.Tick?
    requires !action.Begin? ==> PhaseFits(s.dispatches[action.id], s.now)
    requires action.FirstCheck? || action.SecondCheck? ==> ChecksOwnValue(s, s.dispatches[action.id])
    ensures
      var t := Step(s, action, policy);
      action.id in t.dispatches && PhaseFits(t.dispatches[action.id], s.now)
  {
  }

  lemma StepKeepsPhases(s: State, action: Action, policy: Policy)
    requires TableFits(s) && PhasesFit(s) && Possible(s, action, policy)
    ensures PhasesFit(Step(s, action, policy))
  {
    OthersStay(s, action, policy);
    if action.FirstCheck? || action.SecondCheck? {
      CheckPassesIffLast(s, action.id);
    }
    if !action.Tick? {
      SubjectFits(s, action, policy);
    }
    var t := Step(s, action, policy);
    forall i | i in t.dispatches
      ensures PhaseFits(t.dispatches[i], t.now)
    {
      assert i in s.dispatches ==> PhaseFits(s.dispatches[i], s.now);
    }
  }

  lemma MoveKeepsCalls(s: State, id: nat, e: Dispatch, t: State)
    requires CallsFit(s) && id in s.dispatches && SameCommand(s.dispatches[id], e)
    requires Called(e) <==> Called(s.dispatches[id])
    requires t.dispatches == s.dispatches[id := e] && t.calls == s.calls
    ensures CallsFit(t)
  {
    assert forall i :: i in t.dispatches ==> i in s.dispatches && (Called(t.dispatches[i]) <==> Called(s.dispatches[i]));
  }

  lemma CallKeepsCalls(s: State, id: nat, t: State)
    requires CallsFit(s) && id in s.dispatches && !Called(s.dispatches[id])
    requires t.dispatches == s.dispatches[id := s.dispatches[id].(phase := Calling)]
    requires t.calls == s.calls + [Call(id, s.dispatches[id].key, s.dispatches[id].value)]
    ensures CallsFit(t)
  {
    var n := |s.calls|;
    assert t.calls[n].id == id;
    assert forall c :: 0 <= c < n ==> t.calls[c] == s.calls[c] && s.calls[c].id != id;
    forall i | i in t.dispatches && Called(t.dispatches[i])
      ensures Listed(t.calls, i)
    {
      if i != id {
        assert Called(s.dispatches[i]);
        var c :| 0 <= c < n && s.calls[c].id == i;
        assert t.calls[c].id == i;
      }
    }
  }

  lemma OnlyCallBridgeCalls(s: State, action: Action, policy: Policy)
    requires PhasesFit(s) && Possible(s, action, policy)
    requires !action.Tick? && !action.Begin? && !action.CallBridge?
    requires action.FirstCheck? || action.SecondCheck? ==> ChecksOwnValue(s, s.dispatches[action.id])
    ensures
      var t := Step(s, action, policy);
      && action.id in t.dispatches && SameCommand(s.dispatches[action.id], t.dispatches[action.id])
      && (Called(t.dispatches[action.id]) <==> Called(s.dispatches[action.id]))
      && t.calls == s.calls
  {
    assert PhaseFits(s.dispatches[action.id], s.now);
  }

  lemma StepKeepsCalls(s: State, action: Action, policy: Policy)
    requires TableFits(s) && PhasesFit(s) && CallsFit(s) && Possible(s, action, policy)
    ensures CallsFit(Step(s, action, policy))
  {
    var t := Step(s, action, policy);
    OthersStay(s, action, policy);
    if action.Begin? {
      assert !Called(t.dispatches[action.id]);
    } else if action.CallBridge? {
      assert PhaseFits(s.dispatches[action.id], s.now);
      CallKeepsCalls(s, action.id, t);
    } else if !action.Tick? {
      if action.FirstCheck? || action.SecondCheck? {
        CheckPassesIffLast(s, action.id);
      }
      OnlyCallBridgeCalls(s, action, policy);
      MoveKeepsCalls(s, action.id, t.dispatches[action.id], t);
    }
  }

  lemma StepKeepsSlots(s: State, action: Action, start: int, policy: Policy)
    requires SlotsFit(s, start, policy) && PhasesFit(s) && Possible(s, action, policy)
    ensures SlotsFit(Step(s, action, policy), start, policy)
  {
    var t := Step(s, action, policy);
    OthersStay(s, action, policy);
    if action.ReserveSlot? {
      assert s.nextLightAt <= t.nextLightAt;
    } else {
      assert t.nextLightAt == s.nextLightAt;
      assert forall i :: i in s.dispatches ==> i in t.dispatches && t.dispatches[i].slot == s.dispatches[i].slot;
      assert action.Begin? ==> t.dispatches[action.id].slot.None?;
      assert forall i :: i in t.dispatches && t.dispatches[i].slot.Some? ==> i in s.dispatches;
    }
  }

  lemma StepKeepsFits(s: State, action: Action, start: int, policy: Policy)
    requires Fits(s, start, policy) && Possible(s, action, policy)
    ensures Fits(Step(s, action, policy), start, policy)
  {
    StepKeepsTable(s, action, policy);
    StepKeepsPhases(s, action, policy);
    StepKeepsCalls(s, action, policy);
    StepKeepsSlots(s, action, start, policy);
  }

  lemma FitsStays(from: State, s: State, start: int, policy: Policy)
    requires Reaches(Steps(policy), from, s) && Fits(from, start, policy)
    ensures Fits(s, start, policy)
  {
    forall before, action, after | Fits(before, start, policy) && Steps(policy)(before, action, after)
      ensures Fits(after, start, policy)
    {
      StepKeepsFits(before, action, start, policy);
    }
    ReachesKeeps(Steps(policy), x => Fits(x, start, policy), from, s);
  }

  lemma ReachableFits(s: State, start: int, policy: Policy)
    requires Reachable(s, start, policy)
    ensures Fits(s, start, policy)
  {
    FitsStays(Idle(start), s, start, policy);
  }

  // ----- The protocol -----

  /** A key is pending exactly while the dispatch inserted last under it is in flight, and the pending
      value is the one of that dispatch. */
  lemma PendingBelongsToLast(s: State, start: int, policy: Policy, key: Key)
    requires Reachable(s, start, policy)
    ensures key in s.pending <==>
      key in s.last && s.last[key] in s.dispatches && InFlight(s.dispatches[s.last[key]])
    ensures key in s.pending ==>
      && s.pending[key].revision == s.dispatches[s.last[key]].revision
      && s.pending[key].value == s.dispatches[s.last[key]].value
  {
    ReachableFits(s, start, policy);
    assert key in s.last ==> EntryFits(s.pending, key, s.dispatches[s.last[key]]);
  }

  /** At either check, a dispatch goes on exactly when it is the one inserted last under its key, and
      with its own value. */
  lemma ChecksKeepTheLast(s: State, start: int, policy: Policy, action: Action)
    requires Reachable(s, start, policy) && Possible(s, action, policy)
    requires action.FirstCheck? || action.SecondCheck?
    ensures
      var d := s.dispatches[action.id];
      var phase := Step(s, action, policy).dispatches[action.id].phase;
      && d.key in s.last
      && (action.FirstCheck? ==> (phase == Passed <==> s.last[d.key] == action.id))
      && (action.SecondCheck? ==> (phase == Cleared(d.value) <==> s.last[d.key] == action.id))
      && (s.last[d.key] != action.id ==>
            if action.FirstCheck? then phase == Ended(Superseded) || phase == Ended(Disappeared)
            else phase == Stale(Superseded) || phase == Stale(Disappeared))
  {
    ReachableFits(s, start, policy);
    CheckPassesIffLast(s, action.id);
  }

  /** The dispatch inserted last under a key is never given up for another one: it is sent, or the
      queue of the bridge was full. */
  lemma LastIsSentOrRefused(s: State, start: int, policy: Policy, key: Key)
    requires Reachable(s, start, policy) && key in s.last
    ensures s.last[key] in s.dispatches
    ensures s.dispatches[s.last[key]].phase.Ended? ==>
      || Listed(s.calls, s.last[key])
      || s.dispatches[s.last[key]].phase.outcome == QueueFull
  {
    ReachableFits(s, start, policy);
    var d := s.dispatches[s.last[key]];
    assert Called(d) ==> Listed(s.calls, s.last[key]);
  }

  /** A dispatch reaches the bridge at most once, with its own command, not before its slot; and a
      dispatch that has returned either reached the bridge or says why not. */
  lemma CallsAreOwn(s: State, start: int, policy: Policy)
    requires Reachable(s, start, policy)
    ensures forall b, c :: 0 <= b < c < |s.calls| ==> s.calls[b].id != s.calls[c].id
    ensures forall c :: 0 <= c < |s.calls| ==>
      && s.calls[c].id in s.dispatches
      && s.calls[c].key == s.dispatches[s.calls[c].id].key
      && s.calls[c].value == s.dispatches[s.calls[c].id].value
      && s.dispatches[s.calls[c].id].slot.Some?
      && s.dispatches[s.calls[c].id].slot.value <= s.now
    ensures forall i :: i in s.dispatches && s.dispatches[i].phase.Ended? ==>
      (Listed(s.calls, i) <==> s.dispatches[i].phase.outcome == Delivered
                               || s.dispatches[i].phase.outcome == BridgeFailed)
  {
    ReachableFits(s, start, policy);
    forall c | 0 <= c < |s.calls|
      ensures s.calls[c].id in s.dispatches
      ensures s.dispatches[s.calls[c].id].slot.Some? && s.dispatches[s.calls[c].id].slot.value <= s.now
    {
      assert PhaseFits(s.dispatches[s.calls[c].id], s.now);
    }
    forall i | i in s.dispatches && s.dispatches[i].phase.Ended?
      ensures Listed(s.calls, i) <==> Called(s.dispatches[i])
    {
    }
  }

  /** Nothing is left behind. */
  lemma NothingPendingWhenIdle(s: State, start: int, policy: Policy)
    requires Reachable(s, start, policy)
    requires forall i :: i in s.dispatches ==> !InFlight(s.dispatches[i])
    ensures s.pending == map[]
  {
    forall key | key in s.pending
      ensures false
    {
      PendingBelongsToLast(s, start, policy, key);
    }
  }

  // ----- Traffic -----

  lemma QuotientsDiffer(a: int, b: int, interval: nat)
    requires interval > 0 && a + interval <= b
    ensures a / interval < b / interval
  {
    var p, q := a / interval, b / interval;
    assert p * interval <= a && b < q * interval + interval;
    if q <= p {
      MulMonotone(q, p, interval);
    }
  }

  /** The interval after `start` in which a slot lies. */
  function IntervalOf(slot: int, start: int, interval: nat): int
    requires interval > 0
  {
    (slot - start) / interval
  }

  lemma SlotsWithin(slots: seq<int>, start: int, now: int, interval: nat)
    requires interval > 0 && start <= now
    requires forall i :: 0 <= i < |slots| ==> start <= slots[i] <= now
    requires forall i, j :: 0 <= i < j < |slots| ==> Apart(slots[i], slots[j], interval)
    ensures |slots| <= IntervalOf(now, start, interval) + 1
  {
    var numbers := seq(|slots|, i requires 0 <= i < |slots| => IntervalOf(slots[i], start, interval));
    forall i | 0 <= i < |numbers|
      ensures 0 <= numbers[i] <= IntervalOf(now, start, interval)
    {
      IntervalGrows(start, slots[i], start, interval);
      IntervalGrows(slots[i], now, start, interval);
    }
    forall i, j | 0 <= i < j < |numbers|
      ensures numbers[i] != numbers[j]
    {
      assert Apart(slots[i], slots[j], interval);
      IntervalsDiffer(slots[i], slots[j], start, interval);
    }
    DistinctBelow(numbers, IntervalOf(now, start, interval) + 1);
  }

  lemma IntervalGrows(a: int, b: int, start: int, interval: nat)
    requires interval > 0 && a <= b
    ensures IntervalOf(a, start, interval) <= IntervalOf(b, start, interval)
    ensures IntervalOf(start, start, interval) == 0
  {
    QuotientGrows(a - start, b - start, interval);
  }

  lemma IntervalsDiffer(a: int, b: int, start: int, interval: nat)
    requires interval > 0 && Apart(a, b, interval)
    ensures IntervalOf(a, start, interval) != IntervalOf(b, start, interval)
  {
    if a + interval <= b {
      QuotientsDiffer(a - start, b - start, interval);
    } else {
      QuotientsDiffer(b - start, a - start, interval);
    }
  }

  function SlotOf(s: State, id: nat): int
    requires id in s.dispatches
  {
    s.dispatches[id].slot.GetOr(s.now)
  }

  /** However many commands arrive, the bridge has been called at most once per interval since the
      start. */
  lemma TrafficIsBounded(s: State, start: int, policy: Policy)
    requires Reachable(s, start, policy) && ValidPolicy(policy)
    ensures s.now >= start && |s.calls| <= (s.now - start) / policy.interval + 1
  {
    ReachableFits(s, start, policy);
    CallsAreOwn(s, start, policy);
    var slots := seq(|s.calls|, i requires 0 <= i < |s.calls| => SlotOf(s, s.calls[i].id));
    forall i, j | 0 <= i < j < |slots|
      ensures Apart(slots[i], slots[j], policy.interval)
    {
      assert s.calls[i].id != s.calls[j].id;
    }
    SlotsWithin(slots, start, s.now, policy.interval);
    assert IntervalOf(s.now, start, policy.interval) == (s.now - start) / policy.interval;
  }

  lemma QuotientGrows(a: int, b: int, interval: nat)
    requires interval > 0 && a <= b
    ensures a / interval <= b / interval
  {
    var p, q := a / interval, b / interval;
    assert p * interval <= a && b < q * interval + interval;
    assert (q + 1) * interval == q * interval + interval;
    if q < p {
      MulMonotone(q + 1, p, interval);
    }
  }
}
