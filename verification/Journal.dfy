// The event journal and the tables it accounts for: what each event says about the tables.
module Journal {
  import opened Wrappers
  import opened StateValues

  datatype Status = Requested | Dispatched | Confirmed | Failed | Expired

  datatype Command = Command(
    id: string,
    entityId: string,
    key: string,
    value: StateValue,
    correlationId: string,
    idempotencyKey: string,
    requestedAt: int,
    status: Status)

  datatype ReportedState = ReportedState(entityId: string, key: string, value: StateValue, sourceAt: int)

  datatype StateProperty = StateProperty(
    entityId: string, key: string, value: StateValue, sourceAt: int, receivedAt: int, version: nat)

  datatype Flow = Flow(id: string, name: string, enabled: bool, revision: nat, source: string)

  datatype Area = Area(id: string, name: string)

  datatype AdapterHealth = AdapterHealth(adapterId: string, status: string, detail: Option<string>, observedAt: int)

  datatype EventData =
    | AreaCreated(area: Area)
    | AdapterHealthChanged(health: AdapterHealth)
    | FlowCreated(flow: Flow)
    | FlowUpdated(flow: Flow)
    | StateReported(state: StateProperty)
    | CommandRequested(command: Command)
    | CommandDispatched(command: Command)
    | CommandConfirmed(command: Command)
    | CommandFailed(command: Command, reason: string)
    | CommandExpired(command: Command)

  datatype Event = Event(sequence: nat, occurredAt: int, correlationId: Option<string>, data: EventData)

  /** The tables, with commands in the order of their insertion. */
  datatype Tables = Tables(
    commands: seq<Command>,
    entityState: map<(string, string), StateProperty>,
    flows: map<string, Flow>,
    areas: map<string, Area>,
    adapterHealth: map<string, AdapterHealth>)

  const EMPTY := Tables([], map[], map[], map[], map[])

  predicate HasCommand(commands: seq<Command>, id: string) {
    exists i :: 0 <= i < |commands| && commands[i].id == id
  }

  function Stored(commands: seq<Command>, command: Command): (r: seq<Command>)
    ensures |r| == |commands|
    ensures forall i :: 0 <= i < |r| ==> r[i] == if commands[i].id == command.id then command else commands[i]
  {
    seq(|commands|, i requires 0 <= i < |commands| => if commands[i].id == command.id then command else commands[i])
  }

  /** What one event makes of the tables, by its own content alone. */
  function Applied(tables: Tables, data: EventData): Tables {
    match data
    case AreaCreated(area) => tables.(areas := tables.areas[area.id := area])
    case AdapterHealthChanged(health) => tables.(adapterHealth := tables.adapterHealth[health.adapterId := health])
    case FlowCreated(flow) => tables.(flows := tables.flows[flow.id := flow])
    case FlowUpdated(flow) => tables.(flows := tables.flows[flow.id := flow])
    case StateReported(state) => tables.(entityState := tables.entityState[(state.entityId, state.key) := state])
    case CommandRequested(command) =>
      if HasCommand(tables.commands, command.id) then tables.(commands := Stored(tables.commands, command))
      else tables.(commands := tables.commands + [command])
    case _ => tables.(commands := Stored(tables.commands, data.command))
  }

  /** The tables an empty store has after the events of a journal. */
  function Replay(journal: seq<Event>): Tables {
    if journal == [] then EMPTY
    else Applied(Replay(journal[..|journal| - 1]), journal[|journal| - 1].data)
  }

  lemma ReplayStep(journal: seq<Event>, event: Event)
    ensures Replay(journal + [event]) == Applied(Replay(journal), event.data)
  {
    assert (journal + [event])[..|journal|] == journal;
  }

  /** Rows are found by id, and by idempotency key. */
  predicate UniqueCommands(commands: seq<Command>) {
    forall i, j :: 0 <= i < j < |commands| ==>
      commands[i].id != commands[j].id && commands[i].idempotencyKey != commands[j].idempotencyKey
  }

  /** Storing a command in its own row changes that row. */
  lemma StoredInRow(commands: seq<Command>, i: nat, command: Command)
    requires UniqueCommands(commands) && i < |commands| && commands[i].id == command.id
    requires commands[i].idempotencyKey == command.idempotencyKey
    ensures Stored(commands, command) == commands[i := command]
    ensures UniqueCommands(commands[i := command])
  {
  }

  // ----- Reported state -----

  function Found(entityState: map<(string, string), StateProperty>, entityId: string, key: string): Option<StateProperty> {
    if (entityId, key) in entityState then Some(entityState[(entityId, key)]) else None
  }

  /** A report is refused when one with a later source time is stored. */
  predicate Refuses(current: Option<StateProperty>, state: ReportedState) {
    current.Some? && current.value.sourceAt > state.sourceAt
  }

  function Accepted(current: Option<StateProperty>, state: ReportedState, now: int): StateProperty {
    StateProperty(
      state.entityId, state.key, state.value, state.sourceAt, now,
      if current.Some? then current.value.version + 1 else 1)
  }

  predicate Open(status: Status) {
    status == Requested || status == Dispatched
  }

  predicate Confirms(command: Command, state: StateProperty) {
    command.entityId == state.entityId && command.key == state.key && command.value == state.value && Open(command.status)
  }

  predicate Stale(command: Command, before: int) {
    Open(command.status) && command.requestedAt < before
  }

  function WithStatus(command: Command, status: Status): Command {
    command.(status := status)
  }

  function ConfirmedBy(commands: seq<Command>, state: StateProperty): (r: seq<Command>)
    ensures |r| == |commands|
    ensures forall i :: 0 <= i < |r| ==>
      r[i] == AfterReport(commands[i], state)
  {
    seq(|commands|, i requires 0 <= i < |commands| =>
      AfterReport(commands[i], state))
  }

  /** Only the first `limit` rows are looked at, whatever their status. */
  function ExpiredBefore(commands: seq<Command>, before: int, limit: nat): (r: seq<Command>)
    ensures |r| == |commands|
    ensures forall i :: 0 <= i < |r| ==>
      r[i] == if i < limit then AfterTimeout(commands[i], before) else commands[i]
  {
    seq(|commands|, i requires 0 <= i < |commands| =>
      if i < limit then AfterTimeout(commands[i], before) else commands[i])
  }

  const UNEXPLAINED := "command failed"

  function TransitionData(command: Command, reason: Option<string>): EventData {
    match command.status
    case Dispatched => CommandDispatched(command)
    case Confirmed => CommandConfirmed(command)
    case Failed => CommandFailed(command, reason.GetOr(UNEXPLAINED))
    case Expired => CommandExpired(command)
    case Requested => CommandRequested(command)
  }

  /** An event but for its number. */
  datatype Note = Note(at: int, correlationId: Option<string>, data: EventData)

  function NoteOf(event: Event): Note {
    Note(event.occurredAt, event.correlationId, event.data)
  }

  function Notes(events: seq<Event>): (r: seq<Note>)
    ensures |r| == |events| && forall i :: 0 <= i < |r| ==> r[i] == NoteOf(events[i])
  {
    seq(|events|, i requires 0 <= i < |events| => NoteOf(events[i]))
  }

  function AfterReport(command: Command, state: StateProperty): Command {
    if Confirms(command, state) then WithStatus(command, Status.Confirmed) else command
  }

  function AfterTimeout(command: Command, before: int): Command {
    if Stale(command, before) then WithStatus(command, Status.Expired) else command
  }

  /** A confirmation by a report does not carry the correlation of the command. */
  function Confirmation(command: Command, state: StateProperty, now: int): seq<Note> {
    if Confirms(command, state) then [Note(now, None, CommandConfirmed(WithStatus(command, Status.Confirmed)))] else []
  }

  function Expiration(command: Command, before: int, now: int): seq<Note> {
    if Stale(command, before)
    then [Note(now, Some(command.correlationId), CommandExpired(WithStatus(command, Status.Expired)))] else []
  }

  /** The events of a report, in the order of the rows it confirms. */
  function Confirmations(commands: seq<Command>, state: StateProperty, now: int): seq<Note> {
    if commands == [] then []
    else
      Confirmations(commands[..|commands| - 1], state, now) + Confirmation(commands[|commands| - 1], state, now)
  }

  function Expirations(commands: seq<Command>, before: int, now: int): seq<Note> {
    if commands == [] then []
    else
      Expirations(commands[..|commands| - 1], before, now) + Expiration(commands[|commands| - 1], before, now)
  }

  lemma ConfirmationsStep(commands: seq<Command>, state: StateProperty, now: int, i: nat)
    requires i < |commands|
    ensures Confirmations(commands[..i + 1], state, now)
         == Confirmations(commands[..i], state, now) + Confirmation(commands[i], state, now)
  {
    assert commands[..i + 1][..i] == commands[..i];
  }

  lemma ExpirationsStep(commands: seq<Command>, before: int, now: int, i: nat)
    requires i < |commands|
    ensures Expirations(commands[..i + 1], before, now)
         == Expirations(commands[..i], before, now) + Expiration(commands[i], before, now)
  {
    assert commands[..i + 1][..i] == commands[..i];
  }

  /** The event of a transition stores the command it carries. */
  lemma TransitionStores(tables: Tables, command: Command, reason: Option<string>)
    requires HasCommand(tables.commands, command.id)
    ensures Applied(tables, TransitionData(command, reason)) == tables.(commands := Stored(tables.commands, command))
  {
  }
}
