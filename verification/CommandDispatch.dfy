// Requests for commands, each with an idempotency key, from any number of threads and across crashes:
// a command is looked up, created, dispatched to its adapter, and marked with the outcome.
module CommandDispatch {
  import opened Wrappers
  import opened StateValues
  import opened Collections
  import opened Reachability
  import opened Journal
  import opened Store
  import opened IdempotencyKeys

  datatype Reply = Existing(command: Command) | Rejected | Sent(ok: bool)

  /** The rows looked at by one pass of expiry. */
  const EXPIRY_BATCH: nat := 100

  /** How far the thread of a request has come. Once created, its command has a row of the table. */
  datatype Phase =
    | Looking
    | Checking
    | Creating
    | Dispatching(row: nat)
    | Marking(row: nat, ok: bool)
    | Answered(reply: Reply)

  /** `command` is the one the request will create. */
  datatype Request = Request(command: Command, phase: Phase)

  /** `sent` and `taken` are history: the rows of the commands given to the dispatcher, in order, and those it
      took on. */
  datatype State = State(commands: seq<Command>, requests: map<nat, Request>, sent: seq<nat>, taken: set<nat>)

  datatype Action =
    | Begin(thread: nat, command: Command)
    | Look(thread: nat)
    | Check(thread: nat, valid: bool)
    | Create(thread: nat)
    | Dispatch(thread: nat, ok: bool)
    | Mark(thread: nat)
    | Report(property: StateProperty)
    | Expire(before: int)
    | Crash

  predicate At(s: State, thread: nat, phase: Phase) {
    thread in s.requests && s.requests[thread].phase == phase
  }

  predicate Possible(s: State, action: Action) {
    match action
    case Begin(thread, command) => thread !in s.requests && command.status == Requested
    case Look(thread) => At(s, thread, Looking)
    case Check(thread, _) => At(s, thread, Checking)
    case Create(thread) => At(s, thread, Creating)
    case Dispatch(thread, _) => thread in s.requests && s.requests[thread].phase.Dispatching?
    case Mark(thread) =>
      thread in s.requests && s.requests[thread].phase.Marking? && s.requests[thread].phase.row < |s.commands|
    case _ => true
  }

  function Enter(s: State, thread: nat, phase: Phase): State
    requires thread in s.requests
  {
    s.(requests := s.requests[thread := s.requests[thread].(phase := phase)])
  }

  /** The row with an idempotency key, if there is one. */
  function RowOf(commands: seq<Command>, key: string): (r: Option<nat>)
    ensures r.Some? ==> r.value < |commands| && commands[r.value].idempotencyKey == key
    ensures r.None? ==> forall i :: 0 <= i < |commands| ==> commands[i].idempotencyKey != key
  {
    if commands == [] then None
    else if commands[|commands| - 1].idempotencyKey == key then Some(|commands| - 1)
    else RowOf(commands[..|commands| - 1], key)
  }

  function Step(s: State, action: Action): State
    requires Possible(s, action)
  {
    match action
    case Begin(thread, command) => s.(requests := s.requests[thread := Request(command, Looking)])
    case Look(thread) =>
      (match RowOf(s.commands, s.requests[thread].command.idempotencyKey)
       case Some(row) => Enter(s, thread, Answered(Existing(s.commands[row])))
       case None => Enter(s, thread, Checking))
    case Check(thread, valid) => Enter(s, thread, if valid then Creating else Answered(Rejected))
    case Create(thread) =>
      var command := s.requests[thread].command;
      if Taken(s.commands, command) then Enter(s, thread, Answered(Rejected))
      else Enter(s, thread, Dispatching(|s.commands|)).(commands := s.commands + [command])
    case Dispatch(thread, ok) =>
      var row := s.requests[thread].phase.row;
      Enter(s, thread, Marking(row, ok)).(sent := s.sent + [row], taken := if ok then s.taken + {row} else s.taken)
    case Mark(thread) =>
      var (row, ok) := (s.requests[thread].phase.row, s.requests[thread].phase.ok);
      Enter(s, thread, Answered(Sent(ok))).(
      commands := s.commands[row := WithStatus(s.commands[row], if ok then Status.Dispatched else Status.Failed)])
    case Report(property) => s.(commands := ConfirmedBy(s.commands, property))
    case Expire(before) => s.(commands := ExpiredBefore(s.commands, before, EXPIRY_BATCH))
    case Crash => s.(requests := map[])
  }

  const START := State([], map[], [], {})

  predicate StepsTo(before: State, action: Action, after: State) {
    Possible(before, action) && after == Step(before, action)
  }

  ghost function Steps(): (State, Action, State) -> bool {
    (before, action, after) => StepsTo(before, action, after)
  }

  ghost predicate Reachable(s: State) {
    Reaches(Steps(), START, s)
  }

  // ----- What every step keeps -----

  /** The same command, but for its status. */
  predicate SameRequest(a: Command, b: Command) {
    && a.id == b.id && a.entityId == b.entityId && a.key == b.key && a.value == b.value
    && a.correlationId == b.correlationId && a.idempotencyKey == b.idempotencyKey && a.requestedAt == b.requestedAt
  }

  /** A later table of the same commands. */
  predicate Grown(before: seq<Command>, after: seq<Command>) {
    |before| <= |after| && forall i :: 0 <= i < |before| ==> SameRequest(after[i], before[i])
  }

  predicate RowFits(s: State, request: Request) {
    request.command.status == Requested && match request.phase
    case Dispatching(row) => row < |s.commands| && SameRequest(s.commands[row], request.command) && row !in s.sent
    case Marking(row, ok) =>
      && row < |s.commands| && SameRequest(s.commands[row], request.command) && row in s.sent && (ok <==> row in s.taken)
    case _ => true
  }

  predicate OwnersDiffer(requests: map<nat, Request>) {
    forall a, b :: a in requests && b in requests && a != b
                   && requests[a].phase.Dispatching? && requests[b].phase.Dispatching? ==>
      requests[a].phase.row != requests[b].phase.row
  }

  predicate Fits(s: State) {
    && UniqueCommands(s.commands)
    && (forall thread :: thread in s.requests ==> RowFits(s, s.requests[thread]))
    && OwnersDiffer(s.requests)
    && (forall i :: 0 <= i < |s.sent| ==> s.sent[i] < |s.commands|)
    && (forall i, j :: 0 <= i < j < |s.sent| ==> s.sent[i] != s.sent[j])
    && StatusFits(s)
  }

  /** What was taken on was sent, and a row is marked as the dispatcher answered. */
  predicate StatusFits(s: State) {
    && (forall row :: row in s.taken ==> row in s.sent)
    && (forall row :: 0 <= row < |s.commands| && s.commands[row].status == Dispatched ==> row in s.taken)
    && (forall row :: 0 <= row < |s.commands| && s.commands[row].status == Failed ==> row in s.sent && row !in s.taken)
  }

  lemma StepKeepsStatus(s: State, action: Action)
    requires Fits(s) && Possible(s, action)
    ensures StatusFits(Step(s, action))
  {
    match action {
      case Dispatch(thread, _) => assert RowFits(s, s.requests[thread]);
      case Mark(thread) => assert RowFits(s, s.requests[thread]);
      case Create(thread) => assert RowFits(s, s.requests[thread]);
      case _ =>
    }
  }

  lemma StepGrows(s: State, action: Action)
    requires Fits(s) && Possible(s, action)
    ensures Grown(s.commands, Step(s, action).commands) && UniqueCommands(Step(s, action).commands)
  {
    match action
    case Create(_) =>
    case Mark(thread) => assert RowFits(s, s.requests[thread]);
    case Report(_) =>
    case Expire(_) =>
    case _ => assert Step(s, action).commands == s.commands;
  }

  lemma StepKeepsRows(s: State, action: Action)
    requires Fits(s) && Possible(s, action)
    ensures
      var t := Step(s, action);
      forall thread :: thread in t.requests ==> RowFits(t, t.requests[thread])
  {
    StepGrows(s, action);
    var t := Step(s, action);
    forall thread | thread in t.requests
      ensures RowFits(t, t.requests[thread])
    {
      if thread in s.requests && t.requests[thread] == s.requests[thread] {
        RequestStaysFit(s, t, s.requests[thread]);
      } else {
        assert thread in s.requests ==> RowFits(s, s.requests[thread]);
      }
    }
  }

  /** A request that takes no step keeps its row. */
  lemma RequestStaysFit(s: State, t: State, request: Request)
    requires RowFits(s, request) && Grown(s.commands, t.commands)
    requires request.phase.Dispatching? ==> request.phase.row !in t.sent
    requires request.phase.Marking? ==> request.phase.row in t.sent
                                        && (request.phase.row in t.taken <==> request.phase.row in s.taken)
    ensures RowFits(t, request)
  {
  }

  lemma StepKeepsSent(s: State, action: Action)
    requires Fits(s) && Possible(s, action)
    ensures
      var t := Step(s, action);
      && (forall i :: 0 <= i < |t.sent| ==> t.sent[i] < |t.commands|)
      && forall i, j :: 0 <= i < j < |t.sent| ==> t.sent[i] != t.sent[j]
  {
    StepGrows(s, action);
    if action.Dispatch? {
      assert RowFits(s, s.requests[action.thread]);
    }
  }

  lemma StepKeepsOwners(s: State, action: Action)
    requires Fits(s) && Possible(s, action)
    ensures OwnersDiffer(Step(s, action).requests)
  {
    if action.Create? {
      forall a | a in s.requests && s.requests[a].phase.Dispatching?
        ensures s.requests[a].phase.row < |s.commands|
      {
        assert RowFits(s, s.requests[a]);
      }
    }
  }

  lemma StepKeepsFits(s: State, action: Action)
    requires Fits(s) && Possible(s, action)
    ensures Fits(Step(s, action))
  {
    StepGrows(s, action);
    StepKeepsRows(s, action);
    StepKeepsSent(s, action);
    StepKeepsOwners(s, action);
    StepKeepsStatus(s, action);
  }

  lemma ReachableFits(s: State)
    requires Reachable(s)
    ensures Fits(s)
  {
    forall before, action, after | Fits(before) && Steps()(before, action, after)
      ensures Fits(after)
    {
      StepKeepsFits(before, action);
    }
    ReachesKeeps(Steps(), x => Fits(x), START, s);
  }

  lemma ReachesFurther(s: State, action: Action) returns (t: State)
    requires Reachable(s) && Possible(s, action)
    ensures t == Step(s, action) && Reachable(t)
  {
    t := Step(s, action);
    ReachesOn(Steps(), START, s, action, t);
  }

  lemma OneStepReaches(s: State, action: Action)
    requires Possible(s, action)
    ensures Reaches(Steps(), s, Step(s, action))
  {
    LeadsNowhere(Steps(), s);
    ReachesOn(Steps(), s, s, action, Step(s, action));
  }

  // ----- At most once -----

  /** Under any interleaving of requests and crashes, no two commands given to the dispatcher have the
      same idempotency key, and each has its row. */
  lemma DispatchedAtMostOnce(s: State, i: nat, j: nat)
    requires Reachable(s) && i < j < |s.sent|
    ensures s.sent[i] < |s.commands| && s.sent[j] < |s.commands|
    ensures s.commands[s.sent[i]].idempotencyKey != s.commands[s.sent[j]].idempotencyKey
    ensures s.commands[s.sent[i]].id != s.commands[s.sent[j]].id
  {
    ReachableFits(s);
  }

  /** What is dispatched is the command of the request, and only a request that created a row does so. */
  lemma DispatchIsOwn(s: State, thread: nat, ok: bool)
    requires Reachable(s) && Possible(s, Dispatch(thread, ok))
    ensures
      var t, row := Step(s, Dispatch(thread, ok)), s.requests[thread].phase.row;
      && row < |s.commands| && SameRequest(s.commands[row], s.requests[thread].command)
      && row !in s.sent && t.sent == s.sent + [row]
  {
    ReachableFits(s);
    assert RowFits(s, s.requests[thread]);
  }

  /** A request whose key has a row is answered with the command of that row and sends nothing: a
      repeated segment, or a retry after a crash, gets the first command back. */
  lemma RepeatedKeyIsAnswered(s: State, thread: nat, row: nat)
    requires Reachable(s) && Possible(s, Look(thread)) && row < |s.commands|
    requires s.commands[row].idempotencyKey == s.requests[thread].command.idempotencyKey
    ensures
      var t := Step(s, Look(thread));
      t.requests[thread].phase == Answered(Existing(s.commands[row])) && t.sent == s.sent && t.commands == s.commands
  {
    ReachableFits(s);
  }

  lemma GrownFurther(a: seq<Command>, b: seq<Command>, c: seq<Command>)
    requires Grown(a, b) && Grown(b, c)
    ensures Grown(a, c)
  {
    forall i | 0 <= i < |a|
      ensures SameRequest(c[i], a[i])
    {
      assert SameRequest(b[i], a[i]) && SameRequest(c[i], b[i]);
    }
  }

  /** Rows are never lost: once a key has a row, it keeps it, whatever happens from then on. */
  lemma RowsStay(s: State, t: State, row: nat)
    requires Reachable(s) && Reaches(Steps(), s, t) && row < |s.commands|
    ensures row < |t.commands| && SameRequest(t.commands[row], s.commands[row])
  {
    ReachableFits(s);
    var kept := x => Fits(x) && Grown(s.commands, x.commands);
    forall before, action, after | kept(before) && Steps()(before, action, after)
      ensures kept(after)
    {
      StepKeepsFits(before, action);
      StepGrows(before, action);
      GrownFurther(s.commands, before.commands, after.commands);
    }
    ReachesKeeps(Steps(), kept, s, t);
  }

  /** A command is marked as its dispatch went: one marked as dispatched was taken on, and one marked as failed
      was sent and refused. */
  lemma MarkTellsOutcome(s: State, row: nat)
    requires Reachable(s) && row < |s.commands|
    ensures s.commands[row].status == Dispatched ==> row in s.sent && row in s.taken
    ensures s.commands[row].status == Failed ==> row in s.sent && row !in s.taken
  {
    ReachableFits(s);
  }

  // ----- Not at least once -----

  /** A row that was created, not sent, and lost its thread. */
  predicate Abandoned(s: State, row: nat) {
    && row < |s.commands| && row !in s.sent
    && forall thread :: thread in s.requests && s.requests[thread].phase.Dispatching? ==>
         s.requests[thread].phase.row != row
  }

  lemma StepKeepsAbandoned(s: State, action: Action, row: nat)
    requires Fits(s) && Possible(s, action) && Abandoned(s, row)
    ensures Abandoned(Step(s, action), row)
  {
    StepGrows(s, action);
  }

  lemma AbandonedStays(s: State, t: State, row: nat)
    requires Reaches(Steps(), s, t) && Fits(s) && Abandoned(s, row)
    ensures Abandoned(t, row)
  {
    var kept := x => Fits(x) && Abandoned(x, row);
    forall before, action, after | kept(before) && Steps()(before, action, after)
      ensures kept(after)
    {
      StepKeepsFits(before, action);
      StepKeepsAbandoned(before, action, row);
    }
    ReachesKeeps(Steps(), kept, s, t);
  }

  /** Some run from `s` on gives the command of the row to the dispatcher. */
  ghost predicate CanStillBeSent(s: State, row: nat) {
    exists t :: Reaches(Steps(), s, t) && row in t.sent
  }

  /** A command that was not sent can still be sent exactly when its thread has not been lost. */
  lemma CanBeSentIffNotAbandoned(s: State, row: nat)
    requires Reachable(s) && row < |s.commands| && row !in s.sent
    ensures CanStillBeSent(s, row) <==> !Abandoned(s, row)
  {
    ReachableFits(s);
    if thread :| thread in s.requests && s.requests[thread].phase == Dispatching(row) {
      var action := Dispatch(thread, true);
      OneStepReaches(s, action);
      assert row in Step(s, action).sent;
    } else {
      assert Abandoned(s, row);
      forall t | Reaches(Steps(), s, t)
        ensures row !in t.sent
      {
        AbandonedStays(s, t, row);
      }
    }
  }

  /** One more command is created, and its thread is lost. */
  lemma CreatesAndCrashes(s: State, command: Command) returns (t: State)
    requires Reachable(s) && s.requests == map[] && command.status == Requested && !Taken(s.commands, command)
    ensures Reachable(t) && t == s.(commands := s.commands + [command])
  {
    t := ReachesFurther(s, Begin(0, command));
    assert RowOf(t.commands, command.idempotencyKey).None?;
    t := ReachesFurther(t, Look(0));
    t := ReachesFurther(t, Check(0, true));
    t := ReachesFurther(t, Create(0));
    t := ReachesFurther(t, Crash);
  }

  /** A crash between the creation of a command and its dispatch abandons it, for good. */
  lemma AbandonedIsReachable(command: Command) returns (s: State)
    requires command.status == Requested
    ensures Reachable(s) && s.commands == [command] && Abandoned(s, 0) && !CanStillBeSent(s, 0)
  {
    LeadsNowhere(Steps(), START);
    s := CreatesAndCrashes(START, command);
    CanBeSentIffNotAbandoned(s, 0);
  }

  // ----- Expiry -----

  /** Some run from `s` on expires the command of the row. */
  ghost predicate CanExpire(s: State, row: nat) {
    exists t :: Reaches(Steps(), s, t) && row < |t.commands| && t.commands[row].status == Status.Expired
  }

  predicate Unexpired(s: State, row: nat) {
    row < |s.commands| && s.commands[row].status != Status.Expired
  }

  lemma StepKeepsLateRow(s: State, action: Action, row: nat)
    requires Possible(s, action) && Unexpired(s, row) && row >= EXPIRY_BATCH
    ensures Unexpired(Step(s, action), row)
  {
  }

  lemma LateRowStays(s: State, t: State, row: nat)
    requires Reaches(Steps(), s, t) && Unexpired(s, row) && row >= EXPIRY_BATCH
    ensures Unexpired(t, row)
  {
    forall before, action, after | Unexpired(before, row) && Steps()(before, action, after)
      ensures Unexpired(after, row)
    {
      StepKeepsLateRow(before, action, row);
    }
    ReachesKeeps(Steps(), x => Unexpired(x, row), s, t);
  }

  /** A stale command can ever expire exactly when fewer than a hundred commands were created before it:
      rows are never deleted, and a pass looks at the first hundred. */
  lemma CanExpireIffEarlyRow(s: State, row: nat, before: int)
    requires Reachable(s) && row < |s.commands| && Stale(s.commands[row], before)
    ensures CanExpire(s, row) <==> row < 100
    ensures row < 100 ==> Step(s, Expire(before)).commands[row].status == Status.Expired
  {
    if row < EXPIRY_BATCH {
      OneStepReaches(s, Expire(before));
    } else {
      forall t | Reaches(Steps(), s, t)
        ensures Unexpired(t, row)
      {
        LateRowStays(s, t, row);
      }
    }
  }

  function Numbered(n: nat, value: StateValue): Command {
    Command(Decimal(n), "lamp", "switch", value, "", Decimal(n), 0, Requested)
  }

  lemma {:induction false} ManyCommands(n: nat, value: StateValue) returns (s: State)
    ensures Reachable(s) && s.requests == map[] && |s.commands| == n
    ensures forall i :: 0 <= i < n ==> s.commands[i] == Numbered(i, value)
  {
    if n == 0 {
      s := START;
      LeadsNowhere(Steps(), START);
    } else {
      s := ManyCommands(n - 1, value);
      forall i | 0 <= i < n - 1
        ensures Decimal(i) != Decimal(n - 1)
      {
        if Decimal(i) == Decimal(n - 1) {
          DecimalInjective(i, n - 1);
        }
      }
      s := CreatesAndCrashes(s, Numbered(n - 1, value));
    }
  }

  /** The hundred-and-first command stays open for ever. */
  lemma LateCommandNeverExpires(value: StateValue) returns (s: State)
    ensures Reachable(s) && |s.commands| == 101
    ensures Stale(s.commands[100], 1) && !CanExpire(s, 100)
  {
    s := ManyCommands(EXPIRY_BATCH + 1, value);
    CanExpireIffEarlyRow(s, EXPIRY_BATCH, 1);
  }
}
