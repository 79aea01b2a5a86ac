// The use case behind every command: look the key up, create, dispatch, and mark the outcome.
module HomeService {
  import opened Wrappers
  import Lexer
  import opened Journal
  import opened Store

  datatype CommandError = KeyRequired | NotAllowed | Storage | DispatchFailed

  /** The adapter behind the home; it keeps every command it was given. */
  class Dispatcher {
    /** The reason a command is refused for, or `None`. */
    const refusal: Command -> Option<string>
    var given: seq<Command>

    constructor (refusal: Command -> Option<string>)
      ensures this.refusal == refusal && given == []
    {
      this.refusal := refusal;
      given := [];
    }

    method Dispatch(command: Command) returns (refused: Option<string>)
      modifies this
      ensures refused == refusal(command) && given == old(given) + [command]
    {
      given := given + [command];
      refused := refusal(command);
    }
  }

  predicate Blank(key: string) {
    forall c :: c in key ==> Lexer.IsWhitespace(c)
  }

  predicate KeyStored(commands: seq<Command>, key: string) {
    exists command :: command in commands && command.idempotencyKey == key
  }

  class Service {
    const store: SqliteStore
    const dispatcher: Dispatcher

    constructor (store: SqliteStore, dispatcher: Dispatcher)
      ensures this.store == store && this.dispatcher == dispatcher
    {
      this.store := store;
      this.dispatcher := dispatcher;
    }

    /** `command` is the request with its new id; `allowed` is whether its entity exists, is commandable,
        and supports its key and value. */
    method RequestCommand(command: Command, allowed: bool) returns (r: Result<Command, CommandError>)
      requires store.Valid() && command.status == Requested
      modifies store, dispatcher
      ensures store.Valid()
      ensures !Blank(command.idempotencyKey) && KeyStored(old(store.commands), command.idempotencyKey) ==>
        && r.Ok? && r.value in old(store.commands) && r.value.idempotencyKey == command.idempotencyKey
        && store.Current() == old(store.Current()) && store.journal == old(store.journal)
        && dispatcher.given == old(dispatcher.given)
      ensures Blank(command.idempotencyKey) ==> r == Err(KeyRequired)
      ensures !Blank(command.idempotencyKey) && !KeyStored(old(store.commands), command.idempotencyKey) ==>
        && (!allowed ==> r == Err(NotAllowed))
        && (allowed && HasCommand(old(store.commands), command.id) ==> r == Err(Storage))
      ensures !Sends(old(store.commands), command, allowed) ==>
        && (r.Err? || r.value in old(store.commands))
        && store.Current() == old(store.Current()) && store.journal == old(store.journal)
        && dispatcher.given == old(dispatcher.given)
      ensures Sends(old(store.commands), command, allowed) ==>
        var refused := dispatcher.refusal(command);
        var marked := Marked(command, refused);
        && dispatcher.given == old(dispatcher.given) + [command]
        && store.Current() == old(store.Current()).(commands := old(store.commands) + [marked])
        && |store.journal| == |old(store.journal)| + 2
        && store.journal[..|old(store.journal)|] == old(store.journal)
        && NoteOf(store.journal[|old(store.journal)|])
           == Note(command.requestedAt, Some(command.correlationId), CommandRequested(command))
        && NoteOf(store.journal[|old(store.journal)| + 1])
           == Note(command.requestedAt, Some(command.correlationId), MarkedData(command, refused))
        && r == if refused.None? then Ok(marked) else Err(DispatchFailed)
    {
      if Blank(command.idempotencyKey) {
        return Err(KeyRequired);
      }
      var found := store.FindCommandByIdempotency(command.idempotencyKey);
      if found.Some? {
        return Ok(found.value);
      }
      if !allowed {
        return Err(NotAllowed);
      }
      var created := store.CreateCommand(command);
      if created.Err? {
        return Err(Storage);
      }
      var refused := dispatcher.Dispatch(command);
      r := MarkOutcome(command, refused);
    }

    method MarkOutcome(command: Command, refused: Option<string>) returns (r: Result<Command, CommandError>)
      requires store.Valid() && command.status == Requested
      requires |store.commands| > 0 && store.commands[|store.commands| - 1] == command
      modifies store
      ensures store.Valid()
      ensures
        var marked := Marked(command, refused);
        && store.Current() == old(store.Current()).(
                              commands := old(store.commands)[|old(store.commands)| - 1 := marked])
        && |store.journal| == |old(store.journal)| + 1
        && store.journal[..|old(store.journal)|] == old(store.journal)
        && NoteOf(store.journal[|old(store.journal)|])
           == Note(command.requestedAt, Some(command.correlationId), MarkedData(command, refused))
        && r == if refused.None? then Ok(marked) else Err(DispatchFailed)
    {
      var marked := Marked(command, refused);
      assert HasCommand(store.commands, command.id);
      var event := store.TransitionCommand(command.id, marked.status, refused, command.requestedAt);
      ghost var i :|
        && 0 <= i < |store.commands| && Moved(old(store.commands), store.commands, i, command.id, marked.status)
        && event.value == Event(
                            |store.journal|, command.requestedAt, Some(store.commands[i].correlationId),
                            TransitionData(store.commands[i], refused));
      assert i == |store.commands| - 1;
      return if refused.None? then Ok(marked) else Err(DispatchFailed);
    }
  }

  function Marked(command: Command, refused: Option<string>): Command {
    WithStatus(command, if refused.None? then Status.Dispatched else Status.Failed)
  }

  function MarkedData(command: Command, refused: Option<string>): EventData {
    match refused
    case None => CommandDispatched(Marked(command, refused))
    case Some(reason) => CommandFailed(Marked(command, refused), reason)
  }

  /** Whether a request creates and dispatches its command. */
  predicate Sends(commands: seq<Command>, command: Command, allowed: bool) {
    !Blank(command.idempotencyKey) && allowed && !Taken(commands, command)
  }
}
