// The consumer that runs flows on events. It handles the events after a saved cursor, from the
// broadcast while it keeps up and from the journal when it starts or has lagged.
module AutomationEngine {
  import opened Wrappers
  import opened Collections
  import opened EventFeed
  import opened Reachability

  const BATCH: nat := 100

  /** `batch` is what is left of the last read of the journal. */
  datatype Phase =
    | Down
    | Starting(position: nat)
    | Initializing(position: nat, cursor: nat)
    | Replaying(position: nat, cursor: nat, batch: seq<nat>)
    | Saving(position: nat, cursor: nat, batch: seq<nat>, live: bool)
    | Live(position: nat, cursor: nat)

  /** `saved` is the cursor in the store. The rest is history: the first cursor saved, the events
      handled, the crashes, the events purged before the cursor had been saved past them, whether an
      event taken from the broadcast left a gap, and whether the cursor was saved past a gap. */
  datatype State = State(
    feed: Feed,
    saved: Option<nat>,
    phase: Phase,
    first: nat,
    handled: seq<nat>,
    crashes: nat,
    purged: set<nat>,
    gap: bool,
    lost: bool)

  datatype Action =
    | Other(change: Change)
    | Start
    | ReadCursor
    | SaveInitial
    | ReadBatch
    | HandleReplayed
    | Receive
    | Save
    | Crash

  const OFF := State(NEW, None, Down, 0, [], 0, {}, false, false)

  /** The cursor the engine works from, or would restart from. */
  function Reached(s: State): Option<nat> {
    match s.phase
    case Down => s.saved
    case Starting(_) => s.saved
    case Initializing(_, cursor) => Some(cursor)
    case Replaying(_, cursor, _) => Some(cursor)
    case Saving(_, cursor, _, _) => Some(cursor)
    case Live(_, cursor) => Some(cursor)
  }

  function Between(from: nat, upTo: nat): (r: set<nat>)
    ensures forall n :: n in r <==> from < n <= upTo
  {
    if upTo <= from then {} else Between(from, upTo - 1) + {upTo}
  }

  predicate Possible(s: State, action: Action) {
    match action
    case Other(change) => CanChange(s.feed, change)
    case Start => s.phase.Down?
    case ReadCursor => s.phase.Starting?
    case SaveInitial => s.phase.Initializing?
    case ReadBatch => s.phase.Replaying? && s.phase.batch == []
    case HandleReplayed => s.phase.Replaying? && s.phase.batch != []
    case Receive => s.phase.Live? && s.phase.position < |s.feed.published|
    case Save => s.phase.Saving?
    case Crash => !s.phase.Down?
  }

  function Step(s: State, action: Action): State
    requires Possible(s, action)
  {
    match action
    case Other(change) => Altered(s, Changed(s.feed, change))
    case Start => s.(phase := Starting(|s.feed.published|))
    case ReadCursor =>
      s.(phase := match s.saved
                  case Some(cursor) => Replaying(s.phase.position, cursor, [])
                  case None => Initializing(s.phase.position, Latest(s.feed)))
    case SaveInitial =>
      var cursor := s.phase.cursor;
      s.(saved := Some(cursor), first := cursor,
         purged := Between(cursor, s.feed.purged),
         phase := Replaying(s.phase.position, cursor, []))
    case ReadBatch =>
      var batch := EventsAfter(s.feed, s.phase.cursor, BATCH);
      s.(phase := if batch == [] then Live(s.phase.position, s.phase.cursor)
                  else Replaying(s.phase.position, s.phase.cursor, batch))
    case HandleReplayed =>
      var n := s.phase.batch[0];
      s.(handled := s.handled + [n], phase := Saving(s.phase.position, n, s.phase.batch[1..], false))
    case Receive => Received(s)
    case Save =>
      s.(saved := Some(Max(s.saved.GetOr(0), s.phase.cursor)),
         lost := s.lost || LeavesGap(s, s.saved.GetOr(0), s.phase.cursor),
         phase := if s.phase.live then Live(s.phase.position, s.phase.cursor)
                  else Replaying(s.phase.position, s.phase.cursor, s.phase.batch))
    case Crash => s.(phase := Down, crashes := s.crashes + 1)
  }

  /** Between `cursor` and `next` lies an event whose row is not purged. */
  predicate LeavesGap(s: State, cursor: nat, next: nat) {
    next > Max(cursor, s.feed.purged) + 1
  }

  function Altered(s: State, feed: Feed): State {
    s.(feed := feed, purged := if s.saved.Some? then s.purged + Between(s.saved.value, feed.purged) else s.purged)
  }

  /** A lagging receiver goes on from the oldest event the broadcast still holds, after a replay. */
  function Received(s: State): State
    requires s.phase.Live? && s.phase.position < |s.feed.published|
  {
    var position, cursor := s.phase.position, s.phase.cursor;
    if Lagged(s.feed, position) then
      s.(phase := Replaying(|s.feed.published| - BROADCAST_CAPACITY, cursor, []))
    else
      var n := s.feed.published[position];
      if n <= cursor then s.(phase := Live(position + 1, cursor))
      else s.(handled := s.handled + [n], phase := Saving(position + 1, n, [], true), gap := s.gap || LeavesGap(s, cursor, n))
  }

  predicate StepsTo(before: State, action: Action, after: State) {
    Possible(before, action) && after == Step(before, action)
  }

  ghost function Steps(): (State, Action, State) -> bool {
    (before, action, after) => StepsTo(before, action, after)
  }

  ghost predicate Reachable(s: State) {
    Reaches(Steps(), OFF, s)
  }

  // ----- What every step keeps -----

  predicate Increasing(s: seq<nat>) {
    forall i, j :: 0 <= i < j < |s| ==> s[i] < s[j]
  }

  predicate PhaseFits(s: State) {
    match s.phase
    case Down => true
    case Starting(position) => position <= |s.feed.published|
    case Initializing(position, cursor) => position <= |s.feed.published| && cursor <= |s.feed.topics| && s.saved.None?
    case Replaying(position, cursor, batch) =>
      && position <= |s.feed.published| && s.saved == Some(cursor) && BatchFits(s, cursor, batch)
    case Saving(position, cursor, batch, live) =>
      && position <= |s.feed.published| && s.saved.Some? && s.saved.value < cursor <= |s.feed.topics|
      && cursor in s.handled
      && BatchFits(s, cursor, batch)
    case Live(position, cursor) => position <= |s.feed.published| && s.saved == Some(cursor)
  }

  /** The batch is a run of the journal that starts at the next retained event. */
  predicate BatchFits(s: State, cursor: nat, batch: seq<nat>) {
    && (forall i :: 0 <= i < |batch| ==> cursor < batch[i] <= |s.feed.topics| && batch[i] == batch[0] + i)
    && (batch != [] ==> batch[0] <= Max(cursor, s.feed.purged) + 1)
  }

  /** Before the first cursor is saved nothing is handled, and after it the saved cursor starts there. */
  predicate SavedFits(s: State) {
    && (s.saved.None? ==> s.handled == [] && s.purged == {})
    && (s.saved.Some? ==> s.first <= s.saved.value <= |s.feed.topics|)
    && (s.saved.Some? ==> forall n :: s.saved.value < n <= s.feed.purged ==> n in s.purged)
    && forall n :: n in s.handled ==> s.first < n <= |s.feed.topics|
  }

  predicate Fits(s: State) {
    Valid(s.feed) && SavedFits(s) && PhaseFits(s)
  }

  lemma StepKeepsSaved(s: State, action: Action)
    requires Fits(s) && Possible(s, action)
    ensures SavedFits(Step(s, action))
  {
    if action.Other? {
      ChangeExtends(s.feed, action.change);
    }
  }

  lemma OtherKeepsFits(s: State, change: Change)
    requires Fits(s) && CanChange(s.feed, change)
    ensures Fits(Step(s, Other(change)))
  {
    ChangeExtends(s.feed, change);
    StepKeepsSaved(s, Other(change));
  }

  lemma ReadKeepsFits(s: State)
    requires Fits(s) && Possible(s, ReadBatch)
    ensures Fits(Step(s, ReadBatch))
  {
    var batch := EventsAfter(s.feed, s.phase.cursor, BATCH);
    assert BatchFits(s, s.phase.cursor, batch);
  }

  lemma StepKeepsFits(s: State, action: Action)
    requires Fits(s) && Possible(s, action)
    ensures Fits(Step(s, action))
  {
    if action.Other? {
      OtherKeepsFits(s, action.change);
    } else if action.ReadBatch? {
      ReadKeepsFits(s);
    } else {
      StepKeepsSaved(s, action);
    }
  }

  /** The event handled in a step, if any, and then from which cursor. */
  predicate Handles(s: State, action: Action) {
    && Possible(s, action)
    && (|| action.HandleReplayed?
        || (&& action.Receive? && !Lagged(s.feed, s.phase.position)
            && s.feed.published[s.phase.position] > s.phase.cursor))
  }

  function HandledBy(s: State, action: Action): nat
    requires Handles(s, action)
  {
    if action.HandleReplayed? then s.phase.batch[0] else s.feed.published[s.phase.position]
  }

  /** A handler runs with the cursor saved, and on an event above it. */
  lemma HandlesAbove(s: State, action: Action)
    requires Fits(s) && Handles(s, action)
    ensures Reached(s) == s.saved && s.saved.Some? && s.saved.value < HandledBy(s, action)
    ensures
      var t := Step(s, action);
      && t.handled == s.handled + [HandledBy(s, action)] && Reached(t) == Some(HandledBy(s, action))
      && t.purged == s.purged && t.crashes == s.crashes && t.first == s.first && t.saved == s.saved && t.feed == s.feed
      && t.lost == s.lost && (t.gap <==> s.gap || LeavesGap(s, s.saved.value, HandledBy(s, action)))
      && t.phase.Saving?
  {
  }

  /** Other steps handle nothing, and only a crash goes back, to the saved cursor. */
  lemma OtherwiseStays(s: State, action: Action)
    requires Fits(s) && Possible(s, action) && !Handles(s, action)
    ensures
      var t := Step(s, action);
      && t.handled == s.handled && s.purged <= t.purged
      && Extends(s.feed, t.feed)
      && t.crashes == s.crashes + (if action.Crash? then 1 else 0)
      && (s.saved.Some? ==> t.first == s.first && t.saved.Some? && Reached(t).Some?)
      && (s.saved.Some? ==> Reached(t) == if action.Crash? then s.saved else Reached(s))
      && (s.saved.Some? ==> s.saved.value <= t.saved.value <= Reached(t).value)
      && (t.saved.Some? && s.saved.None? ==> t.saved == Some(t.first) == Reached(t))
      && t.gap == s.gap && (!action.Save? ==> t.lost == s.lost)
      && (s.saved.Some? && !action.Save? ==> t.saved == s.saved)
      && (action.Save? ==> t.saved == Reached(s))
  {
    if action.Other? {
      ChangeExtends(s.feed, action.change);
    }
  }

  // ----- Exactly once -----

  /** In order, since the last start, and never twice without a crash. */
  predicate OrderFits(s: State) {
    s.crashes == 0 ==> Increasing(s.handled) && forall n :: n in s.handled ==> n <= Reached(s).GetOr(0)
  }

  lemma StepKeepsOrder(s: State, action: Action)
    requires Fits(s) && OrderFits(s) && Possible(s, action)
    ensures OrderFits(Step(s, action))
  {
    var t := Step(s, action);
    if Handles(s, action) {
      HandlesAbove(s, action);
      assert forall i :: 0 <= i < |s.handled| ==> s.handled[i] in s.handled;
    } else {
      OtherwiseStays(s, action);
    }
  }

  /** Every event from the first cursor up to `upTo` was handled, or its row was purged before the cursor
      had been saved past it. */
  predicate Covered(s: State, upTo: nat) {
    forall n :: s.first < n <= upTo ==> n in s.handled || n in s.purged
  }

  /** Without a gap none is passed over; and none up to the saved cursor unless it was saved past a gap. */
  predicate CoverFits(s: State) {
    if s.saved.None? then !s.gap && !s.lost
    else
      && (!s.gap ==> Covered(s, Reached(s).GetOr(0)))
      && (!s.lost ==> Covered(s, s.saved.value))
      && (s.phase.Saving? && !(s.phase.live && s.gap) ==> !LeavesGap(s, s.saved.value, s.phase.cursor))
      && (s.lost ==> s.gap)
  }

  lemma StepKeepsCover(s: State, action: Action)
    requires Fits(s) && CoverFits(s) && Possible(s, action)
    ensures CoverFits(Step(s, action))
  {
    var t := Step(s, action);
    if Handles(s, action) {
      HandlesAbove(s, action);
      if !t.gap {
        forall n | t.first < n <= Reached(t).GetOr(0)
          ensures n in t.handled || n in t.purged
        {
          assert n <= s.saved.value ==> n in s.handled || n in s.purged;
        }
      }
    } else {
      OtherwiseStays(s, action);
    }
  }

  /** While events are published in order, none leaves a gap. */
  predicate PositionFits(s: State) {
    && !s.gap
    && (s.phase.Live? ==> s.phase.position <= Max(s.phase.cursor, s.feed.purged))
    && (s.phase.Saving? && s.phase.live ==> s.phase.position <= s.phase.cursor)
  }

  lemma StepKeepsPosition(s: State, action: Action)
    requires Fits(s) && PositionFits(s) && Possible(s, action) && InOrder(Step(s, action).feed)
    ensures PositionFits(Step(s, action))
  {
    var t := Step(s, action);
    if action.Other? {
      ChangeExtends(s.feed, action.change);
      InOrderBefore(s.feed, t.feed);
    }
    InOrderStaysBehind(t.feed);
  }

  // ----- Gaps and repetitions, when no row is purged too early -----

  predicate Missing(s: State, upTo: nat) {
    exists n :: s.first < n <= upTo && n !in s.handled
  }

  /** A live engine has handled nothing beyond its cursor, and no engine has handled anything between the
      saved cursor and the event it is saving. */
  predicate BehindFits(s: State) {
    && (s.phase.Live? || (s.phase.Saving? && s.phase.live) ==> forall n :: n in s.handled ==> n <= s.phase.cursor)
    && (s.phase.Saving? ==> forall n :: n in s.handled ==> n <= s.saved.GetOr(0) || n >= s.phase.cursor)
  }

  predicate GapFits(s: State) {
    s.saved.Some? ==>
      && (s.gap && s.crashes == 0 ==> Missing(s, Reached(s).GetOr(0)))
      && (s.lost ==> Missing(s, s.saved.value))
  }

  function Elements(s: seq<nat>): set<nat> {
    set n | n in s
  }

  /** What a restart would make the engine handle again. */
  function Above(s: State): set<nat> {
    set n | n in s.handled && n > Reached(s).GetOr(0)
  }

  predicate RepeatsFit(s: State) {
    |s.handled| + |Above(s)| <= |Elements(s.handled)| + s.crashes
  }

  lemma PurgedIsBehind(s: State)
    requires SavedFits(s) && s.saved.Some? && s.purged == {}
    ensures s.feed.purged <= s.saved.value
  {
    assert s.saved.value < s.feed.purged <= s.feed.purged ==> s.feed.purged in s.purged;
  }

  lemma StepKeepsBehind(s: State, action: Action)
    requires Fits(s) && Possible(s, action) && BehindFits(s) && s.purged == {}
    ensures BehindFits(Step(s, action))
  {
    var t := Step(s, action);
    if s.saved.Some? {
      PurgedIsBehind(s);
    }
    if Handles(s, action) {
      HandlesAbove(s, action);
    } else {
      OtherwiseStays(s, action);
    }
  }

  lemma StillMissing(s: State, t: State, upTo: nat, later: nat)
    requires Missing(s, upTo) && upTo <= later && t.first == s.first
    requires t.handled == s.handled || exists n :: n > upTo && t.handled == s.handled + [n]
    ensures Missing(t, later)
  {
    var n :| s.first < n <= upTo && n !in s.handled;
    assert n !in t.handled;
  }

  lemma NextIsMissing(s: State, t: State, n: nat, upTo: nat)
    requires s.first <= n < upTo && t.first == s.first && n + 1 !in t.handled
    ensures Missing(t, upTo)
  {
  }

  lemma HandlingKeepsGap(s: State, action: Action)
    requires Fits(s) && Handles(s, action) && BehindFits(s) && GapFits(s) && OrderFits(s) && s.purged == {}
    ensures GapFits(Step(s, action))
  {
    var t, n := Step(s, action), HandledBy(s, action);
    PurgedIsBehind(s);
    HandlesAbove(s, action);
    if s.lost {
      StillMissing(s, t, s.saved.value, s.saved.value);
    }
    if s.gap && s.crashes == 0 {
      StillMissing(s, t, s.saved.value, n);
    } else if t.gap && s.crashes == 0 {
      assert action.Receive?;
      NextIsMissing(s, t, s.saved.value, n);
    }
  }

  lemma OtherwiseKeepsGap(s: State, action: Action)
    requires Fits(s) && Possible(s, action) && !Handles(s, action) && s.purged == {}
    requires BehindFits(s) && GapFits(s) && CoverFits(s)
    ensures GapFits(Step(s, action))
  {
    var t := Step(s, action);
    OtherwiseStays(s, action);
    if s.saved.Some? {
      PurgedIsBehind(s);
      if s.gap && s.crashes == 0 && t.crashes == 0 {
        StillMissing(s, t, Reached(s).value, Reached(t).value);
      }
      if s.lost {
        StillMissing(s, t, s.saved.value, t.saved.value);
      } else if t.lost {
        NextIsMissing(s, t, s.saved.value, t.saved.value);
      }
    }
  }

  lemma HandlingKeepsRepeats(s: State, action: Action)
    requires Fits(s) && Handles(s, action) && RepeatsFit(s)
    ensures RepeatsFit(Step(s, action))
  {
    var t, n := Step(s, action), HandledBy(s, action);
    HandlesAbove(s, action);
    assert Elements(t.handled) == Elements(s.handled) + {n};
    if n in s.handled {
      assert n in Above(s) && Elements(t.handled) == Elements(s.handled);
      SubsetIsSmaller(Above(t), Above(s) - {n});
    } else {
      assert n !in Elements(s.handled);
      SubsetIsSmaller(Above(t), Above(s));
    }
  }

  lemma StepKeepsRepeats(s: State, action: Action)
    requires Fits(s) && Possible(s, action) && BehindFits(s) && RepeatsFit(s) && s.purged == {}
    ensures RepeatsFit(Step(s, action))
  {
    var t := Step(s, action);
    if Handles(s, action) {
      HandlingKeepsRepeats(s, action);
    } else {
      OtherwiseStays(s, action);
      if action.Crash? && s.phase.Saving? {
        SubsetIsSmaller(Above(t), Above(s) + {s.phase.cursor});
      } else {
        SubsetIsSmaller(Above(t), Above(s));
      }
    }
  }

  predicate TightFits(s: State) {
    BehindFits(s) && GapFits(s) && RepeatsFit(s)
  }

  lemma StepKeepsTight(s: State, action: Action)
    requires Fits(s) && OrderFits(s) && CoverFits(s) && TightFits(s) && Possible(s, action) && s.purged == {}
    ensures TightFits(Step(s, action))
  {
    StepKeepsBehind(s, action);
    StepKeepsRepeats(s, action);
    if Handles(s, action) {
      HandlingKeepsGap(s, action);
    } else {
      OtherwiseKeepsGap(s, action);
    }
  }

  lemma StepPurges(s: State, action: Action)
    requires Fits(s) && Possible(s, action)
    ensures s.purged <= Step(s, action).purged
  {
    if Handles(s, action) {
      HandlesAbove(s, action);
    } else {
      OtherwiseStays(s, action);
    }
  }

  ghost predicate AllFits(s: State) {
    && Fits(s) && OrderFits(s) && CoverFits(s)
    && (InOrder(s.feed) ==> PositionFits(s))
    && (s.purged == {} ==> TightFits(s))
  }

  lemma StepKeepsAll(s: State, action: Action)
    requires AllFits(s) && Possible(s, action)
    ensures AllFits(Step(s, action))
  {
    var t := Step(s, action);
    StepKeepsFits(s, action);
    StepKeepsOrder(s, action);
    StepKeepsCover(s, action);
    StepPurges(s, action);
    if t.purged == {} {
      StepKeepsTight(s, action);
    }
    if InOrder(t.feed) {
      FeedExtends(s, action);
      InOrderBefore(s.feed, t.feed);
      StepKeepsPosition(s, action);
    }
  }

  lemma ReachableFits(s: State)
    requires Reachable(s)
    ensures AllFits(s)
  {
    assert Elements(OFF.handled) == {} && Above(OFF) == {};
    forall before, action, after | AllFits(before) && Steps()(before, action, after)
      ensures AllFits(after)
    {
      StepKeepsAll(before, action);
    }
    ReachesKeeps(Steps(), x => AllFits(x), OFF, s);
  }

  lemma FeedExtends(s: State, action: Action)
    requires Fits(s) && Possible(s, action)
    ensures Extends(s.feed, Step(s, action).feed)
  {
    if action.Other? {
      ChangeExtends(s.feed, action.change);
    }
  }

  lemma {:induction false} IncreasingIsNumbers(s: seq<nat>, from: nat, upTo: nat)
    requires Increasing(s) && from <= upTo && forall n :: n in s <==> from < n <= upTo
    ensures s == Numbers(from, upTo)
  {
    if from == upTo {
      HeadIsIn(s);
    } else {
      var last := |s| - 1;
      assert upTo in s;
      var i :| 0 <= i < |s| && s[i] == upTo;
      assert s[last] in s;
      var fewer := s[..last];
      assert forall j :: 0 <= j < last ==> fewer[j] == s[j] && s[j] in s;
      forall n
        ensures n in fewer <==> from < n <= upTo - 1
      {
        if from < n <= upTo - 1 {
          assert n in s;
        }
      }
      IncreasingIsNumbers(fewer, from, upTo - 1);
    }
  }

  /** Without a crash, the engine handles events in strictly increasing order, each at most once, and
      none outside the range of its cursor. */
  lemma HandledInOrder(s: State)
    requires Reachable(s) && s.crashes == 0
    ensures Increasing(s.handled)
    ensures forall n :: n in s.handled ==> s.saved.Some? && s.first < n <= Reached(s).GetOr(0)
  {
    ReachableFits(s);
    assert s.saved.None? ==> s.handled == [];
  }

  /** Without a crash and with no row purged too early, the engine handles every event from its first
      cursor on exactly once, in the order of the journal, exactly when it never took from the broadcast
      an event with a gap before it. */
  lemma HandledExactlyOnceIff(s: State)
    requires Reachable(s) && s.crashes == 0 && s.purged == {} && s.saved.Some?
    ensures Reached(s).Some? && (s.handled == Numbers(s.first, Reached(s).value) <==> !s.gap)
  {
    ReachableFits(s);
    var upTo := Reached(s).value;
    if !s.gap {
      IncreasingIsNumbers(s.handled, s.first, upTo);
    } else {
      var n :| s.first < n <= upTo && n !in s.handled;
      assert Numbers(s.first, upTo)[n - s.first - 1] == n;
    }
  }

  /** Taking an event leaves a gap exactly when it comes from the broadcast and a retained event lies
      between the cursor and it. */
  lemma GapArises(s: State, action: Action)
    requires Reachable(s) && Possible(s, action)
    ensures Step(s, action).gap <==>
      || s.gap
      || (Handles(s, action) && s.saved.Some? && LeavesGap(s, s.saved.value, HandledBy(s, action)))
    ensures Handles(s, action) && action.HandleReplayed? ==> s.saved.Some? && !LeavesGap(s, s.saved.value, HandledBy(s, action))
  {
    ReachableFits(s);
    if Handles(s, action) {
      HandlesAbove(s, action);
    } else {
      OtherwiseStays(s, action);
    }
  }

  /** Publication in order is enough: then no event leaves a gap. */
  lemma InOrderLeavesNoGap(s: State)
    requires Reachable(s) && InOrder(s.feed)
    ensures !s.gap && !s.lost
  {
    ReachableFits(s);
  }

  /** Whatever crashes happen, with no row purged too early, every event up to the saved cursor was
      handled exactly when the cursor was never saved past a gap. */
  lemma HandledAtLeastOnceIff(s: State)
    requires Reachable(s) && s.saved.Some? && s.purged == {}
    ensures (forall n :: s.first < n <= s.saved.value ==> n in s.handled) <==> !s.lost
  {
    ReachableFits(s);
  }

  /** Also when rows are purged too early, they are the only events that may be passed over. */
  lemma HandledAtLeastOnce(s: State, n: nat)
    requires Reachable(s) && !s.lost && s.saved.Some? && s.first < n <= s.saved.value
    ensures n in s.handled || n in s.purged
  {
    ReachableFits(s);
  }

  /** Each crash makes the engine repeat at most one event. */
  lemma RepeatsAreCrashes(s: State)
    requires Reachable(s) && s.purged == {}
    ensures |s.handled| <= |Elements(s.handled)| + s.crashes
  {
    ReachableFits(s);
  }

  /** The saved cursor never decreases, and the first one never changes. */
  lemma SavedNeverDecreases(s: State, action: Action)
    requires Reachable(s) && Possible(s, action) && s.saved.Some?
    ensures
      var t := Step(s, action);
      t.saved.Some? && s.saved.value <= t.saved.value && t.first == s.first
  {
    ReachableFits(s);
  }

  // ----- Publication out of order -----

  lemma ReachesFurther(s: State, action: Action) returns (t: State)
    requires Reachable(s) && Possible(s, action)
    ensures t == Step(s, action) && Reachable(t)
  {
    t := Step(s, action);
    ReachesOn(Steps(), OFF, s, action, t);
  }

  lemma EngineStarts() returns (s: State)
    ensures Reachable(s) && s == OFF.(saved := Some(0), phase := Replaying(0, 0, []))
  {
    LeadsNowhere(Steps(), OFF);
    s := ReachesFurther(OFF, Start);
    s := ReachesFurther(s, ReadCursor);
    s := ReachesFurther(s, SaveInitial);
  }

  lemma EngineIsLive() returns (s: State)
    ensures Reachable(s) && s == OFF.(saved := Some(0), phase := Live(0, 0))
  {
    s := EngineStarts();
    s := ReachesFurther(s, ReadBatch);
  }

  lemma TwoLateEvents(topic: string) returns (s: State)
    ensures Reachable(s)
    ensures s == OFF.(feed := Feed([topic, topic], 0, [2]), saved := Some(0), phase := Live(0, 0))
  {
    s := EngineIsLive();
    s := ReachesFurther(s, Other(Commit(topic)));
    s := ReachesFurther(s, Other(Commit(topic)));
    s := ReachesFurther(s, Other(Publish(2)));
  }

  /** An event published after a later one is skipped for good when the engine takes the later one live. */
  lemma LatePublicationIsSkipped(topic: string) returns (s: State)
    ensures Reachable(s) && s.crashes == 0 && s.purged == {} && s.first == 0 && s.feed.topics == [topic, topic]
    ensures s.saved == Some(2) && s.handled == [2] && s.phase == Live(2, 2) && s.gap && s.lost
  {
    s := TwoLateEvents(topic);
    s := ReachesFurther(s, Receive);
    s := ReachesFurther(s, Save);
    s := ReachesFurther(s, Other(Publish(1)));
    s := ReachesFurther(s, Receive);
  }

  lemma ReplaysNext(s: State) returns (t: State)
    requires Reachable(s) && s.phase.Replaying? && s.phase.batch != [] && s.saved.Some?
    requires s.phase.batch[0] > s.saved.value && !LeavesGap(s, s.saved.value, s.phase.batch[0])
    ensures Reachable(t)
    ensures
      var n := s.phase.batch[0];
      t == s.(saved := Some(n), handled := s.handled + [n], phase := Replaying(s.phase.position, n, s.phase.batch[1..]))
  {
    t := ReachesFurther(s, HandleReplayed);
    t := ReachesFurther(t, Save);
  }

  lemma EngineReplaysTwo(topic: string) returns (s: State)
    ensures Reachable(s)
    ensures s == OFF.(feed := Feed([topic, topic], 0, [2]), saved := Some(0), phase := Replaying(0, 0, [1, 2]))
  {
    s := EngineStarts();
    s := ReachesFurther(s, Other(Commit(topic)));
    s := ReachesFurther(s, Other(Commit(topic)));
    s := ReachesFurther(s, Other(Publish(2)));
    s := ReachesFurther(s, ReadBatch);
    assert Numbers(0, 2) == [1, 2];
  }

  lemma TwoEventsReplayed(topic: string) returns (s: State)
    ensures Reachable(s)
    ensures s == OFF.(feed := Feed([topic, topic], 0, [2]), saved := Some(2), handled := [1, 2], phase := Live(0, 2))
  {
    s := EngineReplaysTwo(topic);
    s := ReplaysNext(s);
    s := ReplaysNext(s);
    s := ReachesFurther(s, ReadBatch);
  }

  /** Publication out of order does no harm to events that a replay covers. */
  lemma LatePublicationIsCovered(topic: string) returns (s: State)
    ensures Reachable(s) && s.crashes == 0 && s.purged == {} && s.feed.published == [2, 1]
    ensures s.handled == [1, 2] && !s.gap && s.phase == Live(2, 2)
  {
    s := TwoEventsReplayed(topic);
    s := ReachesFurther(s, Other(Publish(1)));
    s := ReachesFurther(s, Receive);
    s := ReachesFurther(s, Receive);
  }
}
