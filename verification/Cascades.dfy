// How runs of flows cause one another: a run requests commands, the journal tells of them, and what it
// tells triggers further runs.
module Cascades {
  import opened Wrappers
  import opened Collections
  import opened Reachability
  import opened IdempotencyKeys
  import CausalClaims

  /** `About` tells of a command, by its number; `byReport` when a report confirmed it. */
  datatype Origin = Elsewhere | About(command: nat, byReport: bool)

  /** Event `e` of the journal has the sequence `e + 1`. */
  datatype Event = Event(correlationId: Option<string>, origin: Origin)

  /** `run` is the run that requested the command, if it was not a user. */
  datatype Command = Command(correlationId: string, run: Option<nat>)

  /** `trigger` is the event that started the run, and `grant` the claim it was started under, if any. */
  datatype Run = Run(flowId: string, cause: string, at: int, trigger: Option<nat>, grant: Option<nat>)

  /** Everything that ever happened, and the table of claims. */
  datatype State = State(events: seq<Event>, commands: seq<Command>, runs: seq<Run>, claims: CausalClaims.State)

  datatype Action =
    | Happen
    | RequestByUser(correlationId: string)
    | RequestByRun(run: nat)
    | Transition(command: nat)
    | ConfirmByReport(command: nat)
    | StartUnclaimed(flowId: string, cause: string, now: int)
    | StartScheduled(flowId: string, key: string, now: int)
    | Trigger(flowId: string, event: nat, now: int)
    | Purge(pairs: set<(string, string)>, now: int)

  /** The cause of a run triggered by an event that carries none. */
  function EventCause(sequence: nat): string {
    "event:" + Decimal(sequence)
  }

  /** Causes made elsewhere in the program are not taken for those of events. */
  ghost predicate Foreign(cause: string) {
    forall k: nat :: cause != EventCause(k)
  }

  /** As are those of users, of runs without a claim, and of schedules: `cor_`, `flow:`, `schedule`. */
  lemma OtherInitialIsForeign(cause: string)
    requires cause != "" && cause[0] != 'e'
    ensures Foreign(cause)
  {
    assert forall k: nat :: EventCause(k)[0] == 'e';
  }

  function CauseOf(s: State, event: nat): string
    requires event < |s.events|
  {
    s.events[event].correlationId.GetOr(EventCause(event + 1))
  }

  ghost predicate Possible(s: State, action: Action) {
    match action
    case Happen => true
    case RequestByUser(correlationId) => Foreign(correlationId)
    case RequestByRun(run) => run < |s.runs|
    case Transition(command) => command < |s.commands|
    case ConfirmByReport(command) => command < |s.commands|
    case StartUnclaimed(_, cause, _) => Foreign(cause)
    case StartScheduled(_, key, now) => Foreign(key) && s.claims.now <= now
    case Trigger(_, event, now) => event < |s.events| && s.claims.now <= now
    case Purge(pairs, now) => CausalClaims.Possible(s.claims, CausalClaims.Purge(pairs, now))
  }

  function Told(s: State, correlationId: Option<string>, origin: Origin): State {
    s.(events := s.events + [Event(correlationId, origin)])
  }

  function Requested(s: State, command: Command): State {
    Told(s.(commands := s.commands + [command]), Some(command.correlationId), About(|s.commands|, false))
  }

  /** A run starts if its claim is granted. */
  function StartClaimed(s: State, flowId: string, cause: string, trigger: Option<nat>, now: int): State {
    var claims := CausalClaims.Step(s.claims, CausalClaims.Claim(flowId, cause, now));
    var granted := |claims.grants| > |s.claims.grants|;
    s.(claims := claims,
       runs := s.runs + if granted then [Run(flowId, cause, now, trigger, Some(|s.claims.grants|))] else [])
  }

  function Step(s: State, action: Action): State
    requires Possible(s, action)
  {
    match action
    case Happen => Told(s, None, Elsewhere)
    case RequestByUser(correlationId) => Requested(s, Command(correlationId, None))
    case RequestByRun(run) => Requested(s, Command(s.runs[run].cause, Some(run)))
    case Transition(command) => Told(s, Some(s.commands[command].correlationId), About(command, false))
    case ConfirmByReport(command) => Told(s, None, About(command, true))
    case StartUnclaimed(flowId, cause, now) => s.(runs := s.runs + [Run(flowId, cause, now, None, None)])
    case StartScheduled(flowId, key, now) => StartClaimed(s, flowId, key, None, now)
    case Trigger(flowId, event, now) => StartClaimed(s, flowId, CauseOf(s, event), Some(event), now)
    case Purge(pairs, now) => s.(claims := CausalClaims.Step(s.claims, CausalClaims.Purge(pairs, now)))
  }

  ghost predicate StepsTo(before: State, action: Action, after: State) {
    Possible(before, action) && after == Step(before, action)
  }

  ghost function Steps(): (State, Action, State) -> bool {
    (before, action, after) => StepsTo(before, action, after)
  }

  function Quiet(start: int): State {
    State([], [], [], CausalClaims.Fresh(start))
  }

  ghost predicate Reachable(s: State) {
    exists start :: Reaches(Steps(), Quiet(start), s)
  }

  // ----- Links -----

  /** The run that requested the command the triggering event tells of. */
  function Parent(s: State, run: nat): Option<nat> {
    if run < |s.runs| && s.runs[run].trigger.Some? && s.runs[run].trigger.value < |s.events| then
      var event := s.events[s.runs[run].trigger.value];
      if event.origin.About? && event.origin.command < |s.commands| then s.commands[event.origin.command].run else None
    else None
  }

  /** The run was triggered by a command, but not by the confirmation of one by a report. */
  predicate IsCarried(s: State, run: nat) {
    && run < |s.runs| && s.runs[run].trigger.Some? && s.runs[run].trigger.value < |s.events|
    && s.events[s.runs[run].trigger.value].origin.About? && !s.events[s.runs[run].trigger.value].origin.byReport
  }

  /** `b` follows from `a`, over any number of links. */
  predicate Follows(s: State, a: nat, b: nat)
    decreases b
  {
    a == b || (Parent(s, b).Some? && Parent(s, b).value < b && Follows(s, a, Parent(s, b).value))
  }

  /** None of the links from `a` to `b` is a confirmation by a report. */
  predicate FollowsCarried(s: State, a: nat, b: nat)
    decreases b
  {
    a == b
    || (&& Parent(s, b).Some? && Parent(s, b).value < b && IsCarried(s, b)
        && FollowsCarried(s, a, Parent(s, b).value))
  }

  // ----- What every step keeps -----

  /** A cause that existed when the journal had `count` events. */
  ghost predicate Early(cause: string, count: nat) {
    Foreign(cause) || exists k: nat :: 1 <= k <= count && cause == EventCause(k)
  }

  ghost predicate CommandFits(s: State, command: Command) {
    && Early(command.correlationId, |s.events|)
    && (command.run.Some? ==>
          command.run.value < |s.runs| && command.correlationId == s.runs[command.run.value].cause)
  }

  /** An event about a command carries its cause, unless a report confirmed it, and every run as old as the one
      that requested the command has an earlier cause. */
  ghost predicate EventFits(s: State, e: nat)
    requires e < |s.events|
  {
    if s.events[e].origin.Elsewhere? then s.events[e].correlationId.None?
    else
      var c := s.events[e].origin.command;
      && c < |s.commands|
      && s.events[e].correlationId == (if s.events[e].origin.byReport then None else Some(s.commands[c].correlationId))
      && Early(s.commands[c].correlationId, e)
      && (s.commands[c].run.Some? ==>
            forall a :: 0 <= a < |s.runs| && a <= s.commands[c].run.value ==> Early(s.runs[a].cause, e))
  }

  ghost predicate RunFits(s: State, b: nat)
    requires b < |s.runs|
  {
    && Early(s.runs[b].cause, |s.events|)
    && (s.runs[b].trigger.Some? ==>
          && s.runs[b].trigger.value < |s.events| && s.runs[b].cause == CauseOf(s, s.runs[b].trigger.value)
          && s.runs[b].grant.Some?)
    && (Parent(s, b).Some? ==> Parent(s, b).value < b)
    && (s.runs[b].grant.Some? ==>
          && s.runs[b].grant.value < |s.claims.grants|
          && s.claims.grants[s.runs[b].grant.value] == CausalClaims.Grant(s.runs[b].flowId, s.runs[b].cause, s.runs[b].at))
  }

  predicate GrantsDiffer(runs: seq<Run>) {
    forall a, b :: 0 <= a < b < |runs| && runs[a].grant.Some? && runs[b].grant.Some? ==> runs[a].grant != runs[b].grant
  }

  ghost predicate ClaimsFit(s: State) {
    && CausalClaims.Fits(s.claims)
    && forall pair :: pair in s.claims.claims ==> Early(pair.1, |s.events|)
  }

  ghost predicate Fits(s: State) {
    && (forall c :: 0 <= c < |s.commands| ==> CommandFits(s, s.commands[c]))
    && (forall e :: 0 <= e < |s.events| ==> EventFits(s, e))
    && (forall b :: 0 <= b < |s.runs| ==> RunFits(s, b))
    && GrantsDiffer(s.runs) && ClaimsFit(s)
  }

  lemma EarlyLater(cause: string, count: nat, later: nat)
    requires Early(cause, count) && count <= later
    ensures Early(cause, later)
  {
  }

  /** Steps that append an event, with its command if it is a new one. */
  lemma TellingKeepsFits(s: State, t: State)
    requires Fits(s) && t.runs == s.runs && t.claims == s.claims
    requires s.commands <= t.commands && |t.commands| <= |s.commands| + 1
    requires |t.commands| > |s.commands| ==> CommandFits(s, t.commands[|s.commands|])
    requires |t.events| == |s.events| + 1 && s.events <= t.events
    requires
      var event := t.events[|s.events|];
      if event.origin.Elsewhere? then event.correlationId.None?
      else
        && event.origin.command < |t.commands|
        && event.correlationId
           == (if event.origin.byReport then None else Some(t.commands[event.origin.command].correlationId))
    ensures Fits(t)
  {
    var n := |s.events|;
    forall c | 0 <= c < |t.commands|
      ensures CommandFits(t, t.commands[c])
    {
      assert CommandFits(s, t.commands[c]);
      EarlyLater(t.commands[c].correlationId, n, n + 1);
    }
    forall e | 0 <= e < |t.events|
      ensures EventFits(t, e)
    {
      if e < n {
        assert EventFits(s, e);
      } else if t.events[e].origin.About? {
        assert CommandFits(s, t.commands[t.events[e].origin.command]);
        forall a | 0 <= a < |t.runs|
          ensures Early(t.runs[a].cause, n)
        {
          assert RunFits(s, a);
        }
      }
    }
    forall b | 0 <= b < |t.runs|
      ensures RunFits(t, b)
    {
      assert RunFits(s, b);
      EarlyLater(t.runs[b].cause, n, n + 1);
      assert s.runs[b].trigger.Some? ==> EventFits(s, s.runs[b].trigger.value);
    }
    forall pair | pair in t.claims.claims
      ensures Early(pair.1, n + 1)
    {
      EarlyLater(pair.1, n, n + 1);
    }
  }

  lemma CauseIsEarly(s: State, e: nat)
    requires Fits(s) && e < |s.events|
    ensures Early(CauseOf(s, e), |s.events|)
  {
    assert EventFits(s, e);
    if s.events[e].correlationId.Some? {
      EarlyLater(CauseOf(s, e), e, |s.events|);
    } else {
      assert CauseOf(s, e) == EventCause(e + 1);
    }
  }

  /** Steps that change the claims, and may append a run. */
  lemma StartingKeepsFits(s: State, t: State)
    requires Fits(s) && t.events == s.events && t.commands == s.commands && ClaimsFit(t)
    requires s.runs <= t.runs && |t.runs| <= |s.runs| + 1 && s.claims.grants <= t.claims.grants
    requires |t.runs| > |s.runs| ==>
      var run := t.runs[|s.runs|];
      && Early(run.cause, |s.events|)
      && (run.trigger.Some? ==>
            run.trigger.value < |s.events| && run.cause == CauseOf(s, run.trigger.value) && run.grant.Some?)
      && (run.grant.Some? ==>
            && run.grant.value == |s.claims.grants| < |t.claims.grants|
            && t.claims.grants[run.grant.value] == CausalClaims.Grant(run.flowId, run.cause, run.at))
    ensures Fits(t)
  {
    forall c | 0 <= c < |t.commands|
      ensures CommandFits(t, t.commands[c])
    {
      assert CommandFits(s, s.commands[c]);
    }
    forall e | 0 <= e < |t.events|
      ensures EventFits(t, e)
    {
      assert EventFits(s, e);
      if t.events[e].origin.About? {
        assert CommandFits(s, s.commands[t.events[e].origin.command]);
      }
    }
    forall b | 0 <= b < |t.runs|
      ensures RunFits(t, b)
    {
      if b < |s.runs| {
        assert RunFits(s, b);
      } else if t.runs[b].trigger.Some? {
        var event := s.events[t.runs[b].trigger.value];
        assert event.origin.About? && event.origin.command < |s.commands| ==> CommandFits(s, s.commands[event.origin.command]);
      }
    }
    forall a, b | 0 <= a < b < |t.runs| && t.runs[a].grant.Some? && t.runs[b].grant.Some?
      ensures t.runs[a].grant != t.runs[b].grant
    {
      assert RunFits(s, a);
    }
  }

  lemma ClaimingKeepsFits(s: State, flowId: string, cause: string, trigger: Option<nat>, now: int)
    requires Fits(s) && s.claims.now <= now && Early(cause, |s.events|)
    requires trigger.Some? ==> trigger.value < |s.events| && cause == CauseOf(s, trigger.value)
    ensures Fits(StartClaimed(s, flowId, cause, trigger, now))
  {
    var request := CausalClaims.Claim(flowId, cause, now);
    var t := StartClaimed(s, flowId, cause, trigger, now);
    CausalClaims.StepKeepsFits(s.claims, request);
    forall pair | pair in t.claims.claims
      ensures Early(pair.1, |t.events|)
    {
      assert pair in s.claims.claims || pair == (flowId, cause);
    }
    StartingKeepsFits(s, t);
  }

  lemma StepKeepsFits(s: State, action: Action)
    requires Fits(s) && Possible(s, action)
    ensures Fits(Step(s, action))
  {
    var t := Step(s, action);
    match action {
      case Happen => TellingKeepsFits(s, t);
      case RequestByUser(_) => TellingKeepsFits(s, t);
      case RequestByRun(run) =>
        assert RunFits(s, run);
        TellingKeepsFits(s, t);
      case Transition(_) => TellingKeepsFits(s, t);
      case ConfirmByReport(_) => TellingKeepsFits(s, t);
      case StartUnclaimed(_, _, _) => StartingKeepsFits(s, t);
      case StartScheduled(flowId, key, now) => ClaimingKeepsFits(s, flowId, key, None, now);
      case Trigger(flowId, event, now) =>
        CauseIsEarly(s, event);
        ClaimingKeepsFits(s, flowId, CauseOf(s, event), Some(event), now);
      case Purge(pairs, now) =>
        CausalClaims.StepKeepsFits(s.claims, CausalClaims.Purge(pairs, now));
        StartingKeepsFits(s, t);
    }
  }

  lemma ReachableFits(s: State)
    requires Reachable(s)
    ensures Fits(s)
  {
    var start :| Reaches(Steps(), Quiet(start), s);
    CausalClaims.FreshFits(start);
    forall before, action, after | Fits(before) && Steps()(before, action, after)
      ensures Fits(after)
    {
      StepKeepsFits(before, action);
    }
    ReachesKeeps(Steps(), x => Fits(x), Quiet(start), s);
  }

  // ----- One link -----

  lemma CausesDiffer(s: State, b: nat, a: nat)
    requires Fits(s) && b < |s.runs| && Parent(s, b).Some? && a <= Parent(s, b).value && !IsCarried(s, b)
    ensures a < |s.runs| && s.runs[a].cause != s.runs[b].cause
  {
    var e := s.runs[b].trigger.value;
    assert RunFits(s, b) && EventFits(s, e);
    assert s.runs[b].cause == EventCause(e + 1);
    assert Early(s.runs[a].cause, e);
    if s.runs[a].cause == EventCause(e + 1) {
      var k :| 1 <= k <= e && s.runs[a].cause == EventCause(k);
      assert EventCause(k)[6..] == Decimal(k) && EventCause(e + 1)[6..] == Decimal(e + 1);
      DecimalInjective(k, e + 1);
    }
  }

  lemma CauseIsKept(s: State, b: nat)
    requires Fits(s) && b < |s.runs| && Parent(s, b).Some? && IsCarried(s, b)
    ensures Parent(s, b).value < b && s.runs[b].cause == s.runs[Parent(s, b).value].cause
  {
    var e := s.runs[b].trigger.value;
    assert RunFits(s, b) && EventFits(s, e);
    assert CommandFits(s, s.commands[s.events[e].origin.command]);
  }

  // ----- Chains of links -----

  lemma {:induction false} CarriedKeepsCause(s: State, a: nat, b: nat)
    requires Fits(s) && FollowsCarried(s, a, b) && a < |s.runs| && b < |s.runs|
    ensures s.runs[b].cause == s.runs[a].cause
    decreases b
  {
    if a != b {
      CauseIsKept(s, b);
      CarriedKeepsCause(s, a, Parent(s, b).value);
    }
  }

  lemma {:induction false} FollowsIsLater(s: State, a: nat, b: nat)
    requires Follows(s, a, b)
    ensures a <= b
    decreases b
  {
    if a != b {
      FollowsIsLater(s, a, Parent(s, b).value);
    }
  }

  /** A run that follows from another, over any number of links, has its cause exactly when none of the links
      is a confirmation by a report. */
  lemma {:induction false} ChainHasOneCauseIff(s: State, a: nat, b: nat)
    requires Fits(s) && Follows(s, a, b) && b < |s.runs|
    ensures a <= b && (s.runs[b].cause == s.runs[a].cause <==> FollowsCarried(s, a, b))
    decreases b
  {
    FollowsIsLater(s, a, b);
    if a != b {
      var p := Parent(s, b).value;
      FollowsIsLater(s, a, p);
      ChainHasOneCauseIff(s, a, p);
      if IsCarried(s, b) {
        CauseIsKept(s, b);
      } else {
        CausesDiffer(s, b, a);
      }
    }
  }

  /** The runs that follow from `a` over no confirmation by a report, started in the last 30 days. */
  function Cascade(s: State, a: nat): set<nat> {
    set b | 0 <= b < |s.runs| && b != a && FollowsCarried(s, a, b) && s.runs[b].at >= s.claims.now - 30 * 86_400_000
  }

  lemma HasOwnGrant(s: State, a: nat, b: nat)
    requires Fits(s) && a < b < |s.runs| && s.runs[a].grant.Some? && s.runs[b].grant.Some?
    ensures s.runs[a].grant.GetOr(0) != s.runs[b].grant.GetOr(0)
  {
  }

  /** A run starts at most 32 others in any 30 days, over any number of links, as long as none of them is a
      confirmation by a report. */
  lemma CascadeIsBounded(s: State, a: nat)
    requires Reachable(s) && a < |s.runs|
    ensures |Cascade(s, a)| <= 32
  {
    ReachableFits(s);
    var f := (b: nat) => if b < |s.runs| then s.runs[b].grant.GetOr(0) as int else 0;
    var recent := CausalClaims.Recent(s.claims, s.runs[a].cause);
    forall b | b in Cascade(s, a)
      ensures s.runs[b].grant.Some? && f(b) in recent
    {
      CarriedKeepsCause(s, a, b);
      assert RunFits(s, b);
    }
    forall b, c | b in Cascade(s, a) && c in Cascade(s, a) && f(b) == f(c)
      ensures b == c
    {
      if b < c {
        HasOwnGrant(s, b, c);
      } else if c < b {
        HasOwnGrant(s, c, b);
      }
    }
    SizeByInjection(Cascade(s, a), recent, f);
    CausalClaims.RecentIsBounded(s.claims, s.runs[a].cause);
  }

  /** What the runs of a chain have for a cause, over every run of the engine. */
  lemma LinkedRunsShareCauseIff(s: State, a: nat, b: nat)
    requires Reachable(s) && Follows(s, a, b) && b < |s.runs|
    ensures a <= b && (s.runs[b].cause == s.runs[a].cause <==> FollowsCarried(s, a, b))
  {
    ReachableFits(s);
    ChainHasOneCauseIff(s, a, b);
  }

  // ----- Links that carry no cause -----

  lemma ReachesFurther(s: State, action: Action) returns (t: State)
    requires Reachable(s) && Possible(s, action)
    ensures t == Step(s, action) && Reachable(t)
  {
    t := Step(s, action);
    var start :| Reaches(Steps(), Quiet(start), s);
    ReachesOn(Steps(), Quiet(start), s, action, t);
  }

  lemma FreshClaimIsGranted(s: State, flowId: string, now: int)
    requires Fits(s) && s.claims.now <= now
    ensures CausalClaims.Claimed(s.claims.claims, flowId, EventCause(|s.events| + 1), now).0 == Ok(true)
  {
    var cause := EventCause(|s.events| + 1);
    forall pair | pair in s.claims.claims
      ensures pair.1 != cause
    {
      if pair.1 == cause {
        assert Early(pair.1, |s.events|);
        var k :| 1 <= k <= |s.events| && pair.1 == EventCause(k);
        assert EventCause(k)[6..] == Decimal(k) && cause[6..] == Decimal(|s.events| + 1);
        DecimalInjective(k, |s.events| + 1);
      }
    }
    assert CausalClaims.Chain(CausalClaims.Retained(s.claims.claims, now), cause) == {};
  }

  /** The last run requests a command, a report confirms it, and the confirmation triggers the flow. */
  lemma TriggersItself(s: State, flowId: string) returns (t: State)
    requires Reachable(s) && s.runs != []
    ensures Reachable(t) && t.claims.now == s.claims.now && |t.runs| == |s.runs| + 1
    ensures s.runs <= t.runs && s.events <= t.events && s.commands <= t.commands
    ensures
      var b := |s.runs|;
      t.runs[b].flowId == flowId && t.runs[b].at == s.claims.now && Parent(t, b) == Some(b - 1) && !IsCarried(t, b)
  {
    var u := ReachesFurther(s, RequestByRun(|s.runs| - 1));
    ReachableFits(u);
    FreshClaimIsGranted(u, flowId, s.claims.now);
    t := ReachesFurther(u, ConfirmByReport(|s.commands|));
    assert CauseOf(t, |u.events|) == EventCause(|u.events| + 1);
    t := ReachesFurther(t, Trigger(flowId, |u.events|, s.claims.now));
  }

  /** Run `b` is run `b - 1` over again, at the same time, started by the confirmation of its command. */
  predicate RunsAgain(s: State, b: nat, flowId: string) {
    b < |s.runs| && s.runs[b].flowId == flowId && s.runs[b].at == s.claims.now
    && (b > 0 ==> Parent(s, b) == Some(b - 1) && !IsCarried(s, b))
  }

  /** A flow that is triggered by the confirmation of its own command starts any number of runs at one
      time: nothing bounds links that carry no cause. */
  lemma {:induction false} ConfirmationsNeverEnd(n: nat, flowId: string, cause: string) returns (s: State)
    requires Foreign(cause)
    ensures Reachable(s) && |s.runs| == n + 1 && forall b :: 0 <= b <= n ==> RunsAgain(s, b, flowId)
  {
    if n == 0 {
      LeadsNowhere(Steps(), Quiet(0));
      s := ReachesFurther(Quiet(0), StartUnclaimed(flowId, cause, 0));
    } else {
      var before := ConfirmationsNeverEnd(n - 1, flowId, cause);
      s := TriggersItself(before, flowId);
      ReachableFits(before);
      forall b | 0 <= b < n
        ensures RunsAgain(s, b, flowId)
      {
        assert RunsAgain(before, b, flowId) && RunFits(before, b);
        if b > 0 {
          assert EventFits(before, before.runs[b].trigger.value);
        }
      }
    }
  }
}
