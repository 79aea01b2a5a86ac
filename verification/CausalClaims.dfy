// Claims on the events that trigger flows: they bound the runs that may be started for one cause.
module CausalClaims {
  import opened Wrappers
  import opened Collections

  const RETENTION: nat := 30 * 24 * 60 * 60 * 1000
  const MAX_DEPTH: nat := 32

  type Claims = map<(string, string), int>

  datatype ClaimError = TooDeep

  function Retained(claims: Claims, now: int): Claims {
    map pair | pair in claims && claims[pair] >= now - RETENTION :: claims[pair]
  }

  function Chain(claims: Claims, correlationId: string): set<(string, string)> {
    set pair | pair in claims && pair.1 == correlationId
  }

  function Claimed(claims: Claims, flowId: string, correlationId: string, now: int): (Result<bool, ClaimError>, Claims) {
    var kept := Retained(claims, now);
    if (flowId, correlationId) in kept then (Ok(false), kept)
    else if |Chain(kept, correlationId)| >= MAX_DEPTH then (Err(TooDeep), claims)
    else (Ok(true), kept[(flowId, correlationId) := now])
  }

  class ClaimTable {
    var claims: Claims

    constructor ()
      ensures claims == map[]
    {
      claims := map[];
    }

    /** One transaction: too deep a chain rolls back even the deletion of old claims. */
    method ClaimFlowTrigger(flowId: string, correlationId: string, now: int) returns (r: Result<bool, ClaimError>)
      modifies this
      ensures (r, claims) == Claimed(old(claims), flowId, correlationId, now)
    {
      var transaction := map pair | pair in claims && claims[pair] >= now - RETENTION :: claims[pair];
      if (flowId, correlationId) in transaction {
        claims := transaction;
        return Ok(false);
      }
      var depth := |set pair | pair in transaction && pair.1 == correlationId|;
      if depth >= MAX_DEPTH {
        return Err(TooDeep);
      }
      claims := transaction[(flowId, correlationId) := now];
      return Ok(true);
    }

    /** The periodic purge deletes some of the claims that are old. */
    method Purge(pairs: set<(string, string)>, now: int)
      requires forall pair :: pair in pairs ==> pair in claims && claims[pair] < now - RETENTION
      modifies this
      ensures claims == old(claims) - pairs
    {
      claims := claims - pairs;
    }
  }

  // ----- Any sequence of requests -----

  datatype Request =
    | Claim(flowId: string, correlationId: string, now: int)
    | Purge(pairs: set<(string, string)>, now: int)

  datatype Grant = Grant(flowId: string, correlationId: string, at: int)

  /** The table, the time of the last request, and every claim granted so far. */
  datatype State = State(claims: Claims, now: int, grants: seq<Grant>)

  predicate Possible(s: State, request: Request) {
    && s.now <= request.now
    && (request.Purge? ==>
          forall pair :: pair in request.pairs ==> pair in s.claims && s.claims[pair] < request.now - RETENTION)
  }

  function Step(s: State, request: Request): State {
    match request
    case Claim(flowId, correlationId, now) =>
      var (r, claims) := Claimed(s.claims, flowId, correlationId, now);
      State(claims, now, s.grants + if r == Ok(true) then [Grant(flowId, correlationId, now)] else [])
    case Purge(pairs, now) => State(s.claims - pairs, now, s.grants)
  }

  predicate Answered(s: State, requests: seq<Request>)
    decreases |requests|
  {
    requests == [] || (Possible(s, requests[0]) && Answered(Step(s, requests[0]), requests[1..]))
  }

  function After(s: State, requests: seq<Request>): State
    decreases |requests|
  {
    if requests == [] then s else After(Step(s, requests[0]), requests[1..])
  }

  function Fresh(now: int): State {
    State(map[], now, [])
  }

  predicate Recorded(claims: Claims, grant: Grant) {
    && (grant.flowId, grant.correlationId) in claims
    && claims[(grant.flowId, grant.correlationId)] == grant.at
  }

  /** Two grants of the same claim are more than 30 days apart. */
  predicate Apart(a: Grant, b: Grant) {
    a.flowId == b.flowId && a.correlationId == b.correlationId ==> b.at - a.at > 30 * 86_400_000
  }

  predicate WasGranted(grants: seq<Grant>, grant: Grant) {
    exists i :: 0 <= i < |grants| && grants[i] == grant
  }

  /** Every row of the table is of a claim that was granted. */
  ghost predicate RowsWereGranted(s: State) {
    forall pair :: pair in s.claims ==> WasGranted(s.grants, Grant(pair.0, pair.1, s.claims[pair]))
  }

  ghost predicate Fits(s: State) {
    GrantsFit(s) && RowsWereGranted(s)
  }

  ghost predicate GrantsFit(s: State) {
    && (forall i :: 0 <= i < |s.grants| ==>
          s.grants[i].at <= s.now && (s.grants[i].at >= s.now - RETENTION ==> Recorded(s.claims, s.grants[i])))
    && (forall i, j :: 0 <= i < j < |s.grants| ==> Apart(s.grants[i], s.grants[j]))
    && forall correlationId :: |Chain(s.claims, correlationId)| <= MAX_DEPTH
  }

  lemma ChainShrinks(claims: Claims, kept: Claims, correlationId: string)
    requires kept.Keys <= claims.Keys
    ensures |Chain(kept, correlationId)| <= |Chain(claims, correlationId)|
  {
    assert Chain(kept, correlationId) <= Chain(claims, correlationId);
    SubsetIsSmaller(Chain(kept, correlationId), Chain(claims, correlationId));
  }

  lemma GrantKeepsChain(kept: Claims, pair: (string, string), now: int, chain: string)
    requires pair !in kept && |Chain(kept, chain)| <= MAX_DEPTH
    requires pair.1 == chain ==> |Chain(kept, chain)| < MAX_DEPTH
    ensures |Chain(kept[pair := now], chain)| <= MAX_DEPTH
  {
    var after := kept[pair := now];
    if chain == pair.1 {
      assert Chain(after, chain) == Chain(kept, chain) + {pair};
    } else {
      assert Chain(after, chain) == Chain(kept, chain);
    }
  }

  lemma ClaimKeepsChains(claims: Claims, flowId: string, correlationId: string, now: int, chain: string)
    requires |Chain(claims, chain)| <= MAX_DEPTH
    ensures |Chain(Claimed(claims, flowId, correlationId, now).1, chain)| <= MAX_DEPTH
  {
    var kept := Retained(claims, now);
    ChainShrinks(claims, kept, chain);
    if Claimed(claims, flowId, correlationId, now).0 == Ok(true) {
      GrantKeepsChain(kept, (flowId, correlationId), now, chain);
    }
  }

  lemma StepKeepsRows(s: State, request: Request)
    requires RowsWereGranted(s)
    ensures RowsWereGranted(Step(s, request))
  {
    var t := Step(s, request);
    forall pair | pair in t.claims
      ensures WasGranted(t.grants, Grant(pair.0, pair.1, t.claims[pair]))
    {
      if pair in s.claims && t.claims[pair] == s.claims[pair] {
        var i :| 0 <= i < |s.grants| && s.grants[i] == Grant(pair.0, pair.1, s.claims[pair]);
        assert t.grants[i] == s.grants[i];
      } else {
        assert t.grants[|s.grants|] == Grant(pair.0, pair.1, t.claims[pair]);
      }
    }
  }

  lemma ClaimKeepsGrants(s: State, request: Request)
    requires GrantsFit(s) && request.Claim? && Possible(s, request)
    ensures GrantsFit(Step(s, request))
  {
    var kept := Retained(s.claims, request.now);
    forall chain
      ensures |Chain(Step(s, request).claims, chain)| <= MAX_DEPTH
    {
      ClaimKeepsChains(s.claims, request.flowId, request.correlationId, request.now, chain);
    }
    forall i | 0 <= i < |s.grants|
      ensures s.grants[i].at >= request.now - RETENTION ==> Recorded(kept, s.grants[i])
    {
    }
  }

  lemma PurgeKeepsGrants(s: State, request: Request)
    requires GrantsFit(s) && request.Purge? && Possible(s, request)
    ensures GrantsFit(Step(s, request))
  {
    var t := Step(s, request);
    forall correlationId
      ensures |Chain(t.claims, correlationId)| <= MAX_DEPTH
    {
      ChainShrinks(s.claims, t.claims, correlationId);
    }
  }

  lemma StepKeepsFits(s: State, request: Request)
    requires Fits(s) && Possible(s, request)
    ensures Fits(Step(s, request))
  {
    StepKeepsRows(s, request);
    match request {
      case Claim(_, _, _) => ClaimKeepsGrants(s, request);
      case Purge(_, _) => PurgeKeepsGrants(s, request);
    }
  }

  lemma {:induction false} AfterKeepsFits(s: State, requests: seq<Request>)
    requires Fits(s) && Answered(s, requests)
    ensures Fits(After(s, requests))
    decreases |requests|
  {
    if requests != [] {
      StepKeepsFits(s, requests[0]);
      AfterKeepsFits(Step(s, requests[0]), requests[1..]);
    }
  }

  lemma FreshFits(now: int)
    ensures Fits(Fresh(now))
  {
    assert forall correlationId :: Chain(Fresh(now).claims, correlationId) == {};
  }

  /** A flow runs at most once for one cause, unless the first run is more than 30 days past. */
  lemma ClaimedOnce(start: int, requests: seq<Request>, i: nat, j: nat)
    requires Answered(Fresh(start), requests)
    requires i < j < |After(Fresh(start), requests).grants|
    ensures Apart(After(Fresh(start), requests).grants[i], After(Fresh(start), requests).grants[j])
  {
    FreshFits(start);
    AfterKeepsFits(Fresh(start), requests);
  }

  /** The grants for one cause in the last 30 days, by their position. */
  function Recent(s: State, correlationId: string): set<int> {
    set i | 0 <= i < |s.grants| && s.grants[i].correlationId == correlationId && s.grants[i].at >= s.now - 30 * 86_400_000
  }

  lemma RecentGrantsDiffer(s: State, correlationId: string, i: nat, j: nat)
    requires Fits(s) && i in Recent(s, correlationId) && j in Recent(s, correlationId) && i < j
    ensures s.grants[i].flowId != s.grants[j].flowId
  {
    assert Apart(s.grants[i], s.grants[j]);
  }

  lemma RecentIsBounded(s: State, correlationId: string)
    requires Fits(s)
    ensures |Recent(s, correlationId)| <= 32
  {
    var f := (i: int) => if 0 <= i < |s.grants| then (s.grants[i].flowId, s.grants[i].correlationId) else ("", "");
    var positions := Recent(s, correlationId);
    forall i, j | i in positions && j in positions && f(i) == f(j)
      ensures i == j
    {
      if i < j {
        RecentGrantsDiffer(s, correlationId, i, j);
      } else if j < i {
        RecentGrantsDiffer(s, correlationId, j, i);
      }
    }
    SizeByInjection(positions, Chain(s.claims, correlationId), f);
  }

  /** In any 30 days at most 32 claims are granted for one cause. */
  lemma GrantsAreBounded(start: int, requests: seq<Request>, correlationId: string)
    requires Answered(Fresh(start), requests)
    ensures |Recent(After(Fresh(start), requests), correlationId)| <= 32
  {
    FreshFits(start);
    AfterKeepsFits(Fresh(start), requests);
    RecentIsBounded(After(Fresh(start), requests), correlationId);
  }

  // ----- When a claim is granted -----

  /** The flow was granted a claim for the cause in the last 30 days. */
  predicate RanLately(s: State, flowId: string, correlationId: string, now: int) {
    exists i :: 0 <= i < |s.grants| && s.grants[i].flowId == flowId && s.grants[i].correlationId == correlationId
      && now - s.grants[i].at <= 30 * 86_400_000
  }

  /** The flows that were, as they stand in the table. */
  function RanLatelyFor(s: State, correlationId: string, now: int): set<(string, string)> {
    set i | 0 <= i < |s.grants| && s.grants[i].correlationId == correlationId && now - s.grants[i].at <= 30 * 86_400_000
      :: (s.grants[i].flowId, correlationId)
  }

  lemma RetainedIff(s: State, flowId: string, correlationId: string, now: int)
    requires Fits(s) && s.now <= now
    ensures (flowId, correlationId) in Retained(s.claims, now) <==> RanLately(s, flowId, correlationId, now)
  {
    var pair := (flowId, correlationId);
    if pair in Retained(s.claims, now) {
      var i :| 0 <= i < |s.grants| && s.grants[i] == Grant(flowId, correlationId, s.claims[pair]);
    }
    if RanLately(s, flowId, correlationId, now) {
      var i :| 0 <= i < |s.grants| && s.grants[i].flowId == flowId && s.grants[i].correlationId == correlationId
        && now - s.grants[i].at <= 30 * 86_400_000;
      assert Recorded(s.claims, s.grants[i]);
    }
  }

  /** After any requests a claim is granted exactly when the flow was granted none for the cause in the last 30
      days, and fewer than 32 flows were. */
  lemma ClaimIsGrantedIff(start: int, requests: seq<Request>, flowId: string, correlationId: string, now: int)
    requires Answered(Fresh(start), requests) && After(Fresh(start), requests).now <= now
    ensures
      var s := After(Fresh(start), requests);
      Claimed(s.claims, flowId, correlationId, now).0
      == (if RanLately(s, flowId, correlationId, now) then Ok(false)
          else if |RanLatelyFor(s, correlationId, now)| >= 32 then Err(TooDeep)
          else Ok(true))
  {
    FreshFits(start);
    AfterKeepsFits(Fresh(start), requests);
    var s := After(Fresh(start), requests);
    RetainedIff(s, flowId, correlationId, now);
    forall pair: (string, string)
      ensures pair in Chain(Retained(s.claims, now), correlationId) <==> pair in RanLatelyFor(s, correlationId, now)
    {
      RetainedIff(s, pair.0, correlationId, now);
    }
    assert Chain(Retained(s.claims, now), correlationId) == RanLatelyFor(s, correlationId, now);
  }
}
