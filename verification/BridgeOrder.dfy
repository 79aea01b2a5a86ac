// In which order the bridge of a Hue installation sees the values of one property.
module BridgeOrder {
  import opened Collections
  import opened Reachability
  import opened HueGate
  import opened HueCoalescing

  lemma ReachesFurther(s: State, start: int, action: Action, policy: Policy)
    requires Reachable(s, start, policy) && Possible(s, action, policy)
    ensures Reachable(Step(s, action, policy), start, policy)
  {
    ReachesOn(Steps(policy), Idle(start), s, action, Step(s, action, policy));
  }

  // ----- An older value can arrive last -----

  /** One dispatch alone runs from its arrival to its second check. */
  lemma ClearsAlone(s: State, start: int, id: nat, key: Key, value: HueValue, policy: Policy) returns (t: State)
    requires Reachable(s, start, policy) && id !in s.dispatches && s.nextLightAt <= s.now + policy.window
    ensures Reachable(t, start, policy) && t.calls == s.calls
    ensures t.dispatches.Keys == s.dispatches.Keys + {id}
    ensures forall i :: i in s.dispatches ==> t.dispatches[i] == s.dispatches[i]
    ensures t.dispatches[id].key == key && t.dispatches[id].phase == Cleared(value)
    ensures t.nextLightAt == t.now + policy.interval && t.last == s.last[key := id]
  {
    t := s;
    var begin := Begin(id, key, value);
    ReachesFurther(t, start, begin, policy);
    t := Step(t, begin, policy);
    ReachesFurther(t, start, InsertPending(id), policy);
    t := Step(t, InsertPending(id), policy);
    ReachesFurther(t, start, Tick(policy.window), policy);
    t := Step(t, Tick(policy.window), policy);
    ReachesFurther(t, start, FirstCheck(id), policy);
    t := Step(t, FirstCheck(id), policy);
    ReachesFurther(t, start, ReserveSlot(id), policy);
    t := Step(t, ReserveSlot(id), policy);
    ReachesFurther(t, start, SecondCheck(id), policy);
    t := Step(t, SecondCheck(id), policy);
  }

  /** A dispatch that has passed its second check can be overtaken before it calls the bridge, so the
      bridge may see the older of two values last. */
  lemma OlderValueCanArriveLast(start: int, key: Key, older: HueValue, newer: HueValue, policy: Policy)
    returns (s: State)
    ensures Reachable(s, start, policy)
    ensures s.calls == [Call(2, key, newer), Call(1, key, older)]
    ensures key in s.last && s.last[key] == 2
  {
    s := Idle(start);
    LeadsNowhere(Steps(policy), s);
    s := ClearsAlone(s, start, 1, key, older, policy);
    ReachesFurther(s, start, Tick(policy.interval), policy);
    s := Step(s, Tick(policy.interval), policy);
    s := ClearsAlone(s, start, 2, key, newer, policy);
    ReachesFurther(s, start, CallBridge(2), policy);
    s := Step(s, CallBridge(2), policy);
    ReachesFurther(s, start, CallBridge(1), policy);
    s := Step(s, CallBridge(1), policy);
  }

  // ----- Exactly when -----

  /** `older` was inserted under the key of `newest`, which was inserted last. */
  predicate Replaced(s: State, older: nat, newest: nat) {
    && newest in s.dispatches && older in s.dispatches && older != newest
    && Inserted(s.dispatches[older]) && s.dispatches[older].key == s.dispatches[newest].key
    && s.dispatches[newest].key in s.last && s.last[s.dispatches[newest].key] == newest
  }

  predicate CalledSince(calls: seq<Call>, from: nat, id: nat) {
    exists c :: from <= c < |calls| && calls[c].id == id
  }

  /** Some run from `s` on has the dispatch call the bridge. */
  ghost predicate CanStillCall(s: State, id: nat, policy: Policy) {
    exists t :: Reaches(Steps(policy), s, t) && CalledSince(t.calls, |s.calls|, id)
  }

  /** A dispatch that was replaced before its second check let it pass. */
  predicate Overtaken(s: State, id: nat, from: nat) {
    && id in s.dispatches && Inserted(s.dispatches[id]) && !s.dispatches[id].phase.Cleared?
    && s.dispatches[id].key in s.last && s.last[s.dispatches[id].key] != id
    && from <= |s.calls| && !CalledSince(s.calls, from, id)
  }

  lemma CallsAppend(calls: seq<Call>, call: Call, from: nat, id: nat)
    requires !CalledSince(calls, from, id) && call.id != id
    ensures !CalledSince(calls + [call], from, id)
  {
  }

  lemma StepKeepsOvertaken(s: State, action: Action, id: nat, from: nat, policy: Policy)
    requires TableFits(s) && Possible(s, action, policy) && Overtaken(s, id, from)
    ensures Overtaken(Step(s, action, policy), id, from)
  {
    OthersStay(s, action, policy);
    if action.FirstCheck? || action.SecondCheck? {
      CheckPassesIffLast(s, action.id);
    }
    if action.CallBridge? {
      var d := s.dispatches[action.id];
      CallsAppend(s.calls, Call(action.id, d.key, d.phase.cleared), from, id);
    }
  }

  lemma OvertakenStays(s: State, t: State, id: nat, from: nat, start: int, policy: Policy)
    requires Reaches(Steps(policy), s, t) && Fits(s, start, policy) && Overtaken(s, id, from)
    ensures Overtaken(t, id, from)
  {
    var kept := x => Fits(x, start, policy) && Overtaken(x, id, from);
    forall before, action, after | kept(before) && Steps(policy)(before, action, after)
      ensures kept(after)
    {
      StepKeepsFits(before, action, start, policy);
      StepKeepsOvertaken(before, action, id, from, policy);
    }
    ReachesKeeps(Steps(policy), kept, s, t);
  }

  lemma ClearedCanCall(s: State, id: nat, policy: Policy)
    requires id in s.dispatches && s.dispatches[id].phase.Cleared?
    ensures CanStillCall(s, id, policy)
  {
    var action := CallBridge(id);
    var t := Step(s, action, policy);
    LeadsNowhere(Steps(policy), s);
    ReachesOn(Steps(policy), s, s, action, t);
    assert t.calls[|s.calls|].id == id;
    assert CalledSince(t.calls, |s.calls|, id);
  }

  /** When the newest dispatch of a key calls the bridge, an older one of that key can call after it
      exactly when it had then passed its second check without having called yet. In every other case
      the bridge sees nothing older. */
  lemma OlderCallsLaterIffCleared(s: State, start: int, older: nat, newest: nat, policy: Policy)
    requires Reachable(s, start, policy) && Possible(s, CallBridge(newest), policy) && Replaced(s, older, newest)
    ensures CanStillCall(Step(s, CallBridge(newest), policy), older, policy)
       <==> s.dispatches[older].phase.Cleared?
  {
    ReachableFits(s, start, policy);
    var t := Step(s, CallBridge(newest), policy);
    StepKeepsFits(s, CallBridge(newest), start, policy);
    if s.dispatches[older].phase.Cleared? {
      ClearedCanCall(t, older, policy);
    } else {
      forall u | Reaches(Steps(policy), t, u)
        ensures !CalledSince(u.calls, |t.calls|, older)
      {
        OvertakenStays(t, u, older, |t.calls|, start, policy);
      }
    }
  }
}
