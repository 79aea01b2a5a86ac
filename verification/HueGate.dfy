// The rate gate of a Hue bridge: reserves emission slots, and refuses when the queue is too long.
module HueGate {
  import opened Wrappers

  datatype Policy = Policy(interval: nat, window: nat, deadline: nat)

  predicate ValidPolicy(policy: Policy) {
    policy.interval > 0 && policy.window > 0 && policy.deadline > 0
  }

  /** One reservation: the granted slot, if any, and the earliest next slot. */
  function Reserved(next: int, now: int, policy: Policy): (Option<int>, int) {
    var scheduled := if next >= now then next else now;
    if scheduled - now > policy.deadline then (None, next) else (Some(scheduled), scheduled + policy.interval)
  }

  class RateGate {
    var nextLightAt: int

    constructor (now: int)
      ensures nextLightAt == now
    {
      nextLightAt := now;
    }

    method Reserve(now: int, policy: Policy) returns (slot: Option<int>)
      modifies this
      ensures (slot, nextLightAt) == Reserved(old(nextLightAt), now, policy)
    {
      var scheduled := if nextLightAt >= now then nextLightAt else now;
      if scheduled - now > policy.deadline {
        return None;
      }
      nextLightAt := scheduled + policy.interval;
      return Some(scheduled);
    }
  }

  /** The replies of a gate to any sequence of request times. */
  function Replies(next: int, requests: seq<int>, policy: Policy): (r: seq<Option<int>>)
    ensures |r| == |requests|
    decreases |requests|
  {
    if requests == [] then []
    else
      var (slot, next') := Reserved(next, requests[0], policy);
      [slot] + Replies(next', requests[1..], policy)
  }

  /** The slots granted, in the order they were granted. */
  function Granted(replies: seq<Option<int>>): seq<int> {
    if replies == [] then []
    else (if replies[0].Some? then [replies[0].value] else []) + Granted(replies[1..])
  }

  function Slots(next: int, requests: seq<int>, policy: Policy): seq<int> {
    Granted(Replies(next, requests, policy))
  }

  lemma SlotsStep(next: int, requests: seq<int>, policy: Policy)
    requires requests != []
    ensures
      var (slot, next') := Reserved(next, requests[0], policy);
      Slots(next, requests, policy) == (if slot.Some? then [slot.value] else []) + Slots(next', requests[1..], policy)
  {
    var (slot, next') := Reserved(next, requests[0], policy);
    assert Replies(next, requests, policy)[1..] == Replies(next', requests[1..], policy);
  }

  /** A slot lies between its request and the deadline of that request. */
  lemma {:induction false} SlotsMeetDeadline(next: int, requests: seq<int>, policy: Policy, i: nat)
    requires i < |requests|
    ensures
      var reply := Replies(next, requests, policy)[i];
      reply.Some? ==> requests[i] <= reply.value <= requests[i] + policy.deadline
    decreases |requests|
  {
    if i > 0 {
      var (_, next') := Reserved(next, requests[0], policy);
      SlotsMeetDeadline(next', requests[1..], policy, i - 1);
    }
  }

  /** A request is refused exactly when the queue ahead of it is longer than the deadline. */
  lemma {:induction false} RefusedIffLate(next: int, requests: seq<int>, policy: Policy, i: nat)
    requires i < |requests|
    ensures Replies(next, requests, policy)[i].None?
       <==> NextAfter(next, requests[..i], policy) > requests[i] + policy.deadline
    decreases |requests|
  {
    var (_, next') := Reserved(next, requests[0], policy);
    if i > 0 {
      RefusedIffLate(next', requests[1..], policy, i - 1);
      assert requests[..i][1..] == requests[1..][..i - 1];
    }
  }

  function NextAfter(next: int, requests: seq<int>, policy: Policy): int
    decreases |requests|
  {
    if requests == [] then next else NextAfter(Reserved(next, requests[0], policy).1, requests[1..], policy)
  }

  // ----- Spacing -----

  predicate Spaced(slots: seq<int>, interval: nat) {
    forall i :: 0 <= i < |slots| - 1 ==> slots[i] + interval <= slots[i + 1]
  }

  lemma {:induction false} SlotsAreSpaced(next: int, requests: seq<int>, policy: Policy)
    ensures Spaced(Slots(next, requests, policy), policy.interval)
    ensures Slots(next, requests, policy) != [] ==> Slots(next, requests, policy)[0] >= next
    decreases |requests|
  {
    if requests != [] {
      var (slot, next') := Reserved(next, requests[0], policy);
      SlotsStep(next, requests, policy);
      SlotsAreSpaced(next', requests[1..], policy);
    }
  }

  lemma {:induction false} SpacedPairwise(slots: seq<int>, interval: nat, i: nat, j: nat)
    requires Spaced(slots, interval) && i <= j < |slots|
    ensures slots[i] + (j - i) * interval <= slots[j]
    decreases j - i
  {
    if i < j {
      SpacedPairwise(slots, interval, i, j - 1);
      assert slots[j - 1] + interval <= slots[j];
      assert (j - i) * interval == (j - 1 - i) * interval + interval;
    }
  }

  /** Any two slots granted by a gate are as many intervals apart as there are grants between them, however
      the requests arrive. */
  lemma GrantsArePairwiseApart(next: int, requests: seq<int>, policy: Policy, i: nat, j: nat)
    requires i <= j < |Slots(next, requests, policy)|
    ensures
      var slots := Slots(next, requests, policy);
      slots[i] + (j - i) * policy.interval <= slots[j]
  {
    SlotsAreSpaced(next, requests, policy);
    SpacedPairwise(Slots(next, requests, policy), policy.interval, i, j);
  }

  // ----- Windows -----

  function CountIn(slots: seq<int>, from: int, to: int): nat {
    if slots == [] then 0 else (if from <= slots[0] < to then 1 else 0) + CountIn(slots[1..], from, to)
  }

  lemma {:induction false} NoneFrom(slots: seq<int>, interval: nat, from: int, to: int)
    requires Spaced(slots, interval) && slots != [] && slots[0] >= to
    ensures CountIn(slots, from, to) == 0
  {
    if |slots| > 1 {
      assert slots[0] + interval <= slots[1];
      SpacedTail(slots, interval);
      NoneFrom(slots[1..], interval, from, to);
    }
  }

  lemma SpacedTail(slots: seq<int>, interval: nat)
    requires Spaced(slots, interval) && slots != []
    ensures Spaced(slots[1..], interval)
  {
    forall i | 0 <= i < |slots[1..]| - 1
      ensures slots[1..][i] + interval <= slots[1..][i + 1]
    {
      assert slots[i + 1] + interval <= slots[i + 2];
    }
  }

  lemma {:induction false} WindowStep(slots: seq<int>, interval: nat, from: int, to: int)
    requires Spaced(slots, interval)
    ensures CountIn(slots, from, to) > 0 ==> (CountIn(slots, from, to) - 1) * interval < to - from
    ensures slots != [] && CountIn(slots, from, to) > 0 && slots[0] >= from ==>
      (CountIn(slots, from, to) - 1) * interval < to - slots[0]
  {
    if slots != [] {
      if slots[0] >= to {
        NoneFrom(slots, interval, from, to);
      } else {
        SpacedTail(slots, interval);
        WindowStep(slots[1..], interval, from, to);
        if slots[0] >= from && |slots| > 1 {
          var n := CountIn(slots[1..], from, to);
          assert slots[0] + interval <= slots[1];
          assert CountIn(slots, from, to) == n + 1;
          assert n > 0 ==> n * interval == (n - 1) * interval + interval;
        }
      }
    }
  }

  /** However the requests arrive, a window of length `length` holds at most ceil(length / interval)
      slots. */
  lemma WindowBound(next: int, requests: seq<int>, policy: Policy, from: int, length: nat)
    requires ValidPolicy(policy)
    ensures CountIn(Slots(next, requests, policy), from, from + length)
         <= (length + policy.interval - 1) / policy.interval
  {
    var slots := Slots(next, requests, policy);
    SlotsAreSpaced(next, requests, policy);
    WindowStep(slots, policy.interval, from, from + length);
    var n := CountIn(slots, from, from + length);
    if n > 0 {
      CeilingBound(n, length, policy.interval);
    }
  }

  lemma CeilingBound(n: nat, length: nat, interval: nat)
    requires interval > 0 && n > 0 && (n - 1) * interval < length
    ensures n <= (length + interval - 1) / interval
  {
    var q := (length + interval - 1) / interval;
    assert length + interval - 1 < (q + 1) * interval by {
      assert (length + interval - 1) == q * interval + (length + interval - 1) % interval;
      assert (q + 1) * interval == q * interval + interval;
    }
    assert (q + 1) * interval == q * interval + interval;
    if n > q {
      MulMonotone(q, n - 1, interval);
    }
  }

  lemma MulMonotone(a: int, b: int, c: nat)
    requires a <= b
    ensures a * c <= b * c
  {
    assert b * c == a * c + (b - a) * c;
  }

  // ----- Bursts -----

  function Burst(now: int, count: nat): (requests: seq<int>)
    ensures |requests| == count
  {
    if count == 0 then [] else [now] + Burst(now, count - 1)
  }

  /** How many requests at one instant a gate whose next slot is `ahead` away accepts. */
  function Capacity(ahead: nat, policy: Policy): nat
    requires ValidPolicy(policy)
  {
    if ahead > policy.deadline then 0 else (policy.deadline - ahead) / policy.interval + 1
  }

  lemma QuotientUnique(n: nat, d: nat, q: int)
    requires d > 0 && q * d <= n < (q + 1) * d
    ensures n / d == q
  {
    var p := n / d;
    assert p * d + n % d == n && (p + 1) * d == p * d + d;
    if p < q {
      MulMonotone(p + 1, q, d);
    } else if q < p {
      MulMonotone(q + 1, p, d);
    }
  }

  lemma CapacityStep(ahead: nat, policy: Policy)
    requires ValidPolicy(policy) && ahead <= policy.deadline
    ensures Capacity(ahead, policy) == 1 + Capacity(ahead + policy.interval, policy)
  {
    var room, d := policy.deadline - ahead, policy.interval;
    if room >= d {
      var q := (room - d) / d;
      assert q * d <= room - d < q * d + d;
      assert (q + 1) * d == q * d + d && (q + 2) * d == q * d + d + d;
      QuotientUnique(room, d, q + 1);
    } else {
      QuotientUnique(room, d, 0);
    }
  }

  /** Requests made at one instant are accepted up to the capacity and refused after it. */
  lemma {:induction false} BurstAccepted(next: int, now: int, count: nat, policy: Policy)
    requires ValidPolicy(policy) && next >= now
    ensures
      var accepted := if count <= Capacity(next - now, policy) then count else Capacity(next - now, policy);
      && |Slots(next, Burst(now, count), policy)| == accepted
      && forall i :: 0 <= i < |Replies(next, Burst(now, count), policy)| ==>
           (Replies(next, Burst(now, count), policy)[i].Some? <==> i < accepted)
    decreases count
  {
    if count > 0 {
      var requests := Burst(now, count);
      var (slot, next') := Reserved(next, now, policy);
      assert requests[1..] == Burst(now, count - 1);
      SlotsStep(next, requests, policy);
      BurstAccepted(next', now, count - 1, policy);
      if slot.Some? {
        CapacityStep(next - now, policy);
      }
      var rest := Replies(next', requests[1..], policy);
      assert forall i :: 1 <= i < count ==> Replies(next, requests, policy)[i] == rest[i - 1];
    }
  }

  /** An idle gate accepts exactly floor(deadline / interval) + 1 requests made at one instant. */
  lemma IdleBurst(next: int, now: int, count: nat, policy: Policy)
    requires ValidPolicy(policy) && next <= now
    ensures
      var capacity := policy.deadline / policy.interval + 1;
      |Slots(next, Burst(now, count), policy)| == if count <= capacity then count else capacity
  {
    if count > 0 {
      var requests := Burst(now, count);
      assert requests[0] == now;
      assert Reserved(next, now, policy) == Reserved(now, now, policy);
      SlotsStep(next, requests, policy);
      SlotsStep(now, requests, policy);
    }
    BurstAccepted(now, now, count, policy);
  }
}
