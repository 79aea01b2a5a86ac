// Idempotency keys over a whole run of the engine.
module EngineKeys {
  import IdempotencyKeys
  import opened FlowRuntime
  import Transparency
  import CallDiscipline
  import opened Engine
  import opened EngineRuns

  lemma CallOfPass(s: State, gateways: Gateways, id: string, i: nat) returns (calls: seq<Call>)
    requires Reachable(s, gateways) && id in s.lives && i < |s.lives[id].calls|
    ensures calls == Transparency.OnePass(s.lives[id].plan.actions, 0, 0, id, gateways(id), World([], [])).world.calls
    ensures i < |calls| && calls[i] == s.lives[id].calls[i]
  {
    EndedExecutionIsThePass(s, gateways, id);
    calls := WholeRun(id, s.lives[id], gateways(id)).world.calls;
    assert s.lives[id].calls <= calls;
  }

  lemma KeysOfOneExecution(s: State, gateways: Gateways, id: string, i: nat, j: nat)
    requires Reachable(s, gateways) && id in s.lives && IdempotencyKeys.IsRunId(id)
    requires i < |s.lives[id].calls| && j < |s.lives[id].calls| && i != j
    ensures s.lives[id].calls[i].key != s.lives[id].calls[j].key
  {
    var calls := CallOfPass(s, gateways, id, i);
    var again := CallOfPass(s, gateways, id, j);
    assert calls == again;
    CallDiscipline.RunUsesKeysOnce(s.lives[id].plan.actions, id, gateways(id));
    assert calls[i].key != calls[j].key;
  }

  lemma KeysOfTwoExecutions(s: State, gateways: Gateways, a: string, i: nat, b: string, j: nat)
    requires Reachable(s, gateways) && a in s.lives && b in s.lives && a != b
    requires IdempotencyKeys.IsRunId(a) && IdempotencyKeys.IsRunId(b)
    requires i < |s.lives[a].calls| && j < |s.lives[b].calls|
    ensures s.lives[a].calls[i].key != s.lives[b].calls[j].key
  {
    var first := CallOfPass(s, gateways, a, i);
    var second := CallOfPass(s, gateways, b, j);
    CallDiscipline.RunsUseDifferentKeys(s.lives[a].plan.actions, a, s.lives[b].plan.actions, b, gateways(a), gateways(b));
  }

  /** However executions are suspended, resumed, queued and restarted, no two gateway calls carry the
      same idempotency key, within one execution or across executions. */
  lemma NoKeyIsUsedTwice(s: State, gateways: Gateways, a: string, i: nat, b: string, j: nat)
    requires Reachable(s, gateways) && a in s.lives && b in s.lives && IdempotencyKeys.IsRunId(a) && IdempotencyKeys.IsRunId(b)
    requires i < |s.lives[a].calls| && j < |s.lives[b].calls| && (a, i) != (b, j)
    ensures s.lives[a].calls[i].key != s.lives[b].calls[j].key
  {
    if a == b {
      KeysOfOneExecution(s, gateways, a, i, j);
    } else {
      KeysOfTwoExecutions(s, gateways, a, i, b, j);
    }
  }
}
