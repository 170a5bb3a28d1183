/** `evaluate_effects`: measured network quality turned into states of the
    subsystems that depend on it. */
module Effects {
  import opened Wrappers
  import opened Models

  datatype Metric = Metric(
    source: string, target: string, connected: bool, latencyMs: real, lossRate: real, throughputBps: real)

  datatype Reason = NoNetworkMetric | Disconnected | DelayExceeded | LossExceeded | ThroughputBelowMinimum

  datatype Thresholds = Thresholds(
    maxDelayMs: real, maxLossRate: real, minThroughputBps: real, violationState: string)

  datatype Effect = Effect(
    entityId: string, businessNodeId: string, subsystemId: string, subsystemType: string, peer: string,
    state: string, reasons: seq<Reason>, thresholds: Thresholds)

  const AVAILABLE := "AVAILABLE"
  const BLOCKED := "BLOCKED"

  /** `by_direction`: the last metric of each direction. */
  function LastOf(metrics: seq<Metric>, source: string, target: string): Option<Metric>
    decreases |metrics|
  {
    if metrics == [] then None
    else
      var last := metrics[|metrics| - 1];
      if last.source == source && last.target == target then Some(last)
      else LastOf(metrics[..|metrics| - 1], source, target)
  }

  function Violations(policy: Policy, metric: Metric): seq<Reason> {
    (if metric.latencyMs > policy.maxDelayMs then [DelayExceeded] else [])
    + (if metric.lossRate > policy.maxLossRate then [LossExceeded] else [])
    + (if metric.throughputBps < policy.minThroughputBps then [ThroughputBelowMinimum] else [])
  }

  function Judged(policy: Policy, metric: Option<Metric>): (string, seq<Reason>) {
    if metric.None? then (BLOCKED, [NoNetworkMetric])
    else if !metric.value.connected then (BLOCKED, [Disconnected])
    else
      var reasons := Violations(policy, metric.value);
      (if reasons == [] then AVAILABLE else policy.violationState, reasons)
  }

  function ThresholdsOf(policy: Policy): Thresholds {
    Thresholds(policy.maxDelayMs, policy.maxLossRate, policy.minThroughputBps, policy.violationState)
  }

  function EffectOf(entity: Entity, policy: Policy, metrics: seq<Metric>): Effect {
    var (state, reasons) := Judged(policy, LastOf(metrics, entity.entityId, policy.peer));
    Effect(entity.entityId, entity.businessNodeId, policy.subsystemId, policy.subsystemType, policy.peer, state,
           reasons, ThresholdsOf(policy))
  }

  function EffectsOfEntity(entity: Entity, policies: seq<Policy>, metrics: seq<Metric>): (effects: seq<Effect>)
    ensures |effects| == |policies|
    ensures forall i :: 0 <= i < |policies| ==> effects[i] == EffectOf(entity, policies[i], metrics)
  {
    seq(|policies|, i requires 0 <= i < |policies| => EffectOf(entity, policies[i], metrics))
  }

  function EffectsOf(entities: seq<Entity>, metrics: seq<Metric>): seq<Effect>
    decreases |entities|
  {
    if entities == [] then []
    else
      var last := entities[|entities| - 1];
      EffectsOf(entities[..|entities| - 1], metrics) + EffectsOfEntity(last, last.policies, metrics)
  }

  /** The dictionary comprehension over the metrics. */
  method ByDirection(metrics: seq<Metric>) returns (byDirection: map<(string, string), Metric>)
    ensures forall source, target :: (source, target) in byDirection <==> LastOf(metrics, source, target).Some?
    ensures forall source, target :: (source, target) in byDirection ==>
      byDirection[(source, target)] == LastOf(metrics, source, target).value
  {
    byDirection := map[];
    for i := 0 to |metrics|
      invariant forall source, target :: (source, target) in byDirection <==> LastOf(metrics[..i], source, target).Some?
      invariant forall source, target :: (source, target) in byDirection ==>
        byDirection[(source, target)] == LastOf(metrics[..i], source, target).value
    {
      assert metrics[..i + 1][..i] == metrics[..i];
      byDirection := byDirection[(metrics[i].source, metrics[i].target) := metrics[i]];
    }
    assert metrics[..|metrics|] == metrics;
  }

  method EvaluateEffects(entities: seq<Entity>, metrics: seq<Metric>) returns (effects: seq<Effect>)
    ensures effects == EffectsOf(entities, metrics)
  {
    hide LastOf, Violations;
    var byDirection := ByDirection(metrics);
    effects := [];
    assert entities[..0] == [];
    for i := 0 to |entities|
      invariant effects == EffectsOf(entities[..i], metrics)
    {
      var entity := entities[i];
      ghost var before := effects;
      for j := 0 to |entity.policies|
        invariant effects == before + EffectsOfEntity(entity, entity.policies[..j], metrics)
      {
        var policy := entity.policies[j];
        var reasons: seq<Reason>, state := [], AVAILABLE;
        if (entity.entityId, policy.peer) !in byDirection {
          state, reasons := BLOCKED, [NoNetworkMetric];
        } else {
          var metric := byDirection[(entity.entityId, policy.peer)];
          if !metric.connected {
            state, reasons := BLOCKED, [Disconnected];
          } else {
            reasons := Reasons(policy, metric);
            if reasons != [] {
              state := policy.violationState;
            }
          }
        }
        var thresholds := Thresholds(
          policy.maxDelayMs, policy.maxLossRate, policy.minThroughputBps, policy.violationState);
        var effect := Effect(entity.entityId, entity.businessNodeId, policy.subsystemId, policy.subsystemType,
                             policy.peer, state, reasons, thresholds);
        assert effect == EffectOf(entity, policy, metrics);
        assert EffectsOfEntity(entity, entity.policies[..j + 1], metrics)
            == EffectsOfEntity(entity, entity.policies[..j], metrics) + [effect];
        effects := effects + [effect];
      }
      assert entity.policies[..|entity.policies|] == entity.policies;
      assert entities[..i + 1][..i] == entities[..i];
    }
    assert entities[..|entities|] == entities;
  }

  method Reasons(policy: Policy, metric: Metric) returns (reasons: seq<Reason>)
    ensures reasons == Violations(policy, metric)
  {
    reasons := [];
    if metric.latencyMs > policy.maxDelayMs {
      reasons := reasons + [DelayExceeded];
    }
    if metric.lossRate > policy.maxLossRate {
      reasons := reasons + [LossExceeded];
    }
    if metric.throughputBps < policy.minThroughputBps {
      reasons := reasons + [ThroughputBelowMinimum];
    }
  }

  // ----- What the effects mean -------------------------------------------------------------

  /** What validation allows as a violation state. */
  predicate Violating(policy: Policy) {
    policy.violationState == "DEGRADED" || policy.violationState == BLOCKED
  }

  /** Index `i` holds the last measurement from `source` to `target`. */
  ghost predicate LastAt(metrics: seq<Metric>, source: string, target: string, i: nat) {
    && i < |metrics| && metrics[i].source == source && metrics[i].target == target
    && forall j :: i < j < |metrics| ==> !(metrics[j].source == source && metrics[j].target == target)
  }

  lemma {:induction false} LastOfIsLast(metrics: seq<Metric>, source: string, target: string)
    ensures forall i: nat :: LastAt(metrics, source, target, i) ==> LastOf(metrics, source, target) == Some(metrics[i])
    ensures LastOf(metrics, source, target).Some? ==> exists i: nat :: LastAt(metrics, source, target, i)
    decreases |metrics|
  {
    var n := |metrics|;
    if n > 0 {
      var front := metrics[..n - 1];
      LastOfIsLast(front, source, target);
      if metrics[n - 1].source == source && metrics[n - 1].target == target {
        assert LastAt(metrics, source, target, n - 1);
      } else {
        forall i: nat ensures LastAt(metrics, source, target, i) <==> LastAt(front, source, target, i) {
        }
      }
    }
  }

  /** The last measurement from the entity to the peer decides about the policy:
      the subsystem is available exactly when that measurement meets the policy,
      and every broken limit is a reason and nothing else is. */
  lemma AvailableMeans(entity: Entity, policy: Policy, metrics: seq<Metric>, i: nat)
    requires Violating(policy)
    requires i < |metrics| && metrics[i].source == entity.entityId && metrics[i].target == policy.peer
    requires forall j :: i < j < |metrics| ==>
      !(metrics[j].source == entity.entityId && metrics[j].target == policy.peer)
    ensures var effect, metric := EffectOf(entity, policy, metrics), metrics[i];
      && (effect.state == "AVAILABLE" <==>
            && metric.connected && metric.latencyMs <= policy.maxDelayMs && metric.lossRate <= policy.maxLossRate
            && policy.minThroughputBps <= metric.throughputBps)
      && (effect.reasons == [] <==> effect.state == "AVAILABLE")
      && (!metric.connected ==> effect.state == "BLOCKED" && effect.reasons == [Disconnected])
      && (metric.connected && effect.reasons != [] ==> effect.state == policy.violationState)
      && (metric.connected ==>
            && (DelayExceeded in effect.reasons <==> policy.maxDelayMs < metric.latencyMs)
            && (LossExceeded in effect.reasons <==> policy.maxLossRate < metric.lossRate)
            && (ThroughputBelowMinimum in effect.reasons <==> metric.throughputBps < policy.minThroughputBps)
            && Disconnected !in effect.reasons && NoNetworkMetric !in effect.reasons)
  {
    hide LastOf;
    assert LastAt(metrics, entity.entityId, policy.peer, i);
    LastOfIsLast(metrics, entity.entityId, policy.peer);
    assert AVAILABLE != "DEGRADED" && AVAILABLE != BLOCKED by {
      assert AVAILABLE[0] == 'A';
    }
  }

  /** Without a measurement from the entity to the peer the subsystem is blocked,
      whatever the policy says. */
  lemma BlockedWithoutMetric(entity: Entity, policy: Policy, metrics: seq<Metric>)
    requires forall i :: 0 <= i < |metrics| ==>
      !(metrics[i].source == entity.entityId && metrics[i].target == policy.peer)
    ensures var effect := EffectOf(entity, policy, metrics);
      effect.state == "BLOCKED" && effect.reasons == [NoNetworkMetric]
  {
    hide LastOf;
    LastOfIsLast(metrics, entity.entityId, policy.peer);
  }

  /** The effect carries the ids, types and thresholds of entity and policy. */
  lemma EffectCarries(entity: Entity, policy: Policy, metrics: seq<Metric>)
    ensures var effect := EffectOf(entity, policy, metrics);
      && effect.entityId == entity.entityId && effect.businessNodeId == entity.businessNodeId
      && effect.subsystemId == policy.subsystemId && effect.subsystemType == policy.subsystemType
      && effect.peer == policy.peer
      && effect.thresholds.maxDelayMs == policy.maxDelayMs && effect.thresholds.maxLossRate == policy.maxLossRate
      && effect.thresholds.minThroughputBps == policy.minThroughputBps
      && effect.thresholds.violationState == policy.violationState
  {
    hide LastOf, Judged;
  }

  /** How many policies the first `n` entities have. */
  function PoliciesBefore(entities: seq<Entity>, n: nat): nat
    requires n <= |entities|
  {
    if n == 0 then 0 else PoliciesBefore(entities, n - 1) + |entities[n - 1].policies|
  }

  lemma {:induction false} EffectsCount(entities: seq<Entity>, metrics: seq<Metric>)
    ensures |EffectsOf(entities, metrics)| == PoliciesBefore(entities, |entities|)
    decreases |entities|
  {
    hide EffectOf;
    var n := |entities|;
    if n > 0 {
      EffectsCount(entities[..n - 1], metrics);
      SamePoliciesBefore(entities[..n - 1], entities, n - 1);
    }
  }

  /** The effects come in the order of entities and policies, one for each. */
  lemma {:induction false} EffectsInOrder(entities: seq<Entity>, metrics: seq<Metric>, i: nat, j: nat)
    requires i < |entities| && j < |entities[i].policies|
    ensures |EffectsOf(entities, metrics)| == PoliciesBefore(entities, |entities|)
    ensures PoliciesBefore(entities, i) + j < |EffectsOf(entities, metrics)|
    ensures EffectsOf(entities, metrics)[PoliciesBefore(entities, i) + j]
         == EffectOf(entities[i], entities[i].policies[j], metrics)
    decreases |entities|
  {
    hide EffectOf;
    var n := |entities|;
    var front := entities[..n - 1];
    EffectsCount(entities, metrics);
    EffectsCount(front, metrics);
    SamePoliciesBefore(front, entities, i);
    if i < n - 1 {
      EffectsInOrder(front, metrics, i, j);
    }
  }

  lemma {:induction false} SamePoliciesBefore(front: seq<Entity>, entities: seq<Entity>, n: nat)
    requires n <= |front| && front <= entities
    ensures PoliciesBefore(front, n) == PoliciesBefore(entities, n)
  {
    if n > 0 {
      SamePoliciesBefore(front, entities, n - 1);
    }
  }

  /** Every policy of every entity is judged, and nothing else is. */
  lemma {:induction false} EveryPolicyIsJudged(entities: seq<Entity>, metrics: seq<Metric>, effect: Effect)
    ensures effect in EffectsOf(entities, metrics) <==>
      exists i, j :: 0 <= i < |entities| && 0 <= j < |entities[i].policies|
        && effect == EffectOf(entities[i], entities[i].policies[j], metrics)
    decreases |entities|
  {
    hide EffectOf;
    var n := |entities|;
    if n > 0 {
      var front, last := entities[..n - 1], entities[n - 1];
      EveryPolicyIsJudged(front, metrics, effect);
      var own := EffectsOfEntity(last, last.policies, metrics);
      if effect in own {
        var j :| 0 <= j < |own| && own[j] == effect;
        assert effect == EffectOf(entities[n - 1], entities[n - 1].policies[j], metrics);
      }
      if i, j :| 0 <= i < n - 1 && 0 <= j < |front[i].policies|
                 && effect == EffectOf(front[i], front[i].policies[j], metrics) {
        assert effect == EffectOf(entities[i], entities[i].policies[j], metrics);
      }
      if i, j :| 0 <= i < n && 0 <= j < |entities[i].policies|
                 && effect == EffectOf(entities[i], entities[i].policies[j], metrics) {
        if i == n - 1 {
          assert own[j] == effect;
        } else {
          assert effect == EffectOf(front[i], front[i].policies[j], metrics);
        }
      }
    }
  }

  predicate NoWorse(worse: Metric, better: Metric) {
    && (worse.connected ==> better.connected) && better.latencyMs <= worse.latencyMs
      && better.lossRate <= worse.lossRate
    && worse.throughputBps <= better.throughputBps
  }

  /** A better measurement of a direction never takes a subsystem away. */
  lemma BetterKeepsAvailable(
    entity: Entity, policy: Policy, before: seq<Metric>, i: nat, after: seq<Metric>, j: nat)
    requires Violating(policy)
    requires LastAt(before, entity.entityId, policy.peer, i) && LastAt(after, entity.entityId, policy.peer, j)
    requires EffectOf(entity, policy, before).state == AVAILABLE && NoWorse(before[i], after[j])
    ensures EffectOf(entity, policy, after).state == AVAILABLE
  {
    hide EffectOf, LastOf;
    AvailableMeans(entity, policy, before, i);
    AvailableMeans(entity, policy, after, j);
  }
}
