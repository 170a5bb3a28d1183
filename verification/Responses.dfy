/** The response that the service builds from a snapshot and its measurements
    (`engine.py`, `server.py`), and what the client's gates make of its text. */
module Responses {
  import opened Wrappers
  import opened Text
  import opened Json
  import opened Models
  import opened StateStore
  import opened StoreIntegrity
  import opened JsonText
  import opened JsonScanner
  import opened KeySearch
  import opened FieldReading
  import opened FieldNames
  import opened MetricsMessage
  import opened OrdinaryMessages
  import opened ScenarioText
  import opened ScenarioHandOff
  import E = Effects

  // ----- Building it ------------------------------------------------------------------------

  /** What the runner reports for one flow. */
  datatype Measurement = Measurement(
    connected: bool, latencyMs: real, lossRate: real, throughputBps: real, txPackets: nat, rxPackets: nat, up: bool)

  type Measured = map<nat, Measurement>

  const UNMEASURED := Measurement(false, 0.0, 1.0, 0.0, 0, 0, false)

  function UpText(up: bool): string {
    if up then "UP" else "DOWN"
  }

  function RecordOfLink(link: EngineLink): LinkRecord
    requires 0 <= link.dataRateBps
  {
    LinkRecord(link.linkId, link.source, link.target, link.kind, link.dataRateBps, link.delayMs, link.lossRate,
               UpText(link.up))
  }

  function RecordOfFlow(flow: Flow, values: Measurement): MetricRecord {
    MetricRecord(flow.flowId, flow.source, flow.target, values.connected, values.latencyMs, values.lossRate,
                 values.throughputBps, values.txPackets, values.rxPackets, UpText(values.up))
  }

  function ValuesOf(measured: Measured, index: nat): Measurement {
    if index in measured then measured[index] else UNMEASURED
  }

  function RecordsOfFlows(flows: seq<Flow>, measured: Measured): (records: seq<MetricRecord>)
    ensures |records| == |flows|
    ensures forall i :: 0 <= i < |flows| ==> records[i] == RecordOfFlow(flows[i], ValuesOf(measured, i))
  {
    seq(|flows|, i requires 0 <= i < |flows| => RecordOfFlow(flows[i], ValuesOf(measured, i)))
  }

  /** What is reported for a flow: the runner's values, or those of a flow that never
      got through if the runner has none. */
  lemma MetricsMean(flows: seq<Flow>, measured: Measured, i: nat)
    requires i < |flows|
    ensures i !in measured ==>
      RecordsOfFlows(flows, measured)[i]
      == MetricRecord(flows[i].flowId, flows[i].source, flows[i].target, false, 0.0, 1.0, 0.0, 0, 0, "DOWN")
    ensures i in measured ==>
      RecordsOfFlows(flows, measured)[i]
      == MetricRecord(flows[i].flowId, flows[i].source, flows[i].target, measured[i].connected, measured[i].latencyMs,
                      measured[i].lossRate, measured[i].throughputBps, measured[i].txPackets, measured[i].rxPackets,
                      if measured[i].up then "UP" else "DOWN")
  {
  }

  /** The loop over the flows; a flow without a result counts as disconnected. */
  method BuildMetrics(flows: seq<Flow>, measured: Measured) returns (metrics: seq<MetricRecord>)
    ensures metrics == RecordsOfFlows(flows, measured)
  {
    metrics := [];
    for index := 0 to |flows|
      invariant |metrics| == index
      invariant forall i :: 0 <= i < index ==> metrics[i] == RecordOfFlow(flows[i], ValuesOf(measured, i))
    {
      var values := if index in measured then measured[index] else UNMEASURED;
      metrics := metrics + [RecordOfFlow(flows[index], values)];
    }
  }

  function RecordsOfLinks(links: seq<EngineLink>): (records: seq<LinkRecord>)
    requires forall i :: 0 <= i < |links| ==> 0 <= links[i].dataRateBps
    ensures |records| == |links|
    ensures forall i :: 0 <= i < |links| ==> records[i] == RecordOfLink(links[i])
  {
    seq(|links|, i requires 0 <= i < |links| && 0 <= links[i].dataRateBps => RecordOfLink(links[i]))
  }

  /** What `evaluate_effects` reads of a metric. */
  function JudgedMetric(metric: MetricRecord): E.Metric {
    E.Metric(metric.source, metric.target, metric.connected, metric.latencyMs, metric.lossRate, metric.throughputBps)
  }

  function JudgedMetrics(metrics: seq<MetricRecord>): (judged: seq<E.Metric>)
    ensures |judged| == |metrics|
    ensures forall i :: 0 <= i < |metrics| ==> judged[i] == JudgedMetric(metrics[i])
  {
    seq(|metrics|, i requires 0 <= i < |metrics| => JudgedMetric(metrics[i]))
  }

  function ReasonText(reason: E.Reason): string {
    match reason
    case NoNetworkMetric => "NO_NETWORK_METRIC"
    case Disconnected => "DISCONNECTED"
    case DelayExceeded => "DELAY_EXCEEDED"
    case LossExceeded => "LOSS_EXCEEDED"
    case ThroughputBelowMinimum => "THROUGHPUT_BELOW_MINIMUM"
  }

  function ReasonTrees(reasons: seq<E.Reason>): (trees: seq<Tree>)
    ensures |trees| == |reasons|
    ensures forall i :: 0 <= i < |reasons| ==> trees[i] == Text(ReasonText(reasons[i]))
  {
    seq(|reasons|, i requires 0 <= i < |reasons| => Text(ReasonText(reasons[i])))
  }

  function ThresholdsTree(thresholds: E.Thresholds, number: real -> string): Tree {
    Object([
      Member("max_delay_ms", Literal(number(thresholds.maxDelayMs))),
      Member("max_loss_rate", Literal(number(thresholds.maxLossRate))),
      Member("min_throughput_bps", Literal(number(thresholds.minThroughputBps))),
      Member("violation_state", Text(thresholds.violationState))])
  }

  /** The states that an effect can have. */
  predicate KnownState(effect: E.Effect) {
    ParseState(effect.state).Some?
  }

  function RecordOfEffect(effect: E.Effect, number: real -> string): (record: EffectRecord)
    requires KnownState(effect)
    ensures StateText(record.state) == effect.state
  {
    EffectRecord(effect.entityId, effect.businessNodeId, effect.subsystemId, effect.subsystemType, effect.peer,
                 ParseState(effect.state).value, ReasonTrees(effect.reasons), ThresholdsTree(effect.thresholds, number))
  }

  ghost predicate KnownStates(effects: seq<E.Effect>) {
    forall i :: 0 <= i < |effects| ==> KnownState(effects[i])
  }

  function RecordsOfEffects(effects: seq<E.Effect>, number: real -> string): (records: seq<EffectRecord>)
    requires KnownStates(effects)
    ensures |records| == |effects|
    ensures forall i :: 0 <= i < |effects| ==> records[i] == RecordOfEffect(effects[i], number)
  {
    seq(|effects|, i requires 0 <= i < |effects| && KnownStates(effects) => RecordOfEffect(effects[i], number))
  }

  const MAPPING_NAMES: seq<string> := ["entity_id", "business_node_id", "ns3_node_id"]

  function MappingTree(node: NodeRecord): Tree {
    Object(Members(MAPPING_NAMES, [Text(node.entityId), Text(node.businessNodeId), Literal(Decimal(node.ns3NodeId))]))
  }

  function MappingTrees(nodes: seq<NodeRecord>): (trees: seq<Tree>)
    ensures |trees| == |nodes|
    ensures forall i :: 0 <= i < |nodes| ==> trees[i] == MappingTree(nodes[i])
  {
    seq(|nodes|, i requires 0 <= i < |nodes| => MappingTree(nodes[i]))
  }

  /** The entity is an end of a link that is up. */
  predicate InUpLink(links: seq<EngineLink>, id: string) {
    exists i :: 0 <= i < |links| && links[i].up && (links[i].source == id || links[i].target == id)
  }

  function NodesOfSnapshot(entities: seq<Entity>, links: seq<EngineLink>): (nodes: seq<NodeRecord>)
    ensures |nodes| == |entities|
    ensures forall i :: 0 <= i < |entities| ==>
      nodes[i].entityId == entities[i].entityId && nodes[i].businessNodeId == entities[i].businessNodeId
  {
    seq(|entities|, i requires 0 <= i < |entities| =>
      var entity := entities[i];
      NodeRecord(entity.entityId, entity.businessNodeId,
                 if NodeIndex(entities, entity.entityId).Some? then IndexOf(entities, entity.entityId) else 0,
                 entity.alive, entity.alive && InUpLink(links, entity.entityId)))
  }

  const QUEUE_NAMES: seq<string> := ["pending", "latest_pending_revision"]

  /** What the response says of the waiting job. */
  function QueueTree(pending: Option<nat>): Tree {
    Object(Members(QUEUE_NAMES, [
      Literal(BooleanText(pending.Some?)),
      if pending.Some? then Literal(Decimal(pending.value)) else Literal("null")]))
  }

  const STATUS_NAMES: seq<string> := ["code", "message"]

  const STATUS := Object(Members(STATUS_NAMES, [Literal("0"), Text("ok")]))

  /** What validation has checked of the words of a snapshot. */
  predicate KnownEntity(entity: Entity) {
    && (forall i :: 0 <= i < |entity.devices| ==> KnownKind(entity.devices[i]))
    && (forall i :: 0 <= i < |entity.policies| ==> KnownPolicy(entity.policies[i]))
  }

  predicate KnownKind(device: Device) {
    device.kind == "wired" || device.kind == "wireless"
  }

  predicate KnownPolicy(policy: Policy) {
    E.Violating(policy) && (policy.subsystemType == "weapon" || policy.subsystemType == "radar")
  }

  /** A snapshot as the compute loop gets it. */
  ghost predicate Buildable(snapshot: StateSnapshot) {
    && Closed(snapshot) && Ranged(snapshot) && 0 <= snapshot.timestampMs
    && forall i :: 0 <= i < |snapshot.entities| ==> KnownEntity(snapshot.entities[i])
  }

  lemma ValidEntityIsKnown(raw: Dict)
    requires ValidEntity(raw)
    ensures KnownEntity(EntityOf(raw))
  {
    var devices, policies := GetList(raw, Name.Devices).items, GetList(raw, Name.EffectPolicies).items;
    hide Strip, Lower, Upper;
    forall i | 0 <= i < |devices| ensures KnownKind(DeviceOf(devices[i])) {
      assert ValidDevice(devices[i]);
    }
    forall i | 0 <= i < |policies| ensures KnownPolicy(PolicyOf(policies[i])) {
      assert ValidPolicy(policies[i]);
    }
  }

  /** Every snapshot of a consistent store with a time is one. */
  lemma SnapshotIsBuildable(store: Store)
    requires Consistent(store) && store.initialized && 0 <= store.timestampMs
    ensures Snapshot(store).Some? && Buildable(Snapshot(store).value)
  {
    hide Consistent, Closed, Ranged, SortedKeys, ValidEntity, ValidFlow, EntityOf, FlowOf, KnownEntity;
    SnapshotIsRanged(store);
    var snapshot := Snapshot(store).value;
    forall i | 0 <= i < |snapshot.entities| ensures KnownEntity(snapshot.entities[i]) {
      ValidEntityIsKnown(store.entities[SortedKeys(store.entities.Keys)[i]]);
    }
  }

  // ----- The effects of a snapshot ----------------------------------------------------------

  lemma EffectIsKnown(entity: Entity, policy: Policy, metrics: seq<E.Metric>)
    requires KnownPolicy(policy)
    ensures KnownState(E.EffectOf(entity, policy, metrics))
  {
    hide E.LastOf;
  }

  /** Every effect is that of some policy of some entity. */
  ghost predicate OfPolicy(effect: E.Effect, entities: seq<Entity>, i: nat, j: nat, metrics: seq<E.Metric>) {
    && i < |entities| && j < |entities[i].policies|
    && effect == E.EffectOf(entities[i], entities[i].policies[j], metrics)
  }

  lemma EffectsAreOfPolicies(entities: seq<Entity>, metrics: seq<E.Metric>, k: nat)
    requires k < |E.EffectsOf(entities, metrics)|
    ensures exists i: nat, j: nat :: OfPolicy(E.EffectsOf(entities, metrics)[k], entities, i, j, metrics)
  {
    hide E.EffectsOf, E.EffectOf;
    var effect := E.EffectsOf(entities, metrics)[k];
    E.EveryPolicyIsJudged(entities, metrics, effect);
    assert effect in E.EffectsOf(entities, metrics);
    var i, j :| 0 <= i < |entities| && 0 <= j < |entities[i].policies|
      && effect == E.EffectOf(entities[i], entities[i].policies[j], metrics);
    assert OfPolicy(effect, entities, i, j, metrics);
  }

  lemma EffectsAreKnown(snapshot: StateSnapshot, metrics: seq<E.Metric>)
    requires Buildable(snapshot)
    ensures KnownStates(E.EffectsOf(snapshot.entities, metrics))
  {
    hide E.EffectsOf, E.EffectOf, KnownState, Closed, Ranged, KnownPolicy;
    var effects := E.EffectsOf(snapshot.entities, metrics);
    forall k | 0 <= k < |effects| ensures KnownState(effects[k]) {
      EffectsAreOfPolicies(snapshot.entities, metrics, k);
      var i: nat, j: nat :| OfPolicy(effects[k], snapshot.entities, i, j, metrics);
      EffectIsKnown(snapshot.entities[i], snapshot.entities[i].policies[j], metrics);
    }
  }

  // ----- The response ------------------------------------------------------------------------

  function LinksOfSnapshot(snapshot: StateSnapshot): seq<EngineLink> {
    LinksOf(snapshot.entities, snapshot.entities)
  }

  lemma LinksHaveRates(snapshot: StateSnapshot)
    requires Buildable(snapshot)
    ensures forall i :: 0 <= i < |LinksOfSnapshot(snapshot)| ==> 0 <= LinksOfSnapshot(snapshot)[i].dataRateBps
  {
    hide LinksOf, KnownEntity, Closed, Ranged, Indexed, RangedFlow;
    BatchIsSound(snapshot);
  }

  /** `compute`'s result and the response around it. */
  function ResponseOf(
    snapshot: StateSnapshot, requestId: string, measured: Measured, computeMs: real, pending: Option<nat>,
    number: real -> string): Response
    requires Buildable(snapshot)
  {
    LinksHaveRates(snapshot);
    var links := LinksOfSnapshot(snapshot);
    var metrics := RecordsOfFlows(snapshot.flows, measured);
    EffectsAreKnown(snapshot, JudgedMetrics(metrics));
    var nodes := NodesOfSnapshot(snapshot.entities, links);
    Response(STATUS, requestId, snapshot.timestampMs, snapshot.revision, Array(MappingTrees(nodes)),
             Array(NodeTrees(nodes)), RecordsOfLinks(links), metrics, Literal(number(computeMs)), QueueTree(pending),
             RecordsOfEffects(E.EffectsOf(snapshot.entities, JudgedMetrics(metrics)), number))
  }

  // ----- Its strings ---------------------------------------------------------------------------

  ghost predicate OrdinaryEntity(entity: Entity) {
    && Ordinary(entity.entityId) && Ordinary(entity.businessNodeId)
    && (forall i :: 0 <= i < |entity.devices| ==>
          Ordinary(entity.devices[i].deviceId) && Ordinary(entity.devices[i].peer))
    && (forall i :: 0 <= i < |entity.policies| ==>
          Ordinary(entity.policies[i].subsystemId) && Ordinary(entity.policies[i].peer))
  }

  /** No name in the snapshot is, or ends with a quote and, a name that the client
      looks up. */
  ghost predicate OrdinarySnapshot(snapshot: StateSnapshot) {
    && (forall i :: 0 <= i < |snapshot.entities| ==> OrdinaryEntity(snapshot.entities[i]))
    && (forall i :: 0 <= i < |snapshot.flows| ==>
          && Ordinary(snapshot.flows[i].flowId)
          && Ordinary(snapshot.flows[i].source) && Ordinary(snapshot.flows[i].target))
  }

  lemma NoQuoteIsOrdinary(s: string)
    requires QUOTE !in s && forall key :: LookedUp(key) ==> s != key
    ensures Ordinary(s)
  {
    hide LookedUp;
    forall key | LookedUp(key) ensures !EndsInQuoteAndKey(s, key) {
      if |key| + 1 <= |s| {
        assert s[|s| - |key| - 1] in s && ([QUOTE] + key)[0] == QUOTE;
        assert s[|s| - |key| - 1..][0] == s[|s| - |key| - 1];
      }
    }
  }

  lemma LookedUpShapes(key: string)
    requires LookedUp(key)
    ensures |key| !in {2, 4, 6}
    ensures |key| == 5 ==> key[0] == 'l' || key[0] == 's'
    ensures |key| == 8 ==> key[0] == 'r' || key[0] == 'd'
  {
  }

  lemma WordsAreOrdinary()
    ensures Ordinary("UP") && Ordinary("DOWN") && Ordinary("ok")
    ensures Ordinary("wired") && Ordinary("wireless") && Ordinary("weapon") && Ordinary("radar")
  {
    hide LookedUp, Ordinary;
    forall key | LookedUp(key)
      ensures key !in {"UP", "DOWN", "ok", "wired", "wireless", "weapon", "radar"}
    {
      LookedUpShapes(key);
    }
    NoQuoteIsOrdinary("UP");
    NoQuoteIsOrdinary("DOWN");
    NoQuoteIsOrdinary("ok");
    NoQuoteIsOrdinary("wired");
    NoQuoteIsOrdinary("wireless");
    NoQuoteIsOrdinary("weapon");
    NoQuoteIsOrdinary("radar");
  }

  lemma LinkIsOrdinary(all: seq<Entity>, entity: Entity, i: nat)
    requires i < |entity.devices| && OrdinaryEntity(entity) && KnownEntity(entity) && RangedEntity(entity)
    ensures OrdinaryLink(RecordOfLink(LinkOf(all, entity, entity.devices[i])))
  {
    hide Ordinary, IsAlive;
    var device := entity.devices[i];
    OrdinaryAfter(entity.entityId, ':', device.deviceId);
    assert entity.entityId + [':'] + device.deviceId == entity.entityId + ":" + device.deviceId;
    WordsAreOrdinary();
    assert RangedDevice(device);
  }

  lemma {:induction false} LinksAreOrdinary(all: seq<Entity>, entities: seq<Entity>)
    requires forall i :: 0 <= i < |entities| ==>
      OrdinaryEntity(entities[i]) && KnownEntity(entities[i]) && RangedEntity(entities[i])
    ensures forall i :: 0 <= i < |LinksOf(all, entities)| ==>
      0 <= LinksOf(all, entities)[i].dataRateBps && OrdinaryLink(RecordOfLink(LinksOf(all, entities)[i]))
    decreases |entities|
  {
    hide OrdinaryEntity, KnownEntity, RangedEntity, OrdinaryLink, RecordOfLink, LinkOf;
    var n := |entities|;
    if n > 0 {
      LinksAreOrdinary(all, entities[..n - 1]);
      var last := entities[n - 1];
      forall i | 0 <= i < |last.devices|
        ensures 0 <= LinkOf(all, last, last.devices[i]).dataRateBps
        ensures OrdinaryLink(RecordOfLink(LinkOf(all, last, last.devices[i])))
      {
        LinkRateIsDevices(all, last, i);
        LinkIsOrdinary(all, last, i);
      }
      assert LinksOf(all, entities) == LinksOf(all, entities[..n - 1]) + LinksOfEntity(all, last, last.devices);
    }
  }

  lemma LinkRateIsDevices(all: seq<Entity>, entity: Entity, i: nat)
    requires i < |entity.devices| && RangedEntity(entity)
    ensures 0 <= LinkOf(all, entity, entity.devices[i]).dataRateBps
  {
    hide IsAlive;
    assert RangedDevice(entity.devices[i]);
  }

  lemma MetricsAreOrdinary(snapshot: StateSnapshot, measured: Measured)
    requires OrdinarySnapshot(snapshot)
    ensures forall i :: 0 <= i < |snapshot.flows| ==>
      OrdinaryMetric(RecordsOfFlows(snapshot.flows, measured)[i])
  {
    hide Ordinary, OrdinaryEntity;
    WordsAreOrdinary();
  }

  lemma EffectsAreOrdinary(snapshot: StateSnapshot, metrics: seq<E.Metric>, number: real -> string)
    requires Buildable(snapshot) && OrdinarySnapshot(snapshot)
    requires KnownStates(E.EffectsOf(snapshot.entities, metrics))
    ensures var records := RecordsOfEffects(E.EffectsOf(snapshot.entities, metrics), number);
      forall k :: 0 <= k < |records| ==> OrdinaryEffect(records[k])
  {
    hide Ordinary, E.EffectsOf, E.LastOf, E.Judged, KnownState, Closed, Ranged;
    WordsAreOrdinary();
    var effects := E.EffectsOf(snapshot.entities, metrics);
    forall k | 0 <= k < |effects| ensures OrdinaryEffect(RecordOfEffect(effects[k], number)) {
      EffectsAreOfPolicies(snapshot.entities, metrics, k);
      var i: nat, j: nat :| OfPolicy(effects[k], snapshot.entities, i, j, metrics);
      assert OrdinaryEntity(snapshot.entities[i]) && KnownEntity(snapshot.entities[i]);
      assert KnownPolicy(snapshot.entities[i].policies[j]);
    }
  }

  lemma SmallNamesArePlain()
    ensures Plain(STATUS_NAMES) && Plain(QUEUE_NAMES)
  {
  }

  lemma MappingNamesArePlain()
    ensures Plain(MAPPING_NAMES)
  {
    hide PlainKey;
    NodeNamesArePlain();
    assert PlainKey(NODE_NAMES[0]) && PlainKey(NODE_NAMES[1]) && PlainKey(NODE_NAMES[2]);
  }

  lemma SmallNamesAreOthers(i: nat)
    requires i in MESSAGE_LOOKUPS
    ensures i < |MESSAGE_NAMES|
    ensures MESSAGE_NAMES[i] !in STATUS_NAMES && MESSAGE_NAMES[i] !in QUEUE_NAMES && MESSAGE_NAMES[i] !in MAPPING_NAMES
  {
  }

  lemma StatusIsOrdinary()
    ensures OrdinaryTree(STATUS) && Proper(STATUS)
  {
    hide Ordinary, LookedUp, PlainKey, CleanString;
    SmallNamesArePlain();
    WordsAreOrdinary();
    var values := [Literal("0"), Text("ok")];
    assert Proper(values[0]) && Proper(values[1]);
    MembersProper(STATUS_NAMES, values);
    forall i | i in MESSAGE_LOOKUPS && 0 <= i < |MESSAGE_NAMES| ensures Clean(STATUS, MESSAGE_NAMES[i]) {
      SmallNamesAreOthers(i);
      MessageLookup(i);
      OrdinaryText("ok", MESSAGE_NAMES[i]);
      MembersClean(STATUS_NAMES, values, MESSAGE_NAMES[i]);
    }
  }

  lemma QueueIsOrdinary(pending: Option<nat>)
    ensures OrdinaryTree(QueueTree(pending)) && Proper(QueueTree(pending))
  {
    hide Ordinary, LookedUp, PlainKey, CleanString, Decimal;
    SmallNamesArePlain();
    var values := [
      Literal(BooleanText(pending.Some?)), if pending.Some? then Literal(Decimal(pending.value)) else Literal("null")];
    if pending.Some? {
      DecimalIsNumber(pending.value);
    }
    assert Proper(values[0]) && Proper(values[1]);
    MembersProper(QUEUE_NAMES, values);
    forall i | i in MESSAGE_LOOKUPS && 0 <= i < |MESSAGE_NAMES| ensures Clean(QueueTree(pending), MESSAGE_NAMES[i]) {
      SmallNamesAreOthers(i);
      MembersClean(QUEUE_NAMES, values, MESSAGE_NAMES[i]);
    }
  }

  lemma MappingsAreOrdinary(nodes: seq<NodeRecord>)
    requires forall i :: 0 <= i < |nodes| ==> Ordinary(nodes[i].entityId) && Ordinary(nodes[i].businessNodeId)
    ensures OrdinaryTree(Array(MappingTrees(nodes))) && Proper(Array(MappingTrees(nodes)))
  {
    hide Ordinary, LookedUp, PlainKey, CleanString, Decimal;
    MappingNamesArePlain();
    forall k | 0 <= k < |nodes| ensures Proper(MappingTree(nodes[k])) {
      DecimalIsNumber(nodes[k].ns3NodeId);
      MembersProper(MAPPING_NAMES,
        [Text(nodes[k].entityId), Text(nodes[k].businessNodeId), Literal(Decimal(nodes[k].ns3NodeId))]);
    }
    forall i, k | i in MESSAGE_LOOKUPS && 0 <= i < |MESSAGE_NAMES| && 0 <= k < |nodes|
      ensures Clean(MappingTree(nodes[k]), MESSAGE_NAMES[i])
    {
      SmallNamesAreOthers(i);
      MessageLookup(i);
      OrdinaryText(nodes[k].entityId, MESSAGE_NAMES[i]);
      OrdinaryText(nodes[k].businessNodeId, MESSAGE_NAMES[i]);
      MembersClean(MAPPING_NAMES,
        [Text(nodes[k].entityId), Text(nodes[k].businessNodeId), Literal(Decimal(nodes[k].ns3NodeId))],
        MESSAGE_NAMES[i]);
    }
  }

  lemma BooleanIsLiteral(b: bool)
    ensures IsLiteralText(BooleanText(b))
  {
  }

  lemma NodesAreProper(nodes: seq<NodeRecord>)
    ensures Proper(Array(NodeTrees(nodes)))
  {
    hide Decimal, BooleanText, IsLiteralText, IsNumberText, Members;
    forall k | 0 <= k < |nodes| ensures Proper(NodeTree(nodes[k])) {
      DecimalIsNumber(nodes[k].ns3NodeId);
      NumberIsLiteral(Decimal(nodes[k].ns3NodeId));
      BooleanIsLiteral(nodes[k].alive);
      BooleanIsLiteral(nodes[k].connected);
      MembersProper(NODE_NAMES, NodeValues(nodes[k]));
    }
  }

  // ----- Read back -------------------------------------------------------------------------------

  /** The strings that the client reads have no control characters but the five
      with a short escape. */
  ghost predicate ReadableSnapshot(snapshot: StateSnapshot) {
    && (forall i :: 0 <= i < |snapshot.entities| ==> ReadableEntity(snapshot.entities[i]))
    && (forall i :: 0 <= i < |snapshot.flows| ==>
          Readable(snapshot.flows[i].source) && Readable(snapshot.flows[i].target))
  }

  ghost predicate ReadableEntity(entity: Entity) {
    && Readable(entity.entityId)
    && (forall i :: 0 <= i < |entity.devices| ==> Readable(entity.devices[i].peer))
    && (forall i :: 0 <= i < |entity.policies| ==>
          Readable(entity.policies[i].subsystemId) && Readable(entity.policies[i].peer))
  }

  /** Numbers are written as numbers. */
  ghost predicate WritesNumbers(number: real -> string) {
    forall r :: IsNumberText(number(r))
  }

  /** The delays, losses and latencies of the response are read back exactly. */
  ghost predicate ExactNumbers(
    snapshot: StateSnapshot, measured: Measured, number: real -> string, double: string -> Option<real>)
  {
    && (forall i :: 0 <= i < |snapshot.entities| ==> ExactDevices(snapshot.entities[i], number, double))
    && (forall i :: 0 <= i < |snapshot.flows| ==> ExactNumber(ValuesOf(measured, i).latencyMs, number, double))
  }

  ghost predicate ExactDevices(entity: Entity, number: real -> string, double: string -> Option<real>) {
    forall i :: 0 <= i < |entity.devices| ==>
      && ExactNumber(entity.devices[i].delayMs, number, double)
      && ExactNumber(entity.devices[i].lossRate, number, double)
  }

  ghost predicate ExactNumber(r: real, number: real -> string, double: string -> Option<real>) {
    double(number(r)) == Some(r)
  }

  lemma StatesAreReadable()
    ensures Readable("UP") && Readable("DOWN")
  {
    ReadableMeans("UP");
    ReadableMeans("DOWN");
  }

  lemma TypesAreReadable()
    ensures Readable("weapon") && Readable("radar")
  {
    ReadableMeans("weapon");
    ReadableMeans("radar");
  }

  lemma {:induction false} LinksAreWritable(
    all: seq<Entity>, entities: seq<Entity>, number: real -> string, double: string -> Option<real>)
    requires WritesNumbers(number)
    requires forall i :: 0 <= i < |entities| ==>
      ReadableEntity(entities[i]) && RangedEntity(entities[i]) && ExactDevices(entities[i], number, double)
    ensures forall i :: 0 <= i < |LinksOf(all, entities)| ==>
      && 0 <= LinksOf(all, entities)[i].dataRateBps
      && WritableLink(RecordOfLink(LinksOf(all, entities)[i]), number, double)
    decreases |entities|
  {
    hide ReadableEntity, RangedEntity, ExactDevices, WritableLink, RecordOfLink, LinkOf, WritesNumbers;
    var n := |entities|;
    if n > 0 {
      LinksAreWritable(all, entities[..n - 1], number, double);
      var last := entities[n - 1];
      forall i | 0 <= i < |last.devices|
        ensures 0 <= LinkOf(all, last, last.devices[i]).dataRateBps
        ensures WritableLink(RecordOfLink(LinkOf(all, last, last.devices[i])), number, double)
      {
        LinkRateIsDevices(all, last, i);
        LinkIsWritable(all, last, i, number, double);
      }
      assert LinksOf(all, entities) == LinksOf(all, entities[..n - 1]) + LinksOfEntity(all, last, last.devices);
    }
  }

  lemma LinkIsWritable(
    all: seq<Entity>, entity: Entity, i: nat, number: real -> string, double: string -> Option<real>)
    requires i < |entity.devices| && WritesNumbers(number)
    requires ReadableEntity(entity) && RangedEntity(entity) && ExactDevices(entity, number, double)
    ensures 0 <= LinkOf(all, entity, entity.devices[i]).dataRateBps
    ensures WritableLink(RecordOfLink(LinkOf(all, entity, entity.devices[i])), number, double)
  {
    hide IsAlive, Readable, IsNumberText;
    StatesAreReadable();
    assert RangedDevice(entity.devices[i]);
    assert IsNumberText(number(entity.devices[i].delayMs)) && IsNumberText(number(entity.devices[i].lossRate));
  }

  lemma MetricsAreWritable(
    snapshot: StateSnapshot, measured: Measured, number: real -> string, double: string -> Option<real>)
    requires WritesNumbers(number) && ReadableSnapshot(snapshot) && ExactNumbers(snapshot, measured, number, double)
    ensures forall i :: 0 <= i < |snapshot.flows| ==>
      WritableMetric(RecordsOfFlows(snapshot.flows, measured)[i], number, double)
  {
    hide Readable, ReadableEntity, IsNumberText, ExactDevices, ValuesOf;
    StatesAreReadable();
    forall i | 0 <= i < |snapshot.flows|
      ensures WritableMetric(RecordOfFlow(snapshot.flows[i], ValuesOf(measured, i)), number, double)
    {
      var values := ValuesOf(measured, i);
      assert IsNumberText(number(values.latencyMs)) && IsNumberText(number(values.lossRate))
        && IsNumberText(number(values.throughputBps));
    }
  }

  lemma EffectIsWritable(
    effect: E.Effect, entity: Entity, policy: Policy, metrics: seq<E.Metric>, number: real -> string)
    requires effect == E.EffectOf(entity, policy, metrics) && KnownState(effect) && KnownPolicy(policy)
    requires WritesNumbers(number)
    requires Readable(entity.entityId) && Readable(policy.subsystemId) && Readable(policy.peer)
    ensures WritableEffect(RecordOfEffect(effect, number))
  {
    hide Readable, E.LastOf, E.Judged, KnownState, IsLiteralText, ReasonText;
    TypesAreReadable();
    NumberIsLiteral(number(policy.maxDelayMs));
    NumberIsLiteral(number(policy.maxLossRate));
    NumberIsLiteral(number(policy.minThroughputBps));
    var thresholds := ThresholdsTree(effect.thresholds, number);
    assert Proper(thresholds) by {
      ThresholdsAreProper(effect.thresholds, number);
    }
    assert Proper(Array(ReasonTrees(effect.reasons)));
  }

  lemma ThresholdsAreProper(thresholds: E.Thresholds, number: real -> string)
    requires IsNumberText(number(thresholds.maxDelayMs)) && IsNumberText(number(thresholds.maxLossRate))
    requires IsNumberText(number(thresholds.minThroughputBps))
    ensures Proper(ThresholdsTree(thresholds, number))
  {
    hide IsNumberText;
    NumberIsLiteral(number(thresholds.maxDelayMs));
    NumberIsLiteral(number(thresholds.maxLossRate));
    NumberIsLiteral(number(thresholds.minThroughputBps));
    hide IsLiteralText;
    var members := ThresholdsTree(thresholds, number).members;
    forall i | 0 <= i < |members| ensures Proper(members[i].value) {
    }
  }

  lemma NumberIsLiteral(text: string)
    requires IsNumberText(text)
    ensures IsLiteralText(text)
  {
  }

  lemma EffectsAreWritable(snapshot: StateSnapshot, metrics: seq<E.Metric>, number: real -> string)
    requires Buildable(snapshot) && ReadableSnapshot(snapshot) && WritesNumbers(number)
    requires KnownStates(E.EffectsOf(snapshot.entities, metrics))
    ensures var records := RecordsOfEffects(E.EffectsOf(snapshot.entities, metrics), number);
      forall k :: 0 <= k < |records| ==> WritableEffect(records[k])
  {
    hide Readable, E.EffectsOf, E.EffectOf, KnownState, Closed, Ranged, WritesNumbers, WritableEffect, RecordOfEffect,
      KnownPolicy;
    var effects := E.EffectsOf(snapshot.entities, metrics);
    forall k | 0 <= k < |effects| ensures WritableEffect(RecordOfEffect(effects[k], number)) {
      EffectsAreOfPolicies(snapshot.entities, metrics, k);
      var i: nat, j: nat :| OfPolicy(effects[k], snapshot.entities, i, j, metrics);
      assert ReadableEntity(snapshot.entities[i]) && KnownEntity(snapshot.entities[i]);
      EffectIsWritable(effects[k], snapshot.entities[i], snapshot.entities[i].policies[j], metrics, number);
    }
  }

  lemma ResponseIsOrdinary(
    snapshot: StateSnapshot, requestId: string, measured: Measured, computeMs: real, pending: Option<nat>,
    number: real -> string)
    requires Buildable(snapshot) && OrdinarySnapshot(snapshot) && Ordinary(requestId)
    ensures OrdinaryResponse(ResponseOf(snapshot, requestId, measured, computeMs, pending, number))
  {
    hide Ordinary, LookedUp, E.EffectsOf, E.EffectOf, LinksOf, Closed, RangedFlow, KnownEntity, OrdinaryLink,
      OrdinaryMetric, OrdinaryEffect, RecordOfLink, RecordOfFlow, RecordOfEffect, MappingTree, NodeTree, KnownState;
    var entities := snapshot.entities;
    var links := LinksOfSnapshot(snapshot);
    var metrics := JudgedMetrics(RecordsOfFlows(snapshot.flows, measured));
    var nodes := NodesOfSnapshot(entities, links);
    forall i | 0 <= i < |nodes| ensures Ordinary(nodes[i].entityId) && Ordinary(nodes[i].businessNodeId) {
      assert OrdinaryEntity(entities[i]);
    }
    StatusIsOrdinary();
    MappingsAreOrdinary(nodes);
    NodesAreOrdinary(nodes);
    QueueIsOrdinary(pending);
    LinksAreOrdinary(entities, entities);
    MetricsAreOrdinary(snapshot, measured);
    EffectsAreKnown(snapshot, metrics);
    EffectsAreOrdinary(snapshot, metrics, number);
  }

  lemma ResponseIsWritable(
    snapshot: StateSnapshot, requestId: string, measured: Measured, computeMs: real, pending: Option<nat>,
    number: real -> string, double: string -> Option<real>)
    requires Buildable(snapshot) && ReadableSnapshot(snapshot) && snapshot.revision <= MAX_UINT64
    requires WritesNumbers(number) && ExactNumbers(snapshot, measured, number, double)
    ensures Writable(ResponseOf(snapshot, requestId, measured, computeMs, pending, number), number, double)
  {
    hide Readable, E.EffectsOf, E.EffectOf, LinksOf, Closed, RangedFlow, KnownEntity, WritableLink, WritableMetric,
      WritableEffect, RecordOfLink, RecordOfFlow, RecordOfEffect, MappingTree, NodeTree, KnownState, IsNumberText,
      IsLiteralText, QueueTree, OrdinaryTree;
    var entities := snapshot.entities;
    var links := LinksOfSnapshot(snapshot);
    var metrics := JudgedMetrics(RecordsOfFlows(snapshot.flows, measured));
    var nodes := NodesOfSnapshot(entities, links);
    StatusIsOrdinary();
    MappingsAreProper(nodes);
    NodesAreProper(nodes);
    QueueIsOrdinary(pending);
    NumberIsLiteral(number(computeMs));
    LinksAreWritable(entities, entities, number, double);
    MetricsAreWritable(snapshot, measured, number, double);
    EffectsAreKnown(snapshot, metrics);
    EffectsAreWritable(snapshot, metrics, number);
  }

  lemma MappingsAreProper(nodes: seq<NodeRecord>)
    ensures Proper(Array(MappingTrees(nodes)))
  {
    hide Decimal;
    forall k | 0 <= k < |nodes| ensures Proper(MappingTree(nodes[k])) {
      DecimalIsNumber(nodes[k].ns3NodeId);
      MembersProper(MAPPING_NAMES,
        [Text(nodes[k].entityId), Text(nodes[k].businessNodeId), Literal(Decimal(nodes[k].ns3NodeId))]);
    }
  }

  /** From a snapshot to the client: when its strings are ordinary and readable and
      its numbers are read back exactly, the message gate reads from the text of
      the response exactly the snapshot's links and its flows' measurements, and
      the effect gate exactly the effects that the snapshot's policies have. */
  lemma ResultsArrive(
    snapshot: StateSnapshot, requestId: string, measured: Measured, computeMs: real, pending: Option<nat>,
    number: real -> string, double: string -> Option<real>)
    requires Buildable(snapshot) && snapshot.revision <= MAX_UINT64
    requires OrdinarySnapshot(snapshot) && Ordinary(requestId) && ReadableSnapshot(snapshot)
    requires WritesNumbers(number) && ExactNumbers(snapshot, measured, number, double)
    ensures var response := ResponseOf(snapshot, requestId, measured, computeMs, pending, number);
      var line := Render(ResponseTree(response, number));
      var judged := JudgedMetrics(RecordsOfFlows(snapshot.flows, measured));
      var effects := E.EffectsOf(snapshot.entities, judged);
      && (forall i :: 0 <= i < |LinksOfSnapshot(snapshot)| ==> 0 <= LinksOfSnapshot(snapshot)[i].dataRateBps)
      && KnownStates(effects)
      && ReadMetrics(line, double)
         == Message(Metrics(snapshot.revision, EntriesOfLinks(RecordsOfLinks(LinksOfSnapshot(snapshot))),
                            EntriesOfMetrics(RecordsOfFlows(snapshot.flows, measured))))
      && ReadEffects(line)
         == Message(Effects(snapshot.revision, DecisionsOf(RecordsOfEffects(effects, number), snapshot.revision)))
  {
    ResponseIsOrdinary(snapshot, requestId, measured, computeMs, pending, number);
    ResponseIsWritable(snapshot, requestId, measured, computeMs, pending, number, double);
    LinksHaveRates(snapshot);
    EffectsAreKnown(snapshot, JudgedMetrics(RecordsOfFlows(snapshot.flows, measured)));
    hide Buildable, OrdinarySnapshot, Ordinary, ReadableSnapshot, WritesNumbers, ExactNumbers, OrdinaryResponse,
      Writable, Render, ResponseTree, ReadMetrics, ReadEffects, E.EffectsOf, LinksOfSnapshot;
    OrdinaryMessageIsReadBack(ResponseOf(snapshot, requestId, measured, computeMs, pending, number), number, double);
  }
}
