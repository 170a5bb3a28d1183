/** What the service computes on: the snapshot of a store that holds the client's
    state is that state, field by field. */
module SnapshotMeaning {
  import opened Wrappers
  import opened Text
  import opened Json
  import opened Models
  import opened StateStore
  import opened StoreIntegrity
  import opened Protocol
  import opened StateDeltaTracker
  import opened WireFormat
  import opened DiffPatch

  // ----- One record -------------------------------------------------------------------

  /** The device that the service has for one of the client's: texts are stripped,
      and its words are in the service's case. */
  ghost predicate IsDevice(device: Device, sent: DeviceConfig) {
    && device.deviceId == Strip(sent.deviceId) && device.peer == Strip(sent.peerEntityId)
    && device.kind == Lower(Strip(sent.kind)) && device.linkState == Upper(Strip(sent.linkState))
    && device.dataRateBps == sent.dataRateBps && device.delayMs == sent.delayMs && device.lossRate == sent.lossRate
  }

  ghost predicate IsPolicy(policy: Policy, sent: EffectPolicy) {
    && policy.subsystemId == Strip(sent.subsystemId) && policy.peer == Strip(sent.peerEntityId)
    && policy.subsystemType == Lower(Strip(sent.subsystemType))
    && policy.violationState == Upper(Strip(sent.violationState))
    && policy.maxDelayMs == sent.maxDelayMs && policy.maxLossRate == sent.maxLossRate
    && policy.minThroughputBps == sent.minThroughputBps
  }

  ghost predicate IsEntity(entity: Entity, sent: EntityState) {
    && entity.entityId == Strip(sent.entityId) && entity.businessNodeId == Strip(sent.businessNodeId)
    && entity.parent == (if sent.hasParent then Some(Strip(sent.parentEntityId)) else None)
    && entity.position.x == sent.position.xM && entity.position.y == sent.position.yM
    && entity.position.z == sent.position.zM
    && entity.velocity.x == sent.velocity.vxMps && entity.velocity.y == sent.velocity.vyMps
    && entity.velocity.z == sent.velocity.vzMps
    && entity.headingDeg == sent.headingDeg && entity.alive == sent.alive
    && |entity.devices| == |sent.devices| && |entity.policies| == |sent.effectPolicies|
    && (forall i :: 0 <= i < |sent.devices| ==> IsDevice(entity.devices[i], sent.devices[i]))
    && (forall i :: 0 <= i < |sent.effectPolicies| ==> IsPolicy(entity.policies[i], sent.effectPolicies[i]))
  }

  ghost predicate IsFlow(flow: Flow, sent: FlowConfig) {
    && flow.flowId == Strip(sent.flowId)
    && flow.source == Strip(sent.sourceEntityId) && flow.target == Strip(sent.targetEntityId)
    && flow.packetSizeBytes == sent.packetSizeBytes && flow.intervalMs == sent.intervalMs
    && flow.durationMs == sent.durationMs && flow.active == sent.active
  }

  lemma DeviceParsed(sent: DeviceConfig)
    requires WellFormedDevice(sent)
    ensures ValidDevice(DeviceObject(sent)) && IsDevice(DeviceOf(DeviceObject(sent)), sent)
  {
    hide Strip, Lower, Upper;
    DeviceAccepted(sent);
  }

  lemma PolicyParsed(sent: EffectPolicy)
    requires WellFormedPolicy(sent)
    ensures ValidPolicy(PolicyObject(sent)) && IsPolicy(PolicyOf(PolicyObject(sent)), sent)
  {
    hide Strip, Lower, Upper;
    PolicyAccepted(sent);
  }

  lemma PointsParsed(sent: EntityState)
    ensures var position := Obj(PositionObject(sent.position));
      && ValidPosition(position)
      && PositionOf(position) == Point(sent.position.xM, sent.position.yM, sent.position.zM)
    ensures var velocity := Obj(VelocityObject(sent.velocity));
      && ValidVelocity(velocity)
      && VelocityOf(velocity) == Point(sent.velocity.vxMps, sent.velocity.vyMps, sent.velocity.vzMps)
  {
  }

  lemma EntityPoints(sent: EntityState)
    ensures Get(EntityObject(sent), Name.Position) == Obj(PositionObject(sent.position))
    ensures Get(EntityObject(sent), Name.Velocity) == Obj(VelocityObject(sent.velocity))
  {
    hide PositionObject, VelocityObject, DeviceObjects, PolicyObjects;
  }

  /** What is written of an entity is read as that entity. */
  lemma EntityParsed(sent: EntityState)
    requires WellFormedEntity(sent)
    ensures ValidEntity(EntityObject(sent)) && IsEntity(EntityOf(EntityObject(sent)), sent)
  {
    hide Strip, ValidDevice, ValidPolicy, WellFormedDevice, WellFormedPolicy, DeviceObject, PolicyObject, DeviceOf,
      PolicyOf, IsDevice, IsPolicy, EntityObject, PositionOf, VelocityOf, PositionObject, VelocityObject,
      ValidPosition, ValidVelocity;
    EntityAccepted(sent);
    EntityMembers(sent);
    EntityPoints(sent);
    PointsParsed(sent);
    var entity := EntityOf(EntityObject(sent));
    forall i | 0 <= i < |sent.devices| ensures IsDevice(entity.devices[i], sent.devices[i]) {
      DeviceParsed(sent.devices[i]);
    }
    forall i | 0 <= i < |sent.effectPolicies| ensures IsPolicy(entity.policies[i], sent.effectPolicies[i]) {
      PolicyParsed(sent.effectPolicies[i]);
    }
  }

  lemma FlowParsed(sent: FlowConfig)
    requires WellFormedFlow(sent)
    ensures Models.ValidFlow(FlowObject(sent)) && IsFlow(FlowOf(FlowObject(sent)), sent)
  {
    hide Strip;
  }

  // ----- The snapshot -----------------------------------------------------------------

  /** The records are those sent, each once, by ascending id. */
  ghost predicate AreEntities(entities: seq<Entity>, sent: EntityMap) {
    && |entities| == |sent|
    && (forall i :: 0 <= i < |entities| ==>
          entities[i].entityId in sent && IsEntity(entities[i], sent[entities[i].entityId]))
    && (forall i, j :: 0 <= i < j < |entities| ==>
          entities[i].entityId != entities[j].entityId && AtMost(entities[i].entityId, entities[j].entityId))
    && (forall id :: id in sent ==> exists i :: 0 <= i < |entities| && entities[i].entityId == id)
  }

  ghost predicate AreFlows(flows: seq<Flow>, sent: FlowMap) {
    && |flows| == |sent|
    && (forall i :: 0 <= i < |flows| ==> flows[i].flowId in sent && IsFlow(flows[i], sent[flows[i].flowId]))
    && (forall i, j :: 0 <= i < j < |flows| ==>
          flows[i].flowId != flows[j].flowId && AtMost(flows[i].flowId, flows[j].flowId))
    && (forall id :: id in sent ==> exists i :: 0 <= i < |flows| && flows[i].flowId == id)
  }

  /** Fields, order and completeness of a snapshot against the client's state. */
  ghost predicate IsSnapshotOf(snapshot: StateSnapshot, state: Baseline) {
    AreEntities(snapshot.entities, state.entities) && AreFlows(snapshot.flows, state.flows)
  }

  /** The keys, each once, in ascending order. */
  ghost predicate Orders<V>(order: seq<string>, sent: map<string, V>) {
    && |order| == |sent| && Ascending(order)
    && (forall i :: 0 <= i < |order| ==> order[i] in sent)
    && (forall id :: id in sent ==> exists i :: 0 <= i < |order| && order[i] == id)
  }

  lemma KeysInOrder<V>(sent: map<string, V>)
    ensures Orders(SortedKeys(sent.Keys), sent)
  {
    hide SortedKeys, AtMost;
    SortedKeysAscend(sent.Keys);
    var order := SortedKeys(sent.Keys);
    assert |sent.Keys| == |sent|;
    forall i | 0 <= i < |order| ensures order[i] in sent {
      assert order[i] in order;
    }
    forall id | id in sent ensures exists i :: 0 <= i < |order| && order[i] == id {
      assert id in order;
    }
  }

  lemma EntityOfTable(sent: EntityMap, id: string)
    requires ProperEntities(sent) && id in sent
    ensures ValidEntity(EntityTable(sent)[id])
    ensures var entity := EntityOf(EntityTable(sent)[id]); entity.entityId == id && IsEntity(entity, sent[id])
  {
    hide WellFormedEntity, EntityObject, ValidEntity, EntityOf, Strip;
    EntityParsed(sent[id]);
  }

  lemma OrderedEntities(entities: seq<Entity>, order: seq<string>, sent: EntityMap)
    requires Orders(order, sent) && |entities| == |order|
    requires forall i :: 0 <= i < |order| ==> entities[i].entityId == order[i] && IsEntity(entities[i], sent[order[i]])
    ensures AreEntities(entities, sent)
  {
    hide IsEntity, AtMost;
    forall id | id in sent ensures exists i :: 0 <= i < |entities| && entities[i].entityId == id {
      var i :| 0 <= i < |order| && order[i] == id;
      assert entities[i].entityId == id;
    }
  }

  lemma EntitiesAreSent(sent: EntityMap)
    requires ProperEntities(sent)
    ensures var table := EntityTable(sent);
      && AllValid(EntityKind, table)
      && AreEntities(EntitiesOf(table, SortedKeys(table.Keys)), sent)
  {
    hide ProperEntities, EntityTable, EntitiesOf, SortedKeys, EntityOf, ValidEntity, IsEntity, Ascending, AreEntities;
    var table := EntityTable(sent);
    TableOfKeys(sent, map[]);
    forall id | id in table ensures Valid(EntityKind, table[id]) {
      EntityOfTable(sent, id);
    }
    KeysInOrder(sent);
    var order := SortedKeys(table.Keys);
    var entities := EntitiesOf(table, order);
    forall i | 0 <= i < |order|
      ensures entities[i].entityId == order[i] && IsEntity(entities[i], sent[order[i]])
    {
      EntityOfTable(sent, order[i]);
    }
    OrderedEntities(entities, order, sent);
  }

  lemma TableOfKeys(entities: EntityMap, flows: FlowMap)
    ensures EntityTable(entities).Keys == entities.Keys && FlowTable(flows).Keys == flows.Keys
  {
    hide EntityObject, FlowObject;
  }

  lemma FlowOfTable(sent: FlowMap, id: string)
    requires ProperFlows(sent) && id in sent
    ensures Models.ValidFlow(FlowTable(sent)[id])
    ensures var flow := FlowOf(FlowTable(sent)[id]); flow.flowId == id && IsFlow(flow, sent[id])
  {
    hide WellFormedFlow, FlowObject, Models.ValidFlow, FlowOf, Strip;
    FlowParsed(sent[id]);
  }

  lemma OrderedFlows(flows: seq<Flow>, order: seq<string>, sent: FlowMap)
    requires Orders(order, sent) && |flows| == |order|
    requires forall i :: 0 <= i < |order| ==> flows[i].flowId == order[i] && IsFlow(flows[i], sent[order[i]])
    ensures AreFlows(flows, sent)
  {
    hide IsFlow, AtMost;
    forall id | id in sent ensures exists i :: 0 <= i < |flows| && flows[i].flowId == id {
      var i :| 0 <= i < |order| && order[i] == id;
      assert flows[i].flowId == id;
    }
  }

  lemma FlowsAreSent(sent: FlowMap)
    requires ProperFlows(sent)
    ensures var table := FlowTable(sent);
      && AllValid(FlowKind, table)
      && AreFlows(FlowsOf(table, SortedKeys(table.Keys)), sent)
  {
    hide ProperFlows, FlowTable, FlowsOf, SortedKeys, FlowOf, Models.ValidFlow, IsFlow, Ascending, AreFlows;
    var table := FlowTable(sent);
    TableOfKeys(map[], sent);
    forall id | id in table ensures Valid(FlowKind, table[id]) {
      FlowOfTable(sent, id);
    }
    KeysInOrder(sent);
    var order := SortedKeys(table.Keys);
    var flows := FlowsOf(table, order);
    forall i | 0 <= i < |order|
      ensures flows[i].flowId == order[i] && IsFlow(flows[i], sent[order[i]])
    {
      FlowOfTable(sent, order[i]);
    }
    OrderedFlows(flows, order, sent);
  }

  /** The snapshot of a store that holds a proper state is that state, with the
      store's time and revision. */
  lemma SnapshotIsState(store: Store, state: Baseline)
    requires Holds(store, state) && Proper(state)
    ensures Snapshot(store).Some?
    ensures var snapshot := Snapshot(store).value;
      && snapshot.timestampMs == store.timestampMs && snapshot.revision == store.revision
      && IsSnapshotOf(snapshot, state)
  {
    hide ProperEntities, ProperFlows, EntityTable, FlowTable, EntitiesOf, FlowsOf, SortedKeys, AreEntities, AreFlows,
      AllValid;
    EntitiesAreSent(state.entities);
    FlowsAreSent(state.flows);
  }
}
