/** What the client's messages mean to the service: the text of a message, read as
    JSON, is exactly the object on which acceptance and replication are stated. */
module MessageMeaning {
  import opened Wrappers
  import opened Json
  import opened Protocol
  import opened JsonText
  import opened JsonReader
  import opened MessageText

  /** `value` is the number that a literal denotes. */
  type Numbers = string -> Option<real>

  /** The value denotes the object: members by name, in whatever order. */
  ghost predicate Denotes(tree: Tree, json: Json, value: Numbers)
    decreases tree
  {
    match json
    case Null => tree == Literal("null")
    case Bool(b) => tree == Literal(BooleanText(b))
    case Int(n) => 0 <= n && tree == Literal(Decimal(n))
    case Float(r) => tree.Literal? && value(tree.text) == Some(r)
    case Str(s) => tree == Text(s)
    case Arr(items) =>
      && tree.Array? && |tree.items| == |items|
      && forall i :: 0 <= i < |items| ==> Denotes(tree.items[i], items[i], value)
    case Obj(fields) =>
      && tree.Object?
      && exists names: seq<Name> :: Named(tree.members, names, fields)
           && forall i :: 0 <= i < |names| ==> Denotes(tree.members[i].value, fields[names[i]], value)
  }

  /** The members are called `names`, and these are exactly the keys. */
  ghost predicate Named(members: seq<Member>, names: seq<Name>, fields: Dict) {
    Called(members, names) && AmongKeys(names, fields) && Distinct(names) && AllKeys(names, fields)
  }

  ghost predicate Called(members: seq<Member>, names: seq<Name>) {
    |members| == |names| && forall i :: 0 <= i < |names| ==> members[i].name == NameText(names[i])
  }

  ghost predicate AmongKeys(names: seq<Name>, fields: Dict) {
    forall i :: 0 <= i < |names| ==> names[i] in fields
  }

  ghost predicate AllKeys(names: seq<Name>, fields: Dict) {
    forall key :: key in fields ==> key in names
  }

  ghost predicate Distinct(names: seq<Name>) {
    forall i, j :: 0 <= i < j < |names| ==> names[i] != names[j]
  }

  lemma ObjectDenotes(members: seq<Member>, fields: Dict, names: seq<Name>, value: Numbers)
    requires Named(members, names, fields)
    requires forall i :: 0 <= i < |names| ==> Denotes(members[i].value, fields[names[i]], value)
    ensures Denotes(Object(members), Obj(fields), value)
  {
    hide NameText;
  }

  // ----- The names of the records ---------------------------------------------------------

  const DEVICE: seq<Name> := [
    Name.DeviceId, Name.PeerEntityId, Name.Kind, Name.DataRateBps, Name.DelayMs, Name.LossRate, Name.LinkState]

  const POLICY: seq<Name> := [
    Name.SubsystemId, Name.SubsystemType, Name.PeerEntityId, Name.MaxDelayMs, Name.MaxLossRate, Name.MinThroughputBps,
    Name.ViolationState]

  const POSITION: seq<Name> := [Name.XM, Name.YM, Name.ZM]

  const VELOCITY: seq<Name> := [Name.VxMps, Name.VyMps, Name.VzMps]

  const ENTITY: seq<Name> := [
    Name.EntityId, Name.BusinessNodeId, Name.ParentEntityId, Name.Position, Name.Velocity, Name.HeadingDeg, Name.Alive,
    Name.Devices, Name.EffectPolicies]

  const FLOW: seq<Name> := [
    Name.FlowId, Name.SourceEntityId, Name.TargetEntityId, Name.PacketSizeBytes, Name.IntervalMs, Name.DurationMs,
    Name.Active]

  const INIT_NAMES: seq<Name> := [
    Name.ProtocolVersion, Name.MessageType, Name.RequestId, Name.TimestampMs, Name.Entities, Name.Flows]

  const DELTA_NAMES: seq<Name> := [
    Name.ProtocolVersion, Name.MessageType, Name.RequestId, Name.TimestampMs, Name.EntityUpserts, Name.EntityRemovals,
    Name.FlowUpserts, Name.FlowRemovals]

  // ----- Records ----------------------------------------------------------------------------

  /** The double is written as text that denotes it. */
  predicate Exact(r: real, double: real -> string, value: Numbers) {
    value(double(r)) == Some(r)
  }

  predicate ExactDevice(device: DeviceConfig, double: real -> string, value: Numbers) {
    Exact(device.delayMs, double, value) && Exact(device.lossRate, double, value)
  }

  predicate ExactPolicy(policy: EffectPolicy, double: real -> string, value: Numbers) {
    Exact(policy.maxDelayMs, double, value) && Exact(policy.maxLossRate, double, value)
    && Exact(policy.minThroughputBps, double, value)
  }

  predicate ExactPosition(position: Protocol.Position, double: real -> string, value: Numbers) {
    Exact(position.xM, double, value) && Exact(position.yM, double, value) && Exact(position.zM, double, value)
  }

  predicate ExactVelocity(velocity: Protocol.Velocity, double: real -> string, value: Numbers) {
    Exact(velocity.vxMps, double, value) && Exact(velocity.vyMps, double, value) && Exact(velocity.vzMps, double, value)
  }

  ghost predicate ExactEntity(entity: EntityState, double: real -> string, value: Numbers) {
    && ExactPosition(entity.position, double, value) && ExactVelocity(entity.velocity, double, value)
    && Exact(entity.headingDeg, double, value)
    && (forall i :: 0 <= i < |entity.devices| ==> ExactDevice(entity.devices[i], double, value))
    && (forall i :: 0 <= i < |entity.effectPolicies| ==> ExactPolicy(entity.effectPolicies[i], double, value))
  }

  ghost predicate ExactEntities(entities: seq<EntityState>, double: real -> string, value: Numbers) {
    forall i :: 0 <= i < |entities| ==> ExactEntity(entities[i], double, value)
  }

  /** Every member of the tree denotes the field of its name. */
  ghost predicate Values(members: seq<Member>, names: seq<Name>, fields: Dict, value: Numbers) {
    |members| == |names| && forall i :: 0 <= i < |names| ==>
      names[i] in fields && Denotes(members[i].value, fields[names[i]], value)
  }

  lemma RecordDenotes(tree: Tree, fields: Dict, names: seq<Name>, value: Numbers)
    requires tree.Object? && Named(tree.members, names, fields) && Values(tree.members, names, fields, value)
    ensures Denotes(tree, Obj(fields), value)
  {
    hide NameText;
    ObjectDenotes(tree.members, fields, names, value);
  }

  lemma DeviceCalled(device: DeviceConfig, double: real -> string)
    ensures DeviceTree(device, double).Object? && Called(DeviceTree(device, double).members, DEVICE)
  {
    hide NameText, Decimal, BooleanText;
  }

  lemma DeviceKeys(device: DeviceConfig)
    ensures Distinct(DEVICE) && AllKeys(DEVICE, DeviceFields(device)) && AmongKeys(DEVICE, DeviceFields(device))
  {
    hide NameText;
  }

  lemma DeviceValues(device: DeviceConfig, double: real -> string, value: Numbers)
    requires ExactDevice(device, double, value)
    ensures DeviceTree(device, double).Object?
    ensures Values(DeviceTree(device, double).members, DEVICE, DeviceFields(device), value)
  {
    hide NameText, Decimal, BooleanText;
  }

  lemma DeviceDenotes(device: DeviceConfig, double: real -> string, value: Numbers)
    requires ExactDevice(device, double, value)
    ensures Denotes(DeviceTree(device, double), Obj(DeviceFields(device)), value)
  {
    hide DeviceTree, DeviceFields, Called, Distinct, AllKeys, AmongKeys, Values, Denotes, ExactDevice;
    DeviceCalled(device, double);
    DeviceKeys(device);
    DeviceValues(device, double, value);
    RecordDenotes(DeviceTree(device, double), DeviceFields(device), DEVICE, value);
  }

  lemma PolicyCalled(policy: EffectPolicy, double: real -> string)
    ensures PolicyTree(policy, double).Object? && Called(PolicyTree(policy, double).members, POLICY)
  {
    hide NameText, Decimal, BooleanText;
  }

  lemma PolicyKeys(policy: EffectPolicy)
    ensures Distinct(POLICY) && AllKeys(POLICY, PolicyFields(policy)) && AmongKeys(POLICY, PolicyFields(policy))
  {
    hide NameText;
  }

  lemma PolicyValues(policy: EffectPolicy, double: real -> string, value: Numbers)
    requires ExactPolicy(policy, double, value)
    ensures PolicyTree(policy, double).Object?
    ensures Values(PolicyTree(policy, double).members, POLICY, PolicyFields(policy), value)
  {
    hide NameText, Decimal, BooleanText;
  }

  lemma PolicyDenotes(policy: EffectPolicy, double: real -> string, value: Numbers)
    requires ExactPolicy(policy, double, value)
    ensures Denotes(PolicyTree(policy, double), Obj(PolicyFields(policy)), value)
  {
    hide PolicyTree, PolicyFields, Called, Distinct, AllKeys, AmongKeys, Values, Denotes, ExactPolicy;
    PolicyCalled(policy, double);
    PolicyKeys(policy);
    PolicyValues(policy, double, value);
    RecordDenotes(PolicyTree(policy, double), PolicyFields(policy), POLICY, value);
  }

  lemma PositionCalled(position: Protocol.Position, double: real -> string)
    ensures PositionTree(position, double).Object? && Called(PositionTree(position, double).members, POSITION)
  {
    hide NameText, Decimal, BooleanText;
  }

  lemma PositionKeys(position: Protocol.Position)
    ensures Distinct(POSITION) && AllKeys(POSITION, PositionObject(position))
    ensures AmongKeys(POSITION, PositionObject(position))
  {
    hide NameText;
  }

  lemma PositionValues(position: Protocol.Position, double: real -> string, value: Numbers)
    requires ExactPosition(position, double, value)
    ensures PositionTree(position, double).Object?
    ensures Values(PositionTree(position, double).members, POSITION, PositionObject(position), value)
  {
    hide NameText, Decimal, BooleanText;
  }

  lemma PositionDenotes(position: Protocol.Position, double: real -> string, value: Numbers)
    requires ExactPosition(position, double, value)
    ensures Denotes(PositionTree(position, double), Obj(PositionObject(position)), value)
  {
    hide PositionTree, PositionObject, Called, Distinct, AllKeys, AmongKeys, Values, Denotes, ExactPosition;
    PositionCalled(position, double);
    PositionKeys(position);
    PositionValues(position, double, value);
    RecordDenotes(PositionTree(position, double), PositionObject(position), POSITION, value);
  }

  lemma VelocityCalled(velocity: Protocol.Velocity, double: real -> string)
    ensures VelocityTree(velocity, double).Object? && Called(VelocityTree(velocity, double).members, VELOCITY)
  {
    hide NameText, Decimal, BooleanText;
  }

  lemma VelocityKeys(velocity: Protocol.Velocity)
    ensures Distinct(VELOCITY) && AllKeys(VELOCITY, VelocityObject(velocity))
    ensures AmongKeys(VELOCITY, VelocityObject(velocity))
  {
    hide NameText;
  }

  lemma VelocityValues(velocity: Protocol.Velocity, double: real -> string, value: Numbers)
    requires ExactVelocity(velocity, double, value)
    ensures VelocityTree(velocity, double).Object?
    ensures Values(VelocityTree(velocity, double).members, VELOCITY, VelocityObject(velocity), value)
  {
    hide NameText, Decimal, BooleanText;
  }

  lemma VelocityDenotes(velocity: Protocol.Velocity, double: real -> string, value: Numbers)
    requires ExactVelocity(velocity, double, value)
    ensures Denotes(VelocityTree(velocity, double), Obj(VelocityObject(velocity)), value)
  {
    hide VelocityTree, VelocityObject, Called, Distinct, AllKeys, AmongKeys, Values, Denotes, ExactVelocity;
    VelocityCalled(velocity, double);
    VelocityKeys(velocity);
    VelocityValues(velocity, double, value);
    RecordDenotes(VelocityTree(velocity, double), VelocityObject(velocity), VELOCITY, value);
  }

  lemma ListsOfEntityDenote(entity: EntityState, double: real -> string, value: Numbers)
    requires ExactEntity(entity, double, value)
    ensures Denotes(Array(DeviceTrees(entity.devices, double)), Arr(DeviceObjects(entity.devices)), value)
    ensures Denotes(Array(PolicyTrees(entity.effectPolicies, double)),
                    Arr(PolicyObjects(entity.effectPolicies)), value)
  {
    hide DeviceTree, PolicyTree, DeviceFields, PolicyFields, ExactDevice, ExactPolicy, Named, NameText;
    forall i | 0 <= i < |entity.devices|
      ensures Denotes(DeviceTree(entity.devices[i], double), DeviceObject(entity.devices[i]), value)
    {
      DeviceDenotes(entity.devices[i], double, value);
    }
    forall i | 0 <= i < |entity.effectPolicies|
      ensures Denotes(PolicyTree(entity.effectPolicies[i], double), PolicyObject(entity.effectPolicies[i]), value)
    {
      PolicyDenotes(entity.effectPolicies[i], double, value);
    }
  }

  lemma EntityCalled(entity: EntityState, double: real -> string)
    ensures EntityTree(entity, double).Object? && Called(EntityTree(entity, double).members, ENTITY)
  {
    hide NameText, Decimal, BooleanText, PositionTree, VelocityTree, PositionObject, VelocityObject, DeviceTree,
      PolicyTree, DeviceObjects, PolicyObjects, DeviceTrees, PolicyTrees;
  }

  lemma EntityKeys(entity: EntityState)
    ensures Distinct(ENTITY) && AllKeys(ENTITY, EntityObject(entity)) && AmongKeys(ENTITY, EntityObject(entity))
  {
    hide NameText, PositionTree, VelocityTree, PositionObject, VelocityObject, DeviceTree, PolicyTree, DeviceObjects,
      PolicyObjects, DeviceTrees, PolicyTrees;
  }

  lemma EntityMembersAre(entity: EntityState, double: real -> string)
    ensures EntityTree(entity, double).Object? && |EntityTree(entity, double).members| == 9
    ensures var members := EntityTree(entity, double).members;
      && members[0].value == Text(entity.entityId)
      && members[1].value == Text(entity.businessNodeId)
      && members[2].value == (if entity.hasParent then Text(entity.parentEntityId) else Literal("null"))
      && members[3].value == PositionTree(entity.position, double)
      && members[4].value == VelocityTree(entity.velocity, double)
      && members[5].value == Literal(double(entity.headingDeg))
      && members[6].value == Literal(BooleanText(entity.alive))
      && members[7].value == Array(DeviceTrees(entity.devices, double))
      && members[8].value == Array(PolicyTrees(entity.effectPolicies, double))
  {
    hide NameText, BooleanText, PositionTree, VelocityTree, DeviceTree, PolicyTree, DeviceTrees, PolicyTrees;
  }

  lemma EntityFieldsAre(entity: EntityState)
    ensures AmongKeys(ENTITY, EntityObject(entity)) && |ENTITY| == 9
    ensures var fields := EntityObject(entity);
      && fields[ENTITY[0]] == Str(entity.entityId)
      && fields[ENTITY[1]] == Str(entity.businessNodeId)
      && fields[ENTITY[2]] == (if entity.hasParent then Str(entity.parentEntityId) else Null)
      && fields[ENTITY[3]] == Obj(PositionObject(entity.position))
      && fields[ENTITY[4]] == Obj(VelocityObject(entity.velocity))
      && fields[ENTITY[5]] == Float(entity.headingDeg)
      && fields[ENTITY[6]] == Bool(entity.alive)
      && fields[ENTITY[7]] == Arr(DeviceObjects(entity.devices))
      && fields[ENTITY[8]] == Arr(PolicyObjects(entity.effectPolicies))
  {
    hide PositionObject, VelocityObject, DeviceObjects, PolicyObjects;
  }

  lemma TextDenotes(s: string, value: Numbers)
    ensures Denotes(Text(s), Str(s), value)
  {
  }

  lemma WordsDenote(b: bool, value: Numbers)
    ensures Denotes(Literal(BooleanText(b)), Bool(b), value) && Denotes(Literal("null"), Null, value)
  {
  }

  lemma DoubleDenotes(r: real, double: real -> string, value: Numbers)
    requires Exact(r, double, value)
    ensures Denotes(Literal(double(r)), Float(r), value)
  {
  }

  lemma NineValues(members: seq<Member>, names: seq<Name>, fields: Dict, value: Numbers)
    requires |members| == |names| == 9 && AmongKeys(names, fields)
    requires Denotes(members[0].value, fields[names[0]], value) && Denotes(members[1].value, fields[names[1]], value)
    requires Denotes(members[2].value, fields[names[2]], value) && Denotes(members[3].value, fields[names[3]], value)
    requires Denotes(members[4].value, fields[names[4]], value) && Denotes(members[5].value, fields[names[5]], value)
    requires Denotes(members[6].value, fields[names[6]], value) && Denotes(members[7].value, fields[names[7]], value)
    requires Denotes(members[8].value, fields[names[8]], value)
    ensures Values(members, names, fields, value)
  {
    hide Denotes;
  }

  lemma EntityValues(entity: EntityState, double: real -> string, value: Numbers)
    requires ExactEntity(entity, double, value)
    ensures EntityTree(entity, double).Object?
    ensures Values(EntityTree(entity, double).members, ENTITY, EntityObject(entity), value)
  {
    hide NameText, BooleanText, EntityTree, EntityObject, PositionTree, VelocityTree, PositionObject, VelocityObject,
      DeviceTrees, PolicyTrees, DeviceObjects, PolicyObjects, Denotes, ENTITY, AmongKeys, Values, ExactDevice,
      ExactPolicy, ExactPosition, ExactVelocity;
    ListsOfEntityDenote(entity, double, value);
    PositionDenotes(entity.position, double, value);
    VelocityDenotes(entity.velocity, double, value);
    EntityMembersAre(entity, double);
    EntityFieldsAre(entity);
    TextDenotes(entity.entityId, value);
    TextDenotes(entity.businessNodeId, value);
    TextDenotes(entity.parentEntityId, value);
    WordsDenote(entity.alive, value);
    DoubleDenotes(entity.headingDeg, double, value);
    NineValues(EntityTree(entity, double).members, ENTITY, EntityObject(entity), value);
  }

  lemma EntityDenotes(entity: EntityState, double: real -> string, value: Numbers)
    requires ExactEntity(entity, double, value)
    ensures Denotes(EntityTree(entity, double), Obj(EntityObject(entity)), value)
  {
    hide EntityTree, EntityObject, Called, Distinct, AllKeys, AmongKeys, Values, Denotes, ExactEntity;
    EntityCalled(entity, double);
    EntityKeys(entity);
    EntityValues(entity, double, value);
    RecordDenotes(EntityTree(entity, double), EntityObject(entity), ENTITY, value);
  }

  lemma FlowCalled(flow: FlowConfig)
    ensures FlowTree(flow).Object? && Called(FlowTree(flow).members, FLOW)
  {
    hide NameText, Decimal, BooleanText;
  }

  lemma FlowKeys(flow: FlowConfig)
    ensures Distinct(FLOW) && AllKeys(FLOW, FlowObject(flow)) && AmongKeys(FLOW, FlowObject(flow))
  {
    hide NameText;
  }

  lemma FlowValues(flow: FlowConfig, value: Numbers)
    ensures FlowTree(flow).Object?
    ensures Values(FlowTree(flow).members, FLOW, FlowObject(flow), value)
  {
    hide NameText, Decimal, BooleanText;
  }

  lemma FlowDenotes(flow: FlowConfig, value: Numbers)
    ensures Denotes(FlowTree(flow), Obj(FlowObject(flow)), value)
  {
    hide FlowTree, FlowObject, Called, Distinct, AllKeys, AmongKeys, Values, Denotes;
    FlowCalled(flow);
    FlowKeys(flow);
    FlowValues(flow, value);
    RecordDenotes(FlowTree(flow), FlowObject(flow), FLOW, value);
  }

  lemma ListsDenote(
    entities: seq<EntityState>, flows: seq<FlowConfig>, ids: seq<string>, double: real -> string, value: Numbers)
    requires ExactEntities(entities, double, value)
    ensures Denotes(Array(EntityTrees(entities, double)), Arr(EntityObjects(entities)), value)
    ensures Denotes(Array(Trees(flows, FlowTree)), Arr(FlowObjects(flows)), value)
    ensures Denotes(Array(Trees(ids, IdTree)), Arr(Strings(ids)), value)
  {
    hide EntityTree, FlowTree, EntityObject, FlowObject, ExactEntity, Named, NameText;
    forall i | 0 <= i < |entities|
      ensures Denotes(EntityTree(entities[i], double), Obj(EntityObject(entities[i])), value)
    {
      EntityDenotes(entities[i], double, value);
    }
    forall i | 0 <= i < |flows| ensures Denotes(FlowTree(flows[i]), Obj(FlowObject(flows[i])), value) {
      FlowDenotes(flows[i], value);
    }
  }

  // ----- Messages -----------------------------------------------------------------------------

  lemma InitCalled(
    requestId: string, timestampMs: nat, entities: seq<EntityState>, flows: seq<FlowConfig>, double: real -> string)
    ensures Called(InitTree(requestId, timestampMs, entities, flows, double).members, INIT_NAMES)
  {
    hide NameText, Decimal, EntityTree, FlowTree, EntityObjects, FlowObjects, EntityTrees, Trees, ExactEntities;
  }

  lemma InitKeys(requestId: string, timestampMs: nat, entities: seq<EntityState>, flows: seq<FlowConfig>)
    ensures Distinct(INIT_NAMES) && AllKeys(INIT_NAMES, InitPayload(requestId, timestampMs, entities, flows))
    ensures AmongKeys(INIT_NAMES, InitPayload(requestId, timestampMs, entities, flows))
  {
    hide NameText, EntityTree, FlowTree, EntityObjects, FlowObjects, EntityTrees, Trees, ExactEntities;
  }

  lemma InitValues(
    requestId: string, timestampMs: nat, entities: seq<EntityState>, flows: seq<FlowConfig>, double: real -> string,
    value: Numbers)
    requires ExactEntities(entities, double, value)
    ensures Values(InitTree(requestId, timestampMs, entities, flows, double).members, INIT_NAMES,
                   InitPayload(requestId, timestampMs, entities, flows), value)
  {
    ListsDenote(entities, flows, [], double, value);
    hide NameText, Decimal, EntityTree, FlowTree, EntityObjects, FlowObjects, EntityTrees, Trees, ExactEntities;
  }

  /** The text of a full message, read as JSON, denotes exactly the payload that the
      service's behaviour is stated on. */
  lemma InitTextMeans(
    requestId: string, timestampMs: nat, entities: seq<EntityState>, flows: seq<FlowConfig>, double: real -> string,
    value: Numbers)
    requires WritesLiterals(double) && ExactEntities(entities, double, value)
    ensures var read := ReadValue(Render(InitTree(requestId, timestampMs, entities, flows, double)));
      && read.Some? && read.value.1 == ""
      && Denotes(read.value.0, Obj(InitPayload(requestId, timestampMs, entities, flows)), value)
  {
    InitCalled(requestId, timestampMs, entities, flows, double);
    InitKeys(requestId, timestampMs, entities, flows);
    InitValues(requestId, timestampMs, entities, flows, double, value);
    ProperInit(requestId, timestampMs, entities, flows, double);
    var tree := InitTree(requestId, timestampMs, entities, flows, double);
    hide InitTree, InitPayload, Called, Distinct, AllKeys, AmongKeys, Values, Denotes, Proper, Render, ReadValue,
      ExactEntities;
    RecordDenotes(tree, InitPayload(requestId, timestampMs, entities, flows), INIT_NAMES, value);
    RenderedIsRead(tree, "");
    assert Render(tree) + "" == Render(tree);
  }

  lemma DeltaCalled(requestId: string, timestampMs: nat, delta: DeltaState, double: real -> string)
    ensures Called(DeltaTree(requestId, timestampMs, delta, double).members, DELTA_NAMES)
  {
    hide NameText, Decimal, EntityTree, FlowTree, EntityObjects, FlowObjects, Strings, EntityTrees, Trees,
      ExactEntities;
  }

  lemma DeltaKeys(requestId: string, timestampMs: nat, delta: DeltaState)
    ensures Distinct(DELTA_NAMES) && AllKeys(DELTA_NAMES, DeltaPayload(requestId, timestampMs, delta))
    ensures AmongKeys(DELTA_NAMES, DeltaPayload(requestId, timestampMs, delta))
  {
    hide NameText, EntityTree, FlowTree, EntityObjects, FlowObjects, Strings, EntityTrees, Trees, ExactEntities;
  }

  lemma DeltaValues(requestId: string, timestampMs: nat, delta: DeltaState, double: real -> string, value: Numbers)
    requires ExactEntities(delta.entityUpserts, double, value)
    ensures Values(DeltaTree(requestId, timestampMs, delta, double).members, DELTA_NAMES,
                   DeltaPayload(requestId, timestampMs, delta), value)
  {
    ListsDenote(delta.entityUpserts, delta.flowUpserts, delta.entityRemovals, double, value);
    ListsDenote([], [], delta.flowRemovals, double, value);
    hide NameText, Decimal, EntityTree, FlowTree, EntityObjects, FlowObjects, Strings, EntityTrees, Trees,
      ExactEntities;
  }

  /** The same for a message of changes. */
  lemma DeltaTextMeans(requestId: string, timestampMs: nat, delta: DeltaState, double: real -> string, value: Numbers)
    requires WritesLiterals(double) && ExactEntities(delta.entityUpserts, double, value)
    ensures var read := ReadValue(Render(DeltaTree(requestId, timestampMs, delta, double)));
      read.Some? && read.value.1 == "" && Denotes(read.value.0, Obj(DeltaPayload(requestId, timestampMs, delta)), value)
  {
    DeltaCalled(requestId, timestampMs, delta, double);
    DeltaKeys(requestId, timestampMs, delta);
    DeltaValues(requestId, timestampMs, delta, double, value);
    ProperDelta(requestId, timestampMs, delta, double);
    var tree := DeltaTree(requestId, timestampMs, delta, double);
    hide DeltaTree, DeltaPayload, Called, Distinct, AllKeys, AmongKeys, Values, Denotes, Proper, Render, ReadValue,
      ExactEntities;
    RecordDenotes(tree, DeltaPayload(requestId, timestampMs, delta), DELTA_NAMES, value);
    RenderedIsRead(tree, "");
    assert Render(tree) + "" == Render(tree);
  }
}
