/** The client's records and messages (`AfsimNs3Protocol`), and the JSON
    objects that the messages denote. Doubles are reals. */
module Protocol {
  import opened Text
  import opened Json

  datatype Position = Position(xM: real, yM: real, zM: real)

  datatype Velocity = Velocity(vxMps: real, vyMps: real, vzMps: real)

  datatype DeviceConfig = DeviceConfig(
    deviceId: string, peerEntityId: string, kind: string, dataRateBps: nat,
    delayMs: real, lossRate: real, linkState: string)

  datatype EffectPolicy = EffectPolicy(
    subsystemId: string, subsystemType: string, peerEntityId: string, maxDelayMs: real,
    maxLossRate: real, minThroughputBps: real, violationState: string)

  datatype EntityState = EntityState(
    entityId: string, businessNodeId: string, parentEntityId: string, hasParent: bool,
    position: Position, velocity: Velocity, headingDeg: real, alive: bool,
    devices: seq<DeviceConfig>, effectPolicies: seq<EffectPolicy>)

  datatype FlowConfig = FlowConfig(
    flowId: string, sourceEntityId: string, targetEntityId: string,
    packetSizeBytes: nat, intervalMs: nat, durationMs: nat, active: bool)

  datatype DeltaState = DeltaState(
    entityUpserts: seq<EntityState>, entityRemovals: seq<string>,
    flowUpserts: seq<FlowConfig>, flowRemovals: seq<string>)

  /** What the id of the snapshot kept for a reconnection ends with. */
  const RESYNC_SUFFIX := "-resync"

  // ----- The objects on the wire --------------------------------------------

  function DeviceFields(device: DeviceConfig): Dict {
    map[
      Name.DeviceId := Str(device.deviceId),
      Name.PeerEntityId := Str(device.peerEntityId),
      Name.Kind := Str(device.kind),
      Name.DataRateBps := Int(device.dataRateBps),
      Name.DelayMs := Float(device.delayMs),
      Name.LossRate := Float(device.lossRate),
      Name.LinkState := Str(device.linkState)]
  }

  function DeviceObject(device: DeviceConfig): Json {
    Obj(DeviceFields(device))
  }

  function PolicyFields(policy: EffectPolicy): Dict {
    map[
      Name.SubsystemId := Str(policy.subsystemId),
      Name.SubsystemType := Str(policy.subsystemType),
      Name.PeerEntityId := Str(policy.peerEntityId),
      Name.MaxDelayMs := Float(policy.maxDelayMs),
      Name.MaxLossRate := Float(policy.maxLossRate),
      Name.MinThroughputBps := Float(policy.minThroughputBps),
      Name.ViolationState := Str(policy.violationState)]
  }

  function PolicyObject(policy: EffectPolicy): Json {
    Obj(PolicyFields(policy))
  }

  function PositionObject(position: Position): Dict {
    map[Name.XM := Float(position.xM), Name.YM := Float(position.yM), Name.ZM := Float(position.zM)]
  }

  function VelocityObject(velocity: Velocity): Dict {
    map[Name.VxMps := Float(velocity.vxMps), Name.VyMps := Float(velocity.vyMps), Name.VzMps := Float(velocity.vzMps)]
  }

  function DeviceObjects(devices: seq<DeviceConfig>): seq<Json> {
    seq(|devices|, i requires 0 <= i < |devices| => DeviceObject(devices[i]))
  }

  function PolicyObjects(policies: seq<EffectPolicy>): seq<Json> {
    seq(|policies|, i requires 0 <= i < |policies| => PolicyObject(policies[i]))
  }

  /** An entity is always written whole; without a parent the id is null. */
  function EntityObject(entity: EntityState): Dict {
    map[
      Name.EntityId := Str(entity.entityId),
      Name.BusinessNodeId := Str(entity.businessNodeId),
      Name.ParentEntityId := if entity.hasParent then Str(entity.parentEntityId) else Null,
      Name.Position := Obj(PositionObject(entity.position)),
      Name.Velocity := Obj(VelocityObject(entity.velocity)),
      Name.HeadingDeg := Float(entity.headingDeg),
      Name.Alive := Bool(entity.alive),
      Name.Devices := Arr(DeviceObjects(entity.devices)),
      Name.EffectPolicies := Arr(PolicyObjects(entity.effectPolicies))]
  }

  function FlowObject(flow: FlowConfig): Dict {
    map[
      Name.FlowId := Str(flow.flowId),
      Name.SourceEntityId := Str(flow.sourceEntityId),
      Name.TargetEntityId := Str(flow.targetEntityId),
      Name.PacketSizeBytes := Int(flow.packetSizeBytes),
      Name.IntervalMs := Int(flow.intervalMs),
      Name.DurationMs := Int(flow.durationMs),
      Name.Active := Bool(flow.active)]
  }

  function EntityObjects(entities: seq<EntityState>): (items: seq<Json>)
    ensures |items| == |entities|
    ensures forall i :: 0 <= i < |items| ==> items[i] == Obj(EntityObject(entities[i]))
  {
    seq(|entities|, i requires 0 <= i < |entities| => Obj(EntityObject(entities[i])))
  }

  function FlowObjects(flows: seq<FlowConfig>): (items: seq<Json>)
    ensures |items| == |flows|
    ensures forall i :: 0 <= i < |items| ==> items[i] == Obj(FlowObject(flows[i]))
  {
    seq(|flows|, i requires 0 <= i < |flows| => Obj(FlowObject(flows[i])))
  }

  function Strings(values: seq<string>): (items: seq<Json>)
    ensures |items| == |values|
    ensures forall i :: 0 <= i < |items| ==> items[i] == Str(values[i])
  {
    seq(|values|, i requires 0 <= i < |values| => Str(values[i]))
  }

  /** `BuildInitMessage`. */
  function InitPayload(
    requestId: string, timestampMs: nat, entities: seq<EntityState>, flows: seq<FlowConfig>): Dict
  {
    map[
      Name.ProtocolVersion := Str(PROTOCOL_VERSION),
      Name.MessageType := Str(INIT),
      Name.RequestId := Str(requestId),
      Name.TimestampMs := Int(timestampMs),
      Name.Entities := Arr(EntityObjects(entities)),
      Name.Flows := Arr(FlowObjects(flows))]
  }

  /** `BuildDeltaMessage`. */
  function DeltaPayload(requestId: string, timestampMs: nat, delta: DeltaState): Dict {
    map[
      Name.ProtocolVersion := Str(PROTOCOL_VERSION),
      Name.MessageType := Str(DELTA),
      Name.RequestId := Str(requestId),
      Name.TimestampMs := Int(timestampMs),
      Name.EntityUpserts := Arr(EntityObjects(delta.entityUpserts)),
      Name.EntityRemovals := Arr(Strings(delta.entityRemovals)),
      Name.FlowUpserts := Arr(FlowObjects(delta.flowUpserts)),
      Name.FlowRemovals := Arr(Strings(delta.flowRemovals))]
  }

  // ----- What the service accepts, in the client's terms ---------------------

  predicate NonBlank(s: string) {
    Strip(s) != ""
  }

  predicate WellFormedDevice(device: DeviceConfig) {
    && NonBlank(device.kind)
    && (Lower(Strip(device.kind)) == "wired" || Lower(Strip(device.kind)) == "wireless")
    && NonBlank(device.linkState)
    && (Upper(Strip(device.linkState)) == "UP" || Upper(Strip(device.linkState)) == "DOWN")
    && NonBlank(device.deviceId) && NonBlank(device.peerEntityId)
    && 1 <= device.dataRateBps && 0.0 <= device.delayMs && 0.0 <= device.lossRate <= 1.0
  }

  predicate WellFormedPolicy(policy: EffectPolicy) {
    && NonBlank(policy.subsystemType)
    && (Lower(Strip(policy.subsystemType)) == "weapon" || Lower(Strip(policy.subsystemType)) == "radar")
    && NonBlank(policy.violationState)
    && (Upper(Strip(policy.violationState)) == "DEGRADED" || Upper(Strip(policy.violationState)) == "BLOCKED")
    && NonBlank(policy.subsystemId) && NonBlank(policy.peerEntityId)
    && 0.0 <= policy.maxDelayMs && 0.0 <= policy.maxLossRate <= 1.0 && 0.0 <= policy.minThroughputBps
  }

  predicate WellFormedEntity(entity: EntityState) {
    && NonBlank(entity.entityId) && NonBlank(entity.businessNodeId)
    && (entity.hasParent ==> NonBlank(entity.parentEntityId))
    && 0.0 <= entity.headingDeg <= 360.0
    && (forall i :: 0 <= i < |entity.devices| ==> WellFormedDevice(entity.devices[i]))
    && (forall i :: 0 <= i < |entity.effectPolicies| ==> WellFormedPolicy(entity.effectPolicies[i]))
  }

  predicate WellFormedFlow(flow: FlowConfig) {
    && NonBlank(flow.flowId) && NonBlank(flow.sourceEntityId) && NonBlank(flow.targetEntityId)
    && 64 <= flow.packetSizeBytes && 1 <= flow.intervalMs && 100 <= flow.durationMs
  }

  /** Every entity that the entity mentions is among `ids`. */
  predicate EntityRefersTo(entity: EntityState, ids: set<string>) {
    && (entity.hasParent ==> Strip(entity.parentEntityId) in ids)
    && (forall i :: 0 <= i < |entity.devices| ==> Strip(entity.devices[i].peerEntityId) in ids)
    && (forall i :: 0 <= i < |entity.effectPolicies| ==> Strip(entity.effectPolicies[i].peerEntityId) in ids)
  }

  predicate FlowRefersTo(flow: FlowConfig, ids: set<string>) {
    Strip(flow.sourceEntityId) in ids && Strip(flow.targetEntityId) in ids
  }
}
