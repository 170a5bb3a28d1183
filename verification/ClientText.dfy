/** What the client's messages say, written out member by member. */
module ClientText {
  import opened JsonText
  import opened Json
  import opened Protocol
  import opened MessageText

  lemma DeviceIdNames()
    ensures NameText(Name.DeviceId) == "device_id"
    ensures NameText(Name.PeerEntityId) == "peer_entity_id"
  {
  }

  lemma DeviceKindNames()
    ensures NameText(Name.Kind) == "kind"
    ensures NameText(Name.DataRateBps) == "data_rate_bps"
  {
  }

  lemma DeviceLinkNames()
    ensures NameText(Name.DelayMs) == "delay_ms"
    ensures NameText(Name.LossRate) == "loss_rate"
    ensures NameText(Name.LinkState) == "link_state"
  {
  }

  lemma SubsystemNames()
    ensures NameText(Name.SubsystemId) == "subsystem_id"
    ensures NameText(Name.SubsystemType) == "subsystem_type"
    ensures NameText(Name.PeerEntityId) == "peer_entity_id"
  {
  }

  lemma LimitNames()
    ensures NameText(Name.MaxDelayMs) == "max_delay_ms"
    ensures NameText(Name.MaxLossRate) == "max_loss_rate"
  {
  }

  lemma ViolationNames()
    ensures NameText(Name.MinThroughputBps) == "min_throughput_bps"
    ensures NameText(Name.ViolationState) == "violation_state"
  {
  }

  lemma EntityIdNames()
    ensures NameText(Name.EntityId) == "entity_id"
    ensures NameText(Name.BusinessNodeId) == "business_node_id"
    ensures NameText(Name.ParentEntityId) == "parent_entity_id"
  {
  }

  lemma EntityPlaceNames()
    ensures NameText(Name.Position) == "position"
    ensures NameText(Name.Velocity) == "velocity"
    ensures NameText(Name.HeadingDeg) == "heading_deg"
  {
  }

  lemma EntityListNames()
    ensures NameText(Name.Alive) == "alive"
    ensures NameText(Name.Devices) == "devices"
    ensures NameText(Name.EffectPolicies) == "effect_policies"
  {
  }

  lemma PositionNames()
    ensures NameText(Name.XM) == "x_m"
    ensures NameText(Name.YM) == "y_m"
    ensures NameText(Name.ZM) == "z_m"
  {
  }

  lemma VelocityNames()
    ensures NameText(Name.VxMps) == "vx_mps"
    ensures NameText(Name.VyMps) == "vy_mps"
    ensures NameText(Name.VzMps) == "vz_mps"
  {
  }

  lemma FlowIdName()
    ensures NameText(Name.FlowId) == "flow_id"
  {
  }

  lemma FlowEndNames()
    ensures NameText(Name.SourceEntityId) == "source_entity_id"
    ensures NameText(Name.TargetEntityId) == "target_entity_id"
  {
  }

  lemma FlowTimeNames()
    ensures NameText(Name.PacketSizeBytes) == "packet_size_bytes"
    ensures NameText(Name.IntervalMs) == "interval_ms"
  {
  }

  lemma FlowLengthNames()
    ensures NameText(Name.DurationMs) == "duration_ms"
    ensures NameText(Name.Active) == "active"
  {
  }

  lemma EnvelopeNames()
    ensures NameText(Name.ProtocolVersion) == "protocol_version"
    ensures NameText(Name.MessageType) == "message_type"
    ensures NameText(Name.RequestId) == "request_id"
    ensures NameText(Name.TimestampMs) == "timestamp_ms"
  {
  }

  lemma StateNames()
    ensures NameText(Name.Entities) == "entities"
    ensures NameText(Name.Flows) == "flows"
  {
  }

  lemma ChangeNames()
    ensures NameText(Name.EntityUpserts) == "entity_upserts"
    ensures NameText(Name.EntityRemovals) == "entity_removals"
    ensures NameText(Name.FlowUpserts) == "flow_upserts"
    ensures NameText(Name.FlowRemovals) == "flow_removals"
  {
  }

  lemma DeviceIsWritten(device: DeviceConfig, double: real -> string)
    ensures DeviceTree(device, double) == Object([
      Member("device_id", Text(device.deviceId)),
      Member("peer_entity_id", Text(device.peerEntityId)),
      Member("kind", Text(device.kind)),
      Member("data_rate_bps", Literal(Decimal(device.dataRateBps))),
      Member("delay_ms", Literal(double(device.delayMs))),
      Member("loss_rate", Literal(double(device.lossRate))),
      Member("link_state", Text(device.linkState))])
  {
    hide Decimal, NameText;
    DeviceIdNames();
    DeviceKindNames();
    DeviceLinkNames();
  }

  lemma PolicyIsWritten(policy: EffectPolicy, double: real -> string)
    ensures PolicyTree(policy, double) == Object([
      Member("subsystem_id", Text(policy.subsystemId)),
      Member("subsystem_type", Text(policy.subsystemType)),
      Member("peer_entity_id", Text(policy.peerEntityId)),
      Member("max_delay_ms", Literal(double(policy.maxDelayMs))),
      Member("max_loss_rate", Literal(double(policy.maxLossRate))),
      Member("min_throughput_bps", Literal(double(policy.minThroughputBps))),
      Member("violation_state", Text(policy.violationState))])
  {
    hide NameText;
    SubsystemNames();
    LimitNames();
    ViolationNames();
  }

  lemma EntityIsWritten(entity: EntityState, double: real -> string)
    ensures EntityTree(entity, double) == Object([
      Member("entity_id", Text(entity.entityId)),
      Member("business_node_id", Text(entity.businessNodeId)),
      Member("parent_entity_id", if entity.hasParent then Text(entity.parentEntityId) else Literal("null")),
      Member("position", Object([
        Member("x_m", Literal(double(entity.position.xM))),
        Member("y_m", Literal(double(entity.position.yM))),
        Member("z_m", Literal(double(entity.position.zM)))])),
      Member("velocity", Object([
        Member("vx_mps", Literal(double(entity.velocity.vxMps))),
        Member("vy_mps", Literal(double(entity.velocity.vyMps))),
        Member("vz_mps", Literal(double(entity.velocity.vzMps)))])),
      Member("heading_deg", Literal(double(entity.headingDeg))),
      Member("alive", Literal(if entity.alive then "true" else "false")),
      Member("devices", Array(DeviceTrees(entity.devices, double))),
      Member("effect_policies", Array(PolicyTrees(entity.effectPolicies, double)))])
  {
    hide DeviceTrees, PolicyTrees, NameText;
    EntityIdNames();
    EntityPlaceNames();
    EntityListNames();
    PositionNames();
    VelocityNames();
  }

  lemma FlowIsWritten(flow: FlowConfig)
    ensures FlowTree(flow) == Object([
      Member("flow_id", Text(flow.flowId)),
      Member("source_entity_id", Text(flow.sourceEntityId)),
      Member("target_entity_id", Text(flow.targetEntityId)),
      Member("packet_size_bytes", Literal(Decimal(flow.packetSizeBytes))),
      Member("interval_ms", Literal(Decimal(flow.intervalMs))),
      Member("duration_ms", Literal(Decimal(flow.durationMs))),
      Member("active", Literal(if flow.active then "true" else "false"))])
  {
    hide Decimal, NameText;
    FlowIdName();
    FlowEndNames();
    FlowTimeNames();
    FlowLengthNames();
  }

  lemma EnvelopeIsWritten(messageType: string, requestId: string, timestampMs: nat)
    ensures Envelope(messageType, requestId, timestampMs) == [
      Member("protocol_version", Text("0.2")),
      Member("message_type", Text(messageType)),
      Member("request_id", Text(requestId)),
      Member("timestamp_ms", Literal(Decimal(timestampMs)))]
  {
    hide Decimal, NameText;
    EnvelopeNames();
  }

  /** A full message is exactly this object. */
  lemma InitIsWritten(requestId: string, timestampMs: nat, entities: seq<EntityState>, flows: seq<FlowConfig>,
                      double: real -> string)
    ensures var tree := InitTree(requestId, timestampMs, entities, flows, double);
      tree.Object? && tree.members == [
        Member("protocol_version", Text("0.2")),
        Member("message_type", Text("afsim_init")),
        Member("request_id", Text(requestId)),
        Member("timestamp_ms", Literal(Decimal(timestampMs))),
        Member("entities", Array(EntityTrees(entities, double))),
        Member("flows", Array(Trees(flows, FlowTree)))]
  {
    hide Decimal, EntityTrees, Trees, NameText, Envelope;
    StateNames();
    EnvelopeIsWritten("afsim_init", requestId, timestampMs);
  }

  /** A change message is exactly this object. */
  lemma DeltaIsWritten(requestId: string, timestampMs: nat, delta: DeltaState, double: real -> string)
    ensures var tree := DeltaTree(requestId, timestampMs, delta, double);
      tree.Object? && tree.members == [
        Member("protocol_version", Text("0.2")),
        Member("message_type", Text("afsim_delta")),
        Member("request_id", Text(requestId)),
        Member("timestamp_ms", Literal(Decimal(timestampMs))),
        Member("entity_upserts", Array(EntityTrees(delta.entityUpserts, double))),
        Member("entity_removals", Array(Trees(delta.entityRemovals, IdTree))),
        Member("flow_upserts", Array(Trees(delta.flowUpserts, FlowTree))),
        Member("flow_removals", Array(Trees(delta.flowRemovals, IdTree)))]
  {
    hide Decimal, EntityTrees, Trees, NameText, Envelope;
    ChangeNames();
    EnvelopeIsWritten("afsim_delta", requestId, timestampMs);
  }
}
