/** What a partial update makes of a record: member by member it is the update's
    value where the update has one, and the earlier value otherwise. */
module PartialUpdates {
  import opened Wrappers
  import opened Text
  import opened Json
  import opened Models
  import opened StateStore

  // ----- Values of a record and of its object --------------------------------------------

  ghost predicate IsText(value: Json, text: string) {
    value.Str? && text == Strip(value.s)
  }

  /** Whole numbers count as numbers. */
  ghost predicate IsReal(value: Json, number: real) {
    match value
    case Int(n) => number == n as real
    case Float(r) => number == r
    case _ => false
  }

  ghost predicate IsDevice(value: Json, device: Device) {
    && value.Obj?
    && var d := value.fields;
    && IsText(Get(d, Name.DeviceId), device.deviceId) && IsText(Get(d, Name.PeerEntityId), device.peer)
    && Get(d, Name.Kind).Str? && device.kind == Lower(Strip(Get(d, Name.Kind).s))
    && Get(d, Name.LinkState).Str? && device.linkState == Upper(Strip(Get(d, Name.LinkState).s))
    && Get(d, Name.DataRateBps) == Int(device.dataRateBps)
    && IsReal(Get(d, Name.DelayMs), device.delayMs) && IsReal(Get(d, Name.LossRate), device.lossRate)
  }

  ghost predicate IsPolicy(value: Json, policy: Policy) {
    && value.Obj?
    && var d := value.fields;
    && IsText(Get(d, Name.SubsystemId), policy.subsystemId) && IsText(Get(d, Name.PeerEntityId), policy.peer)
    && Get(d, Name.SubsystemType).Str? && policy.subsystemType == Lower(Strip(Get(d, Name.SubsystemType).s))
    && Get(d, Name.ViolationState).Str? && policy.violationState == Upper(Strip(Get(d, Name.ViolationState).s))
    && IsReal(Get(d, Name.MaxDelayMs), policy.maxDelayMs) && IsReal(Get(d, Name.MaxLossRate), policy.maxLossRate)
    && IsReal(Get(d, Name.MinThroughputBps), policy.minThroughputBps)
  }

  ghost predicate AreDevices(value: Json, devices: seq<Device>) {
    && value.Arr? && |devices| == |value.items|
    && forall i :: 0 <= i < |devices| ==> IsDevice(value.items[i], devices[i])
  }

  ghost predicate ArePolicies(value: Json, policies: seq<Policy>) {
    && value.Arr? && |policies| == |value.items|
    && forall i :: 0 <= i < |policies| ==> IsPolicy(value.items[i], policies[i])
  }

  // ----- An entity -----------------------------------------------------------------------

  /** One axis of a position or velocity. */
  ghost predicate AxisUpdated(update: Json, axis: Name, before: real, after: real) {
    && update.Obj?
    && if axis in update.fields then IsReal(update.fields[axis], after) else after == before
  }

  ghost predicate PositionUpdated(update: Dict, before: Point, after: Point) {
    if Name.Position in update then
      && AxisUpdated(update[Name.Position], Name.XM, before.x, after.x)
      && AxisUpdated(update[Name.Position], Name.YM, before.y, after.y)
      && AxisUpdated(update[Name.Position], Name.ZM, before.z, after.z)
    else
      after == before
  }

  ghost predicate VelocityUpdated(update: Dict, before: Point, after: Point) {
    if Name.Velocity in update then
      && AxisUpdated(update[Name.Velocity], Name.VxMps, before.x, after.x)
      && AxisUpdated(update[Name.Velocity], Name.VyMps, before.y, after.y)
      && AxisUpdated(update[Name.Velocity], Name.VzMps, before.z, after.z)
    else
      after == before
  }

  ghost predicate ParentUpdated(update: Dict, before: Option<string>, after: Option<string>) {
    if Name.ParentEntityId in update then
      match after
      case None => update[Name.ParentEntityId] == Null
      case Some(parent) => IsText(update[Name.ParentEntityId], parent)
    else
      after == before
  }

  ghost predicate EntityUpdated(update: Dict, before: Entity, after: Entity) {
    && (if Name.EntityId in update then IsText(update[Name.EntityId], after.entityId)
        else after.entityId == before.entityId)
    && (if Name.BusinessNodeId in update then IsText(update[Name.BusinessNodeId], after.businessNodeId)
        else after.businessNodeId == before.businessNodeId)
    && ParentUpdated(update, before.parent, after.parent)
    && PositionUpdated(update, before.position, after.position)
    && VelocityUpdated(update, before.velocity, after.velocity)
    && (if Name.HeadingDeg in update then IsReal(update[Name.HeadingDeg], after.headingDeg)
        else after.headingDeg == before.headingDeg)
    && (if Name.Alive in update then update[Name.Alive] == Bool(after.alive) else after.alive == before.alive)
    && (if Name.Devices in update then AreDevices(update[Name.Devices], after.devices)
        else after.devices == before.devices)
    && (if Name.EffectPolicies in update then ArePolicies(update[Name.EffectPolicies], after.policies)
        else after.policies == before.policies)
  }

  lemma DevicesAre(value: Json)
    requires value.Arr? && forall item <- value.items :: ValidDevice(item)
    ensures AreDevices(value, seq(|value.items|, i requires 0 <= i < |value.items| && ValidDevice(value.items[i]) =>
                                    DeviceOf(value.items[i])))
  {
    hide Strip, Lower, Upper;
    forall i | 0 <= i < |value.items| ensures IsDevice(value.items[i], DeviceOf(value.items[i])) {
      assert value.items[i] in value.items;
    }
  }

  lemma PoliciesAre(value: Json)
    requires value.Arr? && forall item <- value.items :: ValidPolicy(item)
    ensures ArePolicies(value, seq(|value.items|, i requires 0 <= i < |value.items| && ValidPolicy(value.items[i]) =>
                                     PolicyOf(value.items[i])))
  {
    hide Strip, Lower, Upper;
    forall i | 0 <= i < |value.items| ensures IsPolicy(value.items[i], PolicyOf(value.items[i])) {
      assert value.items[i] in value.items;
    }
  }

  lemma MemberMerged(current: Dict, update: Dict, key: Name)
    requires key != Name.Position && key != Name.Velocity
    ensures var merged := MergeEntity(current, update);
      && Get(merged, key) == (if key in update then update[key] else Get(current, key))
      && GetList(merged, key) == (if key in update then update[key] else GetList(current, key))
  {
  }

  /** What the record says of its members, one by one. */
  ghost predicate ReadsMembers(d: Dict, entity: Entity) {
    && IsText(Get(d, Name.EntityId), entity.entityId) && IsText(Get(d, Name.BusinessNodeId), entity.businessNodeId)
    && (entity.parent.None? ==> Get(d, Name.ParentEntityId) == Null)
    && (entity.parent.Some? ==> IsText(Get(d, Name.ParentEntityId), entity.parent.value))
    && IsReal(Get(d, Name.HeadingDeg), entity.headingDeg) && Get(d, Name.Alive) == Bool(entity.alive)
  }

  lemma EntityReadsMembers(d: Dict)
    requires ValidEntity(d)
    ensures ReadsMembers(d, EntityOf(d))
  {
    hide Strip, ValidDevice, ValidPolicy, DeviceOf, PolicyOf, PositionOf, VelocityOf, ValidPosition, ValidVelocity;
  }

  lemma EntityReadsPoints(d: Dict)
    requires ValidEntity(d)
    ensures ValidPosition(Get(d, Name.Position)) && EntityOf(d).position == PositionOf(Get(d, Name.Position))
    ensures ValidVelocity(Get(d, Name.Velocity)) && EntityOf(d).velocity == VelocityOf(Get(d, Name.Velocity))
  {
    hide Strip, ValidDevice, ValidPolicy, DeviceOf, PolicyOf, PositionOf, VelocityOf, ValidPosition, ValidVelocity;
  }

  lemma EntityReadsLists(d: Dict)
    requires ValidEntity(d)
    ensures AreDevices(GetList(d, Name.Devices), EntityOf(d).devices)
    ensures ArePolicies(GetList(d, Name.EffectPolicies), EntityOf(d).policies)
  {
    hide Strip, ValidDevice, ValidPolicy, DeviceOf, PolicyOf, PositionOf, VelocityOf, ValidPosition, ValidVelocity,
      AreDevices, ArePolicies, HasText, HasNumber;
    DevicesAre(GetList(d, Name.Devices));
    PoliciesAre(GetList(d, Name.EffectPolicies));
  }

  lemma SameLists(d: Dict, e: Dict)
    requires ValidEntity(d) && ValidEntity(e)
    ensures GetList(d, Name.Devices) == GetList(e, Name.Devices) ==> EntityOf(d).devices == EntityOf(e).devices
    ensures GetList(d, Name.EffectPolicies) == GetList(e, Name.EffectPolicies) ==>
      EntityOf(d).policies == EntityOf(e).policies
  {
    hide Strip, ValidDevice, ValidPolicy, DeviceOf, PolicyOf, PositionOf, VelocityOf, ValidPosition, ValidVelocity,
      HasText, HasNumber;
  }

  lemma MembersUpdated(current: Dict, update: Dict, merged: Dict, before: Entity, after: Entity)
    requires ReadsMembers(current, before) && ReadsMembers(merged, after)
    requires forall key: Name :: key in MEMBERS ==>
      Get(merged, key) == if key in update then update[key] else Get(current, key)
    ensures if Name.EntityId in update then IsText(update[Name.EntityId], after.entityId)
            else after.entityId == before.entityId
    ensures if Name.BusinessNodeId in update then IsText(update[Name.BusinessNodeId], after.businessNodeId)
            else after.businessNodeId == before.businessNodeId
    ensures ParentUpdated(update, before.parent, after.parent)
    ensures if Name.HeadingDeg in update then IsReal(update[Name.HeadingDeg], after.headingDeg)
            else after.headingDeg == before.headingDeg
    ensures if Name.Alive in update then update[Name.Alive] == Bool(after.alive) else after.alive == before.alive
  {
    hide Strip;
    assert Name.EntityId in MEMBERS && Name.BusinessNodeId in MEMBERS && Name.ParentEntityId in MEMBERS;
    assert Name.HeadingDeg in MEMBERS && Name.Alive in MEMBERS;
  }

  const MEMBERS: set<Name> :=
    {Name.EntityId, Name.BusinessNodeId, Name.ParentEntityId, Name.HeadingDeg, Name.Alive}

  lemma PositionMerged(current: Dict, update: Dict)
    requires var merged := MergeEntity(current, update);
      ValidPosition(Get(current, Name.Position)) && ValidPosition(Get(merged, Name.Position))
    ensures PositionUpdated(update, PositionOf(Get(current, Name.Position)),
                            PositionOf(Get(MergeEntity(current, update), Name.Position)))
  {
    assert Name.Position in update ==> update[Name.Position].Obj?;
  }

  lemma VelocityMerged(current: Dict, update: Dict)
    requires var merged := MergeEntity(current, update);
      ValidVelocity(Get(current, Name.Velocity)) && ValidVelocity(Get(merged, Name.Velocity))
    ensures VelocityUpdated(update, VelocityOf(Get(current, Name.Velocity)),
                            VelocityOf(Get(MergeEntity(current, update), Name.Velocity)))
  {
    assert Name.Velocity in update ==> update[Name.Velocity].Obj?;
  }

  /** An accepted partial update changes exactly the members it has; of a position
      or velocity, exactly the axes it has. */
  lemma EntityIsUpdated(current: Dict, update: Dict)
    requires ValidEntity(current) && ValidEntity(MergeEntity(current, update))
    ensures EntityUpdated(update, EntityOf(current), EntityOf(MergeEntity(current, update)))
  {
    hide ValidEntity, EntityOf, MergeEntity, PositionOf, VelocityOf, ValidPosition, ValidVelocity, PositionUpdated,
      VelocityUpdated, ParentUpdated, AreDevices, ArePolicies, ReadsMembers, IsText, IsReal, Get, GetList;
    var merged := MergeEntity(current, update);
    var before, after := EntityOf(current), EntityOf(merged);
    EntityReadsMembers(current);
    EntityReadsMembers(merged);
    EntityReadsPoints(current);
    EntityReadsPoints(merged);
    PositionMerged(current, update);
    VelocityMerged(current, update);
    forall key: Name | key in MEMBERS
      ensures Get(merged, key) == if key in update then update[key] else Get(current, key)
    {
      MemberMerged(current, update, key);
    }
    MembersUpdated(current, update, merged, before, after);
    MemberMerged(current, update, Name.Devices);
    MemberMerged(current, update, Name.EffectPolicies);
    EntityReadsLists(merged);
    SameLists(merged, current);
  }

  // ----- A flow --------------------------------------------------------------------------

  ghost predicate FlowUpdated(update: Dict, before: Flow, after: Flow) {
    && (if Name.FlowId in update then IsText(update[Name.FlowId], after.flowId) else after.flowId == before.flowId)
    && (if Name.SourceEntityId in update then IsText(update[Name.SourceEntityId], after.source)
        else after.source == before.source)
    && (if Name.TargetEntityId in update then IsText(update[Name.TargetEntityId], after.target)
        else after.target == before.target)
    && (if Name.PacketSizeBytes in update then update[Name.PacketSizeBytes] == Int(after.packetSizeBytes)
        else after.packetSizeBytes == before.packetSizeBytes)
    && (if Name.IntervalMs in update then update[Name.IntervalMs] == Int(after.intervalMs)
        else after.intervalMs == before.intervalMs)
    && (if Name.DurationMs in update then update[Name.DurationMs] == Int(after.durationMs)
        else after.durationMs == before.durationMs)
    && (if Name.Active in update then update[Name.Active] == Bool(after.active) else after.active == before.active)
  }

  lemma FlowIsUpdated(current: Dict, update: Dict)
    requires Models.ValidFlow(current) && Models.ValidFlow(Merge(FlowKind, current, update))
    ensures FlowUpdated(update, FlowOf(current), FlowOf(Merge(FlowKind, current, update)))
  {
    hide Strip;
  }

  // ----- What may be left out, and which values are accepted -------------------------------

  /** A record without devices or policies has none, one without a parent id has no
      parent, and a flow that says nothing of it is active. */
  lemma Defaults(entity: Dict, flow: Dict)
    requires ValidEntity(entity) && Models.ValidFlow(flow)
    ensures Name.Devices !in entity ==> EntityOf(entity).devices == []
    ensures Name.EffectPolicies !in entity ==> EntityOf(entity).policies == []
    ensures Name.ParentEntityId !in entity ==> EntityOf(entity).parent == None
    ensures Name.Active !in flow ==> FlowOf(flow).active
  {
    hide Strip, ValidDevice, ValidPolicy;
  }

  lemma OneMemberReplaced(d: Dict, key: Name, value: Json)
    requires ValidEntity(d)
    ensures key == Name.Position ==> (ValidEntity(d[key := value]) <==> ValidPosition(value))
    ensures key == Name.HeadingDeg ==>
      (ValidEntity(d[key := value]) <==> HasNumber(map[key := value], key, 0.0, Some(360.0)))
  {
    hide Strip, ValidDevice, ValidPolicy, ValidPosition, ValidVelocity, IsNumber, NumberOf;
  }

  /** A heading is accepted exactly when it is a number, whole or not, from 0 to 360. */
  lemma HeadingAccepted(current: Dict, value: Json)
    requires ValidEntity(current)
    ensures ValidEntity(MergeEntity(current, map[Name.HeadingDeg := value])) <==>
      match value
      case Int(n) => 0 <= n <= 360
      case Float(r) => 0.0 <= r <= 360.0
      case _ => false
  {
    assert MergeEntity(current, map[Name.HeadingDeg := value]) == current[Name.HeadingDeg := value];
    hide ValidEntity, MergeEntity;
    OneMemberReplaced(current, Name.HeadingDeg, value);
  }

  lemma AxisMoved(position: Json, axis: Name, value: Json)
    requires ValidPosition(position) && (axis == Name.XM || axis == Name.YM || axis == Name.ZM)
    ensures ValidPosition(Obj(Union(position.fields, map[axis := value]))) <==> value.Int? || value.Float?
  {
  }

  lemma OnlyPositionMerged(current: Dict, fields: Dict)
    requires Name.Position in current && current[Name.Position].Obj?
    ensures MergeEntity(current, map[Name.Position := Obj(fields)])
         == current[Name.Position := Obj(Union(current[Name.Position].fields, fields))]
  {
    hide Union;
  }

  /** A coordinate is accepted exactly when it is a number. */
  lemma CoordinateAccepted(current: Dict, axis: Name, value: Json)
    requires ValidEntity(current) && (axis == Name.XM || axis == Name.YM || axis == Name.ZM)
    ensures ValidEntity(MergeEntity(current, map[Name.Position := Obj(map[axis := value])])) <==>
      value.Int? || value.Float?
  {
    EntityReadsPoints(current);
    var position := Get(current, Name.Position);
    assert position.Obj? && Name.Position in current && current[Name.Position] == position;
    hide ValidEntity, MergeEntity, ValidPosition, ValidVelocity, EntityOf, Union;
    OnlyPositionMerged(current, map[axis := value]);
    AxisMoved(position, axis, value);
    OneMemberReplaced(current, Name.Position, Obj(Union(position.fields, map[axis := value])));
  }
}
