/** The messages against the service's validation: the service accepts a
    record exactly when it is well formed in the client's terms. */
module WireFormat {
  import opened Text
  import opened Json
  import opened Models
  import opened StateStore
  import opened Protocol

  lemma DeviceAccepted(device: DeviceConfig)
    ensures ValidDevice(DeviceObject(device)) <==> WellFormedDevice(device)
    ensures ValidDevice(DeviceObject(device)) ==> DeviceOf(DeviceObject(device)).peer == Strip(device.peerEntityId)
  {
    hide Strip, Lower, Upper;
  }

  lemma PolicyAccepted(policy: EffectPolicy)
    ensures ValidPolicy(PolicyObject(policy)) <==> WellFormedPolicy(policy)
    ensures ValidPolicy(PolicyObject(policy)) ==> PolicyOf(PolicyObject(policy)).peer == Strip(policy.peerEntityId)
  {
    hide Strip, Lower, Upper;
  }

  lemma DevicesAccepted(devices: seq<DeviceConfig>)
    ensures (forall item <- DeviceObjects(devices) :: ValidDevice(item))
       <==> (forall i :: 0 <= i < |devices| ==> WellFormedDevice(devices[i]))
  {
    hide DeviceObject, ValidDevice, WellFormedDevice;
    forall i | 0 <= i < |devices|
      ensures DeviceObjects(devices)[i] in DeviceObjects(devices)
      ensures ValidDevice(DeviceObjects(devices)[i]) <==> WellFormedDevice(devices[i])
    {
      DeviceAccepted(devices[i]);
    }
  }

  lemma PoliciesAccepted(policies: seq<EffectPolicy>)
    ensures (forall item <- PolicyObjects(policies) :: ValidPolicy(item))
       <==> (forall i :: 0 <= i < |policies| ==> WellFormedPolicy(policies[i]))
  {
    hide PolicyObject, ValidPolicy, WellFormedPolicy;
    forall i | 0 <= i < |policies|
      ensures PolicyObjects(policies)[i] in PolicyObjects(policies)
      ensures ValidPolicy(PolicyObjects(policies)[i]) <==> WellFormedPolicy(policies[i])
    {
      PolicyAccepted(policies[i]);
    }
  }

  lemma EntityMembers(entity: EntityState)
    ensures var d := EntityObject(entity);
      && Get(d, Name.EntityId) == Str(entity.entityId)
      && Get(d, Name.BusinessNodeId) == Str(entity.businessNodeId)
      && Get(d, Name.ParentEntityId) == (if entity.hasParent then Str(entity.parentEntityId) else Null)
      && Get(d, Name.HeadingDeg) == Float(entity.headingDeg)
      && Get(d, Name.Alive) == Bool(entity.alive)
      && GetList(d, Name.Devices) == Arr(DeviceObjects(entity.devices))
      && GetList(d, Name.EffectPolicies) == Arr(PolicyObjects(entity.effectPolicies))
      && ValidPosition(Get(d, Name.Position)) && ValidVelocity(Get(d, Name.Velocity))
  {
  }

  lemma EntityAccepted(entity: EntityState)
    ensures Valid(EntityKind, EntityObject(entity)) <==> WellFormedEntity(entity)
    ensures Get(EntityObject(entity), Name.EntityId) == Str(entity.entityId)
  {
    DevicesAccepted(entity.devices);
    PoliciesAccepted(entity.effectPolicies);
    EntityMembers(entity);
  }

  lemma FlowAccepted(flow: FlowConfig)
    ensures Valid(FlowKind, FlowObject(flow)) <==> WellFormedFlow(flow)
    ensures Get(FlowObject(flow), Name.FlowId) == Str(flow.flowId)
  {
  }

  lemma EntityReferences(entity: EntityState, ids: set<string>)
    requires WellFormedEntity(entity)
    ensures RawEntityResolves(EntityObject(entity), ids) <==> EntityRefersTo(entity, ids)
  {
    hide Strip, ValidDevice, ValidPolicy, WellFormedDevice, WellFormedPolicy, DeviceObject, PolicyObject, DeviceOf,
      PolicyOf;
    EntityAccepted(entity);
    var parsed := EntityOf(EntityObject(entity));
    forall i | 0 <= i < |entity.devices| ensures parsed.devices[i].peer == Strip(entity.devices[i].peerEntityId) {
      DeviceAccepted(entity.devices[i]);
    }
    forall i | 0 <= i < |entity.effectPolicies|
      ensures parsed.policies[i].peer == Strip(entity.effectPolicies[i].peerEntityId)
    {
      PolicyAccepted(entity.effectPolicies[i]);
    }
  }

  lemma FlowReferences(flow: FlowConfig, ids: set<string>)
    requires WellFormedFlow(flow)
    ensures RawFlowResolves(FlowObject(flow), ids) <==> FlowRefersTo(flow, ids)
  {
  }

  /** The client's updates are whole records, so merging one in replaces the
      record that an earlier message left. */
  lemma EntityUpdateReplaces(old': EntityState, new': EntityState)
    ensures Merge(EntityKind, EntityObject(old'), EntityObject(new')) == EntityObject(new')
  {
    EntityParts(old');
    EntityParts(new');
    assert Union(PositionObject(old'.position), PositionObject(new'.position)) == PositionObject(new'.position);
    assert Union(VelocityObject(old'.velocity), VelocityObject(new'.velocity)) == VelocityObject(new'.velocity);
    hide EntityObject, PositionObject, VelocityObject, Union, MergeEntity;
    WholeUpdateReplaces(EntityObject(old'), EntityObject(new'));
  }

  lemma WholeUpdateReplaces(current: Dict, update: Dict)
    requires current.Keys == update.Keys && Name.Position in update && Name.Velocity in update
    requires current[Name.Position].Obj? && current[Name.Velocity].Obj?
    requires update[Name.Position].Obj? && update[Name.Velocity].Obj?
    requires Union(current[Name.Position].fields, update[Name.Position].fields) == update[Name.Position].fields
    requires Union(current[Name.Velocity].fields, update[Name.Velocity].fields) == update[Name.Velocity].fields
    ensures MergeEntity(current, update) == update
  {
    hide Union;
    var merged := MergeEntity(current, update);
    assert merged.Keys == update.Keys;
    forall key | key in update ensures merged[key] == update[key] {
      assert merged[key] == MergedMember(current, update, key);
    }
  }

  lemma EntityParts(entity: EntityState)
    ensures var d := EntityObject(entity);
      && d.Keys == {Name.EntityId, Name.BusinessNodeId, Name.ParentEntityId, Name.Position, Name.Velocity,
                    Name.HeadingDeg, Name.Alive, Name.Devices, Name.EffectPolicies}
      && d[Name.Position] == Obj(PositionObject(entity.position))
      && d[Name.Velocity] == Obj(VelocityObject(entity.velocity))
  {
    hide PositionObject, VelocityObject, DeviceObjects, PolicyObjects;
  }

  lemma FlowUpdateReplaces(old': FlowConfig, new': FlowConfig)
    ensures Merge(FlowKind, FlowObject(old'), FlowObject(new')) == FlowObject(new')
  {
  }
}
