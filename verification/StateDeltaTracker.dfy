/** The client's change tracker (`StateDeltaTracker`). `Index`, `Reset` and
    `Diff` are values; the class keeps the last submitted state in its fields. */
module StateDeltaTracker {
  import opened Wrappers
  import opened Text
  import opened Protocol
  import opened Indexing

  // ----- Field-by-field comparison ------------------------------------------

  predicate SamePosition(left: Position, right: Position) {
    left.xM == right.xM && left.yM == right.yM && left.zM == right.zM
  }

  predicate SameVelocity(left: Velocity, right: Velocity) {
    left.vxMps == right.vxMps && left.vyMps == right.vyMps && left.vzMps == right.vzMps
  }

  predicate SameDevice(left: DeviceConfig, right: DeviceConfig) {
    && left.deviceId == right.deviceId
    && left.peerEntityId == right.peerEntityId
    && left.kind == right.kind
    && left.dataRateBps == right.dataRateBps
    && left.delayMs == right.delayMs
    && left.lossRate == right.lossRate
    && left.linkState == right.linkState
  }

  predicate SamePolicy(left: EffectPolicy, right: EffectPolicy) {
    && left.subsystemId == right.subsystemId
    && left.subsystemType == right.subsystemType
    && left.peerEntityId == right.peerEntityId
    && left.maxDelayMs == right.maxDelayMs
    && left.maxLossRate == right.maxLossRate
    && left.minThroughputBps == right.minThroughputBps
    && left.violationState == right.violationState
  }

  method SameVector<V>(left: seq<V>, right: seq<V>, same: (V, V) -> bool) returns (result: bool)
    ensures result <==> |left| == |right| && forall i :: 0 <= i < |left| ==> same(left[i], right[i])
  {
    if |left| != |right| {
      return false;
    }
    for index := 0 to |left|
      invariant forall i :: 0 <= i < index ==> same(left[i], right[i])
    {
      if !same(left[index], right[index]) {
        return false;
      }
    }
    result := true;
  }

  method SameEntity(left: EntityState, right: EntityState) returns (same: bool)
    ensures same <==> left == right
  {
    var sameDevices := SameVector(left.devices, right.devices, SameDevice);
    var samePolicies := SameVector(left.effectPolicies, right.effectPolicies, SamePolicy);
    same :=
      && left.entityId == right.entityId
      && left.businessNodeId == right.businessNodeId
      && left.parentEntityId == right.parentEntityId
      && left.hasParent == right.hasParent
      && SamePosition(left.position, right.position)
      && SameVelocity(left.velocity, right.velocity)
      && left.headingDeg == right.headingDeg
      && left.alive == right.alive
      && sameDevices
      && samePolicies;
    if same {
      assert forall i :: 0 <= i < |left.devices| ==> SameDevice(left.devices[i], right.devices[i]);
      assert forall i :: 0 <= i < |left.effectPolicies| ==> SamePolicy(left.effectPolicies[i], right.effectPolicies[i]);
      assert left.devices == right.devices && left.effectPolicies == right.effectPolicies;
    }
  }

  predicate SameFlow(left: FlowConfig, right: FlowConfig) {
    && left.flowId == right.flowId
    && left.sourceEntityId == right.sourceEntityId
    && left.targetEntityId == right.targetEntityId
    && left.packetSizeBytes == right.packetSizeBytes
    && left.intervalMs == right.intervalMs
    && left.durationMs == right.durationMs
    && left.active == right.active
  }

  // ----- Values --------------------------------------------------------------

  type EntityMap = map<string, EntityState>
  type FlowMap = map<string, FlowConfig>

  /** What the tracker remembers of the last submitted state. */
  datatype Baseline = Baseline(entities: EntityMap, flows: FlowMap)

  /** `None` is the exception for an empty or repeated id. */
  function IndexEntities(indexed: EntityMap, values: seq<EntityState>): Option<EntityMap>
    decreases |values|
  {
    if values == [] then Some(indexed)
    else if values[0].entityId == "" || values[0].entityId in indexed then None
    else IndexEntities(indexed[values[0].entityId := values[0]], values[1..])
  }

  function IndexFlows(indexed: FlowMap, values: seq<FlowConfig>): Option<FlowMap>
    decreases |values|
  {
    if values == [] then Some(indexed)
    else if values[0].flowId == "" || values[0].flowId in indexed then None
    else IndexFlows(indexed[values[0].flowId := values[0]], values[1..])
  }

  /** The ids of `order` whose value is new or has changed. */
  function Changed<V(==)>(before: map<string, V>, after: map<string, V>, order: seq<string>): seq<string>
    requires forall i :: 0 <= i < |order| ==> order[i] in after
  {
    if order == [] then []
    else
      var id := order[|order| - 1];
      Changed(before, after, order[..|order| - 1])
      + (if id in before && before[id] == after[id] then [] else [id])
  }

  /** The ids of `order` that are gone. */
  function Gone<V>(after: map<string, V>, order: seq<string>): seq<string> {
    if order == [] then []
    else
      var id := order[|order| - 1];
      Gone(after, order[..|order| - 1]) + (if id in after then [] else [id])
  }

  function Select<V>(values: map<string, V>, ids: seq<string>): (selected: seq<V>)
    requires forall i :: 0 <= i < |ids| ==> ids[i] in values
    ensures |selected| == |ids|
    ensures forall i :: 0 <= i < |ids| ==> selected[i] == values[ids[i]]
  {
    seq(|ids|, i requires 0 <= i < |ids| && ids[i] in values => values[ids[i]])
  }

  function Upserts<V(==)>(before: map<string, V>, after: map<string, V>): (ids: seq<string>)
    ensures forall i :: 0 <= i < |ids| ==> ids[i] in after
  {
    ChangedMembers(before, after, SortedKeys(after.Keys));
    Changed(before, after, SortedKeys(after.Keys))
  }

  function Removals<V>(before: map<string, V>, after: map<string, V>): seq<string> {
    Gone(after, SortedKeys(before.Keys))
  }

  lemma {:induction false} ChangedMembers<V>(before: map<string, V>, after: map<string, V>, order: seq<string>)
    requires forall i :: 0 <= i < |order| ==> order[i] in after
    ensures forall id :: id in Changed(before, after, order) <==>
      id in order && !(id in before && before[id] == after[id])
    ensures forall i :: 0 <= i < |Changed(before, after, order)| ==> Changed(before, after, order)[i] in after
  {
    if order != [] {
      var initial := order[..|order| - 1];
      ChangedMembers(before, after, initial);
      assert order == initial + [order[|order| - 1]];
    }
  }

  lemma {:induction false} GoneMembers<V>(after: map<string, V>, order: seq<string>)
    ensures forall id :: id in Gone(after, order) <==> id in order && id !in after
  {
    if order != [] {
      var initial := order[..|order| - 1];
      GoneMembers(after, initial);
      assert order == initial + [order[|order| - 1]];
    }
  }

  function Diff(before: Baseline, after: Baseline): DeltaState {
    DeltaState(
      Select(after.entities, Upserts(before.entities, after.entities)),
      Removals(before.entities, after.entities),
      Select(after.flows, Upserts(before.flows, after.flows)),
      Removals(before.flows, after.flows))
  }

  predicate Empty(delta: DeltaState) {
    delta.entityUpserts == [] && delta.entityRemovals == [] && delta.flowUpserts == [] && delta.flowRemovals == []
  }

  /** Exactly the changed and new ids are upserted, exactly the missing ones
      removed, and no id is both. */
  lemma DiffMembers<V>(before: map<string, V>, after: map<string, V>)
    ensures forall id :: id in Upserts(before, after) <==> id in after && !(id in before && before[id] == after[id])
    ensures forall id :: id in Removals(before, after) <==> id in before && id !in after
    ensures forall id :: id in Upserts(before, after) ==> id !in Removals(before, after)
  {
    ChangedMembers(before, after, SortedKeys(after.Keys));
    GoneMembers(after, SortedKeys(before.Keys));
  }

  /** Both lists are in ascending order, without an id twice. */
  lemma DiffAscends<V>(before: map<string, V>, after: map<string, V>)
    ensures Ascending(Upserts(before, after)) && Ascending(Removals(before, after))
  {
    hide SortedKeys, AtMost, Ascending;
    SortedKeysAscend(after.Keys);
    SortedKeysAscend(before.Keys);
    ChangedMembers(before, after, SortedKeys(after.Keys));
    ChangedAscends(before, after, SortedKeys(after.Keys));
    GoneAscends(after, SortedKeys(before.Keys));
  }

  lemma AscendingFront(front: seq<string>, id: string)
    requires Ascending(front + [id])
    ensures Ascending(front) && forall other :: other in front ==> other != id && AtMost(other, id)
  {
    hide AtMost;
    var order := front + [id];
    forall i | 0 <= i < |front| ensures order[i] == front[i] && front[i] != id && AtMost(front[i], id) {
      assert order[i] != order[|front|] && AtMost(order[i], order[|front|]);
    }
  }

  lemma AscendingSnoc(front: seq<string>, id: string)
    requires Ascending(front) && forall other :: other in front ==> other != id && AtMost(other, id)
    ensures Ascending(front + [id])
  {
    hide AtMost;
    forall i | 0 <= i < |front| ensures front[i] in front {
    }
  }

  lemma {:induction false} ChangedAscends<V>(before: map<string, V>, after: map<string, V>, order: seq<string>)
    requires Ascending(order) && forall i :: 0 <= i < |order| ==> order[i] in after
    ensures Ascending(Changed(before, after, order))
  {
    if order != [] {
      var initial, id := order[..|order| - 1], order[|order| - 1];
      assert initial + [id] == order;
      AscendingFront(initial, id);
      hide Ascending, AtMost;
      ChangedAscends(before, after, initial);
      ChangedMembers(before, after, initial);
      AscendingSnoc(Changed(before, after, initial), id);
      assert Changed(before, after, initial) + [] == Changed(before, after, initial);
    }
  }

  lemma {:induction false} GoneAscends<V>(after: map<string, V>, order: seq<string>)
    requires Ascending(order)
    ensures Ascending(Gone(after, order))
  {
    if order != [] {
      var initial, id := order[..|order| - 1], order[|order| - 1];
      assert initial + [id] == order;
      AscendingFront(initial, id);
      hide Ascending, AtMost;
      GoneAscends(after, initial);
      GoneMembers(after, initial);
      AscendingSnoc(Gone(after, initial), id);
      assert Gone(after, initial) + [] == Gone(after, initial);
    }
  }

  lemma NoDifference<V>(before: map<string, V>, after: map<string, V>)
    ensures Upserts(before, after) == [] && Removals(before, after) == [] <==> before == after
  {
    hide Upserts, Removals;
    DiffMembers(before, after);
    var upserts, removals := Upserts(before, after), Removals(before, after);
    if upserts == [] && removals == [] {
      forall id | id in after ensures id in before && before[id] == after[id] {
        assert id !in upserts;
      }
      forall id | id in before ensures id in after {
        assert id !in removals;
      }
    } else if upserts != [] {
      assert upserts[0] in upserts;
    } else {
      assert removals[0] in removals;
    }
  }

  /** `Empty` holds of a difference exactly when nothing changed. */
  lemma DiffIsEmpty(before: Baseline, after: Baseline)
    ensures Empty(Diff(before, after)) <==> before == after
  {
    NoDifference(before.entities, after.entities);
    NoDifference(before.flows, after.flows);
  }

  // ----- What indexing does --------------------------------------------------

  function EntityIdsOf(entities: seq<EntityState>): (ids: seq<string>)
    ensures |ids| == |entities| && forall i :: 0 <= i < |entities| ==> ids[i] == entities[i].entityId
  {
    seq(|entities|, i requires 0 <= i < |entities| => entities[i].entityId)
  }

  lemma {:induction false} IndexEntitiesFrom(indexed: EntityMap, entities: seq<EntityState>)
    ensures IndexEntities(indexed, entities).Some? <==> FitIds(EntityIdsOf(entities), indexed.Keys)
    ensures IndexEntities(indexed, entities).Some? ==>
      FiledUnder(EntityIdsOf(entities), entities, indexed, IndexEntities(indexed, entities).value)
    decreases |entities|
  {
    hide FitIds, FiledUnder;
    var ids := EntityIdsOf(entities);
    if entities == [] {
      NothingFiled(indexed);
      assert ids == [];
    } else {
      var next := indexed[ids[0] := entities[0]];
      FitIdsFirst(ids, indexed.Keys);
      assert next.Keys == indexed.Keys + {ids[0]};
      assert EntityIdsOf(entities[1..]) == ids[1..];
      IndexEntitiesFrom(next, entities[1..]);
      if IndexEntities(indexed, entities).Some? {
        FitIdsFirst(ids, indexed.Keys);
        FiledFirst(ids, entities, indexed, IndexEntities(indexed, entities).value);
      }
    }
  }

  /** A list is fit exactly when its ids are not empty and differ; then each
      record is found under its id, and nothing else is. */
  lemma IndexEntitiesMeans(entities: seq<EntityState>)
    ensures IndexEntities(map[], entities).Some? <==>
      && (forall i :: 0 <= i < |entities| ==> entities[i].entityId != "")
      && (forall i, j :: 0 <= i < j < |entities| ==> entities[i].entityId != entities[j].entityId)
    ensures IndexEntities(map[], entities).Some? ==>
      var indexed := IndexEntities(map[], entities).value;
      && |indexed| == |entities|
      && (forall i :: 0 <= i < |entities| ==>
            entities[i].entityId in indexed && indexed[entities[i].entityId] == entities[i])
      && (forall id :: id in indexed ==> exists i :: 0 <= i < |entities| && entities[i].entityId == id)
  {
    hide IndexEntities;
    IndexEntitiesFrom(map[], entities);
    var ids := EntityIdsOf(entities);
    if IndexEntities(map[], entities).Some? {
      var indexed := IndexEntities(map[], entities).value;
      forall id | id in indexed ensures exists i :: 0 <= i < |entities| && entities[i].entityId == id {
        var i :| 0 <= i < |ids| && ids[i] == id;
        assert entities[i].entityId == id;
      }
    }
  }

  function FlowIdsOf(flows: seq<FlowConfig>): (ids: seq<string>)
    ensures |ids| == |flows| && forall i :: 0 <= i < |flows| ==> ids[i] == flows[i].flowId
  {
    seq(|flows|, i requires 0 <= i < |flows| => flows[i].flowId)
  }

  lemma {:induction false} IndexFlowsFrom(indexed: FlowMap, flows: seq<FlowConfig>)
    ensures IndexFlows(indexed, flows).Some? <==> FitIds(FlowIdsOf(flows), indexed.Keys)
    ensures IndexFlows(indexed, flows).Some? ==>
      FiledUnder(FlowIdsOf(flows), flows, indexed, IndexFlows(indexed, flows).value)
    decreases |flows|
  {
    hide FitIds, FiledUnder;
    var ids := FlowIdsOf(flows);
    if flows == [] {
      NothingFiled(indexed);
      assert ids == [];
    } else {
      var next := indexed[ids[0] := flows[0]];
      FitIdsFirst(ids, indexed.Keys);
      assert next.Keys == indexed.Keys + {ids[0]};
      assert FlowIdsOf(flows[1..]) == ids[1..];
      IndexFlowsFrom(next, flows[1..]);
      if IndexFlows(indexed, flows).Some? {
        FitIdsFirst(ids, indexed.Keys);
        FiledFirst(ids, flows, indexed, IndexFlows(indexed, flows).value);
      }
    }
  }

  /** A list is fit exactly when its ids are not empty and differ; then each
      record is found under its id, and nothing else is. */
  lemma IndexFlowsMeans(flows: seq<FlowConfig>)
    ensures IndexFlows(map[], flows).Some? <==>
      && (forall i :: 0 <= i < |flows| ==> flows[i].flowId != "")
      && (forall i, j :: 0 <= i < j < |flows| ==> flows[i].flowId != flows[j].flowId)
    ensures IndexFlows(map[], flows).Some? ==>
      var indexed := IndexFlows(map[], flows).value;
      && |indexed| == |flows|
      && (forall i :: 0 <= i < |flows| ==> flows[i].flowId in indexed && indexed[flows[i].flowId] == flows[i])
      && (forall id :: id in indexed ==> exists i :: 0 <= i < |flows| && flows[i].flowId == id)
  {
    hide IndexFlows;
    IndexFlowsFrom(map[], flows);
    var ids := FlowIdsOf(flows);
    if IndexFlows(map[], flows).Some? {
      var indexed := IndexFlows(map[], flows).value;
      forall id | id in indexed ensures exists i :: 0 <= i < |flows| && flows[i].flowId == id {
        var i :| 0 <= i < |ids| && ids[i] == id;
        assert flows[i].flowId == id;
      }
    }
  }

  // ----- The object ----------------------------------------------------------

  method IndexAllEntities(values: seq<EntityState>) returns (r: Option<EntityMap>)
    ensures r == IndexEntities(map[], values)
  {
    var indexed: EntityMap := map[];
    for i := 0 to |values|
      invariant IndexEntities(map[], values) == IndexEntities(indexed, values[i..])
    {
      assert values[i..][1..] == values[i + 1..];
      if values[i].entityId == "" || values[i].entityId in indexed {
        return None;
      }
      indexed := indexed[values[i].entityId := values[i]];
    }
    r := Some(indexed);
  }

  method IndexAllFlows(values: seq<FlowConfig>) returns (r: Option<FlowMap>)
    ensures r == IndexFlows(map[], values)
  {
    var indexed: FlowMap := map[];
    for i := 0 to |values|
      invariant IndexFlows(map[], values) == IndexFlows(indexed, values[i..])
    {
      assert values[i..][1..] == values[i + 1..];
      if values[i].flowId == "" || values[i].flowId in indexed {
        return None;
      }
      indexed := indexed[values[i].flowId := values[i]];
    }
    r := Some(indexed);
  }

  class StateDeltaTracker {
    var mEntities: EntityMap
    var mFlows: FlowMap
    var mInitialized: bool

    function View(): Baseline
      reads this
    {
      Baseline(mEntities, mFlows)
    }

    constructor ()
      ensures !mInitialized && View() == Baseline(map[], map[])
    {
      mEntities, mFlows, mInitialized := map[], map[], false;
    }

    /** Not all-or-nothing: a bad flow list is noticed after the entities have
        been replaced. */
    method Reset(entities: seq<EntityState>, flows: seq<FlowConfig>) returns (ok: bool)
      modifies this
      ensures ok == (IndexEntities(map[], entities).Some? && IndexFlows(map[], flows).Some?)
      ensures mInitialized == (ok || old(mInitialized))
      ensures mEntities ==
        if IndexEntities(map[], entities).Some? then IndexEntities(map[], entities).value else old(mEntities)
      ensures mFlows == if ok then IndexFlows(map[], flows).value else old(mFlows)
    {
      var entityIndex := IndexAllEntities(entities);
      if entityIndex.None? {
        return false;
      }
      mEntities := entityIndex.value;
      var flowIndex := IndexAllFlows(flows);
      if flowIndex.None? {
        return false;
      }
      mFlows := flowIndex.value;
      mInitialized := true;
      ok := true;
    }

    /** The changes since the last call; on a bad list nothing is touched. */
    method Update(entities: seq<EntityState>, flows: seq<FlowConfig>) returns (r: Option<DeltaState>)
      modifies this
      ensures r.Some? == (IndexEntities(map[], entities).Some? && IndexFlows(map[], flows).Some?)
      ensures r.None? ==> View() == old(View()) && mInitialized == old(mInitialized)
      ensures r.Some? ==>
        && View() == Baseline(IndexEntities(map[], entities).value, IndexFlows(map[], flows).value)
        && r.value == Diff(old(View()), View())
        && mInitialized
    {
      var entityIndex := IndexAllEntities(entities);
      if entityIndex.None? {
        return None;
      }
      var flowIndex := IndexAllFlows(flows);
      if flowIndex.None? {
        return None;
      }
      var currentEntities, currentFlows := entityIndex.value, flowIndex.value;
      var entityUpserts := ChangedEntities(mEntities, currentEntities, SortedKeys(currentEntities.Keys));
      var entityRemovals := MissingIds(currentEntities, SortedKeys(mEntities.Keys));
      var flowUpserts := ChangedFlows(mFlows, currentFlows, SortedKeys(currentFlows.Keys));
      var flowRemovals := MissingIds(currentFlows, SortedKeys(mFlows.Keys));
      mEntities, mFlows, mInitialized := currentEntities, currentFlows, true;
      r := Some(DeltaState(entityUpserts, entityRemovals, flowUpserts, flowRemovals));
    }
  }

  method ChangedEntities(before: EntityMap, current: EntityMap, order: seq<string>) returns (upserts: seq<EntityState>)
    requires forall i :: 0 <= i < |order| ==> order[i] in current
    ensures forall j :: 0 <= j < |Changed(before, current, order)| ==> Changed(before, current, order)[j] in current
    ensures upserts == Select(current, Changed(before, current, order))
  {
    upserts := [];
    ghost var ids: seq<string> := [];
    for i := 0 to |order|
      invariant ids == Changed(before, current, order[..i]) && |ids| == |upserts|
      invariant forall j :: 0 <= j < |ids| ==> ids[j] in current && upserts[j] == current[ids[j]]
    {
      var id := order[i];
      var same := false;
      if id in before {
        same := SameEntity(before[id], current[id]);
      }
      assert order[..i + 1][..i] == order[..i];
      if !same {
        upserts, ids := upserts + [current[id]], ids + [id];
      }
    }
    assert order[..|order|] == order;
  }

  method ChangedFlows(before: FlowMap, current: FlowMap, order: seq<string>) returns (upserts: seq<FlowConfig>)
    requires forall i :: 0 <= i < |order| ==> order[i] in current
    ensures forall j :: 0 <= j < |Changed(before, current, order)| ==> Changed(before, current, order)[j] in current
    ensures upserts == Select(current, Changed(before, current, order))
  {
    upserts := [];
    ghost var ids: seq<string> := [];
    for i := 0 to |order|
      invariant ids == Changed(before, current, order[..i]) && |ids| == |upserts|
      invariant forall j :: 0 <= j < |ids| ==> ids[j] in current && upserts[j] == current[ids[j]]
    {
      var id := order[i];
      assert order[..i + 1][..i] == order[..i];
      if id !in before || !SameFlow(before[id], current[id]) {
        upserts, ids := upserts + [current[id]], ids + [id];
      }
    }
    assert order[..|order|] == order;
  }

  method MissingIds<V>(current: map<string, V>, order: seq<string>) returns (ids: seq<string>)
    ensures ids == Gone(current, order)
  {
    ids := [];
    for i := 0 to |order|
      invariant ids == Gone(current, order[..i])
    {
      assert order[..i + 1][..i] == order[..i];
      if order[i] !in current {
        ids := ids + [order[i]];
      }
    }
    assert order[..|order|] == order;
  }
}
