/** The client's differences against the service's patching: a difference
    turns a store holding the old state into one holding the new state. */
module DiffPatch {
  import opened Wrappers
  import opened Text
  import opened Json
  import opened Models
  import opened StateStore
  import opened StoreIntegrity
  import opened Protocol
  import opened StateDeltaTracker
  import opened WireFormat

  // ----- One table -----------------------------------------------------------

  function ObjectsOf(target: Table, ids: seq<string>): (items: seq<Json>)
    requires forall i :: 0 <= i < |ids| ==> ids[i] in target
    ensures |items| == |ids|
    ensures forall i :: 0 <= i < |ids| ==> items[i] == Obj(target[ids[i]])
  {
    seq(|ids|, i requires 0 <= i < |ids| && ids[i] in target => Obj(target[ids[i]]))
  }

  /** Upserting `id` with its target value makes the table hold that value. */
  ghost predicate Replaces(kind: Kind, table: Table, target: Table, id: string) {
    && id != "" && id in target && Valid(kind, target[id])
    && Get(target[id], IdKey(kind)) == Str(id)
    && Merge(kind, target[id], target[id]) == target[id]
    && (id in table ==> Merge(kind, table[id], target[id]) == target[id])
  }

  lemma {:induction false} RemovalsRemove(table: Table, ids: seq<string>)
    requires forall id :: id in ids ==> id != ""
    ensures RemoveAll(table, Strings(ids)) == Some(table - (set id | id in ids))
    decreases |ids|
  {
    hide Strings;
    var all := set id | id in ids;
    if ids == [] {
      assert table - all == table;
    } else {
      var rest := set id | id in ids[1..];
      assert ids[0] in ids && forall id :: id in ids[1..] ==> id in ids;
      assert Strings(ids)[1..] == Strings(ids[1..]);
      RemovalsRemove(table - {ids[0]}, ids[1..]);
      assert all == {ids[0]} + rest;
      assert table - {ids[0]} - rest == table - all;
    }
  }

  lemma UpsertReplaces(kind: Kind, table: Table, target: Table, id: string)
    requires Replaces(kind, table, target, id)
    ensures Upsert(kind, table, Obj(target[id])) == Some(table[id := target[id]])
  {
    hide Valid, Merge;
  }

  lemma {:induction false} UpsertsReach(kind: Kind, table: Table, target: Table, ids: seq<string>)
    requires forall i :: 0 <= i < |ids| ==> ids[i] in target && Replaces(kind, table, target, ids[i])
    requires forall id :: id in target ==> id in ids || (id in table && table[id] == target[id])
    requires table.Keys <= target.Keys
    ensures UpsertAll(kind, table, ObjectsOf(target, ids)) == Some(target)
    decreases |ids|
  {
    hide Valid, Merge, Upsert, IdKey;
    if ids == [] {
      assert table == target;
    } else {
      var id := ids[0];
      var next := table[id := target[id]];
      var items := ObjectsOf(target, ids);
      UpsertReplaces(kind, table, target, id);
      assert items[1..] == ObjectsOf(target, ids[1..]);
      forall i | 0 <= i < |ids| - 1 ensures Replaces(kind, next, target, ids[1..][i]) {
        assert Replaces(kind, table, target, ids[i + 1]);
      }
      forall other | other in target && other !in ids[1..] ensures other in next && next[other] == target[other] {
        assert other in ids ==> other == id;
      }
      UpsertsReach(kind, next, target, ids[1..]);
    }
  }

  lemma PatchReaches(kind: Kind, table: Table, target: Table, removals: seq<string>, upserts: seq<string>)
    requires forall id :: id in removals ==> id != "" && id !in target
    requires forall i :: 0 <= i < |upserts| ==> upserts[i] in target && Replaces(kind, table, target, upserts[i])
    requires forall id :: id in target ==> id in upserts || (id in table && table[id] == target[id])
    requires forall id :: id in table ==> id in target || id in removals
    ensures Patch(kind, table, Strings(removals), ObjectsOf(target, upserts)) == Some(target)
  {
    hide Valid, Merge, UpsertAll, RemoveAll, IdKey;
    var gone := set id | id in removals;
    var kept := table - gone;
    RemovalsRemove(table, removals);
    forall i | 0 <= i < |upserts| ensures Replaces(kind, kept, target, upserts[i]) {
      assert Replaces(kind, table, target, upserts[i]);
    }
    forall id | id in target ensures id in upserts || (id in kept && kept[id] == target[id]) {}
    UpsertsReach(kind, kept, target, upserts);
  }

  // ----- The client's state as the service stores it -------------------------

  function EntityTable(entities: EntityMap): Table {
    map id | id in entities :: EntityObject(entities[id])
  }

  function FlowTable(flows: FlowMap): Table {
    map id | id in flows :: FlowObject(flows[id])
  }

  /** Every key is its record's id and is trimmed, and every record is one that
      the service accepts. */
  ghost predicate ProperEntities(entities: EntityMap) {
    forall id :: id in entities ==> Trimmed(id) && entities[id].entityId == id && WellFormedEntity(entities[id])
  }

  ghost predicate ProperFlows(flows: FlowMap) {
    forall id :: id in flows ==> Trimmed(id) && flows[id].flowId == id && WellFormedFlow(flows[id])
  }

  /** A state the client may submit: proper records that mention only entities
      of the same state. */
  ghost predicate Proper(state: Baseline) {
    && ProperEntities(state.entities)
    && ProperFlows(state.flows)
    && (forall id :: id in state.entities ==> EntityRefersTo(state.entities[id], state.entities.Keys))
    && (forall id :: id in state.flows ==> FlowRefersTo(state.flows[id], state.entities.Keys))
  }

  ghost predicate Holds(store: Store, state: Baseline) {
    store.initialized && store.entities == EntityTable(state.entities) && store.flows == FlowTable(state.flows)
  }

  lemma ProperResolves(state: Baseline)
    requires Proper(state)
    ensures ReferencesResolve(EntityTable(state.entities), FlowTable(state.flows))
  {
    var entities, flows := EntityTable(state.entities), FlowTable(state.flows);
    assert entities.Keys == state.entities.Keys;
    forall id | id in entities ensures RawEntityResolves(entities[id], entities.Keys) {
      EntityReferences(state.entities[id], entities.Keys);
    }
    forall id | id in flows ensures RawFlowResolves(flows[id], entities.Keys) {
      FlowReferences(state.flows[id], entities.Keys);
    }
  }

  /** `held` is the old or the new state as far as the difference can tell:
      unchanged ids have their new value, and no unknown id is held. */
  ghost predicate Between<V>(held: map<string, V>, before: map<string, V>, after: map<string, V>) {
    && held.Keys <= before.Keys + after.Keys
    && (forall id :: id in after && id !in Upserts(before, after) ==> id in held && held[id] == after[id])
  }

  lemma EntityReplaces(held: EntityMap, after: EntityMap, id: string)
    requires ProperEntities(after) && id in after
    ensures Replaces(EntityKind, EntityTable(held), EntityTable(after), id)
  {
    hide Valid, Merge, EntityObject, WellFormedEntity, Strip;
    EntityAccepted(after[id]);
    EntityUpdateReplaces(after[id], after[id]);
    if id in held {
      EntityUpdateReplaces(held[id], after[id]);
    }
  }

  lemma FlowReplaces(held: FlowMap, after: FlowMap, id: string)
    requires ProperFlows(after) && id in after
    ensures Replaces(FlowKind, FlowTable(held), FlowTable(after), id)
  {
    hide Valid, Merge, FlowObject, WellFormedFlow, Strip;
    FlowAccepted(after[id]);
    FlowUpdateReplaces(after[id], after[id]);
    if id in held {
      FlowUpdateReplaces(held[id], after[id]);
    }
  }

  lemma EntityPatch(held: EntityMap, before: EntityMap, after: EntityMap)
    requires Between(held, before, after) && ProperEntities(before) && ProperEntities(after)
    ensures Patch(EntityKind, EntityTable(held), Strings(Removals(before, after)),
                  EntityObjects(Select(after, Upserts(before, after)))) == Some(EntityTable(after))
  {
    hide Replaces, EntityObject, FlowObject, WellFormedEntity, WellFormedFlow, Upserts, Removals, Patch;
    DiffMembers(before, after);
    var table, target, upserts := EntityTable(held), EntityTable(after), Upserts(before, after);
    forall i | 0 <= i < |upserts| ensures Replaces(EntityKind, table, target, upserts[i]) {
      EntityReplaces(held, after, upserts[i]);
    }
    PatchReaches(EntityKind, table, target, Removals(before, after), upserts);
    assert ObjectsOf(target, upserts) == EntityObjects(Select(after, upserts));
  }

  lemma FlowPatch(held: FlowMap, before: FlowMap, after: FlowMap)
    requires Between(held, before, after) && ProperFlows(before) && ProperFlows(after)
    ensures Patch(FlowKind, FlowTable(held), Strings(Removals(before, after)),
                  FlowObjects(Select(after, Upserts(before, after)))) == Some(FlowTable(after))
  {
    hide Replaces, EntityObject, FlowObject, WellFormedEntity, WellFormedFlow, Upserts, Removals, Patch;
    DiffMembers(before, after);
    var table, target, upserts := FlowTable(held), FlowTable(after), Upserts(before, after);
    forall i | 0 <= i < |upserts| ensures Replaces(FlowKind, table, target, upserts[i]) {
      FlowReplaces(held, after, upserts[i]);
    }
    PatchReaches(FlowKind, table, target, Removals(before, after), upserts);
    assert ObjectsOf(target, upserts) == FlowObjects(Select(after, upserts));
  }

  lemma DiffFields(before: Baseline, after: Baseline)
    ensures Diff(before, after).entityUpserts == Select(after.entities, Upserts(before.entities, after.entities))
    ensures Diff(before, after).entityRemovals == Removals(before.entities, after.entities)
    ensures Diff(before, after).flowUpserts == Select(after.flows, Upserts(before.flows, after.flows))
    ensures Diff(before, after).flowRemovals == Removals(before.flows, after.flows)
  {
  }

  lemma DeltaMembers(requestId: string, timestampMs: nat, delta: DeltaState)
    ensures var d := DeltaPayload(requestId, timestampMs, delta);
      && GetList(d, Name.EntityUpserts) == Arr(EntityObjects(delta.entityUpserts))
      && GetList(d, Name.EntityRemovals) == Arr(Strings(delta.entityRemovals))
      && GetList(d, Name.FlowUpserts) == Arr(FlowObjects(delta.flowUpserts))
      && GetList(d, Name.FlowRemovals) == Arr(Strings(delta.flowRemovals))
  {
  }

  /** Patching: the message with the difference from `before` to `after`,
      applied to a store that holds `held`, is accepted and leaves `after`. */
  lemma DeltaApplies(
    store: Store, held: Baseline, before: Baseline, after: Baseline, requestId: string, timestampMs: nat)
    requires Holds(store, held) && store.timestampMs <= timestampMs
    requires Between(held.entities, before.entities, after.entities)
    requires Between(held.flows, before.flows, after.flows)
    requires Proper(before) && Proper(after)
    ensures ApplyDelta(store, DeltaPayload(requestId, timestampMs, Diff(before, after)), timestampMs)
         == Some(Store(EntityTable(after.entities), FlowTable(after.flows), timestampMs, store.revision + 1, true))
  {
    hide DeltaPayload, Patch, Diff, ReferencesResolve, EntityTable, FlowTable, ProperEntities, ProperFlows, Between,
      Upserts, Removals, Select, EntityObjects, FlowObjects, Strings, EntityRefersTo, FlowRefersTo;
    DeltaMembers(requestId, timestampMs, Diff(before, after));
    DiffFields(before, after);
    EntityPatch(held.entities, before.entities, after.entities);
    FlowPatch(held.flows, before.flows, after.flows);
    ProperResolves(after);
  }

  /** The difference takes the old state to the new one, and applying it again
      changes nothing more. */
  lemma DeltaAppliesTwice(store: Store, before: Baseline, after: Baseline, requestId: string, timestampMs: nat)
    requires Holds(store, before) && store.timestampMs <= timestampMs && Proper(before) && Proper(after)
    ensures var payload := DeltaPayload(requestId, timestampMs, Diff(before, after));
      var once := ApplyDelta(store, payload, timestampMs);
      && once.Some? && Holds(once.value, after)
      && ApplyDelta(once.value, payload, timestampMs) == Some(once.value.(revision := once.value.revision + 1))
  {
    hide DeltaPayload, ApplyDelta, Proper, EntityTable, FlowTable, Upserts, Removals, SortedKeys;
    DiffMembers(before.entities, after.entities);
    DiffMembers(before.flows, after.flows);
    DeltaApplies(store, before, before, after, requestId, timestampMs);
    var once := ApplyDelta(store, DeltaPayload(requestId, timestampMs, Diff(before, after)), timestampMs).value;
    DeltaApplies(once, after, before, after, requestId, timestampMs);
  }

  // ----- Full messages -------------------------------------------------------

  lemma NothingToIndex(kind: Kind, table: Table)
    ensures IndexFrom(kind, table, []) == Some(table)
  {
  }

  lemma IndexOne(kind: Kind, table: Table, items: seq<Json>, id: string)
    requires items != [] && items[0].Obj? && Valid(kind, items[0].fields)
    requires Get(items[0].fields, IdKey(kind)) == Str(id) && Trimmed(id) && id !in table
    ensures IndexFrom(kind, table, items) == IndexFrom(kind, table[id := items[0].fields], items[1..])
  {
    hide ValidEntity, ValidFlow, Strip;
  }

  /** What an indexing of the client and one of the service have in common. */
  lemma {:induction false} EntityIndex(indexed: EntityMap, values: seq<EntityState>)
    requires ProperEntities(indexed)
    requires IndexEntities(indexed, values).Some? && ProperEntities(IndexEntities(indexed, values).value)
    ensures IndexFrom(EntityKind, EntityTable(indexed), EntityObjects(values))
         == Some(EntityTable(IndexEntities(indexed, values).value))
    decreases |values|
  {
    hide Valid, EntityObject, FlowObject, WellFormedEntity, WellFormedFlow, Strip, IndexFrom;
    if values == [] {
      NothingToIndex(EntityKind, EntityTable(indexed));
    } else {
      var id := values[0].entityId;
      var next := indexed[id := values[0]];
      IndexedEntitiesKept(next, values[1..]);
      assert IndexEntities(indexed, values).value[id] == values[0];
      EntityAccepted(values[0]);
      var items := EntityObjects(values);
      assert items[1..] == EntityObjects(values[1..]);
      assert EntityTable(next) == EntityTable(indexed)[id := EntityObject(values[0])];
      IndexOne(EntityKind, EntityTable(indexed), items, id);
      EntityIndex(next, values[1..]);
    }
  }

  lemma {:induction false} IndexedEntitiesKept(indexed: EntityMap, values: seq<EntityState>)
    requires IndexEntities(indexed, values).Some?
    ensures forall id :: id in indexed ==>
      id in IndexEntities(indexed, values).value && IndexEntities(indexed, values).value[id] == indexed[id]
    decreases |values|
  {
    if values != [] {
      IndexedEntitiesKept(indexed[values[0].entityId := values[0]], values[1..]);
    }
  }

  lemma {:induction false} FlowIndex(indexed: FlowMap, values: seq<FlowConfig>)
    requires ProperFlows(indexed)
    requires IndexFlows(indexed, values).Some? && ProperFlows(IndexFlows(indexed, values).value)
    ensures IndexFrom(FlowKind, FlowTable(indexed), FlowObjects(values))
         == Some(FlowTable(IndexFlows(indexed, values).value))
    decreases |values|
  {
    hide Valid, EntityObject, FlowObject, WellFormedEntity, WellFormedFlow, Strip, IndexFrom;
    if values == [] {
      NothingToIndex(FlowKind, FlowTable(indexed));
    } else {
      var id := values[0].flowId;
      var next := indexed[id := values[0]];
      IndexedFlowsKept(next, values[1..]);
      assert IndexFlows(indexed, values).value[id] == values[0];
      FlowAccepted(values[0]);
      var items := FlowObjects(values);
      assert items[1..] == FlowObjects(values[1..]);
      assert FlowTable(next) == FlowTable(indexed)[id := FlowObject(values[0])];
      IndexOne(FlowKind, FlowTable(indexed), items, id);
      FlowIndex(next, values[1..]);
    }
  }

  lemma {:induction false} IndexedFlowsKept(indexed: FlowMap, values: seq<FlowConfig>)
    requires IndexFlows(indexed, values).Some?
    ensures forall id :: id in indexed ==>
      id in IndexFlows(indexed, values).value && IndexFlows(indexed, values).value[id] == indexed[id]
    decreases |values|
  {
    if values != [] {
      IndexedFlowsKept(indexed[values[0].flowId := values[0]], values[1..]);
    }
  }

  /** The state that the lists of a submission describe, if their ids are fit. */
  function StateOf(entities: seq<EntityState>, flows: seq<FlowConfig>): Option<Baseline> {
    var entityMap :- IndexEntities(map[], entities);
    var flowMap :- IndexFlows(map[], flows);
    Some(Baseline(entityMap, flowMap))
  }

  lemma InitMembers(requestId: string, timestampMs: nat, entities: seq<EntityState>, flows: seq<FlowConfig>)
    ensures var d := InitPayload(requestId, timestampMs, entities, flows);
      && Get(d, Name.Entities) == Arr(EntityObjects(entities))
      && Get(d, Name.Flows) == Arr(FlowObjects(flows))
  {
  }

  /** A full message makes any store hold the submitted state. */
  lemma InitApplies(
    store: Store, entities: seq<EntityState>, flows: seq<FlowConfig>, requestId: string, timestampMs: nat)
    requires StateOf(entities, flows).Some? && Proper(StateOf(entities, flows).value)
    ensures var state := StateOf(entities, flows).value;
      Initialize(store, InitPayload(requestId, timestampMs, entities, flows), timestampMs)
      == Some(Store(EntityTable(state.entities), FlowTable(state.flows), timestampMs, store.revision + 1, true))
  {
    hide InitPayload, ReferencesResolve, IndexFrom, IndexEntities, IndexFlows;
    var state := StateOf(entities, flows).value;
    InitMembers(requestId, timestampMs, entities, flows);
    assert EntityTable(map[]) == map[] && FlowTable(map[]) == map[];
    EntityIndex(map[], entities);
    FlowIndex(map[], flows);
    ProperResolves(state);
  }
}
