/** Ids with spaces around them. A full message files a record under its stripped
    id, a change or a removal takes the id as it stands: exactly when the service
    keeps the client's ids, and what becomes of the others. */
module UntrimmedIds {
  import opened Wrappers
  import opened Text
  import opened Json
  import opened Models
  import opened StateStore
  import opened Protocol
  import opened StateDeltaTracker
  import opened WireFormat
  import opened DiffPatch

  // ----- One table ----------------------------------------------------------------------

  /** The ids as a full message files them. */
  function Stripped(ids: set<string>): set<string> {
    set id | id in ids :: Strip(id)
  }

  /** Every record is acceptable. */
  ghost predicate AllAccepted(kind: Kind, given: Table) {
    forall id :: id in given ==> Valid(kind, given[id])
  }

  /** Every record carries its key as its id. */
  ghost predicate CarriesIds(kind: Kind, given: Table) {
    forall id :: id in given ==> id != "" && Get(given[id], IdKey(kind)) == Str(id)
  }

  /** The records of `given`, filed under their stripped ids. */
  ghost predicate Filed(table: Table, given: Table) {
    && table.Keys == Stripped(given.Keys)
    && (forall id :: id in given ==> Strip(id) in table && table[Strip(id)] == given[id])
  }

  ghost predicate AllTrimmed<V>(values: map<string, V>) {
    forall id :: id in values ==> Strip(id) == id
  }

  lemma ParsedIsStripped(kind: Kind, given: Table, id: string)
    requires CarriesIds(kind, given) && id in given && Valid(kind, given[id])
    ensures ParsedId(kind, given[id]) == Strip(id)
  {
    hide ValidEntity, ValidFlow, Strip;
  }

  function StrippedList(ids: seq<string>): set<string> {
    if ids == [] then {} else {Strip(ids[0])} + StrippedList(ids[1..])
  }

  lemma {:induction false} StrippedListIs(ids: seq<string>)
    ensures StrippedList(ids) == Stripped(set id | id in ids)
  {
    hide Strip;
    if ids != [] {
      StrippedListIs(ids[1..]);
      assert (set id | id in ids) == {ids[0]} + (set id | id in ids[1..]);
    }
  }

  lemma IndexFirst(kind: Kind, start: Table, given: Table, ids: seq<string>)
    requires CarriesIds(kind, given) && ids != [] && forall i :: 0 <= i < |ids| ==> ids[i] in given
    requires IndexFrom(kind, start, ObjectsOf(given, ids)).Some?
    ensures Valid(kind, given[ids[0]]) && Strip(ids[0]) !in start
    ensures IndexFrom(kind, start, ObjectsOf(given, ids))
         == IndexFrom(kind, start[Strip(ids[0]) := given[ids[0]]], ObjectsOf(given, ids[1..]))
  {
    hide ValidEntity, ValidFlow, Strip, CarriesIds;
    var items := ObjectsOf(given, ids);
    assert items[1..] == ObjectsOf(given, ids[1..]);
    assert Valid(kind, given[ids[0]]);
    ParsedIsStripped(kind, given, ids[0]);
  }

  /** Indexing the records with the given ids, when it is accepted. */
  lemma {:induction false} IndexFiles(kind: Kind, start: Table, given: Table, ids: seq<string>)
    requires CarriesIds(kind, given) && forall i :: 0 <= i < |ids| ==> ids[i] in given
    requires IndexFrom(kind, start, ObjectsOf(given, ids)).Some?
    ensures var table := IndexFrom(kind, start, ObjectsOf(given, ids)).value;
      && table.Keys == start.Keys + StrippedList(ids)
      && (forall key :: key in start ==> key in table && table[key] == start[key])
      && (forall i :: 0 <= i < |ids| ==>
            Valid(kind, given[ids[i]]) && Strip(ids[i]) in table && table[Strip(ids[i])] == given[ids[i]])
    decreases |ids|
  {
    hide Valid, Strip, CarriesIds, IndexFrom;
    if ids == [] {
      NothingToIndex(kind, start);
      assert ObjectsOf(given, ids) == [];
    } else {
      var rest := ids[1..];
      IndexFirst(kind, start, given, ids);
      IndexFiles(kind, start[Strip(ids[0]) := given[ids[0]]], given, rest);
      forall i | 0 < i < |ids| ensures ids[i] == rest[i - 1] {}
    }
  }

  /** An accepted list files its records under their stripped ids. */
  lemma AcceptedIsFiled(kind: Kind, given: Table, ids: seq<string>)
    requires CarriesIds(kind, given) && forall id :: id in ids <==> id in given
    requires IndexFrom(kind, map[], ObjectsOf(given, ids)).Some?
    ensures AllAccepted(kind, given) && Filed(IndexFrom(kind, map[], ObjectsOf(given, ids)).value, given)
  {
    hide Valid, Strip, IndexFrom, CarriesIds;
    IndexFiles(kind, map[], given, ids);
    StrippedListIs(ids);
    assert (set id | id in ids) == given.Keys;
    forall id | id in given
      ensures var table := IndexFrom(kind, map[], ObjectsOf(given, ids)).value;
        Valid(kind, given[id]) && Strip(id) in table && table[Strip(id)] == given[id]
    {
      assert id in ids;
      var i :| 0 <= i < |ids| && ids[i] == id;
    }
  }

  lemma StrippedIsSameIffTrimmed(ids: set<string>)
    ensures Stripped(ids) == ids <==> forall id :: id in ids ==> Strip(id) == id
  {
    hide Strip;
    if Stripped(ids) == ids {
      forall id | id in ids ensures Strip(id) == id {
        assert id in Stripped(ids);
        var other :| other in ids && Strip(other) == id;
        StripIdempotent(other);
      }
    }
  }

  /** Filing keeps the table as it is exactly when no key has spaces around it. */
  lemma FiledIsSameIffTrimmed(table: Table, given: Table)
    requires Filed(table, given)
    ensures table == given <==> AllTrimmed(given)
  {
    hide Strip, Stripped;
    StrippedIsSameIffTrimmed(given.Keys);
    if AllTrimmed(given) {
      assert table.Keys == given.Keys;
      forall id | id in table ensures table[id] == given[id] {
        assert Strip(id) == id;
      }
    }
  }

  // ----- The table after a difference ------------------------------------------------------

  /** Removals go by the ids as they stand, and so do upserts. */
  function Patched(table: Table, after: Table, removals: set<string>, upserts: set<string>): Table
    requires upserts <= after.Keys
  {
    map id | id in (table.Keys - removals) + upserts :: if id in upserts then after[id] else table[id]
  }

  lemma PatchIsPatched(kind: Kind, table: Table, after: Table, removals: seq<string>, upserts: seq<string>,
                       dropped: set<string>, renewed: set<string>)
    requires forall id :: id in removals <==> id in dropped
    requires forall id :: id in upserts <==> id in renewed
    requires renewed <= after.Keys && forall id :: id in dropped ==> id != "" && id !in after
    requires forall id :: id in renewed ==> Replaces(kind, table, Patched(table, after, dropped, renewed), id)
    ensures Patch(kind, table, Strings(removals), ObjectsOf(after, upserts))
      == Some(Patched(table, after, dropped, renewed))
  {
    hide Replaces, Patch;
    var target := Patched(table, after, dropped, renewed);
    PatchReaches(kind, table, target, removals, upserts);
    assert ObjectsOf(target, upserts) == ObjectsOf(after, upserts);
  }

  // ----- The client's lists -------------------------------------------------------------------

  /** Every key is its record's id. */
  ghost predicate OwnIds(state: Baseline) {
    && (forall id :: id in state.entities ==> id != "" && state.entities[id].entityId == id)
    && (forall id :: id in state.flows ==> id != "" && state.flows[id].flowId == id)
  }

  lemma EntitiesCarryIds(entities: EntityMap)
    requires forall id :: id in entities ==> id != "" && entities[id].entityId == id
    ensures CarriesIds(EntityKind, EntityTable(entities))
  {
    hide EntityObject, Valid, WellFormedEntity;
    forall id | id in entities ensures Get(EntityObject(entities[id]), Name.EntityId) == Str(id) {
      EntityAccepted(entities[id]);
    }
  }

  lemma FlowsCarryIds(flows: FlowMap)
    requires forall id :: id in flows ==> id != "" && flows[id].flowId == id
    ensures CarriesIds(FlowKind, FlowTable(flows))
  {
    hide FlowObject, Valid, WellFormedFlow;
    forall id | id in flows ensures Get(FlowObject(flows[id]), Name.FlowId) == Str(id) {
      FlowAccepted(flows[id]);
    }
  }

  lemma EntitiesListed(entities: seq<EntityState>)
    requires IndexEntities(map[], entities).Some?
    ensures var all, ids := IndexEntities(map[], entities).value, EntityIdsOf(entities);
      && (forall id :: id in ids <==> id in all)
      && (forall id :: id in all ==> id != "" && all[id].entityId == id)
      && EntityObjects(entities) == ObjectsOf(EntityTable(all), ids)
  {
    hide EntityObject, IndexEntities;
    IndexEntitiesMeans(entities);
    var all, ids := IndexEntities(map[], entities).value, EntityIdsOf(entities);
    forall id | id in all ensures id in ids && id != "" && all[id].entityId == id {
      var i :| 0 <= i < |entities| && entities[i].entityId == id;
      assert ids[i] == id;
    }
  }

  lemma FlowsListed(flows: seq<FlowConfig>)
    requires IndexFlows(map[], flows).Some?
    ensures var all, ids := IndexFlows(map[], flows).value, FlowIdsOf(flows);
      && (forall id :: id in ids <==> id in all)
      && (forall id :: id in all ==> id != "" && all[id].flowId == id)
      && FlowObjects(flows) == ObjectsOf(FlowTable(all), ids)
  {
    hide FlowObject, IndexFlows;
    IndexFlowsMeans(flows);
    var all, ids := IndexFlows(map[], flows).value, FlowIdsOf(flows);
    forall id | id in all ensures id in ids && id != "" && all[id].flowId == id {
      var i :| 0 <= i < |flows| && flows[i].flowId == id;
      assert ids[i] == id;
    }
  }

  // ----- Full messages ----------------------------------------------------------------------------

  /** The store after a full message that was accepted: the submitted records
      under their stripped ids. */
  ghost predicate FiledStore(store: Store, state: Baseline) {
    && store.initialized && OwnIds(state)
    && AllAccepted(EntityKind, EntityTable(state.entities)) && AllAccepted(FlowKind, FlowTable(state.flows))
    && Filed(store.entities, EntityTable(state.entities)) && Filed(store.flows, FlowTable(state.flows))
    && ReferencesResolve(store.entities, store.flows)
  }

  lemma AcceptedInitIsFiled(
    store: Store, entities: seq<EntityState>, flows: seq<FlowConfig>, requestId: string, timestampMs: nat)
    requires StateOf(entities, flows).Some?
    requires Initialize(store, InitPayload(requestId, timestampMs, entities, flows), timestampMs).Some?
    ensures FiledStore(Initialize(store, InitPayload(requestId, timestampMs, entities, flows), timestampMs).value,
                       StateOf(entities, flows).value)
  {
    hide InitPayload, IndexFrom, ReferencesResolve, AllAccepted, Filed, CarriesIds, EntityTable, FlowTable,
      EntityObjects, FlowObjects, IndexEntities, IndexFlows;
    InitMembers(requestId, timestampMs, entities, flows);
    var state := StateOf(entities, flows).value;
    EntitiesListed(entities);
    FlowsListed(flows);
    EntitiesCarryIds(state.entities);
    FlowsCarryIds(state.flows);
    TableKeys(state);
    AcceptedIsFiled(EntityKind, EntityTable(state.entities), EntityIdsOf(entities));
    AcceptedIsFiled(FlowKind, FlowTable(state.flows), FlowIdsOf(flows));
  }

  lemma TableKeys(state: Baseline)
    ensures EntityTable(state.entities).Keys == state.entities.Keys
    ensures FlowTable(state.flows).Keys == state.flows.Keys
  {
    hide EntityObject, FlowObject;
  }

  /** A full message that is accepted leaves the client's state, under the
      client's ids, if and only if no entity id and no flow id has spaces
      around it. */
  lemma IdsKeptIffTrimmed(
    store: Store, entities: seq<EntityState>, flows: seq<FlowConfig>, requestId: string, timestampMs: nat)
    requires StateOf(entities, flows).Some?
    requires Initialize(store, InitPayload(requestId, timestampMs, entities, flows), timestampMs).Some?
    ensures var state := StateOf(entities, flows).value;
      Holds(Initialize(store, InitPayload(requestId, timestampMs, entities, flows), timestampMs).value, state)
      <==> AllTrimmed(state.entities) && AllTrimmed(state.flows)
  {
    AcceptedInitIsFiled(store, entities, flows, requestId, timestampMs);
    hide Initialize, StateOf, InitPayload, ReferencesResolve, AllAccepted, Filed, OwnIds, Strip, EntityTable,
      FlowTable;
    var state := StateOf(entities, flows).value;
    var next := Initialize(store, InitPayload(requestId, timestampMs, entities, flows), timestampMs).value;
    TableKeys(state);
    FiledIsSameIffTrimmed(next.entities, EntityTable(state.entities));
    FiledIsSameIffTrimmed(next.flows, FlowTable(state.flows));
  }

  // ----- Changes after it ----------------------------------------------------------------------------

  function Dropped<V>(before: map<string, V>, after: map<string, V>): set<string> {
    set id | id in before && id !in after
  }

  function Renewed<V(==)>(before: map<string, V>, after: map<string, V>): set<string> {
    set id | id in after && !(id in before && before[id] == after[id])
  }

  function PatchedEntities(store: Store, before: Baseline, after: Baseline): Table {
    Patched(store.entities, EntityTable(after.entities), Dropped(before.entities, after.entities),
            Renewed(before.entities, after.entities))
  }

  function PatchedFlows(store: Store, before: Baseline, after: Baseline): Table {
    Patched(store.flows, FlowTable(after.flows), Dropped(before.flows, after.flows), Renewed(before.flows, after.flows))
  }

  /** A state whose records the service accepts one by one. */
  ghost predicate Acceptable(state: Baseline) {
    && OwnIds(state)
    && (forall id :: id in state.entities ==> WellFormedEntity(state.entities[id]))
    && (forall id :: id in state.flows ==> WellFormedFlow(state.flows[id]))
  }

  lemma RenewedEntityReplaces(store: Store, before: Baseline, after: Baseline, id: string)
    requires FiledStore(store, before) && Acceptable(after) && id in Renewed(before.entities, after.entities)
    ensures Replaces(EntityKind, store.entities, PatchedEntities(store, before, after), id)
  {
    hide Valid, Merge, EntityObject, WellFormedEntity, ReferencesResolve, AllAccepted, Strip;
    EntityAccepted(after.entities[id]);
    EntityUpdateReplaces(after.entities[id], after.entities[id]);
    if id in store.entities {
      var held :| held in before.entities && Strip(held) == id;
      EntityUpdateReplaces(before.entities[held], after.entities[id]);
      assert store.entities[Strip(held)] == EntityTable(before.entities)[held];
    }
  }

  lemma RenewedFlowReplaces(store: Store, before: Baseline, after: Baseline, id: string)
    requires FiledStore(store, before) && Acceptable(after) && id in Renewed(before.flows, after.flows)
    ensures Replaces(FlowKind, store.flows, PatchedFlows(store, before, after), id)
  {
    hide Valid, Merge, FlowObject, WellFormedFlow, ReferencesResolve, AllAccepted, Strip;
    FlowAccepted(after.flows[id]);
    FlowUpdateReplaces(after.flows[id], after.flows[id]);
    if id in store.flows {
      var held :| held in before.flows && Strip(held) == id;
      FlowUpdateReplaces(before.flows[held], after.flows[id]);
      assert store.flows[Strip(held)] == FlowTable(before.flows)[held];
    }
  }

  lemma EntityPatchOfFiled(store: Store, before: Baseline, after: Baseline)
    requires FiledStore(store, before) && Acceptable(after)
    ensures Patch(EntityKind, store.entities, Strings(Removals(before.entities, after.entities)),
                  EntityObjects(Select(after.entities, Upserts(before.entities, after.entities))))
         == Some(PatchedEntities(store, before, after))
  {
    hide Patch, Patched, Filed, AllAccepted, ReferencesResolve, Removals, Upserts, EntityObject, Replaces;
    var removals, upserts := Removals(before.entities, after.entities), Upserts(before.entities, after.entities);
    var dropped, renewed := Dropped(before.entities, after.entities), Renewed(before.entities, after.entities);
    DiffMembers(before.entities, after.entities);
    forall id | id in renewed ensures Replaces(EntityKind, store.entities, PatchedEntities(store, before, after), id) {
      RenewedEntityReplaces(store, before, after, id);
    }
    PatchIsPatched(EntityKind, store.entities, EntityTable(after.entities), removals, upserts, dropped, renewed);
    assert ObjectsOf(EntityTable(after.entities), upserts) == EntityObjects(Select(after.entities, upserts));
  }

  lemma FlowPatchOfFiled(store: Store, before: Baseline, after: Baseline)
    requires FiledStore(store, before) && Acceptable(after)
    ensures Patch(FlowKind, store.flows, Strings(Removals(before.flows, after.flows)),
                  FlowObjects(Select(after.flows, Upserts(before.flows, after.flows))))
         == Some(PatchedFlows(store, before, after))
  {
    hide Patch, Patched, Filed, AllAccepted, ReferencesResolve, Removals, Upserts, FlowObject, Replaces;
    var removals, upserts := Removals(before.flows, after.flows), Upserts(before.flows, after.flows);
    var dropped, renewed := Dropped(before.flows, after.flows), Renewed(before.flows, after.flows);
    DiffMembers(before.flows, after.flows);
    forall id | id in renewed ensures Replaces(FlowKind, store.flows, PatchedFlows(store, before, after), id) {
      RenewedFlowReplaces(store, before, after, id);
    }
    PatchIsPatched(FlowKind, store.flows, FlowTable(after.flows), removals, upserts, dropped, renewed);
    assert ObjectsOf(FlowTable(after.flows), upserts) == FlowObjects(Select(after.flows, upserts));
  }

  /** What the next message of changes does to such a store, for any later state:
      it is accepted exactly when the references still resolve, and its removals
      and upserts go by the ids as they stand. */
  lemma DeltaAfterFiled(store: Store, before: Baseline, after: Baseline, requestId: string, timestampMs: nat)
    requires FiledStore(store, before) && store.timestampMs <= timestampMs
    requires Acceptable(after)
    ensures var entities, flows := PatchedEntities(store, before, after), PatchedFlows(store, before, after);
      ApplyDelta(store, DeltaPayload(requestId, timestampMs, Diff(before, after)), timestampMs)
      == if ReferencesResolve(entities, flows) then Some(Store(entities, flows, timestampMs, store.revision + 1, true))
         else None
  {
    hide DeltaPayload, Patch, Diff, ReferencesResolve, PatchedEntities, PatchedFlows, AllAccepted, Filed, Acceptable;
    DeltaMembers(requestId, timestampMs, Diff(before, after));
    DiffFields(before, after);
    EntityPatchOfFiled(store, before, after);
    FlowPatchOfFiled(store, before, after);
  }

  /** What the client's records may mention: entities of their state, spaces
      around the names aside. */
  ghost predicate Mentions(entity: EntityState, state: Baseline) {
    EntityRefersTo(entity, Stripped(state.entities.Keys))
  }

  lemma OneRenewed<V>(before: map<string, V>, id: string, value: V)
    requires id in before && before[id] != value
    ensures Renewed(before, before[id := value]) == {id} && Dropped(before, before[id := value]) == {}
  {
  }

  lemma NoneRenewed<V>(before: map<string, V>, ids: set<string>)
    requires ids <= before.Keys
    ensures Renewed(before, before - ids) == {} && Dropped(before, before - ids) == ids
  {
  }

  lemma PatchedByOne(table: Table, after: Table, id: string)
    requires id in after
    ensures Patched(table, after, {}, {id}) == table[id := after[id]]
  {
  }

  lemma PatchedByNone(table: Table, after: Table, removals: set<string>)
    requires removals !! table.Keys
    ensures Patched(table, after, removals, {}) == table
  {
  }

  /** What a message that changes one entity makes of the entities. */
  lemma OneEntityPatched(store: Store, before: Baseline, changed: EntityState)
    requires changed.entityId in before.entities && before.entities[changed.entityId] != changed
    ensures var after := before.(entities := before.entities[changed.entityId := changed]);
      && PatchedEntities(store, before, after) == store.entities[changed.entityId := EntityObject(changed)]
      && PatchedFlows(store, before, after) == store.flows
  {
    hide EntityObject, FlowObject, Patched, Renewed, Dropped;
    var id := changed.entityId;
    var after := before.(entities := before.entities[id := changed]);
    OneRenewed(before.entities, id, changed);
    NoneRenewed(before.flows, {});
    assert before.flows - {} == before.flows;
    PatchedByOne(store.entities, EntityTable(after.entities), id);
    PatchedByNone(store.flows, FlowTable(after.flows), {});
  }

  lemma OneFlowPatched(store: Store, before: Baseline, changed: FlowConfig)
    requires changed.flowId in before.flows && before.flows[changed.flowId] != changed
    ensures var after := before.(flows := before.flows[changed.flowId := changed]);
      && PatchedFlows(store, before, after) == store.flows[changed.flowId := FlowObject(changed)]
      && PatchedEntities(store, before, after) == store.entities
  {
    hide EntityObject, FlowObject, Patched, Renewed, Dropped;
    var id := changed.flowId;
    var after := before.(flows := before.flows[id := changed]);
    OneRenewed(before.flows, id, changed);
    NoneRenewed(before.entities, {});
    assert before.entities - {} == before.entities;
    PatchedByOne(store.flows, FlowTable(after.flows), id);
    PatchedByNone(store.entities, EntityTable(after.entities), {});
  }

  lemma EntityAdded(store: Store, before: Baseline, changed: EntityState)
    requires FiledStore(store, before) && WellFormedEntity(changed) && Mentions(changed, before)
    ensures ReferencesResolve(store.entities[changed.entityId := EntityObject(changed)], store.flows)
  {
    hide EntityObject, WellFormedEntity, Strip, ValidEntity, ValidFlow, EntityOf, FlowOf, AllAccepted, OwnIds;
    var entities := store.entities[changed.entityId := EntityObject(changed)];
    MoreIdsMention(changed, Stripped(before.entities.Keys), entities.Keys);
    EntityReferences(changed, entities.Keys);
    TableKeys(before);
    forall id | id in entities ensures RawEntityResolves(entities[id], entities.Keys) {
      if id != changed.entityId {
        assert RawEntityResolves(store.entities[id], store.entities.Keys);
      }
    }
    forall id | id in store.flows ensures RawFlowResolves(store.flows[id], entities.Keys) {
      assert RawFlowResolves(store.flows[id], store.entities.Keys);
    }
  }

  lemma MoreIdsMention(entity: EntityState, ids: set<string>, more: set<string>)
    requires EntityRefersTo(entity, ids) && ids <= more
    ensures EntityRefersTo(entity, more)
  {
    hide Strip;
  }

  lemma FlowAdded(store: Store, before: Baseline, changed: FlowConfig)
    requires FiledStore(store, before) && WellFormedFlow(changed)
    requires FlowRefersTo(changed, Stripped(before.entities.Keys))
    ensures ReferencesResolve(store.entities, store.flows[changed.flowId := FlowObject(changed)])
  {
    hide EntityObject, FlowObject, WellFormedFlow, FlowRefersTo, Valid, AllAccepted, OwnIds, Stripped,
      RawEntityResolves, RawFlowResolves, Strip, EntityTable, FlowTable;
    TableKeys(before);
    FlowReferences(changed, store.entities.Keys);
  }

  lemma ChangedEntityIsAcceptable(store: Store, before: Baseline, changed: EntityState)
    requires FiledStore(store, before) && WellFormedEntity(changed) && changed.entityId in before.entities
    ensures Acceptable(before.(entities := before.entities[changed.entityId := changed]))
    ensures store.initialized
  {
    hide WellFormedEntity, WellFormedFlow, ReferencesResolve, FiledStore;
    FiledIsAcceptable(store, before);
  }

  lemma ChangedFlowIsAcceptable(store: Store, before: Baseline, changed: FlowConfig)
    requires FiledStore(store, before) && WellFormedFlow(changed) && changed.flowId in before.flows
    ensures Acceptable(before.(flows := before.flows[changed.flowId := changed]))
    ensures store.initialized
  {
    hide WellFormedEntity, WellFormedFlow, ReferencesResolve, FiledStore;
    FiledIsAcceptable(store, before);
  }

  lemma EntityNotFiledAsItStands(store: Store, before: Baseline, id: string)
    requires FiledStore(store, before) && id in before.entities && Strip(id) != id
    ensures id !in store.entities && Strip(id) in store.entities
    ensures store.entities[Strip(id)] == EntityObject(before.entities[id])
  {
    hide Strip, EntityObject, ReferencesResolve, AllAccepted, Filed;
    NotFiledAsItStands(store.entities, EntityTable(before.entities), id);
  }

  lemma FlowNotFiledAsItStands(store: Store, before: Baseline, id: string)
    requires FiledStore(store, before) && id in before.flows && Strip(id) != id
    ensures id !in store.flows && Strip(id) in store.flows
    ensures store.flows[Strip(id)] == FlowObject(before.flows[id])
  {
    hide Strip, FlowObject, ReferencesResolve, AllAccepted, Filed;
    NotFiledAsItStands(store.flows, FlowTable(before.flows), id);
  }

  /** The next change of an entity whose id has spaces around it is accepted and
      filed beside the record of the full message, which stays. */
  lemma ChangedEntityIsFiledTwice(
    store: Store, before: Baseline, changed: EntityState, requestId: string, timestampMs: nat)
    requires FiledStore(store, before) && store.timestampMs <= timestampMs
    requires var id := changed.entityId;
      id in before.entities && Strip(id) != id && changed != before.entities[id]
    requires WellFormedEntity(changed) && Mentions(changed, before)
    ensures var id := changed.entityId;
      var after := before.(entities := before.entities[id := changed]);
      && id !in store.entities && Strip(id) in store.entities
      && store.entities[Strip(id)] == EntityObject(before.entities[id])
      && ApplyDelta(store, DeltaPayload(requestId, timestampMs, Diff(before, after)), timestampMs)
         == Some(Store(store.entities[id := EntityObject(changed)], store.flows, timestampMs, store.revision + 1, true))
  {
    hide DeltaPayload, Diff, Strip, ApplyDelta, EntityObject, FlowObject, WellFormedEntity, WellFormedFlow,
      FlowRefersTo, ReferencesResolve, FiledStore, Mentions, PatchedEntities, PatchedFlows, Acceptable;
    var after := before.(entities := before.entities[changed.entityId := changed]);
    ChangedEntityIsAcceptable(store, before, changed);
    EntityNotFiledAsItStands(store, before, changed.entityId);
    EntityAdded(store, before, changed);
    OneEntityPatched(store, before, changed);
    DeltaAfterFiled(store, before, after, requestId, timestampMs);
  }

  /** The same for a flow. */
  lemma ChangedFlowIsFiledTwice(
    store: Store, before: Baseline, changed: FlowConfig, requestId: string, timestampMs: nat)
    requires FiledStore(store, before) && store.timestampMs <= timestampMs
    requires var id := changed.flowId;
      id in before.flows && Strip(id) != id && changed != before.flows[id]
    requires WellFormedFlow(changed) && FlowRefersTo(changed, Stripped(before.entities.Keys))
    ensures var id := changed.flowId;
      var after := before.(flows := before.flows[id := changed]);
      && id !in store.flows && Strip(id) in store.flows
      && store.flows[Strip(id)] == FlowObject(before.flows[id])
      && ApplyDelta(store, DeltaPayload(requestId, timestampMs, Diff(before, after)), timestampMs)
         == Some(Store(store.entities, store.flows[id := FlowObject(changed)], timestampMs, store.revision + 1, true))
  {
    hide DeltaPayload, Diff, Strip, ApplyDelta, EntityObject, FlowObject, WellFormedEntity, WellFormedFlow,
      FlowRefersTo, ReferencesResolve, FiledStore, Mentions, PatchedEntities, PatchedFlows, Acceptable;
    var after := before.(flows := before.flows[changed.flowId := changed]);
    ChangedFlowIsAcceptable(store, before, changed);
    FlowNotFiledAsItStands(store, before, changed.flowId);
    FlowAdded(store, before, changed);
    OneFlowPatched(store, before, changed);
    DeltaAfterFiled(store, before, after, requestId, timestampMs);
  }

  /** The removal of entities and flows whose ids have spaces around them is
      accepted and removes nothing. */
  lemma RemovedIdsStay(
    store: Store, before: Baseline, entityIds: set<string>, flowIds: set<string>, requestId: string, timestampMs: nat)
    requires FiledStore(store, before) && store.timestampMs <= timestampMs
    requires forall id :: id in entityIds ==> id in before.entities && Strip(id) != id
    requires forall id :: id in flowIds ==> id in before.flows && Strip(id) != id
    ensures var after := Baseline(before.entities - entityIds, before.flows - flowIds);
      && ApplyDelta(store, DeltaPayload(requestId, timestampMs, Diff(before, after)), timestampMs)
         == Some(store.(timestampMs := timestampMs, revision := store.revision + 1))
      && (forall id :: id in entityIds ==> Strip(id) in store.entities)
      && (forall id :: id in flowIds ==> Strip(id) in store.flows)
  {
    hide DeltaPayload, Diff, Strip, ApplyDelta, EntityObject, FlowObject, WellFormedEntity, WellFormedFlow,
      FlowRefersTo, ReferencesResolve, FiledStore, Mentions, PatchedEntities, PatchedFlows, Acceptable;
    var after := Baseline(before.entities - entityIds, before.flows - flowIds);
    RestIsAcceptable(store, before, entityIds, flowIds);
    NonePatched(store, before, entityIds, flowIds);
    DeltaAfterFiled(store, before, after, requestId, timestampMs);
  }

  lemma RestIsAcceptable(store: Store, before: Baseline, entityIds: set<string>, flowIds: set<string>)
    requires FiledStore(store, before)
    ensures Acceptable(Baseline(before.entities - entityIds, before.flows - flowIds))
    ensures store.initialized && ReferencesResolve(store.entities, store.flows)
  {
    hide WellFormedEntity, WellFormedFlow, ReferencesResolve, FiledStore;
    FiledIsAcceptable(store, before);
  }

  lemma NonePatched(store: Store, before: Baseline, entityIds: set<string>, flowIds: set<string>)
    requires FiledStore(store, before)
    requires forall id :: id in entityIds ==> id in before.entities && Strip(id) != id
    requires forall id :: id in flowIds ==> id in before.flows && Strip(id) != id
    ensures var after := Baseline(before.entities - entityIds, before.flows - flowIds);
      PatchedEntities(store, before, after) == store.entities && PatchedFlows(store, before, after) == store.flows
    ensures forall id :: id in entityIds ==> Strip(id) in store.entities
    ensures forall id :: id in flowIds ==> Strip(id) in store.flows
  {
    hide Strip, EntityObject, FlowObject, Valid, ReferencesResolve, AllAccepted, Filed, Patched, Renewed, Dropped;
    TableKeys(before);
    forall id | id in entityIds ensures id !in store.entities && Strip(id) in store.entities {
      NotFiledAsItStands(store.entities, EntityTable(before.entities), id);
    }
    forall id | id in flowIds ensures id !in store.flows && Strip(id) in store.flows {
      NotFiledAsItStands(store.flows, FlowTable(before.flows), id);
    }
    NoneRenewed(before.entities, entityIds);
    NoneRenewed(before.flows, flowIds);
    PatchedByNone(store.entities, EntityTable(before.entities - entityIds), entityIds);
    PatchedByNone(store.flows, FlowTable(before.flows - flowIds), flowIds);
  }

  lemma NotFiledAsItStands(table: Table, given: Table, id: string)
    requires Filed(table, given) && id in given && Strip(id) != id
    ensures id !in table && Strip(id) in table && table[Strip(id)] == given[id]
  {
    hide Strip;
    if id in table {
      var other :| other in given && Strip(other) == id;
      StripIdempotent(other);
    }
  }

  lemma FiledIsAcceptable(store: Store, state: Baseline)
    requires FiledStore(store, state)
    ensures Acceptable(state) && store.initialized && ReferencesResolve(store.entities, store.flows)
  {
    hide Valid, EntityObject, FlowObject, WellFormedEntity, WellFormedFlow, Filed, ReferencesResolve;
    forall id | id in state.entities ensures WellFormedEntity(state.entities[id]) {
      EntityAccepted(state.entities[id]);
      assert Valid(EntityKind, EntityTable(state.entities)[id]);
    }
    forall id | id in state.flows ensures WellFormedFlow(state.flows[id]) {
      FlowAccepted(state.flows[id]);
      assert Valid(FlowKind, FlowTable(state.flows)[id]);
    }
  }

  // ----- A full message and the message after it ---------------------------------------------------

  /** The service accepted the full message and now holds `filed`. */
  predicate Accepted(
    store: Store, entities: seq<EntityState>, flows: seq<FlowConfig>, requestId: string, timestampMs: nat,
    filed: Store, state: Baseline)
  {
    && StateOf(entities, flows) == Some(state)
    && Initialize(store, InitPayload(requestId, timestampMs, entities, flows), timestampMs) == Some(filed)
  }

  /** A full message with an entity id that has spaces around it, then the next
      change of that entity: both are accepted, and the store then holds the old
      record under the stripped id and the new one under the id as it stands. */
  lemma UntrimmedEntityIsFiledTwice(
    store: Store, entities: seq<EntityState>, flows: seq<FlowConfig>, initId: string, initTime: nat, filed: Store,
    before: Baseline, changed: EntityState, requestId: string, timestampMs: nat)
    requires Accepted(store, entities, flows, initId, initTime, filed, before) && initTime <= timestampMs
    requires changed.entityId in before.entities && changed != before.entities[changed.entityId]
    requires Strip(changed.entityId) != changed.entityId
    requires WellFormedEntity(changed) && Mentions(changed, before)
    ensures var id := changed.entityId;
      var after := before.(entities := before.entities[id := changed]);
      var delta := ApplyDelta(filed, DeltaPayload(requestId, timestampMs, Diff(before, after)), timestampMs);
      && delta == Some(filed.(entities := filed.entities[id := EntityObject(changed)], timestampMs := timestampMs,
                              revision := filed.revision + 1))
      && Strip(id) in filed.entities && filed.entities[Strip(id)] == EntityObject(before.entities[id])
      && !Holds(delta.value, after)
  {
    hide InitPayload, DeltaPayload, Diff, Strip, ApplyDelta, EntityObject, FlowObject, WellFormedEntity, StateOf,
      ReferencesResolve, FiledStore, Mentions, IndexFrom;
    AcceptedInitIsFiled(store, entities, flows, initId, initTime);
    ChangedEntityIsFiledTwice(filed, before, changed, requestId, timestampMs);
    StrippedIsNoKey(filed, before, changed.entityId);
    var after := before.(entities := before.entities[changed.entityId := changed]);
    TableKeys(after);
    assert Strip(changed.entityId) in filed.entities[changed.entityId := EntityObject(changed)].Keys;
    assert Strip(changed.entityId) !in after.entities.Keys;
  }

  lemma StrippedIsNoKey(filed: Store, before: Baseline, id: string)
    requires FiledStore(filed, before) && Strip(id) != id
    requires id in before.entities || id in before.flows
    ensures id in before.entities ==> Strip(id) !in before.entities
    ensures id in before.flows ==> Strip(id) !in before.flows
  {
    hide Strip, EntityObject, FlowObject, ReferencesResolve, Valid;
    StripIdempotent(id);
    if id in before.entities && Strip(id) in before.entities {
      assert EntityTable(before.entities)[id] == EntityTable(before.entities)[Strip(id)];
      EntityAccepted(before.entities[id]);
      EntityAccepted(before.entities[Strip(id)]);
    }
    if id in before.flows && Strip(id) in before.flows {
      assert FlowTable(before.flows)[id] == FlowTable(before.flows)[Strip(id)];
      FlowAccepted(before.flows[id]);
      FlowAccepted(before.flows[Strip(id)]);
    }
  }

  /** The same for a flow. */
  lemma UntrimmedFlowIsFiledTwice(
    store: Store, entities: seq<EntityState>, flows: seq<FlowConfig>, initId: string, initTime: nat, filed: Store,
    before: Baseline, changed: FlowConfig, requestId: string, timestampMs: nat)
    requires Accepted(store, entities, flows, initId, initTime, filed, before) && initTime <= timestampMs
    requires changed.flowId in before.flows && changed != before.flows[changed.flowId]
    requires Strip(changed.flowId) != changed.flowId
    requires WellFormedFlow(changed) && FlowRefersTo(changed, Stripped(before.entities.Keys))
    ensures var id := changed.flowId;
      var after := before.(flows := before.flows[id := changed]);
      var delta := ApplyDelta(filed, DeltaPayload(requestId, timestampMs, Diff(before, after)), timestampMs);
      && delta == Some(filed.(flows := filed.flows[id := FlowObject(changed)], timestampMs := timestampMs,
                              revision := filed.revision + 1))
      && Strip(id) in filed.flows && filed.flows[Strip(id)] == FlowObject(before.flows[id])
      && !Holds(delta.value, after)
  {
    hide InitPayload, DeltaPayload, Diff, Strip, ApplyDelta, EntityObject, FlowObject, WellFormedFlow, StateOf,
      ReferencesResolve, FiledStore, FlowRefersTo, IndexFrom;
    AcceptedInitIsFiled(store, entities, flows, initId, initTime);
    ChangedFlowIsFiledTwice(filed, before, changed, requestId, timestampMs);
    StrippedIsNoKey(filed, before, changed.flowId);
    var after := before.(flows := before.flows[changed.flowId := changed]);
    TableKeys(after);
    assert Strip(changed.flowId) in filed.flows[changed.flowId := FlowObject(changed)].Keys;
    assert Strip(changed.flowId) !in after.flows.Keys;
  }

  /** A full message, then the removal of entities and flows whose ids have
      spaces around them: accepted, and nothing is removed. */
  lemma UntrimmedRemovalRemovesNothing(
    store: Store, entities: seq<EntityState>, flows: seq<FlowConfig>, initId: string, initTime: nat, filed: Store,
    before: Baseline, entityIds: set<string>, flowIds: set<string>, requestId: string, timestampMs: nat)
    requires Accepted(store, entities, flows, initId, initTime, filed, before) && initTime <= timestampMs
    requires forall id :: id in entityIds ==> id in before.entities && Strip(id) != id
    requires forall id :: id in flowIds ==> id in before.flows && Strip(id) != id
    ensures var after := Baseline(before.entities - entityIds, before.flows - flowIds);
      && ApplyDelta(filed, DeltaPayload(requestId, timestampMs, Diff(before, after)), timestampMs)
         == Some(filed.(timestampMs := timestampMs, revision := filed.revision + 1))
      && (forall id :: id in entityIds ==> Strip(id) in filed.entities)
      && (forall id :: id in flowIds ==> Strip(id) in filed.flows)
  {
    hide InitPayload, DeltaPayload, Diff, Strip, ApplyDelta, StateOf, ReferencesResolve, FiledStore, IndexFrom;
    AcceptedInitIsFiled(store, entities, flows, initId, initTime);
    RemovedIdsStay(filed, before, entityIds, flowIds, requestId, timestampMs);
  }
}
