/** The service's full state (`state.py`). `Store` is the value of a store;
    `Initialize` and `ApplyDelta` say what the two messages make of it, `None`
    being the protocol error that leaves it alone. The class `StateStore` is
    the object whose methods loop over the message and replace the fields. */
module StateStore {
  import opened Wrappers
  import opened Text
  import opened Json
  import opened Models

  /** Entities and flows are kept and updated by the same rules, up to the name
      of the identifier, the validation and the way two objects are merged. */
  datatype Kind = EntityKind | FlowKind

  type Table = map<string, Dict>

  datatype Store = Store(
    entities: Table, flows: Table, timestampMs: int, revision: nat, initialized: bool)

  const EMPTY_STORE := Store(map[], map[], 0, 0, false)

  function IdKey(kind: Kind): Name {
    if kind.EntityKind? then Name.EntityId else Name.FlowId
  }

  predicate Valid(kind: Kind, d: Dict) {
    if kind.EntityKind? then ValidEntity(d) else ValidFlow(d)
  }

  /** The identifier of the validated record. */
  function ParsedId(kind: Kind, d: Dict): string
    requires Valid(kind, d)
  {
    TextOf(d, IdKey(kind))
  }

  /** Whether a member of an entity is merged member by member. */
  predicate Nested(current: Dict, update: Dict, key: Name) {
    && (key == Name.Position || key == Name.Velocity)
    && key in update && update[key].Obj?
    && key in current && current[key].Obj?
  }

  function MergedMember(current: Dict, update: Dict, key: Name): Json
    requires key in current || key in update
  {
    if Nested(current, update, key) then Obj(Union(current[key].fields, update[key].fields))
    else if key in update then update[key]
    else current[key]
  }

  function MergeEntity(current: Dict, update: Dict): Dict {
    map key | key in current.Keys + update.Keys :: MergedMember(current, update, key)
  }

  function Merge(kind: Kind, current: Dict, update: Dict): Dict {
    if kind.EntityKind? then MergeEntity(current, update) else Union(current, update)
  }

  /** The table of a full message: ids are the stripped ones, and no two agree. */
  function IndexFrom(kind: Kind, table: Table, items: seq<Json>): Option<Table>
    decreases |items|
  {
    if items == [] then Some(table)
    else
      var item := items[0];
      if !item.Obj? || !Valid(kind, item.fields) || ParsedId(kind, item.fields) in table then None
      else IndexFrom(kind, table[ParsedId(kind, item.fields) := item.fields], items[1..])
  }

  function RemoveAll(table: Table, ids: seq<Json>): Option<Table>
    decreases |ids|
  {
    if ids == [] then Some(table)
    else if !ids[0].Str? || ids[0].s == "" then None
    else RemoveAll(table - {ids[0].s}, ids[1..])
  }

  /** One upsert: the id is taken from the update as it stands, not stripped. */
  function Upsert(kind: Kind, table: Table, item: Json): Option<Table> {
    if !item.Obj? then None
    else
      var id := Get(item.fields, IdKey(kind));
      if !id.Str? || id.s == "" then None
      else
        var merged := if id.s in table then Merge(kind, table[id.s], item.fields) else item.fields;
        if Valid(kind, merged) then Some(table[id.s := merged]) else None
  }

  function UpsertAll(kind: Kind, table: Table, items: seq<Json>): Option<Table>
    decreases |items|
  {
    if items == [] then Some(table)
    else
      var next :- Upsert(kind, table, items[0]);
      UpsertAll(kind, next, items[1..])
  }

  /** What a delta does to one table: removals first, then upserts. */
  function Patch(kind: Kind, table: Table, removals: seq<Json>, upserts: seq<Json>): Option<Table> {
    var kept :- RemoveAll(table, removals);
    UpsertAll(kind, kept, upserts)
  }

  predicate EntityResolves(entity: Entity, ids: set<string>) {
    && (entity.parent.Some? ==> entity.parent.value in ids)
    && (forall i :: 0 <= i < |entity.devices| ==> entity.devices[i].peer in ids)
    && (forall i :: 0 <= i < |entity.policies| ==> entity.policies[i].peer in ids)
  }

  predicate FlowResolves(flow: Flow, ids: set<string>) {
    flow.source in ids && flow.target in ids
  }

  predicate RawEntityResolves(raw: Dict, ids: set<string>) {
    ValidEntity(raw) && EntityResolves(EntityOf(raw), ids)
  }

  predicate RawFlowResolves(raw: Dict, ids: set<string>) {
    ValidFlow(raw) && FlowResolves(FlowOf(raw), ids)
  }

  predicate ReferencesResolve(entities: Table, flows: Table) {
    && (forall id :: id in entities ==> RawEntityResolves(entities[id], entities.Keys))
    && (forall id :: id in flows ==> RawFlowResolves(flows[id], entities.Keys))
  }

  function Initialize(store: Store, payload: Dict, timestampMs: int): Option<Store> {
    var rawEntities, rawFlows := Get(payload, Name.Entities), Get(payload, Name.Flows);
    if !rawEntities.Arr? || !rawFlows.Arr? then None
    else
      var entities :- IndexFrom(EntityKind, map[], rawEntities.items);
      var flows :- IndexFrom(FlowKind, map[], rawFlows.items);
      if !ReferencesResolve(entities, flows) then None
      else Some(Store(entities, flows, timestampMs, store.revision + 1, true))
  }

  function ApplyDelta(store: Store, payload: Dict, timestampMs: int): Option<Store> {
    var entityUpserts, entityRemovals := GetList(payload, Name.EntityUpserts), GetList(payload, Name.EntityRemovals);
    var flowUpserts, flowRemovals := GetList(payload, Name.FlowUpserts), GetList(payload, Name.FlowRemovals);
    if !store.initialized || timestampMs < store.timestampMs then None
    else if !entityUpserts.Arr? || !entityRemovals.Arr? || !flowUpserts.Arr? || !flowRemovals.Arr? then None
    else
      var entities :- Patch(EntityKind, store.entities, entityRemovals.items, entityUpserts.items);
      var flows :- Patch(FlowKind, store.flows, flowRemovals.items, flowUpserts.items);
      if !ReferencesResolve(entities, flows) then None
      else Some(Store(entities, flows, timestampMs, store.revision + 1, true))
  }

  datatype StateSnapshot = StateSnapshot(
    timestampMs: int, entities: seq<Entity>, flows: seq<Flow>, revision: nat)

  predicate AllValid(kind: Kind, table: Table) {
    forall id {:trigger Valid(kind, table[id])} :: id in table ==> Valid(kind, table[id])
  }

  function EntitiesOf(table: Table, ids: seq<string>): (entities: seq<Entity>)
    requires AllValid(EntityKind, table) && forall i :: 0 <= i < |ids| ==> ids[i] in table
    ensures forall i :: 0 <= i < |ids| ==> ValidEntity(table[ids[i]])
    ensures |entities| == |ids|
    ensures forall i :: 0 <= i < |ids| ==> entities[i] == EntityOf(table[ids[i]])
    decreases |ids|
  {
    if ids == [] then []
    else
      hide EntityOf, ValidEntity;
      assert Valid(EntityKind, table[ids[0]]);
      [EntityOf(table[ids[0]])] + EntitiesOf(table, ids[1..])
  }

  function FlowsOf(table: Table, ids: seq<string>): (flows: seq<Flow>)
    requires AllValid(FlowKind, table) && forall i :: 0 <= i < |ids| ==> ids[i] in table
    ensures forall i :: 0 <= i < |ids| ==> ValidFlow(table[ids[i]])
    ensures |flows| == |ids|
    ensures forall i :: 0 <= i < |ids| ==> flows[i] == FlowOf(table[ids[i]])
    decreases |ids|
  {
    if ids == [] then []
    else
      assert Valid(FlowKind, table[ids[0]]);
      [FlowOf(table[ids[0]])] + FlowsOf(table, ids[1..])
  }

  /** `StateStore.snapshot`: the validated records, by ascending key. */
  function Snapshot(store: Store): Option<StateSnapshot> {
    if !store.initialized || !AllValid(EntityKind, store.entities) || !AllValid(FlowKind, store.flows) then None
    else
      Some(StateSnapshot(
        store.timestampMs,
        EntitiesOf(store.entities, SortedKeys(store.entities.Keys)),
        FlowsOf(store.flows, SortedKeys(store.flows.Keys)),
        store.revision))
  }

  // ----- The object ---------------------------------------------------------

  /** The merge with only the members in `done` taken from the update so far. */
  ghost function MergedSoFar(current: Dict, update: Dict, done: set<Name>): Dict
    requires done <= update.Keys
  {
    map key | key in current.Keys + done ::
      if key in done then MergedMember(current, update, key) else current[key]
  }

  /** One turn of the merging loop. */
  function MergeMember(merged: Dict, update: Dict, key: Name): Dict
    requires key in update
  {
    if Nested(merged, update, key) then merged[key := Obj(Union(merged[key].fields, update[key].fields))]
    else merged[key := update[key]]
  }

  lemma MergeOneMore(current: Dict, update: Dict, left: set<Name>, key: Name)
    requires left <= update.Keys && key in left
    ensures MergedSoFar(current, update, update.Keys - (left - {key}))
         == MergeMember(MergedSoFar(current, update, update.Keys - left), update, key)
  {
  }

  lemma MergeBounds(current: Dict, update: Dict)
    ensures MergedSoFar(current, update, update.Keys - update.Keys) == current
    ensures MergedSoFar(current, update, update.Keys - {}) == MergeEntity(current, update)
  {
  }

  method MergeEntityInto(current: Dict, update: Dict) returns (merged: Dict)
    ensures merged == MergeEntity(current, update)
  {
    merged := current;
    var left := update.Keys;
    MergeBounds(current, update);
    while left != {}
      invariant left <= update.Keys
      invariant merged == MergedSoFar(current, update, update.Keys - left)
      decreases |left|
    {
      var key :| key in left;
      MergeOneMore(current, update, left, key);
      merged := MergeMember(merged, update, key);
      left := left - {key};
    }
  }

  method IndexItems(kind: Kind, items: seq<Json>) returns (r: Option<Table>)
    ensures r == IndexFrom(kind, map[], items)
  {
    var table: Table := map[];
    for i := 0 to |items|
      invariant IndexFrom(kind, map[], items) == IndexFrom(kind, table, items[i..])
    {
      if !items[i].Obj? {
        return None;
      }
      if !Valid(kind, items[i].fields) || ParsedId(kind, items[i].fields) in table {
        return None;
      }
      table := table[ParsedId(kind, items[i].fields) := items[i].fields];
      assert items[i..][1..] == items[i + 1..];
    }
    r := Some(table);
  }

  method RemoveItems(table: Table, ids: seq<Json>) returns (r: Option<Table>)
    ensures r == RemoveAll(table, ids)
  {
    var kept := table;
    for i := 0 to |ids|
      invariant RemoveAll(table, ids) == RemoveAll(kept, ids[i..])
    {
      if !ids[i].Str? || ids[i].s == "" {
        return None;
      }
      kept := kept - {ids[i].s};
      assert ids[i..][1..] == ids[i + 1..];
    }
    r := Some(kept);
  }

  method UpsertItems(kind: Kind, table: Table, items: seq<Json>) returns (r: Option<Table>)
    ensures r == UpsertAll(kind, table, items)
  {
    var updated := table;
    for i := 0 to |items|
      invariant UpsertAll(kind, table, items) == UpsertAll(kind, updated, items[i..])
    {
      assert items[i..][1..] == items[i + 1..];
      if !items[i].Obj? {
        return None;
      }
      var update := items[i].fields;
      var id := Get(update, IdKey(kind));
      if !id.Str? || id.s == "" {
        return None;
      }
      var merged := update;
      if id.s in updated {
        if kind.EntityKind? {
          merged := MergeEntityInto(updated[id.s], update);
        } else {
          merged := Union(updated[id.s], update);
        }
      }
      if !Valid(kind, merged) {
        return None;
      }
      updated := updated[id.s := merged];
    }
    r := Some(updated);
  }

  method ValidateEntity(entity: Entity, ids: set<string>) returns (ok: bool)
    ensures ok == EntityResolves(entity, ids)
  {
    if entity.parent.Some? && entity.parent.value !in ids {
      return false;
    }
    for i := 0 to |entity.devices|
      invariant forall j :: 0 <= j < i ==> entity.devices[j].peer in ids
    {
      if entity.devices[i].peer !in ids {
        return false;
      }
    }
    for i := 0 to |entity.policies|
      invariant forall j :: 0 <= j < i ==> entity.policies[j].peer in ids
    {
      if entity.policies[i].peer !in ids {
        return false;
      }
    }
    ok := true;
  }

  method ValidateEntities(entities: Table) returns (ok: bool)
    ensures ok == forall id :: id in entities ==> RawEntityResolves(entities[id], entities.Keys)
  {
    var left := entities.Keys;
    while left != {}
      invariant left <= entities.Keys
      invariant forall id :: id in entities && id !in left ==> RawEntityResolves(entities[id], entities.Keys)
      decreases |left|
    {
      var id :| id in left;
      if !ValidEntity(entities[id]) {
        assert !RawEntityResolves(entities[id], entities.Keys);
        return false;
      }
      var resolves := ValidateEntity(EntityOf(entities[id]), entities.Keys);
      if !resolves {
        assert !RawEntityResolves(entities[id], entities.Keys);
        return false;
      }
      left := left - {id};
    }
    ok := true;
  }

  method ValidateFlows(flows: Table, ids: set<string>) returns (ok: bool)
    ensures ok == forall id :: id in flows ==> RawFlowResolves(flows[id], ids)
  {
    var left := flows.Keys;
    while left != {}
      invariant left <= flows.Keys
      invariant forall id :: id in flows && id !in left ==> RawFlowResolves(flows[id], ids)
      decreases |left|
    {
      var id :| id in left;
      if !ValidFlow(flows[id]) || FlowOf(flows[id]).source !in ids || FlowOf(flows[id]).target !in ids {
        assert !RawFlowResolves(flows[id], ids);
        return false;
      }
      left := left - {id};
    }
    ok := true;
  }

  method ValidateReferences(entities: Table, flows: Table) returns (ok: bool)
    ensures ok == ReferencesResolve(entities, flows)
  {
    ok := ValidateEntities(entities);
    if ok {
      ok := ValidateFlows(flows, entities.Keys);
    }
  }

  class StateStore {
    var entities: Table
    var flows: Table
    var timestampMs: int
    var revision: nat
    var initialized: bool

    function View(): Store
      reads this
    {
      Store(entities, flows, timestampMs, revision, initialized)
    }

    constructor ()
      ensures View() == EMPTY_STORE
    {
      entities, flows, timestampMs, revision, initialized := map[], map[], 0, 0, false;
    }

    method InitializeFrom(payload: Dict, timestamp: int) returns (ok: bool)
      modifies this
      ensures ok == Initialize(old(View()), payload, timestamp).Some?
      ensures View() == if ok then Initialize(old(View()), payload, timestamp).value else old(View())
    {
      var rawEntities, rawFlows := Get(payload, Name.Entities), Get(payload, Name.Flows);
      if !rawEntities.Arr? || !rawFlows.Arr? {
        return false;
      }
      var entityMap := IndexItems(EntityKind, rawEntities.items);
      if entityMap.None? {
        return false;
      }
      var flowMap := IndexItems(FlowKind, rawFlows.items);
      if flowMap.None? {
        return false;
      }
      ok := ValidateReferences(entityMap.value, flowMap.value);
      if ok {
        entities, flows := entityMap.value, flowMap.value;
        timestampMs := timestamp;
        revision := revision + 1;
        initialized := true;
      }
    }

    method ApplyDeltaFrom(payload: Dict, timestamp: int) returns (ok: bool)
      modifies this
      ensures ok == ApplyDelta(old(View()), payload, timestamp).Some?
      ensures View() == if ok then ApplyDelta(old(View()), payload, timestamp).value else old(View())
    {
      if !initialized || timestamp < timestampMs {
        return false;
      }
      var entityUpserts, entityRemovals := GetList(payload, Name.EntityUpserts), GetList(payload, Name.EntityRemovals);
      var flowUpserts, flowRemovals := GetList(payload, Name.FlowUpserts), GetList(payload, Name.FlowRemovals);
      if !entityUpserts.Arr? || !entityRemovals.Arr? || !flowUpserts.Arr? || !flowRemovals.Arr? {
        return false;
      }
      var keptEntities := RemoveItems(entities, entityRemovals.items);
      if keptEntities.None? {
        return false;
      }
      var newEntities := UpsertItems(EntityKind, keptEntities.value, entityUpserts.items);
      if newEntities.None? {
        return false;
      }
      var keptFlows := RemoveItems(flows, flowRemovals.items);
      if keptFlows.None? {
        return false;
      }
      var newFlows := UpsertItems(FlowKind, keptFlows.value, flowUpserts.items);
      if newFlows.None? {
        return false;
      }
      ok := ValidateReferences(newEntities.value, newFlows.value);
      if ok {
        entities, flows := newEntities.value, newFlows.value;
        timestampMs := timestamp;
        revision := revision + 1;
      }
    }
  }
}
