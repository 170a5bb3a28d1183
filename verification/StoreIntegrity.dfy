/** What every accepted or refused message keeps of the service's store. */
module StoreIntegrity {
  import opened Wrappers
  import opened Text
  import opened Json
  import opened Models
  import opened StateStore

  /** Every object of the table is valid and its id is its key, stripped. */
  ghost predicate KeyedByIds(kind: Kind, table: Table) {
    forall id {:trigger table[id]} :: id in table ==> Valid(kind, table[id]) && ParsedId(kind, table[id]) == Strip(id)
  }

  ghost predicate Consistent(store: Store) {
    && KeyedByIds(EntityKind, store.entities)
    && KeyedByIds(FlowKind, store.flows)
    && ReferencesResolve(store.entities, store.flows)
    && (!store.initialized ==> store == EMPTY_STORE)
  }

  lemma ParsedIdStripped(kind: Kind, d: Dict)
    requires Valid(kind, d)
    ensures Strip(ParsedId(kind, d)) == ParsedId(kind, d)
  {
    StripIdempotent(Get(d, IdKey(kind)).s);
  }

  lemma {:induction false} IndexKeepsIds(kind: Kind, table: Table, items: seq<Json>)
    requires KeyedByIds(kind, table) && IndexFrom(kind, table, items).Some?
    ensures KeyedByIds(kind, IndexFrom(kind, table, items).value)
    decreases |items|
  {
    hide ValidEntity, ValidFlow, Strip;
    if items != [] {
      var raw := items[0].fields;
      ParsedIdStripped(kind, raw);
      IndexKeepsIds(kind, table[ParsedId(kind, raw) := raw], items[1..]);
    }
  }

  lemma {:induction false} RemoveKeepsIds(kind: Kind, table: Table, ids: seq<Json>)
    requires KeyedByIds(kind, table) && RemoveAll(table, ids).Some?
    ensures KeyedByIds(kind, RemoveAll(table, ids).value)
    decreases |ids|
  {
    if ids != [] {
      RemoveKeepsIds(kind, table - {ids[0].s}, ids[1..]);
    }
  }

  lemma MergedId(kind: Kind, current: Dict, update: Dict)
    requires Get(update, IdKey(kind)).Str?
    ensures Get(Merge(kind, current, update), IdKey(kind)) == Get(update, IdKey(kind))
  {
  }

  lemma UpsertKeepsId(kind: Kind, table: Table, item: Json)
    requires KeyedByIds(kind, table) && Upsert(kind, table, item).Some?
    ensures KeyedByIds(kind, Upsert(kind, table, item).value)
  {
    hide ValidEntity, ValidFlow, Strip, MergeEntity;
    var update := item.fields;
    var id := Get(update, IdKey(kind)).s;
    if id in table {
      MergedId(kind, table[id], update);
    }
  }

  lemma {:induction false} UpsertKeepsIds(kind: Kind, table: Table, items: seq<Json>)
    requires KeyedByIds(kind, table) && UpsertAll(kind, table, items).Some?
    ensures KeyedByIds(kind, UpsertAll(kind, table, items).value)
    decreases |items|
  {
    if items != [] {
      UpsertKeepsId(kind, table, items[0]);
      UpsertKeepsIds(kind, Upsert(kind, table, items[0]).value, items[1..]);
    }
  }

  datatype Command =
    | InitCommand(payload: Dict, timestampMs: int)
    | DeltaCommand(payload: Dict, timestampMs: int)

  function Execute(store: Store, command: Command): Option<Store> {
    match command
    case InitCommand(payload, timestamp) => Initialize(store, payload, timestamp)
    case DeltaCommand(payload, timestamp) => ApplyDelta(store, payload, timestamp)
  }

  /** A refused command leaves the store, an accepted one replaces it. */
  function ExecuteAll(store: Store, commands: seq<Command>): Store
    decreases |commands|
  {
    if commands == [] then store
    else
      var next := Execute(store, commands[0]);
      ExecuteAll(if next.Some? then next.value else store, commands[1..])
  }

  function AcceptedCount(store: Store, commands: seq<Command>): nat
    decreases |commands|
  {
    if commands == [] then 0
    else
      var next := Execute(store, commands[0]);
      (if next.Some? then 1 else 0)
      + AcceptedCount(if next.Some? then next.value else store, commands[1..])
  }

  lemma PatchKeepsIds(kind: Kind, table: Table, removals: seq<Json>, upserts: seq<Json>)
    requires KeyedByIds(kind, table) && Patch(kind, table, removals, upserts).Some?
    ensures KeyedByIds(kind, Patch(kind, table, removals, upserts).value)
  {
    hide KeyedByIds, RemoveAll, UpsertAll;
    RemoveKeepsIds(kind, table, removals);
    UpsertKeepsIds(kind, RemoveAll(table, removals).value, upserts);
  }

  lemma ExecuteKeepsConsistent(store: Store, command: Command)
    requires Consistent(store) && Execute(store, command).Some?
    ensures Consistent(Execute(store, command).value)
    ensures Execute(store, command).value.initialized
    ensures Execute(store, command).value.revision == store.revision + 1
  {
    hide KeyedByIds, IndexFrom, Patch, ReferencesResolve;
    var payload := command.payload;
    match command {
      case InitCommand(_, _) =>
        NoIds(EntityKind);
        NoIds(FlowKind);
        IndexKeepsIds(EntityKind, map[], Get(payload, Name.Entities).items);
        IndexKeepsIds(FlowKind, map[], Get(payload, Name.Flows).items);
      case DeltaCommand(_, _) =>
        PatchKeepsIds(EntityKind, store.entities, GetList(payload, Name.EntityRemovals).items,
                      GetList(payload, Name.EntityUpserts).items);
        PatchKeepsIds(FlowKind, store.flows, GetList(payload, Name.FlowRemovals).items,
                      GetList(payload, Name.FlowUpserts).items);
    }
  }

  lemma NoIds(kind: Kind)
    ensures KeyedByIds(kind, map[])
  {
  }

  /** Over any sequence of messages, whatever they hold: the store stays
      consistent, its revision counts the accepted messages, and once it is
      initialized a snapshot can be taken. */
  lemma {:induction false} StoreStaysConsistent(store: Store, commands: seq<Command>)
    requires Consistent(store)
    ensures Consistent(ExecuteAll(store, commands))
    ensures ExecuteAll(store, commands).revision == store.revision + AcceptedCount(store, commands)
    ensures ExecuteAll(store, commands).initialized <==> store.initialized || AcceptedCount(store, commands) > 0
    ensures Snapshot(ExecuteAll(store, commands)).Some? <==> ExecuteAll(store, commands).initialized
    decreases |commands|
  {
    hide Consistent, Execute, Snapshot;
    if commands == [] {
      SnapshotSucceeds(store);
    } else if Execute(store, commands[0]).Some? {
      ExecuteKeepsConsistent(store, commands[0]);
      StoreStaysConsistent(Execute(store, commands[0]).value, commands[1..]);
    } else {
      StoreStaysConsistent(store, commands[1..]);
    }
  }

  lemma KeyedByIdsIsValid(kind: Kind, table: Table)
    requires KeyedByIds(kind, table)
    ensures AllValid(kind, table)
  {
  }

  lemma ValidAt(kind: Kind, table: Table, id: string)
    requires AllValid(kind, table) && id in table
    ensures Valid(kind, table[id])
  {
  }

  lemma SnapshotSucceeds(store: Store)
    requires Consistent(store)
    ensures Snapshot(store).Some? <==> store.initialized
  {
    KeyedByIdsIsValid(EntityKind, store.entities);
    KeyedByIdsIsValid(FlowKind, store.flows);
  }

  // ----- Order of a snapshot -------------------------------------------------

  /** The records of a snapshot come in the ascending order of their keys, one
      for each key; ids without spaces around them ascend strictly themselves. */
  lemma SnapshotAscends(store: Store)
    requires Consistent(store) && store.initialized
    ensures Snapshot(store).Some?
    ensures var snapshot := Snapshot(store).value;
      var order, flowOrder := SortedKeys(store.entities.Keys), SortedKeys(store.flows.Keys);
      && Ascending(order) && (forall key :: key in order <==> key in store.entities)
      && Ascending(flowOrder) && (forall key :: key in flowOrder <==> key in store.flows)
      && |snapshot.entities| == |order| && |snapshot.flows| == |flowOrder|
      && (forall i :: 0 <= i < |order| ==> snapshot.entities[i].entityId == Strip(order[i]))
      && (forall i :: 0 <= i < |flowOrder| ==> snapshot.flows[i].flowId == Strip(flowOrder[i]))
      && ((forall key :: key in store.entities ==> Strip(key) == key) ==>
            forall i, j :: 0 <= i < j < |order| ==>
              && snapshot.entities[i].entityId != snapshot.entities[j].entityId
              && AtMost(snapshot.entities[i].entityId, snapshot.entities[j].entityId))
  {
    hide Consistent, Snapshot, SortedKeys, Strip, AtMost;
    SnapshotIds(store);
    SortedKeysAscend(store.entities.Keys);
    SortedKeysAscend(store.flows.Keys);
  }

  lemma SnapshotIds(store: Store)
    requires Consistent(store) && store.initialized
    ensures Snapshot(store).Some?
    ensures var snapshot := Snapshot(store).value;
      var order, flowOrder := SortedKeys(store.entities.Keys), SortedKeys(store.flows.Keys);
      && |snapshot.entities| == |order| && |snapshot.flows| == |flowOrder|
      && (forall i :: 0 <= i < |order| ==> snapshot.entities[i].entityId == Strip(order[i]))
      && (forall i :: 0 <= i < |flowOrder| ==> snapshot.flows[i].flowId == Strip(flowOrder[i]))
  {
    hide Consistent, SortedKeys, Strip, KeyedByIds, AllValid, EntitiesOf, FlowsOf, EntityOf, FlowOf, ValidEntity,
      ValidFlow;
    SnapshotSucceeds(store);
    assert KeyedByIds(EntityKind, store.entities) && KeyedByIds(FlowKind, store.flows) by {
      ConsistentIsKeyed(store);
    }
    KeyedByIdsIsValid(EntityKind, store.entities);
    KeyedByIdsIsValid(FlowKind, store.flows);
    IdsOfEntities(store.entities, SortedKeys(store.entities.Keys));
    IdsOfFlows(store.flows, SortedKeys(store.flows.Keys));
  }

  lemma ConsistentIsKeyed(store: Store)
    requires Consistent(store)
    ensures KeyedByIds(EntityKind, store.entities) && KeyedByIds(FlowKind, store.flows)
  {
    hide KeyedByIds;
  }

  lemma IdsOfEntities(table: Table, order: seq<string>)
    requires AllValid(EntityKind, table) && KeyedByIds(EntityKind, table)
    requires forall i :: 0 <= i < |order| ==> order[i] in table
    ensures forall i :: 0 <= i < |order| ==> EntitiesOf(table, order)[i].entityId == Strip(order[i])
  {
    hide ValidEntity, Strip, EntityOf, EntitiesOf;
    forall i | 0 <= i < |order| ensures EntityOf(table[order[i]]).entityId == Strip(order[i]) {
      EntityOfId(table[order[i]]);
    }
  }

  lemma IdsOfFlows(table: Table, order: seq<string>)
    requires AllValid(FlowKind, table) && KeyedByIds(FlowKind, table)
    requires forall i :: 0 <= i < |order| ==> order[i] in table
    ensures forall i :: 0 <= i < |order| ==> FlowsOf(table, order)[i].flowId == Strip(order[i])
  {
    hide ValidFlow, Strip, FlowOf, FlowsOf;
    forall i | 0 <= i < |order| ensures FlowOf(table[order[i]]).flowId == Strip(order[i]) {
      FlowOfId(table[order[i]]);
    }
  }

  lemma FlowOfId(raw: Dict)
    requires ValidFlow(raw)
    ensures FlowOf(raw).flowId == ParsedId(FlowKind, raw)
  {
  }

  // ----- References of a snapshot -------------------------------------------

  ghost function EntityIds(entities: seq<Entity>): set<string> {
    set i | 0 <= i < |entities| :: entities[i].entityId
  }

  /** Every reference of the snapshot names an entity of the snapshot. */
  ghost predicate Closed(snapshot: StateSnapshot) {
    var ids := EntityIds(snapshot.entities);
    && (forall i :: 0 <= i < |snapshot.entities| ==> EntityResolves(snapshot.entities[i], ids))
    && (forall i :: 0 <= i < |snapshot.flows| ==> FlowResolves(snapshot.flows[i], ids))
  }

  lemma EntityOfId(raw: Dict)
    requires ValidEntity(raw)
    ensures EntityOf(raw).entityId == ParsedId(EntityKind, raw)
  {
  }

  /** A stripped key of the table is the id of an entity of the snapshot. */
  lemma KeyIsEntityId(store: Store, key: string)
    requires Consistent(store) && Snapshot(store).Some?
    requires key in store.entities && Strip(key) == key
    ensures key in EntityIds(Snapshot(store).value.entities)
  {
    hide ValidEntity, SortedKeys, Strip, EntityOf;
    var order := SortedKeys(store.entities.Keys);
    var entities := Snapshot(store).value.entities;
    assert key in order;
    var i :| 0 <= i < |order| && order[i] == key;
    assert ParsedId(EntityKind, store.entities[key]) == key;
    assert entities[i] == EntityOf(store.entities[key]) && EntityOf(store.entities[key]).entityId == key by {
      EntityOfId(store.entities[key]);
    }
  }

  lemma StrippedKeysAreEntityIds(store: Store)
    requires Consistent(store) && Snapshot(store).Some?
    ensures forall key :: key in store.entities && Strip(key) == key ==>
      key in EntityIds(Snapshot(store).value.entities)
  {
    forall key | key in store.entities && Strip(key) == key ensures key in EntityIds(Snapshot(store).value.entities) {
      KeyIsEntityId(store, key);
    }
  }

  lemma EntityResolvesStripped(raw: Dict, keys: set<string>, ids: set<string>)
    requires RawEntityResolves(raw, keys)
    requires forall key :: key in keys && Strip(key) == key ==> key in ids
    ensures EntityResolves(EntityOf(raw), ids)
  {
    var entity := EntityOf(raw);
    if entity.parent.Some? {
      StripIdempotent(Get(raw, Name.ParentEntityId).s);
    }
    var devices, policies := GetList(raw, Name.Devices).items, GetList(raw, Name.EffectPolicies).items;
    forall i | 0 <= i < |entity.devices| ensures entity.devices[i].peer in ids {
      assert ValidDevice(devices[i]) && entity.devices[i] == DeviceOf(devices[i]);
      StripIdempotent(Get(devices[i].fields, Name.PeerEntityId).s);
    }
    forall i | 0 <= i < |entity.policies| ensures entity.policies[i].peer in ids {
      assert ValidPolicy(policies[i]) && entity.policies[i] == PolicyOf(policies[i]);
      StripIdempotent(Get(policies[i].fields, Name.PeerEntityId).s);
    }
  }

  lemma FlowResolvesStripped(raw: Dict, keys: set<string>, ids: set<string>)
    requires RawFlowResolves(raw, keys)
    requires forall key :: key in keys && Strip(key) == key ==> key in ids
    ensures FlowResolves(FlowOf(raw), ids)
  {
    StripIdempotent(Get(raw, Name.SourceEntityId).s);
    StripIdempotent(Get(raw, Name.TargetEntityId).s);
  }

  /** No reference of a snapshot dangles, even though the table may be keyed by
      ids with surrounding spaces while references are stripped. */
  lemma SnapshotIsClosed(store: Store)
    requires Consistent(store) && store.initialized
    ensures Snapshot(store).Some? && Closed(Snapshot(store).value)
  {
    hide ValidEntity, ValidFlow, SortedKeys, Strip, EntityOf, FlowOf, RawEntityResolves, RawFlowResolves;
    SnapshotSucceeds(store);
    StrippedKeysAreEntityIds(store);
    var snapshot := Snapshot(store).value;
    var ids := EntityIds(snapshot.entities);
    var order, flowOrder := SortedKeys(store.entities.Keys), SortedKeys(store.flows.Keys);
    forall i | 0 <= i < |snapshot.entities| ensures EntityResolves(snapshot.entities[i], ids) {
      assert order[i] in order;
      EntityResolvesStripped(store.entities[order[i]], store.entities.Keys, ids);
    }
    forall i | 0 <= i < |snapshot.flows| ensures FlowResolves(snapshot.flows[i], ids) {
      assert flowOrder[i] in flowOrder;
      FlowResolvesStripped(store.flows[flowOrder[i]], store.entities.Keys, ids);
    }
  }

  // ----- Merging -------------------------------------------------------------

  /** An update whose position and velocity, if present, are objects. */
  predicate ObjectValued(update: Dict) {
    && (Name.Position in update ==> update[Name.Position].Obj?)
    && (Name.Velocity in update ==> update[Name.Velocity].Obj?)
  }

  function Member(d: Dict, key: Name): Option<Json> {
    if key in d then Some(d[key]) else None
  }

  /** What merging does to one member, present or not. */
  function MergeValue(nested: bool, current: Option<Json>, update: Option<Json>): Option<Json> {
    if update.None? then current
    else if nested && current.Some? && current.value.Obj? && update.value.Obj? then
      Some(Obj(Union(current.value.fields, update.value.fields)))
    else update
  }

  lemma MergeValueAssociative(nested: bool, first: Option<Json>, second: Option<Json>, third: Option<Json>)
    requires nested && second.Some? ==> second.value.Obj?
    ensures MergeValue(nested, MergeValue(nested, first, second), third)
         == MergeValue(nested, first, MergeValue(nested, second, third))
  {
    if nested && first.Some? && second.Some? && third.Some? && first.value.Obj? && third.value.Obj? {
      var a, b, c := first.value.fields, second.value.fields, third.value.fields;
      assert Union(Union(a, b), c) == Union(a, Union(b, c));
    }
  }

  lemma MergedMemberValue(current: Dict, update: Dict, key: Name)
    ensures Member(MergeEntity(current, update), key)
         == MergeValue(key == Name.Position || key == Name.Velocity, Member(current, key), Member(update, key))
  {
  }

  lemma MergeEntityAssociative(first: Dict, second: Dict, third: Dict)
    requires ObjectValued(second)
    ensures MergeEntity(MergeEntity(first, second), third) == MergeEntity(first, MergeEntity(second, third))
  {
    hide MergeEntity, MergeValue;
    var left := MergeEntity(MergeEntity(first, second), third);
    var right := MergeEntity(first, MergeEntity(second, third));
    forall key ensures Member(left, key) == Member(right, key) {
      var nested := key == Name.Position || key == Name.Velocity;
      MergeValueAssociative(nested, Member(first, key), Member(second, key), Member(third, key));
      MergedMemberValue(first, second, key);
      MergedMemberValue(second, third, key);
      MergedMemberValue(MergeEntity(first, second), third, key);
      MergedMemberValue(first, MergeEntity(second, third), key);
    }
    SameMembersSameDict(left, right);
  }

  lemma SameMembersSameDict(left: Dict, right: Dict)
    requires forall key :: Member(left, key) == Member(right, key)
    ensures left == right
  {
    assert forall key :: key in left <==> Member(left, key).Some?;
    assert forall key :: key in right <==> Member(right, key).Some?;
  }

  lemma AcceptedIsObjectValued(first: Dict, second: Dict)
    requires ValidEntity(MergeEntity(first, second))
    ensures ObjectValued(second)
  {
    var merged := MergeEntity(first, second);
    assert ValidPosition(Get(merged, Name.Position)) && ValidVelocity(Get(merged, Name.Velocity));
  }

  lemma MergeAssociative(kind: Kind, first: Dict, second: Dict, third: Dict)
    requires Valid(kind, Merge(kind, first, second))
    ensures Merge(kind, Merge(kind, first, second), third) == Merge(kind, first, Merge(kind, second, third))
  {
    hide ValidEntity, ValidFlow, MergeEntity;
    if kind.EntityKind? {
      AcceptedIsObjectValued(first, second);
      MergeEntityAssociative(first, second, third);
    } else {
      assert Union(Union(first, second), third) == Union(first, Union(second, third));
    }
  }

  lemma UpsertOne(kind: Kind, table: Table, id: string, update: Dict, rest: seq<Json>)
    requires id in table && id != "" && Get(update, IdKey(kind)) == Str(id)
    ensures UpsertAll(kind, table, [Obj(update)] + rest)
         == if Valid(kind, Merge(kind, table[id], update))
            then UpsertAll(kind, table[id := Merge(kind, table[id], update)], rest) else None
  {
    hide Valid, Merge;
    assert ([Obj(update)] + rest)[1..] == rest;
  }

  lemma UpsertTwo(kind: Kind, table: Table, id: string, second: Dict, third: Dict)
    requires id in table && id != ""
    requires Get(second, IdKey(kind)) == Str(id) && Get(third, IdKey(kind)) == Str(id)
    requires Valid(kind, Merge(kind, table[id], second))
    ensures var twice := Merge(kind, Merge(kind, table[id], second), third);
      UpsertAll(kind, table, [Obj(second)] + [Obj(third)])
      == if Valid(kind, twice) then Some(table[id := twice]) else None
  {
    hide Valid, Merge;
    var middle := table[id := Merge(kind, table[id], second)];
    UpsertOne(kind, table, id, second, [Obj(third)]);
    UpsertOne(kind, middle, id, third, []);
    assert [Obj(third)] + [] == [Obj(third)];
    assert middle[id := Merge(kind, middle[id], third)] == table[id := Merge(kind, middle[id], third)];
  }

  /** Two partial upserts of an entity or flow that the store holds, the first
      accepted, leave the table that one upsert with the merged update leaves, and
      the one is refused exactly when the other is. */
  lemma UpsertsMerge(kind: Kind, table: Table, id: string, second: Dict, third: Dict)
    requires id in table && id != ""
    requires Get(second, IdKey(kind)) == Str(id) && Get(third, IdKey(kind)) == Str(id)
    requires Valid(kind, Merge(kind, table[id], second))
    ensures UpsertAll(kind, table, [Obj(second)] + [Obj(third)])
         == UpsertAll(kind, table, [Obj(Merge(kind, second, third))])
  {
    hide Valid, Merge, Upsert;
    MergeAssociative(kind, table[id], second, third);
    assert Get(Merge(kind, second, third), IdKey(kind)) == Str(id) by {
      MergedId(kind, second, third);
    }
    UpsertTwo(kind, table, id, second, third);
    UpsertOne(kind, table, id, Merge(kind, second, third), []);
    assert [Obj(Merge(kind, second, third))] + [] == [Obj(Merge(kind, second, third))];
  }
}
