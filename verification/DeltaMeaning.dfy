/** When the service accepts a message and what it then holds, for every message:
    id by id, without the tables in between. */
module DeltaMeaning {
  import opened Wrappers
  import opened Text
  import opened Json
  import opened Models
  import opened StateStore
  import opened StoreIntegrity
  import opened Indexing

  // ----- What a change leaves under an id -------------------------------------------

  predicate Concerns(kind: Kind, item: Json, id: string) {
    item.Obj? && Get(item.fields, IdKey(kind)) == Str(id)
  }

  /** What the table without the removed ids has. */
  function Kept(table: Table, removals: seq<Json>): Table {
    map id | id in table && Str(id) !in removals :: table[id]
  }

  /** The record of one id after the upserts: those that concern the id, merged one
      into the other in order. */
  function RecordAfter(kind: Kind, kept: Table, upserts: seq<Json>, id: string): Option<Dict>
    decreases |upserts|
  {
    if upserts == [] then
      if id in kept then Some(kept[id]) else None
    else
      var last := upserts[|upserts| - 1];
      var before := RecordAfter(kind, kept, upserts[..|upserts| - 1], id);
      if !Concerns(kind, last, id) then before
      else if before.None? then Some(last.fields)
      else Some(Merge(kind, before.value, last.fields))
  }

  predicate FitRemoval(item: Json) {
    item.Str? && item.s != ""
  }

  /** Upsert `k` names an id, and what is then under that id is valid. */
  predicate FitUpsert(kind: Kind, kept: Table, upserts: seq<Json>, k: nat)
    requires k < |upserts|
  {
    && upserts[k].Obj?
    && var id := Get(upserts[k].fields, IdKey(kind));
    && id.Str? && id.s != ""
    && RecordAfter(kind, kept, upserts[..k + 1], id.s).Some?
    && Valid(kind, RecordAfter(kind, kept, upserts[..k + 1], id.s).value)
  }

  ghost predicate AllFit(kind: Kind, kept: Table, upserts: seq<Json>) {
    forall k :: 0 <= k < |upserts| ==> FitUpsert(kind, kept, upserts, k)
  }

  /** Every removal and every upsert is fit. */
  ghost predicate FitPatch(kind: Kind, table: Table, removals: seq<Json>, upserts: seq<Json>) {
    && (forall k :: 0 <= k < |removals| ==> FitRemoval(removals[k]))
    && AllFit(kind, Kept(table, removals), upserts)
  }

  /** `after` has for every id what the removals and upserts leave. */
  ghost predicate Leaves(kind: Kind, kept: Table, upserts: seq<Json>, after: Table) {
    forall id ::
      && (id in after <==> RecordAfter(kind, kept, upserts, id).Some?)
      && (id in after ==> after[id] == RecordAfter(kind, kept, upserts, id).value)
  }

  lemma {:induction false} RemovalsMean(table: Table, removals: seq<Json>)
    ensures RemoveAll(table, removals)
      == if forall k :: 0 <= k < |removals| ==> FitRemoval(removals[k]) then Some(Kept(table, removals)) else None
    decreases |removals|
  {
    if removals == [] {
      assert Kept(table, removals) == table;
    } else if FitRemoval(removals[0]) {
      var rest := removals[1..];
      RemovalsMean(table - {removals[0].s}, rest);
      assert removals == [removals[0]] + rest;
      if forall k :: 0 <= k < |rest| ==> FitRemoval(rest[k]) {
        assert Kept(table - {removals[0].s}, rest) == Kept(table, removals);
      } else {
        var k :| 0 <= k < |rest| && !FitRemoval(rest[k]);
        assert !FitRemoval(removals[k + 1]);
      }
    }
  }

  lemma {:induction false} UpsertSnoc(kind: Kind, table: Table, items: seq<Json>, last: Json)
    ensures UpsertAll(kind, table, items + [last])
      == if UpsertAll(kind, table, items).None? then None
         else Upsert(kind, UpsertAll(kind, table, items).value, last)
    decreases |items|
  {
    hide Upsert;
    if items == [] {
      assert items + [last] == [last] && [last][1..] == [];
    } else {
      assert (items + [last])[0] == items[0] && (items + [last])[1..] == items[1..] + [last];
      var next := Upsert(kind, table, items[0]);
      if next.Some? {
        UpsertSnoc(kind, next.value, items[1..], last);
      }
    }
  }

  lemma AllFitSnoc(kind: Kind, kept: Table, upserts: seq<Json>)
    requires upserts != []
    ensures AllFit(kind, kept, upserts) <==>
      AllFit(kind, kept, upserts[..|upserts| - 1]) && FitUpsert(kind, kept, upserts, |upserts| - 1)
  {
    hide RecordAfter, Valid;
    var n, front := |upserts|, upserts[..|upserts| - 1];
    forall k | 0 <= k < n - 1 ensures FitUpsert(kind, kept, upserts, k) <==> FitUpsert(kind, kept, front, k) {
      assert front[..k + 1] == upserts[..k + 1];
    }
    hide FitUpsert;
  }

  lemma LastUpsert(kind: Kind, kept: Table, upserts: seq<Json>, before: Table)
    requires upserts != [] && Leaves(kind, kept, upserts[..|upserts| - 1], before)
    ensures Upsert(kind, before, upserts[|upserts| - 1]).Some? <==> FitUpsert(kind, kept, upserts, |upserts| - 1)
    ensures Upsert(kind, before, upserts[|upserts| - 1]).Some? ==>
      Leaves(kind, kept, upserts, Upsert(kind, before, upserts[|upserts| - 1]).value)
  {
    hide Valid, Merge;
    assert upserts[..|upserts|] == upserts;
  }

  lemma {:induction false} UpsertsMean(kind: Kind, kept: Table, upserts: seq<Json>)
    ensures UpsertAll(kind, kept, upserts).Some? <==> AllFit(kind, kept, upserts)
    ensures UpsertAll(kind, kept, upserts).Some? ==>
      Leaves(kind, kept, upserts, UpsertAll(kind, kept, upserts).value)
    decreases |upserts|
  {
    var n := |upserts|;
    if n > 0 {
      hide Upsert, UpsertAll, FitUpsert, Leaves, RecordAfter, AllFit;
      var front, last := upserts[..n - 1], upserts[n - 1];
      UpsertsMean(kind, kept, front);
      UpsertSnoc(kind, kept, front, last);
      assert front + [last] == upserts;
      AllFitSnoc(kind, kept, upserts);
      if UpsertAll(kind, kept, front).Some? {
        LastUpsert(kind, kept, upserts, UpsertAll(kind, kept, front).value);
      }
    }
  }

  /** One table: the change is accepted exactly when all its parts are fit, and then
      every id has what the parts that concern it leave. */
  lemma PatchMeans(kind: Kind, table: Table, removals: seq<Json>, upserts: seq<Json>)
    ensures Patch(kind, table, removals, upserts).Some? <==> FitPatch(kind, table, removals, upserts)
    ensures Patch(kind, table, removals, upserts).Some? ==>
      Leaves(kind, Kept(table, removals), upserts, Patch(kind, table, removals, upserts).value)
  {
    hide RemoveAll, UpsertAll, AllFit, Leaves, Kept, FitRemoval;
    RemovalsMean(table, removals);
    UpsertsMean(kind, Kept(table, removals), upserts);
  }

  // ----- When a change is accepted ---------------------------------------------------

  /** The four members of a change are lists, if they are there. */
  predicate HasLists(payload: Dict) {
    && (Name.EntityUpserts in payload ==> payload[Name.EntityUpserts].Arr?)
    && (Name.EntityRemovals in payload ==> payload[Name.EntityRemovals].Arr?)
    && (Name.FlowUpserts in payload ==> payload[Name.FlowUpserts].Arr?)
    && (Name.FlowRemovals in payload ==> payload[Name.FlowRemovals].Arr?)
  }

  function Listed(payload: Dict, name: Name): seq<Json>
    requires name in payload ==> payload[name].Arr?
  {
    if name in payload then payload[name].items else []
  }

  /** The entities and flows that the store would hold after the change. */
  ghost predicate Results(store: Store, payload: Dict, entities: Table, flows: Table)
    requires HasLists(payload)
  {
    && Leaves(EntityKind, Kept(store.entities, Listed(payload, Name.EntityRemovals)),
              Listed(payload, Name.EntityUpserts), entities)
    && Leaves(FlowKind, Kept(store.flows, Listed(payload, Name.FlowRemovals)),
              Listed(payload, Name.FlowUpserts), flows)
  }

  lemma ResultsUnique(store: Store, payload: Dict, entities: Table, flows: Table, entities': Table, flows': Table)
    requires HasLists(payload)
    requires Results(store, payload, entities, flows) && Results(store, payload, entities', flows')
    ensures entities == entities' && flows == flows'
  {
    hide RecordAfter, Kept;
    assert entities.Keys == entities'.Keys && flows.Keys == flows'.Keys;
  }

  /** A change is accepted if and only if a full message came before, its time is not
      before the stored one, its members are lists, every removal and upsert is fit,
      and the references of the result resolve; the store then holds that result. */
  lemma DeltaAcceptedIff(store: Store, payload: Dict, timestampMs: int)
    ensures ApplyDelta(store, payload, timestampMs).Some? <==>
      && store.initialized && store.timestampMs <= timestampMs
      && HasLists(payload)
      && FitPatch(EntityKind, store.entities, Listed(payload, Name.EntityRemovals), Listed(payload, Name.EntityUpserts))
      && FitPatch(FlowKind, store.flows, Listed(payload, Name.FlowRemovals), Listed(payload, Name.FlowUpserts))
      && exists entities, flows :: Results(store, payload, entities, flows) && ReferencesResolve(entities, flows)
    ensures ApplyDelta(store, payload, timestampMs).Some? ==>
      var after := ApplyDelta(store, payload, timestampMs).value;
      && Results(store, payload, after.entities, after.flows)
      && after.timestampMs == timestampMs && after.revision == store.revision + 1 && after.initialized
  {
    hide Patch, FitPatch, Leaves, Kept, ReferencesResolve;
    if HasLists(payload) {
      var removals, upserts := Listed(payload, Name.EntityRemovals), Listed(payload, Name.EntityUpserts);
      var flowRemovals, flowUpserts := Listed(payload, Name.FlowRemovals), Listed(payload, Name.FlowUpserts);
      PatchMeans(EntityKind, store.entities, removals, upserts);
      PatchMeans(FlowKind, store.flows, flowRemovals, flowUpserts);
      var entities, flows :=
        Patch(EntityKind, store.entities, removals, upserts), Patch(FlowKind, store.flows, flowRemovals, flowUpserts);
      if entities.Some? && flows.Some? {
        assert Results(store, payload, entities.value, flows.value);
        forall entities', flows' | Results(store, payload, entities', flows')
          ensures entities' == entities.value && flows' == flows.value
        {
          ResultsUnique(store, payload, entities', flows', entities.value, flows.value);
        }
      }
    }
  }

  // ----- Runs of changes ---------------------------------------------------------------

  /** Over any run of changes alone, whatever they hold, the stored time never goes
      back, and before a full message every change is refused. */
  lemma {:induction false} ChangesKeepTime(store: Store, commands: seq<Command>)
    requires forall i :: 0 <= i < |commands| ==> commands[i].DeltaCommand?
    ensures store.timestampMs <= ExecuteAll(store, commands).timestampMs
    ensures !store.initialized ==> ExecuteAll(store, commands) == store
    decreases |commands|
  {
    if commands != [] {
      hide ApplyDelta;
      var payload, timestamp := commands[0].payload, commands[0].timestampMs;
      DeltaAcceptedIff(store, payload, timestamp);
      var next := ApplyDelta(store, payload, timestamp);
      ChangesKeepTime(if next.Some? then next.value else store, commands[1..]);
    }
  }

  // ----- When a full message is accepted ------------------------------------------------

  /** All elements are valid objects. */
  ghost predicate AllRecords(kind: Kind, items: seq<Json>) {
    forall i :: 0 <= i < |items| ==> items[i].Obj? && Valid(kind, items[i].fields)
  }

  ghost function IdsOf(kind: Kind, items: seq<Json>): (ids: seq<string>)
    requires AllRecords(kind, items)
    ensures |ids| == |items| && forall i :: 0 <= i < |items| ==> ids[i] == ParsedId(kind, items[i].fields)
  {
    seq(|items|, i requires 0 <= i < |items| && AllRecords(kind, items) => ParsedId(kind, items[i].fields))
  }

  ghost function FieldsOf(kind: Kind, items: seq<Json>): (fields: seq<Dict>)
    requires AllRecords(kind, items)
    ensures |fields| == |items| && forall i :: 0 <= i < |items| ==> fields[i] == items[i].fields
  {
    seq(|items|, i requires 0 <= i < |items| && AllRecords(kind, items) => items[i].fields)
  }

  lemma RecordsFirst(kind: Kind, items: seq<Json>)
    requires items != []
    ensures AllRecords(kind, items) <==>
      items[0].Obj? && Valid(kind, items[0].fields) && AllRecords(kind, items[1..])
    ensures AllRecords(kind, items) ==>
      && IdsOf(kind, items)[0] == ParsedId(kind, items[0].fields) && FieldsOf(kind, items)[0] == items[0].fields
      && IdsOf(kind, items)[1..] == IdsOf(kind, items[1..]) && FieldsOf(kind, items)[1..] == FieldsOf(kind, items[1..])
  {
    hide Valid, ParsedId;
    assert items == [items[0]] + items[1..];
  }

  lemma ParsedIdNotEmpty(kind: Kind, d: Dict)
    requires Valid(kind, d)
    ensures ParsedId(kind, d) != ""
  {
    hide Strip;
  }

  lemma {:induction false} IndexFromMeans(kind: Kind, table: Table, items: seq<Json>)
    ensures IndexFrom(kind, table, items).Some? <==>
      AllRecords(kind, items) && FitIds(IdsOf(kind, items), table.Keys)
    ensures IndexFrom(kind, table, items).Some? ==>
      FiledUnder(IdsOf(kind, items), FieldsOf(kind, items), table, IndexFrom(kind, table, items).value)
    decreases |items|
  {
    hide FitIds, FiledUnder, Valid, ParsedId, AllRecords, IdsOf, FieldsOf;
    if items == [] {
      NothingFiled(table);
      NoRecords(kind);
    } else {
      RecordsFirst(kind, items);
      if items[0].Obj? && Valid(kind, items[0].fields) {
        var id := ParsedId(kind, items[0].fields);
        var next := table[id := items[0].fields];
        assert next.Keys == table.Keys + {id};
        ParsedIdNotEmpty(kind, items[0].fields);
        IndexFromMeans(kind, next, items[1..]);
        if AllRecords(kind, items) {
          FitIdsFirst(IdsOf(kind, items), table.Keys);
          if IndexFrom(kind, table, items).Some? {
            FiledFirst(IdsOf(kind, items), FieldsOf(kind, items), table, IndexFrom(kind, table, items).value);
          }
        }
      }
    }
  }

  lemma NoRecords(kind: Kind)
    ensures AllRecords(kind, []) && IdsOf(kind, []) == [] && FieldsOf(kind, []) == []
  {
  }

  /** The elements are valid objects and no two have the same id. */
  ghost predicate FitItems(kind: Kind, items: seq<Json>) {
    && AllRecords(kind, items)
    && forall i, j :: 0 <= i < j < |items| ==> ParsedId(kind, items[i].fields) != ParsedId(kind, items[j].fields)
  }

  /** The table has exactly the elements, each under its id. */
  ghost predicate Files(kind: Kind, items: seq<Json>, table: Table)
    requires AllRecords(kind, items)
  {
    && |table| == |items|
    && (forall i :: 0 <= i < |items| ==>
          ParsedId(kind, items[i].fields) in table && table[ParsedId(kind, items[i].fields)] == items[i].fields)
    && (forall id :: id in table ==> exists i :: 0 <= i < |items| && ParsedId(kind, items[i].fields) == id)
  }

  lemma FiledAreFiles(kind: Kind, items: seq<Json>, table: Table)
    requires AllRecords(kind, items) && FiledUnder(IdsOf(kind, items), FieldsOf(kind, items), map[], table)
    ensures Files(kind, items, table)
  {
    hide IdsOf, FieldsOf, ParsedId, Valid;
    var ids := IdsOf(kind, items);
    forall id | id in table ensures exists i :: 0 <= i < |items| && ParsedId(kind, items[i].fields) == id {
      var i :| 0 <= i < |ids| && ids[i] == id;
      assert ParsedId(kind, items[i].fields) == id;
    }
  }

  lemma IndexMeans(kind: Kind, items: seq<Json>)
    ensures IndexFrom(kind, map[], items).Some? <==> FitItems(kind, items)
    ensures IndexFrom(kind, map[], items).Some? ==> Files(kind, items, IndexFrom(kind, map[], items).value)
  {
    hide Valid, ParsedId, IndexFrom, Files, FiledUnder, IdsOf, FieldsOf;
    IndexFromMeans(kind, map[], items);
    if AllRecords(kind, items) {
      forall i | 0 <= i < |items| ensures ParsedId(kind, items[i].fields) != "" {
        ParsedIdNotEmpty(kind, items[i].fields);
      }
      if IndexFrom(kind, map[], items).Some? {
        FiledAreFiles(kind, items, IndexFrom(kind, map[], items).value);
      }
    }
  }

  lemma FilesUnique(kind: Kind, items: seq<Json>, table: Table, table': Table)
    requires AllRecords(kind, items) && Files(kind, items, table) && Files(kind, items, table')
    ensures table == table'
  {
    hide AllRecords, ParsedId, Valid;
  }

  /** A full message is accepted if and only if both members are lists of valid
      objects, no two with the same id, and the references of what they make up
      resolve, whatever the store held and whenever; the store then holds that. */
  lemma FullAcceptedIff(store: Store, payload: Dict, timestampMs: int)
    ensures Initialize(store, payload, timestampMs).Some? <==>
      var entities, flows := Get(payload, Name.Entities), Get(payload, Name.Flows);
      && entities.Arr? && flows.Arr?
      && FitItems(EntityKind, entities.items) && FitItems(FlowKind, flows.items)
      && exists e, f ::
           Files(EntityKind, entities.items, e) && Files(FlowKind, flows.items, f) && ReferencesResolve(e, f)
    ensures Initialize(store, payload, timestampMs).Some? ==>
      var after := Initialize(store, payload, timestampMs).value;
      && FitItems(EntityKind, Get(payload, Name.Entities).items) && FitItems(FlowKind, Get(payload, Name.Flows).items)
      && Files(EntityKind, Get(payload, Name.Entities).items, after.entities)
      && Files(FlowKind, Get(payload, Name.Flows).items, after.flows)
      && after.timestampMs == timestampMs && after.revision == store.revision + 1 && after.initialized
  {
    hide IndexFrom, AllRecords, Files, ReferencesResolve, ParsedId, Valid;
    var entities, flows := Get(payload, Name.Entities), Get(payload, Name.Flows);
    if entities.Arr? && flows.Arr? {
      IndexMeans(EntityKind, entities.items);
      IndexMeans(FlowKind, flows.items);
      var e, f := IndexFrom(EntityKind, map[], entities.items), IndexFrom(FlowKind, map[], flows.items);
      if e.Some? && f.Some? {
        forall e', f' | Files(EntityKind, entities.items, e') && Files(FlowKind, flows.items, f')
          ensures e' == e.value && f' == f.value
        {
          FilesUnique(EntityKind, entities.items, e', e.value);
          FilesUnique(FlowKind, flows.items, f', f.value);
        }
      }
    }
  }
}
