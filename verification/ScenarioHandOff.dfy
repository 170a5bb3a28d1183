/** The hand-off of snapshots to the runner: what arrives there, and over whole
    runs of computations which of them succeed. */
module ScenarioHandOff {
  import opened Wrappers
  import opened Models
  import opened StateStore
  import opened StoreIntegrity
  import opened Ns3Runner
  import opened ScenarioText
  import JsonText
  import JsonScanner
  import Json
  import Text

  // ----- Batches ----------------------------------------------------------------------

  /** Indexing `node_index` succeeds for every link and flow. */
  ghost predicate Indexed(all: seq<Entity>, links: seq<EngineLink>, flows: seq<Flow>) {
    && (forall i :: 0 <= i < |links| ==> NodeIndex(all, links[i].source).Some? && NodeIndex(all, links[i].target).Some?)
    && (forall i :: 0 <= i < |flows| ==> NodeIndex(all, flows[i].source).Some? && NodeIndex(all, flows[i].target).Some?)
  }

  function NodeLines(entities: seq<Entity>, number: Writer): seq<string>
    decreases |entities|
  {
    if entities == [] then []
    else
      NodeLines(entities[..|entities| - 1], number)
      + [Joined(NodeParts(|entities| - 1, entities[|entities| - 1], number))]
  }

  function PartsOfLink(all: seq<Entity>, index: nat, link: EngineLink, number: Writer): seq<string>
    requires NodeIndex(all, link.source).Some? && NodeIndex(all, link.target).Some?
  {
    LinkParts(index, IndexOf(all, link.source), IndexOf(all, link.target), link, number)
  }

  function LinkLines(all: seq<Entity>, links: seq<EngineLink>, number: Writer): seq<string>
    requires Indexed(all, links, [])
    decreases |links|
  {
    if links == [] then []
    else
      LinkLines(all, links[..|links| - 1], number) + [Joined(PartsOfLink(all, |links| - 1, links[|links| - 1], number))]
  }

  function PartsOfFlow(all: seq<Entity>, index: nat, flow: Flow): seq<string>
    requires NodeIndex(all, flow.source).Some? && NodeIndex(all, flow.target).Some?
  {
    FlowParts(index, IndexOf(all, flow.source), IndexOf(all, flow.target), flow, Enabled(all, flow))
  }

  function FlowLines(all: seq<Entity>, flows: seq<Flow>): seq<string>
    requires Indexed(all, [], flows)
    decreases |flows|
  {
    if flows == [] then []
    else
      FlowLines(all, flows[..|flows| - 1]) + [Joined(PartsOfFlow(all, |flows| - 1, flows[|flows| - 1]))]
  }

  /** What the engine sees of a snapshot: its entities, their links, its flows. */
  datatype Batch = Batch(id: string, entities: seq<Entity>, links: seq<EngineLink>, flows: seq<Flow>)

  function BatchOf(snapshot: StateSnapshot): Batch {
    Batch(ScenarioId(snapshot), snapshot.entities, LinksOf(snapshot.entities, snapshot.entities), snapshot.flows)
  }

  function HeaderLine(batch: Batch): string {
    Joined(HeaderParts(batch.id, |batch.entities|, |batch.links|, |batch.flows|))
  }

  /** The lines before `RUN`. */
  function RecordLines(batch: Batch, number: Writer): seq<string>
    requires Indexed(batch.entities, batch.links, batch.flows)
  {
    [HeaderLine(batch)] + NodeLines(batch.entities, number) + LinkLines(batch.entities, batch.links, number)
    + FlowLines(batch.entities, batch.flows)
  }

  function Lines(batch: Batch, number: Writer): seq<string>
    requires Indexed(batch.entities, batch.links, batch.flows)
  {
    RecordLines(batch, number) + [RUN]
  }

  /** The part of `compute` that puts the lines together. */
  method BuildLines(snapshot: StateSnapshot, number: Writer) returns (lines: seq<string>)
    requires Indexed(snapshot.entities, LinksOf(snapshot.entities, snapshot.entities), snapshot.flows)
    ensures lines == Lines(BatchOf(snapshot), number)
  {
    hide LinksOf, Joined, NodeParts, PartsOfLink, PartsOfFlow, HeaderParts, ScenarioId, NodeIndex;
    var entities, flows := snapshot.entities, snapshot.flows;
    var links := Links(snapshot);
    lines := [Joined(HeaderParts(ScenarioId(snapshot), |entities|, |links|, |flows|))];
    ghost var header := lines;
    assert entities[..0] == [] && links[..0] == [] && flows[..0] == [];
    for index := 0 to |entities|
      invariant lines == header + NodeLines(entities[..index], number)
    {
      assert entities[..index + 1][..index] == entities[..index];
      lines := lines + [Joined(NodeParts(index, entities[index], number))];
    }
    assert entities[..|entities|] == entities;
    ghost var nodes := lines;
    for index := 0 to |links|
      invariant lines == nodes + LinkLines(entities, links[..index], number)
    {
      assert links[..index + 1][..index] == links[..index];
      lines := lines + [Joined(PartsOfLink(entities, index, links[index], number))];
    }
    assert links[..|links|] == links;
    ghost var linked := lines;
    for index := 0 to |flows|
      invariant lines == linked + FlowLines(entities, flows[..index])
    {
      assert flows[..index + 1][..index] == flows[..index];
      lines := lines + [Joined(PartsOfFlow(entities, index, flows[index]))];
    }
    assert flows[..|flows|] == flows;
    lines := lines + [RUN];
  }

  // ----- What a snapshot of the store gives ---------------------------------------------------

  predicate RangedDevice(device: Device) {
    1 <= device.dataRateBps && 0.0 <= device.delayMs && 0.0 <= device.lossRate <= 1.0
  }

  predicate RangedEntity(entity: Entity) {
    forall i :: 0 <= i < |entity.devices| ==> RangedDevice(entity.devices[i])
  }

  predicate RangedFlow(flow: Flow) {
    64 <= flow.packetSizeBytes && 1 <= flow.intervalMs && 100 <= flow.durationMs
  }

  /** What validation has checked of the numbers of a snapshot. */
  ghost predicate Ranged(snapshot: StateSnapshot) {
    && (forall i :: 0 <= i < |snapshot.entities| ==> RangedEntity(snapshot.entities[i]))
    && (forall i :: 0 <= i < |snapshot.flows| ==> RangedFlow(snapshot.flows[i]))
  }

  lemma ValidEntityIsRanged(raw: Json.Dict)
    requires ValidEntity(raw)
    ensures RangedEntity(EntityOf(raw))
  {
    var devices := Json.GetList(raw, Json.Name.Devices).items;
    forall i | 0 <= i < |devices| ensures RangedDevice(DeviceOf(devices[i])) {
      assert ValidDevice(devices[i]);
    }
  }

  lemma ValidFlowIsRanged(raw: Json.Dict)
    requires Models.ValidFlow(raw)
    ensures RangedFlow(FlowOf(raw))
  {
  }

  lemma EntitiesAreRanged(table: Table, order: seq<string>)
    requires AllValid(EntityKind, table) && forall i :: 0 <= i < |order| ==> order[i] in table
    ensures forall i :: 0 <= i < |order| ==> RangedEntity(EntitiesOf(table, order)[i])
  {
    hide ValidEntity, EntityOf, RangedEntity, EntitiesOf;
    forall i | 0 <= i < |order| ensures RangedEntity(EntitiesOf(table, order)[i]) {
      ValidAt(EntityKind, table, order[i]);
      ValidEntityIsRanged(table[order[i]]);
    }
  }

  lemma FlowsAreRanged(table: Table, order: seq<string>)
    requires AllValid(FlowKind, table) && forall i :: 0 <= i < |order| ==> order[i] in table
    ensures forall i :: 0 <= i < |order| ==> RangedFlow(FlowsOf(table, order)[i])
  {
    hide Models.ValidFlow, FlowOf, RangedFlow, FlowsOf;
    forall i | 0 <= i < |order| ensures RangedFlow(FlowsOf(table, order)[i]) {
      ValidAt(FlowKind, table, order[i]);
      ValidFlowIsRanged(table[order[i]]);
    }
  }

  lemma TablesAreValid(store: Store)
    requires Consistent(store)
    ensures AllValid(EntityKind, store.entities) && AllValid(FlowKind, store.flows)
  {
    hide ReferencesResolve, ValidEntity, Models.ValidFlow;
  }

  /** Every snapshot of a consistent store is closed and within the ranges. */
  lemma SnapshotIsRanged(store: Store)
    requires Consistent(store) && store.initialized
    ensures Snapshot(store).Some? && Closed(Snapshot(store).value) && Ranged(Snapshot(store).value)
  {
    hide Consistent, Closed, Text.SortedKeys, ValidEntity, Models.ValidFlow, EntityOf, FlowOf, RangedEntity,
      RangedFlow, EntitiesOf, FlowsOf, AllValid;
    SnapshotIsClosed(store);
    TablesAreValid(store);
    EntitiesAreRanged(store.entities, Text.SortedKeys(store.entities.Keys));
    FlowsAreRanged(store.flows, Text.SortedKeys(store.flows.Keys));
  }

  lemma {:induction false} IndexFound(entities: seq<Entity>, id: string)
    ensures NodeIndex(entities, id).Some? <==> id in EntityIds(entities)
    ensures NodeIndex(entities, id).Some? ==>
      NodeIndex(entities, id).value < |entities| && entities[NodeIndex(entities, id).value].entityId == id
    decreases |entities|
  {
    var n := |entities|;
    if n > 0 {
      IndexFound(entities[..n - 1], id);
      if entities[n - 1].entityId != id && id in EntityIds(entities) {
        var i :| 0 <= i < n && entities[i].entityId == id;
        assert entities[..n - 1][i].entityId == id;
      }
    }
  }

  /** What is known of a batch: references are found and numbers in range. */
  ghost predicate Sound(batch: Batch) {
    && Indexed(batch.entities, batch.links, batch.flows)
    && (forall i :: 0 <= i < |batch.links| ==>
          1 <= batch.links[i].dataRateBps && 0.0 <= batch.links[i].delayMs && 0.0 <= batch.links[i].lossRate <= 1.0)
    && (forall i :: 0 <= i < |batch.flows| ==> RangedFlow(batch.flows[i]))
  }

  ghost predicate SoundLink(all: seq<Entity>, link: EngineLink) {
    && NodeIndex(all, link.source).Some? && NodeIndex(all, link.target).Some?
    && 1 <= link.dataRateBps && 0.0 <= link.delayMs && 0.0 <= link.lossRate <= 1.0
  }

  lemma {:induction false} LinksAreSound(all: seq<Entity>, entities: seq<Entity>)
    requires forall i :: 0 <= i < |entities| ==> RangedEntity(entities[i]) && entities[i].entityId in EntityIds(all)
    requires forall i :: 0 <= i < |entities| ==> EntityResolves(entities[i], EntityIds(all))
    ensures forall i :: 0 <= i < |LinksOf(all, entities)| ==> SoundLink(all, LinksOf(all, entities)[i])
    decreases |entities|
  {
    hide EntityIds, NodeIndex;
    var n := |entities|;
    if n > 0 {
      LinksAreSound(all, entities[..n - 1]);
      var last := entities[n - 1];
      forall i | 0 <= i < |last.devices| ensures SoundLink(all, LinkOf(all, last, last.devices[i])) {
        IndexFound(all, last.entityId);
        IndexFound(all, last.devices[i].peer);
        assert RangedDevice(last.devices[i]);
      }
      assert LinksOf(all, entities) == LinksOf(all, entities[..n - 1]) + LinksOfEntity(all, last, last.devices);
    }
  }

  lemma BatchIsSound(snapshot: StateSnapshot)
    requires Closed(snapshot) && Ranged(snapshot)
    ensures Sound(BatchOf(snapshot))
  {
    hide NodeIndex, LinksOf, RangedEntity, RangedFlow, EntityResolves, ScenarioId;
    var all := snapshot.entities;
    forall i | 0 <= i < |all| ensures all[i].entityId in EntityIds(all) {
    }
    LinksAreSound(all, all);
    forall i | 0 <= i < |snapshot.flows|
      ensures NodeIndex(all, snapshot.flows[i].source).Some? && NodeIndex(all, snapshot.flows[i].target).Some?
    {
      assert FlowResolves(snapshot.flows[i], EntityIds(all));
      IndexFound(all, snapshot.flows[i].source);
      IndexFound(all, snapshot.flows[i].target);
    }
  }

  // ----- Widths --------------------------------------------------------------------------------

  /** Python's text of a float is a field, and `stod` either rejects it or gives
      the same value back. */
  ghost predicate Faithful(number: Writer, double: Reader) {
    forall r :: IsField(number(r)) && (double(number(r)) == None || double(number(r)) == Some(r))
  }

  predicate Exact(r: real, number: Writer, double: Reader) {
    double(number(r)) == Some(r)
  }

  predicate FitsNode(entity: Entity, number: Writer, double: Reader) {
    Exact(entity.position.x, number, double) && Exact(entity.position.y, number, double)
    && Exact(entity.position.z, number, double)
  }

  predicate FitsLink(link: EngineLink, number: Writer, double: Reader) {
    link.dataRateBps <= JsonScanner.MAX_UINT64 && Exact(link.delayMs, number, double)
      && Exact(link.lossRate, number, double)
  }

  predicate FitsFlow(flow: Flow) {
    flow.packetSizeBytes <= MAX_UINT32 && flow.intervalMs <= MAX_UINT32 && flow.durationMs <= MAX_UINT32
  }

  predicate FitsCounts(batch: Batch) {
    |batch.entities| <= MAX_UINT32 && |batch.links| <= MAX_UINT32 && |batch.flows| <= MAX_UINT32
  }

  /** The numbers of the batch fit the runner's types. */
  ghost predicate Fits(batch: Batch, number: Writer, double: Reader) {
    && FitsCounts(batch)
    && (forall i :: 0 <= i < |batch.entities| ==> FitsNode(batch.entities[i], number, double))
    && (forall i :: 0 <= i < |batch.links| ==> FitsLink(batch.links[i], number, double))
    && (forall i :: 0 <= i < |batch.flows| ==> FitsFlow(batch.flows[i]))
  }

  // ----- The records that arrive ------------------------------------------------------------------

  function NodeOf(index: nat, entity: Entity): NodeInput {
    NodeInput(index, entity.position.x, entity.position.y, entity.position.z, entity.alive)
  }

  function LinkFrom(all: seq<Entity>, index: nat, link: EngineLink): LinkInput
    requires SoundLink(all, link)
  {
    LinkInput(index, IndexOf(all, link.source), IndexOf(all, link.target), link.dataRateBps, link.delayMs,
              link.lossRate, link.up)
  }

  function FlowFrom(all: seq<Entity>, index: nat, flow: Flow): FlowInput
    requires NodeIndex(all, flow.source).Some? && NodeIndex(all, flow.target).Some? && RangedFlow(flow)
  {
    FlowInput(index, IndexOf(all, flow.source), IndexOf(all, flow.target), flow.packetSizeBytes, flow.intervalMs,
              flow.durationMs, Enabled(all, flow))
  }

  ghost predicate SoundLinks(all: seq<Entity>, links: seq<EngineLink>) {
    forall i :: 0 <= i < |links| ==> SoundLink(all, links[i])
  }

  ghost predicate SoundFlows(all: seq<Entity>, flows: seq<Flow>) {
    forall i :: 0 <= i < |flows| ==>
      NodeIndex(all, flows[i].source).Some? && NodeIndex(all, flows[i].target).Some? && RangedFlow(flows[i])
  }

  function NodesOf(entities: seq<Entity>): (nodes: seq<NodeInput>)
    ensures |nodes| == |entities|
    ensures forall i :: 0 <= i < |entities| ==> nodes[i] == NodeOf(i, entities[i])
  {
    seq(|entities|, i requires 0 <= i < |entities| => NodeOf(i, entities[i]))
  }

  function LinksFrom(all: seq<Entity>, links: seq<EngineLink>): (inputs: seq<LinkInput>)
    requires SoundLinks(all, links)
    ensures |inputs| == |links|
    ensures forall i :: 0 <= i < |links| ==> inputs[i] == LinkFrom(all, i, links[i])
  {
    seq(|links|, i requires 0 <= i < |links| && SoundLinks(all, links) => LinkFrom(all, i, links[i]))
  }

  function FlowsFrom(all: seq<Entity>, flows: seq<Flow>): (inputs: seq<FlowInput>)
    requires SoundFlows(all, flows)
    ensures |inputs| == |flows|
    ensures forall i :: 0 <= i < |flows| ==> inputs[i] == FlowFrom(all, i, flows[i])
  {
    seq(|flows|, i requires 0 <= i < |flows| && SoundFlows(all, flows) => FlowFrom(all, i, flows[i]))
  }

  /** The scenario with the same records as the batch. */
  function ScenarioOf(batch: Batch): Scenario
    requires Sound(batch)
  {
    Scenario(batch.id, |batch.entities|, |batch.links|, |batch.flows|, NodesOf(batch.entities),
             LinksFrom(batch.entities, batch.links), FlowsFrom(batch.entities, batch.flows))
  }

  /** Every scenario made of a sound batch passes the runner's validation. */
  lemma SoundIsValid(batch: Batch)
    requires Sound(batch)
    ensures Ns3Runner.Valid(ScenarioOf(batch))
  {
    hide NodeIndex;
    var scenario := ScenarioOf(batch);
    forall i | 0 <= i < |scenario.links| ensures ValidLink(scenario.links[i], |scenario.nodes|) {
      IndexFound(batch.entities, batch.links[i].source);
      IndexFound(batch.entities, batch.links[i].target);
    }
    forall i | 0 <= i < |scenario.flows| ensures Ns3Runner.ValidFlow(scenario.flows[i], |scenario.nodes|) {
      IndexFound(batch.entities, batch.flows[i].source);
      IndexFound(batch.entities, batch.flows[i].target);
    }
  }

  /** The runner checks again what the service has checked: a link or flow that carries
      the numbers of a device or flow passes exactly if they are in the ranges of the
      service and its ends are nodes. */
  lemma ChecksAgree(link: LinkInput, device: Device, input: FlowInput, flow: Flow, nodes: nat)
    requires link.dataRateBps == device.dataRateBps
    requires link.delayMs == device.delayMs && link.lossRate == device.lossRate
    requires input.packetSizeBytes == flow.packetSizeBytes && input.intervalMs == flow.intervalMs
    requires input.durationMs == flow.durationMs
    ensures ValidLink(link, nodes) <==> RangedDevice(device) && link.source < nodes && link.target < nodes
    ensures Ns3Runner.ValidFlow(input, nodes) <==> RangedFlow(flow) && input.source < nodes && input.target < nodes
  {
  }

  // ----- One line at the runner ---------------------------------------------------------------------

  lemma StepJoined(runner: Runner, parts: seq<string>, double: Reader)
    requires AreFields(parts) && parts != []
    ensures Step(runner, Joined(parts), double)
      == if parts[0] == RUN then
           if Ns3Runner.Valid(runner.scenario) then runner.(pipe := runner.pipe + [Done(runner.scenario)])
           else Fail(runner)
         else
           match Obey(runner.scenario, parts, double) {
             case None => Fail(runner)
             case Some(scenario) => runner.(scenario := scenario)
           }
  {
    hide Joined, SplitTabs, Obey, Ns3Runner.Valid;
    SplitJoined(parts);
  }

  lemma IntTextIsField(n: int)
    ensures IsField(IntText(n))
    ensures 0 <= n ==> ToUint64(IntText(n)) == (if n <= JsonScanner.MAX_UINT64 then Some(n) else None)
    ensures 0 <= n ==> ToUint32(IntText(n)) == (if n <= MAX_UINT32 then Some(n) else None)
  {
    hide ToUint64, ToUint32;
    if n < 0 {
      NumeralRead(-n);
      forall c | c in IntText(n) ensures c != TAB {
        assert c == '-' || c in JsonText.Decimal(-n);
      }
    } else {
      NumeralRead(n);
    }
  }

  lemma IdIsField(snapshot: StateSnapshot)
    ensures IsField(ScenarioId(snapshot))
  {
    NumeralRead(snapshot.revision);
    IntTextIsField(snapshot.timestampMs);
    hide IntText;
  }

  /** A node line is read exactly when the node fits. */
  lemma NodeLine(runner: Runner, index: nat, entity: Entity, number: Writer, double: Reader)
    requires Faithful(number, double) && index <= MAX_UINT32
    ensures Step(runner, Joined(NodeParts(index, entity, number)), double)
      == if FitsNode(entity, number, double) then
           runner.(scenario := runner.scenario.(nodes := runner.scenario.nodes + [NodeOf(index, entity)]))
         else Fail(runner)
  {
    hide ToUint32, ToBool, IsField, Flag, JsonText.Decimal, Step, Joined, ReadLink, ReadFlow, ReadHeader;
    WordsAreFields();
    WordsDiffer();
    NumeralRead(index);
    FlagRead(entity.alive);
    assert IsField(number(entity.position.x)) && IsField(number(entity.position.y));
    assert IsField(number(entity.position.z));
    StepJoined(runner, NodeParts(index, entity, number), double);
  }

  lemma WordsAreFields()
    ensures IsField(SCENARIO) && IsField(NODE) && IsField(LINK) && IsField(FLOW) && IsField(RUN)
  {
  }

  lemma LinkRead(index: nat, source: nat, target: nat, link: EngineLink, number: Writer, double: Reader)
    requires index <= MAX_UINT32 && source <= MAX_UINT32 && target <= MAX_UINT32 && 0 <= link.dataRateBps
    requires Faithful(number, double)
    ensures AreFields(LinkParts(index, source, target, link, number))
    ensures ReadLink(LinkParts(index, source, target, link, number), double)
      == if FitsLink(link, number, double) then
           Some(LinkInput(index, source, target, link.dataRateBps, link.delayMs, link.lossRate, link.up))
         else None
  {
    hide ToUint32, ToUint64, ToBool, IsField, Flag, JsonText.Decimal, IntText;
    WordsAreFields();
    NumeralRead(index);
    NumeralRead(source);
    NumeralRead(target);
    IntTextIsField(link.dataRateBps);
    FlagRead(link.up);
    assert IsField(number(link.delayMs)) && IsField(number(link.lossRate));
  }

  /** A link line is read exactly when the link fits. */
  lemma LinkLine(runner: Runner, all: seq<Entity>, index: nat, link: EngineLink, number: Writer, double: Reader)
    requires Faithful(number, double) && index <= MAX_UINT32 && SoundLink(all, link) && |all| <= MAX_UINT32
    ensures Step(runner, Joined(PartsOfLink(all, index, link, number)), double)
      == if FitsLink(link, number, double) then
           runner.(scenario := runner.scenario.(links := runner.scenario.links + [LinkFrom(all, index, link)]))
         else Fail(runner)
  {
    hide ReadLink, Step, Joined, AreFields, NodeIndex, EntityIds, FitsLink, ReadFlow, ReadNode, ReadHeader, Faithful;
    IndexFound(all, link.source);
    IndexFound(all, link.target);
    LinkRead(index, IndexOf(all, link.source), IndexOf(all, link.target), link, number, double);
    WordsDiffer();
    StepJoined(runner, PartsOfLink(all, index, link, number), double);
  }

  lemma FlowRead(index: nat, source: nat, target: nat, flow: Flow, enabled: bool)
    requires index <= MAX_UINT32 && source <= MAX_UINT32 && target <= MAX_UINT32
    requires 0 <= flow.packetSizeBytes && 0 <= flow.intervalMs && 0 <= flow.durationMs
    ensures ReadFlow(FlowParts(index, source, target, flow, enabled))
      == if FitsFlow(flow) then
           Some(FlowInput(index, source, target, flow.packetSizeBytes, flow.intervalMs, flow.durationMs, enabled))
         else None
  {
    hide ToUint32, ToUint64, ToBool, IsField, Flag, JsonText.Decimal, IntText;
    NumeralRead(index);
    NumeralRead(source);
    NumeralRead(target);
    IntTextIsField(flow.packetSizeBytes);
    IntTextIsField(flow.intervalMs);
    IntTextIsField(flow.durationMs);
    FlagRead(enabled);
  }

  lemma RangedFlowIsNat(flow: Flow)
    requires RangedFlow(flow)
    ensures 0 <= flow.packetSizeBytes && 0 <= flow.intervalMs && 0 <= flow.durationMs
  {
  }

  lemma FlowFields(index: nat, source: nat, target: nat, flow: Flow, enabled: bool)
    ensures AreFields(FlowParts(index, source, target, flow, enabled))
  {
    hide ToUint32, ToUint64, ToBool, IsField, Flag, JsonText.Decimal, IntText;
    WordsAreFields();
    NumeralRead(index);
    NumeralRead(source);
    NumeralRead(target);
    IntTextIsField(flow.packetSizeBytes);
    IntTextIsField(flow.intervalMs);
    IntTextIsField(flow.durationMs);
    FlagRead(enabled);
  }

  /** A flow line is read exactly when the flow fits. */
  lemma FlowLine(runner: Runner, all: seq<Entity>, index: nat, flow: Flow, double: Reader)
    requires index <= MAX_UINT32 && |all| <= MAX_UINT32
    requires NodeIndex(all, flow.source).Some? && NodeIndex(all, flow.target).Some? && RangedFlow(flow)
    ensures Step(runner, Joined(PartsOfFlow(all, index, flow)), double)
      == if FitsFlow(flow) then
           runner.(scenario := runner.scenario.(flows := runner.scenario.flows + [FlowFrom(all, index, flow)]))
         else Fail(runner)
  {
    hide ReadFlow, Step, Joined, AreFields, NodeIndex, EntityIds, Enabled, FitsFlow, RangedFlow, ReadLink, ReadNode,
      ReadHeader;
    IndexFound(all, flow.source);
    IndexFound(all, flow.target);
    RangedFlowIsNat(flow);
    FlowFields(index, IndexOf(all, flow.source), IndexOf(all, flow.target), flow, Enabled(all, flow));
    FlowRead(index, IndexOf(all, flow.source), IndexOf(all, flow.target), flow, Enabled(all, flow));
    WordsDiffer();
    StepJoined(runner, PartsOfFlow(all, index, flow), double);
  }

  function HeaderScenario(batch: Batch): Scenario {
    Scenario(batch.id, |batch.entities|, |batch.links|, |batch.flows|, [], [], [])
  }

  lemma HeaderRead(runner: Runner, batch: Batch, double: Reader)
    requires IsField(batch.id)
    ensures Step(runner, HeaderLine(batch), double)
      == if FitsCounts(batch) then runner.(scenario := HeaderScenario(batch)) else Fail(runner)
  {
    hide ToUint32, IsField, JsonText.Decimal, Step, Joined, ReadLink, ReadNode, ReadFlow;
    WordsAreFields();
    WordsDiffer();
    NumeralRead(|batch.entities|);
    NumeralRead(|batch.links|);
    NumeralRead(|batch.flows|);
    StepJoined(runner, HeaderParts(batch.id, |batch.entities|, |batch.links|, |batch.flows|), double);
  }

  // ----- A batch that fits --------------------------------------------------------------------------------

  lemma {:induction false} NodesArrive(runner: Runner, entities: seq<Entity>, number: Writer, double: Reader)
    requires Faithful(number, double) && |entities| <= MAX_UINT32
    requires forall i :: 0 <= i < |entities| ==> FitsNode(entities[i], number, double)
    ensures StepAll(runner, NodeLines(entities, number), double)
      == runner.(scenario := runner.scenario.(nodes := runner.scenario.nodes + NodesOf(entities)))
    decreases |entities|
  {
    hide Faithful, FitsNode, Step, NodeParts, Joined, NodeOf, Obey, StepAll;
    var n := |entities|;
    if n == 0 {
      StepNothing(runner, double);
      assert runner.scenario.nodes + NodesOf(entities) == runner.scenario.nodes;
    } else {
      var front, last := entities[..n - 1], entities[n - 1];
      NodesArrive(runner, front, number, double);
      NodeLine(StepAll(runner, NodeLines(front, number), double), n - 1, last, number, double);
      StepAllSnoc(runner, NodeLines(front, number), Joined(NodeParts(n - 1, last, number)), double);
      assert NodesOf(entities) == NodesOf(front) + [NodeOf(n - 1, last)];
      assert runner.scenario.nodes + NodesOf(front) + [NodeOf(n - 1, last)]
        == runner.scenario.nodes + NodesOf(entities);
    }
  }

  lemma StepNothing(runner: Runner, double: Reader)
    ensures StepAll(runner, [], double) == runner
  {
  }

  lemma StepAllSnoc(runner: Runner, lines: seq<string>, line: string, double: Reader)
    ensures StepAll(runner, lines + [line], double) == Step(StepAll(runner, lines, double), line, double)
  {
    hide Step;
    assert (lines + [line])[..|lines|] == lines;
  }

  lemma {:induction false} LinksArrive(
    runner: Runner, all: seq<Entity>, links: seq<EngineLink>, number: Writer, double: Reader)
    requires Faithful(number, double) && |links| <= MAX_UINT32 && |all| <= MAX_UINT32 && SoundLinks(all, links)
    requires forall i :: 0 <= i < |links| ==> FitsLink(links[i], number, double)
    ensures Indexed(all, links, [])
    ensures StepAll(runner, LinkLines(all, links, number), double)
      == runner.(scenario := runner.scenario.(links := runner.scenario.links + LinksFrom(all, links)))
    decreases |links|
  {
    hide Faithful, FitsLink, Step, PartsOfLink, Joined, LinkFrom, Obey, NodeIndex, StepAll;
    var n := |links|;
    if n == 0 {
      StepNothing(runner, double);
      assert runner.scenario.links + LinksFrom(all, links) == runner.scenario.links;
    } else {
      var front, last := links[..n - 1], links[n - 1];
      LinksArrive(runner, all, front, number, double);
      var lines := LinkLines(all, front, number);
      LinkLine(StepAll(runner, lines, double), all, n - 1, last, number, double);
      StepAllSnoc(runner, lines, Joined(PartsOfLink(all, n - 1, last, number)), double);
      assert LinksFrom(all, links) == LinksFrom(all, front) + [LinkFrom(all, n - 1, last)];
      assert runner.scenario.links + LinksFrom(all, front) + [LinkFrom(all, n - 1, last)]
          == runner.scenario.links + LinksFrom(all, links);
    }
  }

  lemma {:induction false} FlowsArrive(runner: Runner, all: seq<Entity>, flows: seq<Flow>, double: Reader)
    requires |flows| <= MAX_UINT32 && |all| <= MAX_UINT32 && SoundFlows(all, flows)
    requires forall i :: 0 <= i < |flows| ==> FitsFlow(flows[i])
    ensures Indexed(all, [], flows)
    ensures StepAll(runner, FlowLines(all, flows), double)
      == runner.(scenario := runner.scenario.(flows := runner.scenario.flows + FlowsFrom(all, flows)))
    decreases |flows|
  {
    hide FitsFlow, Step, PartsOfFlow, Joined, FlowFrom, Obey, NodeIndex, RangedFlow, StepAll;
    var n := |flows|;
    if n == 0 {
      StepNothing(runner, double);
      assert runner.scenario.flows + FlowsFrom(all, flows) == runner.scenario.flows;
    } else {
      var front, last := flows[..n - 1], flows[n - 1];
      FlowsArrive(runner, all, front, double);
      var lines := FlowLines(all, front);
      FlowLine(StepAll(runner, lines, double), all, n - 1, last, double);
      StepAllSnoc(runner, lines, Joined(PartsOfFlow(all, n - 1, last)), double);
      assert FlowsFrom(all, flows) == FlowsFrom(all, front) + [FlowFrom(all, n - 1, last)];
      assert runner.scenario.flows + FlowsFrom(all, front) + [FlowFrom(all, n - 1, last)]
          == runner.scenario.flows + FlowsFrom(all, flows);
    }
  }

  lemma RunStep(runner: Runner, double: Reader)
    ensures Step(runner, RUN, double)
      == if Ns3Runner.Valid(runner.scenario) then runner.(pipe := runner.pipe + [Done(runner.scenario)])
         else Fail(runner)
  {
    hide Ns3Runner.Valid, Obey;
    WordsAreFields();
    assert AreFields([RUN]) && Joined([RUN]) == RUN;
    StepJoined(runner, [RUN], double);
  }

  /** A batch that fits arrives as exactly its records, is valid and is run,
      whatever the runner held before. */
  lemma FitBatchIsRun(runner: Runner, batch: Batch, number: Writer, double: Reader)
    requires Faithful(number, double) && Sound(batch) && IsField(batch.id) && Fits(batch, number, double)
    ensures StepAll(runner, Lines(batch, number), double)
         == Runner(ScenarioOf(batch), runner.pipe + [Done(ScenarioOf(batch))])
  {
    hide Faithful, Step, Joined, Obey, NodeLines, LinkLines, FlowLines, Ns3Runner.Valid, FitsNode, FitsLink, FitsFlow,
      NodesOf, LinksFrom, FlowsFrom, HeaderLine, IsField, NodeIndex, RangedFlow, StepAll;
    var all, header := batch.entities, HeaderLine(batch);
    HeaderRead(runner, batch, double);
    StepNothing(runner, double);
    StepAllSnoc(runner, [], header, double);
    assert [] + [header] == [header];
    var first := Step(runner, header, double);
    NodesArrive(first, all, number, double);
    StepAllConcat(runner, [header], NodeLines(all, number), double);
    var second := StepAll(first, NodeLines(all, number), double);
    assert SoundLinks(all, batch.links) && SoundFlows(all, batch.flows);
    LinksArrive(second, all, batch.links, number, double);
    StepAllConcat(runner, [header] + NodeLines(all, number), LinkLines(all, batch.links, number), double);
    var third := StepAll(second, LinkLines(all, batch.links, number), double);
    FlowsArrive(third, all, batch.flows, double);
    StepAllConcat(runner, [header] + NodeLines(all, number) + LinkLines(all, batch.links, number),
                  FlowLines(all, batch.flows), double);
    var fourth := StepAll(third, FlowLines(all, batch.flows), double);
    assert fourth.scenario == ScenarioOf(batch);
    SoundIsValid(batch);
    StepAllSnoc(runner, RecordLines(batch, number), RUN, double);
    RunStep(fourth, double);
  }
}
