/** What the runner is given of a snapshot, in terms of its entities, devices and
    flows. */
module ScenarioMeaning {
  import opened Wrappers
  import opened Models
  import opened StateStore
  import opened StoreIntegrity
  import opened Ns3Runner
  import opened ScenarioText
  import opened ScenarioHandOff

  // ----- Ids among the entities ------------------------------------------------------------

  /** Index `k` holds the last entity with the id. */
  ghost predicate LastWith(entities: seq<Entity>, id: string, k: nat) {
    && k < |entities| && entities[k].entityId == id
    && forall j :: k < j < |entities| ==> entities[j].entityId != id
  }

  lemma {:induction false} FoundIsLast(entities: seq<Entity>, id: string)
    ensures forall k: nat :: LastWith(entities, id, k) <==> NodeIndex(entities, id) == Some(k)
    ensures forall k: nat :: LastWith(entities, id, k) ==> IsAlive(entities, id) == entities[k].alive
    ensures NodeIndex(entities, id).None? ==> !IsAlive(entities, id)
    decreases |entities|
  {
    var n := |entities|;
    if n > 0 {
      var front := entities[..n - 1];
      FoundIsLast(front, id);
      if entities[n - 1].entityId == id {
        assert LastWith(entities, id, n - 1);
      } else {
        forall k: nat ensures LastWith(entities, id, k) <==> LastWith(front, id, k) {
        }
      }
    }
  }

  /** An entity with the id is there and alive; of several, the last one counts. */
  ghost predicate AliveThere(entities: seq<Entity>, id: string) {
    exists k: nat :: LastWith(entities, id, k) && entities[k].alive
  }

  lemma AliveMeans(entities: seq<Entity>, id: string)
    ensures IsAlive(entities, id) <==> AliveThere(entities, id)
  {
    hide IsAlive, NodeIndex;
    FoundIsLast(entities, id);
    if IsAlive(entities, id) {
      var k := NodeIndex(entities, id).value;
      assert LastWith(entities, id, k);
    }
  }

  // ----- Links in order --------------------------------------------------------------------

  /** How many devices the first `n` entities have. */
  function DevicesBefore(entities: seq<Entity>, n: nat): nat
    requires n <= |entities|
  {
    if n == 0 then 0 else DevicesBefore(entities, n - 1) + |entities[n - 1].devices|
  }

  lemma {:induction false} SameDevicesBefore(front: seq<Entity>, entities: seq<Entity>, n: nat)
    requires n <= |front| && front <= entities
    ensures DevicesBefore(front, n) == DevicesBefore(entities, n)
  {
    if n > 0 {
      SameDevicesBefore(front, entities, n - 1);
    }
  }

  lemma {:induction false} LinksCount(all: seq<Entity>, entities: seq<Entity>)
    ensures |LinksOf(all, entities)| == DevicesBefore(entities, |entities|)
    decreases |entities|
  {
    hide LinkOf;
    var n := |entities|;
    if n > 0 {
      LinksCount(all, entities[..n - 1]);
      SameDevicesBefore(entities[..n - 1], entities, n - 1);
    }
  }

  lemma {:induction false} LinkAt(all: seq<Entity>, entities: seq<Entity>, i: nat, j: nat)
    requires i < |entities| && j < |entities[i].devices|
    ensures DevicesBefore(entities, i) + j < |LinksOf(all, entities)|
    ensures LinksOf(all, entities)[DevicesBefore(entities, i) + j] == LinkOf(all, entities[i], entities[i].devices[j])
    decreases |entities|
  {
    hide LinkOf;
    var n := |entities|;
    var front := entities[..n - 1];
    LinksCount(all, entities);
    LinksCount(all, front);
    SameDevicesBefore(front, entities, i);
    if i < n - 1 {
      LinkAt(all, front, i, j);
    }
  }

  /** The link from an entity to the peer of one of its devices; it is up when the
      device's link is up and both ends are alive. */
  ghost predicate IsLink(all: seq<Entity>, entity: Entity, device: Device, link: EngineLink) {
    && link.linkId == entity.entityId + ":" + device.deviceId
    && link.source == entity.entityId && link.target == device.peer && link.kind == device.kind
    && link.dataRateBps == device.dataRateBps && link.delayMs == device.delayMs && link.lossRate == device.lossRate
    && (link.up <==> device.linkState == "UP" && entity.alive && AliveThere(all, device.peer))
  }

  /** The engine's links are those of the devices, in the order of entities and
      devices. */
  lemma LinksAreDevices(entities: seq<Entity>, i: nat, j: nat)
    requires i < |entities| && j < |entities[i].devices|
    ensures var links := LinksOf(entities, entities);
      && |links| == DevicesBefore(entities, |entities|)
      && DevicesBefore(entities, i) + j < |links|
      && IsLink(entities, entities[i], entities[i].devices[j], links[DevicesBefore(entities, i) + j])
  {
    hide LinksOf, DevicesBefore, IsAlive, AliveThere;
    LinksCount(entities, entities);
    LinkAt(entities, entities, i, j);
    AliveMeans(entities, entities[i].devices[j].peer);
  }

  // ----- The scenario ------------------------------------------------------------------------

  ghost predicate IsNode(node: NodeInput, index: nat, entity: Entity) {
    && node.index == index && node.alive == entity.alive
    && node.x == entity.position.x && node.y == entity.position.y && node.z == entity.position.z
  }

  ghost predicate IsLinkInput(input: LinkInput, index: nat, entities: seq<Entity>, entity: Entity, device: Device) {
    && input.index == index
    && LastWith(entities, entity.entityId, input.source) && LastWith(entities, device.peer, input.target)
    && input.dataRateBps == device.dataRateBps && input.delayMs == device.delayMs && input.lossRate == device.lossRate
    && (input.up <==> device.linkState == "UP" && entity.alive && AliveThere(entities, device.peer))
  }

  ghost predicate IsFlowInput(input: FlowInput, index: nat, entities: seq<Entity>, flow: Flow) {
    && input.index == index
    && LastWith(entities, flow.source, input.source) && LastWith(entities, flow.target, input.target)
    && input.packetSizeBytes == flow.packetSizeBytes && input.intervalMs == flow.intervalMs
    && input.durationMs == flow.durationMs
    && (input.enabled <==> flow.active && AliveThere(entities, flow.source) && AliveThere(entities, flow.target))
  }

  ghost predicate LinkedAt(scenario: Scenario, entities: seq<Entity>, i: nat, j: nat)
    requires i < |entities| && j < |entities[i].devices|
  {
    var n := DevicesBefore(entities, i) + j;
    n < |scenario.links| && IsLinkInput(scenario.links[n], n, entities, entities[i], entities[i].devices[j])
  }

  /** A scenario with one node for each entity, one link for each device and one flow
      for each flow, in order, with the ends at the right nodes. */
  ghost predicate IsScenarioOf(scenario: Scenario, snapshot: StateSnapshot) {
    var entities := snapshot.entities;
    && |scenario.nodes| == |entities|
    && (forall i :: 0 <= i < |entities| ==> IsNode(scenario.nodes[i], i, entities[i]))
    && |scenario.links| == DevicesBefore(entities, |entities|)
    && (forall i: nat, j: nat :: i < |entities| && j < |entities[i].devices| ==>
          LinkedAt(scenario, entities, i, j))
    && |scenario.flows| == |snapshot.flows|
    && (forall i :: 0 <= i < |snapshot.flows| ==>
          IsFlowInput(scenario.flows[i], i, entities, snapshot.flows[i]))
  }

  lemma LinkInputMeans(snapshot: StateSnapshot, i: nat, j: nat)
    requires Sound(BatchOf(snapshot)) && i < |snapshot.entities| && j < |snapshot.entities[i].devices|
    ensures LinkedAt(ScenarioOf(BatchOf(snapshot)), snapshot.entities, i, j)
  {
    hide DevicesBefore, LinksOf, LinkOf, AliveThere, NodeIndex, LastWith, RangedFlow, ScenarioId, Indexed;
    var entities := snapshot.entities;
    LinksAreDevices(entities, i, j);
    FoundIsLast(entities, entities[i].entityId);
    FoundIsLast(entities, entities[i].devices[j].peer);
    LinksAreFound(BatchOf(snapshot));
  }

  lemma LinksAreFound(batch: Batch)
    requires Sound(batch)
    ensures |ScenarioOf(batch).links| == |batch.links|
    ensures forall n :: 0 <= n < |batch.links| ==>
      && 0 <= batch.links[n].dataRateBps
      && ScenarioOf(batch).links[n].index == n
      && NodeIndex(batch.entities, batch.links[n].source) == Some(ScenarioOf(batch).links[n].source)
      && NodeIndex(batch.entities, batch.links[n].target) == Some(ScenarioOf(batch).links[n].target)
      && ScenarioOf(batch).links[n].dataRateBps == batch.links[n].dataRateBps
      && ScenarioOf(batch).links[n].delayMs == batch.links[n].delayMs
      && ScenarioOf(batch).links[n].lossRate == batch.links[n].lossRate
      && ScenarioOf(batch).links[n].up == batch.links[n].up
  {
    hide NodeIndex, RangedFlow;
  }

  lemma FlowInputMeans(snapshot: StateSnapshot, i: nat)
    requires Sound(BatchOf(snapshot)) && i < |snapshot.flows|
    ensures IsFlowInput(ScenarioOf(BatchOf(snapshot)).flows[i], i, snapshot.entities, snapshot.flows[i])
  {
    hide DevicesBefore, LinksOf, LinkOf, AliveThere, NodeIndex, IsAlive, LastWith, ScenarioId;
    var entities, flow := snapshot.entities, snapshot.flows[i];
    FoundIsLast(entities, flow.source);
    FoundIsLast(entities, flow.target);
    AliveMeans(entities, flow.source);
    AliveMeans(entities, flow.target);
  }

  /** The scenario of a snapshot has exactly its entities, devices and flows. */
  lemma ScenarioIsSnapshots(snapshot: StateSnapshot)
    requires Sound(BatchOf(snapshot))
    ensures IsScenarioOf(ScenarioOf(BatchOf(snapshot)), snapshot)
  {
    hide LinksOf, ScenarioId, NodeIndex, RangedFlow, LinkedAt, IsFlowInput, DevicesBefore;
    forall i: nat, j: nat | i < |snapshot.entities| && j < |snapshot.entities[i].devices|
      ensures LinkedAt(ScenarioOf(BatchOf(snapshot)), snapshot.entities, i, j)
    {
      LinkInputMeans(snapshot, i, j);
    }
    forall i | 0 <= i < |snapshot.flows|
      ensures IsFlowInput(ScenarioOf(BatchOf(snapshot)).flows[i], i, snapshot.entities, snapshot.flows[i])
    {
      FlowInputMeans(snapshot, i);
    }
    LinksCount(snapshot.entities, snapshot.entities);
  }

  /** A snapshot that fits the runner's widths is run as exactly the scenario that
      its entities, devices and flows make up, whatever the runner held before. */
  lemma SnapshotIsRun(snapshot: StateSnapshot, runner: Runner, number: Writer, double: Reader)
    requires Closed(snapshot) && Ranged(snapshot) && Faithful(number, double)
    requires Fits(BatchOf(snapshot), number, double)
    ensures Sound(BatchOf(snapshot))
    ensures var scenario := ScenarioOf(BatchOf(snapshot));
      && IsScenarioOf(scenario, snapshot)
      && StepAll(runner, Lines(BatchOf(snapshot), number), double) == Runner(scenario, runner.pipe + [Done(scenario)])
  {
    hide Faithful, StepAll, Lines, Fits, Closed, Ranged, LinksOf, ScenarioId, NodeIndex, RangedFlow, IsScenarioOf;
    BatchIsSound(snapshot);
    IdIsField(snapshot);
    FitBatchIsRun(runner, BatchOf(snapshot), number, double);
    ScenarioIsSnapshots(snapshot);
  }
}
