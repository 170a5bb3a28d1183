/** The result path as a whole: what the gates answer after the response to a
    snapshot has been received, in terms of that snapshot and what was measured. */
module EndToEnd {
  import opened Wrappers
  import opened Models
  import opened StateStore
  import opened JsonText
  import opened JsonScanner
  import opened MetricsMessage
  import opened OrdinaryMessages
  import opened ScenarioText
  import opened ScenarioHandOff
  import opened ScenarioMeaning
  import opened Responses
  import opened EffectDelivery
  import E = Effects
  import Messages = MessageTransportGate
  import Gates = NetworkEffectGate
  import LossDraw

  /** A computation as the service answers it. */
  datatype Computation = Computation(
    snapshot: StateSnapshot, requestId: string, measured: Measured, computeMs: real, pending: Option<nat>)

  /** What the results are stated for: a snapshot of ordinary, readable strings whose
      numbers are written exactly. */
  ghost predicate Clear(c: Computation, number: real -> string, double: string -> Option<real>) {
    && Buildable(c.snapshot) && c.snapshot.revision <= MAX_UINT64
    && OrdinarySnapshot(c.snapshot) && Ordinary(c.requestId) && ReadableSnapshot(c.snapshot)
    && WritesNumbers(number) && ExactNumbers(c.snapshot, c.measured, number, double)
  }

  function LineOf(c: Computation, number: real -> string): string
    requires Buildable(c.snapshot)
  {
    Render(ResponseTree(ResponseOf(c.snapshot, c.requestId, c.measured, c.computeMs, c.pending, number), number))
  }

  /** Index `f` holds the last flow from `source` to `target`. */
  ghost predicate LastFlow(flows: seq<Flow>, source: string, target: string, f: nat) {
    && f < |flows| && flows[f].source == source && flows[f].target == target
    && forall g :: f < g < |flows| ==> !(flows[g].source == source && flows[g].target == target)
  }

  /** No flow goes from `source` to `target`. */
  ghost predicate NoFlow(flows: seq<Flow>, source: string, target: string) {
    forall f :: 0 <= f < |flows| ==> !(flows[f].source == source && flows[f].target == target)
  }

  // ----- What the gates hold after the line ------------------------------------------------------

  function Judged(c: Computation): seq<E.Metric> {
    JudgedMetrics(RecordsOfFlows(c.snapshot.flows, c.measured))
  }

  /** A response newer than all before is taken over by both gates, and all its
      decisions are accepted. */
  lemma LineIsTaken(
    events: seq<Event>, c: Computation, number: real -> string, double: string -> Option<real>)
    requires ValidRun(START, events, double) && Clear(c, number, double)
    requires After(START, events, double).messages.latestRevision < c.snapshot.revision
    ensures KnownStates(E.EffectsOf(c.snapshot.entities, Judged(c)))
    ensures forall i :: 0 <= i < |LinksOfSnapshot(c.snapshot)| ==> 0 <= LinksOfSnapshot(c.snapshot)[i].dataRateBps
    ensures var state := After(START, events, double);
      var next := Received(state, LineOf(c, number), double);
      && next.accepted == state.accepted
           + DecisionsFor(c, number)
      && next.messages == Messages.Gate(
           Messages.ProfilesOf(Metrics(c.snapshot.revision,
                                       EntriesOfLinks(RecordsOfLinks(LinksOfSnapshot(c.snapshot))),
                                       EntriesOfMetrics(RecordsOfFlows(c.snapshot.flows, c.measured)))),
           c.snapshot.revision)
  {
    hide After, ValidRun, ReadMetrics, ReadEffects, Render, ResponseTree, ResponseOf, Messages.ProfilesOf,
      Gates.WithDecisions, Gates.StatesAre, Filed, E.EffectsOf, LinksOfSnapshot, Buildable, OrdinarySnapshot,
      ReadableSnapshot, ExactNumbers, WritesNumbers, Ordinary, QueueIsFine;
    StartIsFine();
    RunKeepsInv(START, events, double);
    ResultsArrive(c.snapshot, c.requestId, c.measured, c.computeMs, c.pending, number, double);
    var state := After(START, events, double);
    InvMeans(state);
    FiledAccepts(state, DecisionsFor(c, number));
  }

  lemma {:induction false} FiledAccepts(state: State, decisions: seq<EffectDecision>)
    ensures forall moved: State :: moved.accepted == state.accepted ==>
      && Filed(moved, decisions).accepted == state.accepted + decisions
      && Filed(moved, decisions).messages == moved.messages && Filed(moved, decisions).effects == moved.effects
    decreases |decisions|
  {
    if decisions != [] {
      var n := |decisions|;
      FiledAccepts(state, decisions[..n - 1]);
      assert state.accepted + decisions[..n - 1] + [decisions[n - 1]] == state.accepted + decisions;
    }
  }

  // ----- Subsystems ---------------------------------------------------------------------------------

  /** No two policies of the snapshot are for the same subsystem of the same entity. */
  ghost predicate OnePolicyEach(entities: seq<Entity>) {
    forall i: nat, j: nat, k: nat, l: nat ::
      && i < |entities| && j < |entities[i].policies| && k < |entities| && l < |entities[k].policies|
      && entities[i].entityId == entities[k].entityId
      && entities[i].policies[j].subsystemId == entities[k].policies[l].subsystemId
      ==>
        i == k && j == l
  }

  /** What the response decides, in order. */
  function DecisionsFor(c: Computation, number: real -> string): seq<EffectDecision>
    requires KnownStates(E.EffectsOf(c.snapshot.entities, Judged(c)))
  {
    DecisionsOf(RecordsOfEffects(E.EffectsOf(c.snapshot.entities, Judged(c)), number), c.snapshot.revision)
  }

  /** Decision `k` is that of the policy. */
  ghost predicate Decides(decision: EffectDecision, entity: Entity, policy: Policy, c: Computation) {
    && decision.entityId == entity.entityId && decision.subsystemId == policy.subsystemId
    && decision.subsystemType == policy.subsystemType && decision.peerEntityId == policy.peer
    && decision.revision == c.snapshot.revision
    && ParseState(E.EffectOf(entity, policy, Judged(c)).state) == Some(decision.state)
  }

  lemma DecisionDecides(
    c: Computation, number: real -> string, k: nat, entity: Entity, policy: Policy)
    requires KnownStates(E.EffectsOf(c.snapshot.entities, Judged(c)))
    requires k < |E.EffectsOf(c.snapshot.entities, Judged(c))|
    requires E.EffectsOf(c.snapshot.entities, Judged(c))[k] == E.EffectOf(entity, policy, Judged(c))
    ensures |DecisionsFor(c, number)| == |E.EffectsOf(c.snapshot.entities, Judged(c))|
    ensures Decides(DecisionsFor(c, number)[k], entity, policy, c)
  {
    hide E.EffectsOf, E.EffectOf, Judged;
    E.EffectCarries(entity, policy, Judged(c));
  }

  lemma PolicyIsDecided(c: Computation, number: real -> string, i: nat, j: nat) returns (k: nat)
    requires KnownStates(E.EffectsOf(c.snapshot.entities, Judged(c)))
    requires i < |c.snapshot.entities| && j < |c.snapshot.entities[i].policies|
    ensures k < |DecisionsFor(c, number)|
    ensures Decides(DecisionsFor(c, number)[k], c.snapshot.entities[i], c.snapshot.entities[i].policies[j], c)
  {
    hide E.EffectsOf, E.EffectOf, KnownState, Judged, DecisionsFor, Decides;
    E.EffectsInOrder(c.snapshot.entities, Judged(c), i, j);
    k := E.PoliciesBefore(c.snapshot.entities, i) + j;
    DecisionDecides(c, number, k, c.snapshot.entities[i], c.snapshot.entities[i].policies[j]);
  }

  lemma DecisionIsPolicys(c: Computation, number: real -> string, k: nat) returns (i: nat, j: nat)
    requires KnownStates(E.EffectsOf(c.snapshot.entities, Judged(c)))
    requires k < |DecisionsFor(c, number)|
    ensures i < |c.snapshot.entities| && j < |c.snapshot.entities[i].policies|
    ensures Decides(DecisionsFor(c, number)[k], c.snapshot.entities[i], c.snapshot.entities[i].policies[j], c)
  {
    hide E.EffectsOf, E.EffectOf, KnownState, Judged, Decides;
    EffectsAreOfPolicies(c.snapshot.entities, Judged(c), k);
    i, j :| OfPolicy(E.EffectsOf(c.snapshot.entities, Judged(c))[k], c.snapshot.entities, i, j, Judged(c));
    DecisionDecides(c, number, k, c.snapshot.entities[i], c.snapshot.entities[i].policies[j]);
  }

  /** The last decision of the response on the subsystem is that of its policy. */
  lemma LastDecisionIsPolicys(
    accepted: seq<EffectDecision>, c: Computation, number: real -> string, i: nat, j: nat)
    returns (last: nat)
    requires OnePolicyEach(c.snapshot.entities)
    requires i < |c.snapshot.entities| && j < |c.snapshot.entities[i].policies|
    requires KnownStates(E.EffectsOf(c.snapshot.entities, Judged(c)))
    ensures var entity, all := c.snapshot.entities[i], accepted + DecisionsFor(c, number);
      && last < |all| && LastOn(all, entity.entityId, entity.policies[j].subsystemId, last)
      && Decides(all[last], entity, entity.policies[j], c)
  {
    hide E.EffectsOf, E.EffectOf, KnownState, Judged, LastOn, DecisionsFor;
    var entity, decisions := c.snapshot.entities[i], DecisionsFor(c, number);
    var policy, all, n := entity.policies[j], accepted + decisions, |accepted|;
    var k := PolicyIsDecided(c, number, i, j);
    assert all[n + k] == decisions[k];
    last := LastOnAfter(all, entity.entityId, policy.subsystemId, n + k);
    assert all[last] == decisions[last - n];
    var i', j' := DecisionIsPolicys(c, number, last - n);
    assert i' == i && j' == j;
  }

  /** The last decision on a subsystem is not before one on it. */
  lemma LastOnAfter(decisions: seq<EffectDecision>, entityId: string, subsystemId: string, k: nat) returns (last: nat)
    requires k < |decisions| && decisions[k].entityId == entityId && decisions[k].subsystemId == subsystemId
    ensures k <= last < |decisions| && LastOn(decisions, entityId, subsystemId, last)
    ensures decisions[last].entityId == entityId && decisions[last].subsystemId == subsystemId
  {
    last := LastOnExists(decisions, entityId, subsystemId, k);
  }

  /** The measurements that policies are judged by are those of the flows. */
  lemma JudgedAreFlows(c: Computation)
    ensures |Judged(c)| == |c.snapshot.flows|
    ensures forall f :: 0 <= f < |Judged(c)| ==>
      var values := if f in c.measured then c.measured[f] else UNMEASURED;
      && Judged(c)[f].source == c.snapshot.flows[f].source && Judged(c)[f].target == c.snapshot.flows[f].target
      && Judged(c)[f].connected == values.connected && Judged(c)[f].latencyMs == values.latencyMs
      && Judged(c)[f].lossRate == values.lossRate && Judged(c)[f].throughputBps == values.throughputBps
  {
  }

  lemma JudgedByFlow(c: Computation, source: string, target: string)
    ensures forall f: nat :: LastFlow(c.snapshot.flows, source, target, f) <==> E.LastAt(Judged(c), source, target, f)
    ensures NoFlow(c.snapshot.flows, source, target) <==>
      forall m :: 0 <= m < |Judged(c)| ==> !(Judged(c)[m].source == source && Judged(c)[m].target == target)
  {
    hide Judged;
    JudgedAreFlows(c);
  }

  /** After the response the subsystem of every policy is answered with what the last
      flow from its entity to its peer was measured to be: available exactly when that
      flow was connected within the policy's limits, blocked without such a flow,
      without a result for it or without a connection, and otherwise in the policy's
      violation state. */
  lemma PolicyDecidesSubsystem(
    events: seq<Event>, c: Computation, number: real -> string, double: string -> Option<real>, i: nat, j: nat)
    requires ValidRun(START, events, double) && Clear(c, number, double) && OnePolicyEach(c.snapshot.entities)
    requires After(START, events, double).messages.latestRevision < c.snapshot.revision
    requires i < |c.snapshot.entities| && j < |c.snapshot.entities[i].policies|
    ensures var next := Received(After(START, events, double), LineOf(c, number), double);
      var entity, policy, flows := c.snapshot.entities[i], c.snapshot.entities[i].policies[j], c.snapshot.flows;
      var answer := Gates.StateOf(next.effects, (entity.entityId, policy.subsystemId));
      && (NoFlow(flows, entity.entityId, policy.peer) ==> answer == Blocked)
      && (forall f: nat :: LastFlow(flows, entity.entityId, policy.peer, f) ==>
            if f !in c.measured || !c.measured[f].connected then answer == Blocked
            else
              var within :=
                && c.measured[f].latencyMs <= policy.maxDelayMs && c.measured[f].lossRate <= policy.maxLossRate
                && policy.minThroughputBps <= c.measured[f].throughputBps;
              answer == if within then Available else if policy.violationState == "BLOCKED" then Blocked else Degraded)
  {
    hide After, ValidRun, Received, Buildable, LineOf, E.EffectsOf, E.EffectOf, Judged, OnePolicyEach, LastOn,
      OrdinarySnapshot, ReadableSnapshot, ExactNumbers, WritesNumbers, Ordinary, DecisionsFor;
    var entity, policy := c.snapshot.entities[i], c.snapshot.entities[i].policies[j];
    var state := After(START, events, double);
    var next := Received(state, LineOf(c, number), double);
    LineIsTaken(events, c, number, double);
    PolicyIsKnown(c.snapshot, i, j);
    var last := LastDecisionIsPolicys(state.accepted, c, number, i, j);
    LineAfterRun(events, LineOf(c, number), double);
    StateIsLastDecided(events + [Line(LineOf(c, number))], double, entity.entityId, policy.subsystemId);
    EffectFollowsFlow(c, entity, policy);
  }

  /** The decision for every policy is pending after the response, so that the next
      drain hands it to the sink. */
  lemma PolicyDecisionPends(
    events: seq<Event>, c: Computation, number: real -> string, double: string -> Option<real>, i: nat, j: nat)
    requires ValidRun(START, events, double) && Clear(c, number, double) && OnePolicyEach(c.snapshot.entities)
    requires After(START, events, double).messages.latestRevision < c.snapshot.revision
    requires i < |c.snapshot.entities| && j < |c.snapshot.entities[i].policies|
    ensures var next := Received(After(START, events, double), LineOf(c, number), double);
      var entity, policy := c.snapshot.entities[i], c.snapshot.entities[i].policies[j];
      exists key :: key in next.pending && next.pending[key] == EffectDecision(
        entity.entityId, policy.subsystemId, policy.subsystemType, policy.peer,
        Gates.StateOf(next.effects, (entity.entityId, policy.subsystemId)), c.snapshot.revision)
  {
    hide After, ValidRun, Received, Buildable, LineOf, E.EffectsOf, E.EffectOf, Judged, OnePolicyEach,
      OrdinarySnapshot, ReadableSnapshot, ExactNumbers, WritesNumbers, Ordinary, DecisionsFor, Gates.StateOf, Inv;
    var entity, policy := c.snapshot.entities[i], c.snapshot.entities[i].policies[j];
    var state := After(START, events, double);
    var next := Received(state, LineOf(c, number), double);
    LineIsTaken(events, c, number, double);
    var last := LastDecisionIsPolicys(state.accepted, c, number, i, j);
    LineAfterRun(events, LineOf(c, number), double);
    StateIsLastDecided(events + [Line(LineOf(c, number))], double, entity.entityId, policy.subsystemId);
    NewestIsDelivered(events + [Line(LineOf(c, number))], double, last);
    AttemptsAreOlder(events, LineOf(c, number), double, c.snapshot.revision);
    var decision := next.accepted[last];
    assert decision.revision == c.snapshot.revision;
    assert decision !in next.attempts;
  }

  lemma AttemptsAreOlder(events: seq<Event>, text: string, double: string -> Option<real>, revision: nat)
    requires ValidRun(START, events, double)
    requires After(START, events, double).messages.latestRevision < revision
    ensures forall attempt :: attempt in Received(After(START, events, double), text, double).attempts ==>
      attempt.revision < revision
  {
    hide After, ValidRun, ReadMetrics, ReadEffects, Messages.ProfilesOf, Gates.WithDecisions, Filed, Increasing,
      PendingIsNew, Settled, Sourced, Conserved, Gates.StatesAre;
    StartIsFine();
    RunKeepsInv(START, events, double);
    ReceivedKeepsAttempts(After(START, events, double), text, double);
  }

  lemma ReceivedKeepsAttempts(state: State, text: string, double: string -> Option<real>)
    ensures Received(state, text, double).attempts == state.attempts
  {
    hide ReadMetrics, ReadEffects, Messages.ProfilesOf, Gates.WithDecisions, Filed;
    Messages.RevisionFits(text, double);
    var (messages, answer) := Messages.Updated(state.messages, ReadMetrics(text, double));
    if answer.Some? {
      var (effects, decisions) := Gates.Updated(state.effects, ReadEffects(text));
      if decisions.Some? {
        FiledKeepsAttempts(state.(messages := messages, effects := effects), decisions.value);
      }
    }
  }

  lemma {:induction false} FiledKeepsAttempts(state: State, decisions: seq<EffectDecision>)
    ensures Filed(state, decisions).attempts == state.attempts
    decreases |decisions|
  {
    if decisions != [] {
      FiledKeepsAttempts(state, decisions[..|decisions| - 1]);
    }
  }

  lemma PolicyIsKnown(snapshot: StateSnapshot, i: nat, j: nat)
    requires Buildable(snapshot) && i < |snapshot.entities| && j < |snapshot.entities[i].policies|
    ensures KnownPolicy(snapshot.entities[i].policies[j])
  {
    assert KnownEntity(snapshot.entities[i]);
  }

  lemma LineAfterRun(events: seq<Event>, text: string, double: string -> Option<real>)
    requires ValidRun(START, events, double)
    ensures ValidRun(START, events + [Line(text)], double)
    ensures After(START, events + [Line(text)], double) == Received(After(START, events, double), text, double)
  {
    hide Received;
    RunSnoc(START, events, text, double);
  }

  lemma {:induction false} RunSnoc(state: State, events: seq<Event>, text: string, double: string -> Option<real>)
    requires ValidRun(state, events, double)
    ensures ValidRun(state, events + [Line(text)], double)
    ensures After(state, events + [Line(text)], double) == Received(After(state, events, double), text, double)
    decreases |events|
  {
    hide Received, Drained, EffectDelivery.Enabled;
    if events == [] {
      assert events + [Line(text)] == [Line(text)] && [Line(text)][1..] == [];
      assert EffectDelivery.Enabled(state, Line(text)) by { LineIsEnabled(state, text); }
    } else {
      assert (events + [Line(text)])[0] == events[0] && (events + [Line(text)])[1..] == events[1..] + [Line(text)];
      RunSnoc(Next(state, events[0], double), events[1..], text, double);
    }
  }

  lemma LineIsEnabled(state: State, text: string)
    ensures EffectDelivery.Enabled(state, Line(text))
  {
  }

  lemma EffectFollowsFlow(c: Computation, entity: Entity, policy: Policy)
    requires KnownPolicy(policy)
    ensures var flows, effect := c.snapshot.flows, E.EffectOf(entity, policy, Judged(c));
      && (NoFlow(flows, entity.entityId, policy.peer) ==> ParseState(effect.state) == Some(Blocked))
      && (forall f: nat :: LastFlow(flows, entity.entityId, policy.peer, f) ==>
            if f !in c.measured || !c.measured[f].connected then ParseState(effect.state) == Some(Blocked)
            else
              var within :=
                && c.measured[f].latencyMs <= policy.maxDelayMs && c.measured[f].lossRate <= policy.maxLossRate
                && policy.minThroughputBps <= c.measured[f].throughputBps;
              ParseState(effect.state)
              == Some(if within then Available else if policy.violationState == "BLOCKED" then Blocked else Degraded))
  {
    hide E.EffectOf, Judged;
    var metrics := Judged(c);
    JudgedAreFlows(c);
    JudgedByFlow(c, entity.entityId, policy.peer);
    if NoFlow(c.snapshot.flows, entity.entityId, policy.peer) {
      E.BlockedWithoutMetric(entity, policy, metrics);
    }
    forall f: nat | LastFlow(c.snapshot.flows, entity.entityId, policy.peer, f)
      ensures ParseState(E.EffectOf(entity, policy, metrics).state)
        == Some(if f !in c.measured || !c.measured[f].connected then Blocked
                else if c.measured[f].latencyMs <= policy.maxDelayMs && c.measured[f].lossRate <= policy.maxLossRate
                        && policy.minThroughputBps <= c.measured[f].throughputBps then Available
                else if policy.violationState == "BLOCKED" then Blocked else Degraded)
    {
      assert E.LastAt(metrics, entity.entityId, policy.peer, f);
      E.AvailableMeans(entity, policy, metrics, f);
    }
  }

  // ----- Messages -----------------------------------------------------------------------------------

  /** Device `j` of entity `i` is the last one that links `source` to `target`. */
  ghost predicate LastDevice(entities: seq<Entity>, source: string, target: string, i: nat, j: nat) {
    && i < |entities| && j < |entities[i].devices|
    && entities[i].entityId == source && entities[i].devices[j].peer == target
    && forall k: nat, l: nat ::
         && k < |entities| && l < |entities[k].devices| && (i < k || (i == k && j < l))
         && entities[k].entityId == source
         ==>
           entities[k].devices[l].peer != target
  }

  lemma {:induction false} DeviceAt(entities: seq<Entity>, m: nat, n: nat) returns (i: nat, j: nat)
    requires m <= |entities| && n < DevicesBefore(entities, m)
    ensures i < m && j < |entities[i].devices| && n == DevicesBefore(entities, i) + j
  {
    if DevicesBefore(entities, m - 1) <= n {
      i, j := m - 1, n - DevicesBefore(entities, m - 1);
    } else {
      i, j := DeviceAt(entities, m - 1, n);
    }
  }

  lemma {:induction false} DevicesInOrder(entities: seq<Entity>, i: nat, j: nat, k: nat)
    requires i < k <= |entities| && j < |entities[i].devices|
    ensures DevicesBefore(entities, i) + j < DevicesBefore(entities, k)
    decreases k
  {
    if i < k - 1 {
      DevicesInOrder(entities, i, j, k - 1);
    }
  }

  function LinkEntries(c: Computation): seq<LinkEntry>
    requires forall i :: 0 <= i < |LinksOfSnapshot(c.snapshot)| ==> 0 <= LinksOfSnapshot(c.snapshot)[i].dataRateBps
  {
    EntriesOfLinks(RecordsOfLinks(LinksOfSnapshot(c.snapshot)))
  }

  function FlowEntries(c: Computation): seq<MetricEntry> {
    EntriesOfMetrics(RecordsOfFlows(c.snapshot.flows, c.measured))
  }

  lemma EntriesAreLinks(c: Computation)
    requires forall i :: 0 <= i < |LinksOfSnapshot(c.snapshot)| ==> 0 <= LinksOfSnapshot(c.snapshot)[i].dataRateBps
    ensures |LinkEntries(c)| == |LinksOfSnapshot(c.snapshot)|
    ensures forall n :: 0 <= n < |LinkEntries(c)| ==>
      && LinkEntries(c)[n].source == LinksOfSnapshot(c.snapshot)[n].source
      && LinkEntries(c)[n].target == LinksOfSnapshot(c.snapshot)[n].target
      && LinkEntries(c)[n].up == LinksOfSnapshot(c.snapshot)[n].up
      && LinkEntries(c)[n].delayMs == LinksOfSnapshot(c.snapshot)[n].delayMs
      && LinkEntries(c)[n].lossRate == LinksOfSnapshot(c.snapshot)[n].lossRate
  {
    hide LinksOfSnapshot;
  }

  /** The entry of a device's link. */
  lemma EntryOfDevice(c: Computation, i: nat, j: nat)
    requires forall i :: 0 <= i < |LinksOfSnapshot(c.snapshot)| ==> 0 <= LinksOfSnapshot(c.snapshot)[i].dataRateBps
    requires i < |c.snapshot.entities| && j < |c.snapshot.entities[i].devices|
    ensures |LinkEntries(c)| == DevicesBefore(c.snapshot.entities, |c.snapshot.entities|)
    ensures var n := DevicesBefore(c.snapshot.entities, i) + j;
      var entity, device := c.snapshot.entities[i], c.snapshot.entities[i].devices[j];
      && n < |LinkEntries(c)|
      && LinkEntries(c)[n].source == entity.entityId && LinkEntries(c)[n].target == device.peer
      && LinkEntries(c)[n].delayMs == device.delayMs && LinkEntries(c)[n].lossRate == device.lossRate
      && (LinkEntries(c)[n].up <==>
            device.linkState == "UP" && entity.alive && AliveThere(c.snapshot.entities, device.peer))
  {
    hide LinkEntries, DevicesBefore, LinksOf, AliveThere;
    EntriesAreLinks(c);
    LinksAreDevices(c.snapshot.entities, i, j);
  }

  lemma LastDeviceIsLastLink(c: Computation, source: string, target: string, i: nat, j: nat)
    requires forall i :: 0 <= i < |LinksOfSnapshot(c.snapshot)| ==> 0 <= LinksOfSnapshot(c.snapshot)[i].dataRateBps
    requires i < |c.snapshot.entities| && j < |c.snapshot.entities[i].devices|
    ensures LastDevice(c.snapshot.entities, source, target, i, j) <==>
      Messages.LastLink(LinkEntries(c), (source, target), DevicesBefore(c.snapshot.entities, i) + j)
  {
    hide LinkEntries, DevicesBefore, LinksOfSnapshot, AliveThere;
    var entities, entries := c.snapshot.entities, LinkEntries(c);
    var n := DevicesBefore(entities, i) + j;
    EntryOfDevice(c, i, j);
    if LastDevice(entities, source, target, i, j) {
      forall m | n < m < |entries| ensures !Messages.LinkIs(entries[m], (source, target)) {
        var k, l := DeviceAt(entities, |entities|, m);
        EntryOfDevice(c, k, l);
        if k < i {
          DevicesInOrder(entities, k, l, i);
        }
      }
    }
    if Messages.LastLink(entries, (source, target), n) {
      forall k: nat, l: nat | k < |entities| && l < |entities[k].devices| && (i < k || (i == k && j < l))
        ensures !(entities[k].entityId == source && entities[k].devices[l].peer == target)
      {
        EntryOfDevice(c, k, l);
        if i < k {
          DevicesInOrder(entities, i, j, k);
        }
        assert !Messages.LinkIs(entries[DevicesBefore(entities, k) + l], (source, target));
      }
    }
  }

  /** The device's link carries the message: its loss is below one and not above the
      draw, and the last flow of the direction was measured connected and up; without
      such a flow the link itself is up. */
  ghost predicate Carries(c: Computation, source: string, target: string, i: nat, j: nat, draw: real) {
    && LastDevice(c.snapshot.entities, source, target, i, j)
    && var entity, device := c.snapshot.entities[i], c.snapshot.entities[i].devices[j];
    && device.lossRate < 1.0 && device.lossRate <= draw
    && (NoFlow(c.snapshot.flows, source, target) ==>
          device.linkState == "UP" && entity.alive && AliveThere(c.snapshot.entities, target))
    && forall f: nat :: LastFlow(c.snapshot.flows, source, target, f) ==>
         f in c.measured && c.measured[f].connected && c.measured[f].up
  }

  lemma FlowsAreMetrics(c: Computation, source: string, target: string)
    ensures NoFlow(c.snapshot.flows, source, target) <==> !Messages.HasMetric(FlowEntries(c), (source, target))
    ensures forall f: nat ::
      LastFlow(c.snapshot.flows, source, target, f) <==> Messages.LastMetric(FlowEntries(c), (source, target), f)
    ensures |FlowEntries(c)| == |c.snapshot.flows|
    ensures forall f :: 0 <= f < |c.snapshot.flows| ==>
      (FlowEntries(c)[f].usable <==> f in c.measured && c.measured[f].connected && c.measured[f].up)
  {
  }

  lemma CarriesMeans(c: Computation, source: string, target: string, i: nat, j: nat, draw: real)
    requires Buildable(c.snapshot) && i < |c.snapshot.entities| && j < |c.snapshot.entities[i].devices|
    requires forall i :: 0 <= i < |LinksOfSnapshot(c.snapshot)| ==> 0 <= LinksOfSnapshot(c.snapshot)[i].dataRateBps
    ensures Carries(c, source, target, i, j, draw) <==>
      Messages.Carries(Metrics(c.snapshot.revision, LinkEntries(c), FlowEntries(c)), (source, target),
                       DevicesBefore(c.snapshot.entities, i) + j, draw)
  {
    hide LinkEntries, FlowEntries, DevicesBefore, LinksOfSnapshot, AliveThere, LastFlow, NoFlow, Messages.HasMetric,
      Messages.LastMetric;
    LastDeviceIsLastLink(c, source, target, i, j);
    EntryOfDevice(c, i, j);
    FlowsAreMetrics(c, source, target);
    assert RangedEntity(c.snapshot.entities[i]) && RangedDevice(c.snapshot.entities[i].devices[j]);
    assert forall f: nat :: Messages.LastMetric(FlowEntries(c), (source, target), f) ==> f < |FlowEntries(c)| by {
      LastMetricInRange(c, source, target);
    }
    hide LastDevice;
  }

  lemma LastMetricInRange(c: Computation, source: string, target: string)
    ensures forall f: nat :: Messages.LastMetric(FlowEntries(c), (source, target), f) ==> f < |FlowEntries(c)|
  {
    hide FlowEntries;
  }

  /** After the response a message is delivered exactly when a device's link of that
      very direction carries it. */
  lemma ResultDecidesMessage(
    events: seq<Event>, c: Computation, number: real -> string, double: string -> Option<real>,
    source: string, target: string, serial: LossDraw.Word)
    requires ValidRun(START, events, double) && Clear(c, number, double)
    requires After(START, events, double).messages.latestRevision < c.snapshot.revision
    ensures var next := Received(After(START, events, double), LineOf(c, number), double);
      Messages.Decided(next.messages, source, target, serial).disposition == Messages.Deliver <==>
        exists i: nat, j: nat ::
          Carries(c, source, target, i, j, LossDraw.UnitDrawValue(source, target, serial, c.snapshot.revision))
  {
    hide After, ValidRun, Received, Buildable, LineOf, Messages.ProfilesOf, Messages.Decided, Messages.Carries, Carries,
      LossDraw.UnitDrawValue, OrdinarySnapshot, ReadableSnapshot, ExactNumbers, WritesNumbers, Ordinary, LinkEntries,
      FlowEntries, LinksOfSnapshot, DevicesBefore;
    LineIsTaken(events, c, number, double);
    var entities := c.snapshot.entities;
    var metrics := Metrics(c.snapshot.revision, LinkEntries(c), FlowEntries(c));
    var draw := LossDraw.UnitDrawValue(source, target, serial, c.snapshot.revision);
    assert LinkEntries(c) == EntriesOfLinks(RecordsOfLinks(LinksOfSnapshot(c.snapshot)))
        && FlowEntries(c) == EntriesOfMetrics(RecordsOfFlows(c.snapshot.flows, c.measured)) by {
      EntriesAre(c);
    }
    Messages.DeliveredMeans(metrics, c.snapshot.revision, source, target, serial);
    if n: nat :| Messages.Carries(metrics, (source, target), n, draw) {
      CarriedIsLink(metrics, (source, target), n, draw);
      LinksCountEntries(c);
      var i, j := DeviceAt(entities, |entities|, n);
      CarriesMeans(c, source, target, i, j, draw);
    }
    if i: nat, j: nat :| Carries(c, source, target, i, j, draw) {
      CarriesInRange(c, source, target, i, j, draw);
      CarriesMeans(c, source, target, i, j, draw);
    }
  }

  lemma EntriesAre(c: Computation)
    requires forall i :: 0 <= i < |LinksOfSnapshot(c.snapshot)| ==> 0 <= LinksOfSnapshot(c.snapshot)[i].dataRateBps
    ensures LinkEntries(c) == EntriesOfLinks(RecordsOfLinks(LinksOfSnapshot(c.snapshot)))
    ensures FlowEntries(c) == EntriesOfMetrics(RecordsOfFlows(c.snapshot.flows, c.measured))
  {
    hide LinksOfSnapshot;
  }

  lemma CarriedIsLink(metrics: Metrics, pair: Messages.Pair, n: nat, draw: real)
    requires Messages.Carries(metrics, pair, n, draw)
    ensures n < |metrics.links|
  {
  }

  lemma LinksCountEntries(c: Computation)
    requires forall i :: 0 <= i < |LinksOfSnapshot(c.snapshot)| ==> 0 <= LinksOfSnapshot(c.snapshot)[i].dataRateBps
    ensures |LinkEntries(c)| == DevicesBefore(c.snapshot.entities, |c.snapshot.entities|)
  {
    hide LinksOf, DevicesBefore;
    EntriesAreLinks(c);
    LinksCount(c.snapshot.entities, c.snapshot.entities);
  }

  lemma CarriesInRange(c: Computation, source: string, target: string, i: nat, j: nat, draw: real)
    requires Carries(c, source, target, i, j, draw)
    ensures i < |c.snapshot.entities| && j < |c.snapshot.entities[i].devices|
  {
  }

  // ----- Nodes ------------------------------------------------------------------------------------------

  /** The link of device `j` of entity `i` is up. */
  ghost predicate DeviceUp(entities: seq<Entity>, i: nat, j: nat) {
    && i < |entities| && j < |entities[i].devices|
    && entities[i].devices[j].linkState == "UP" && entities[i].alive
    && AliveThere(entities, entities[i].devices[j].peer)
  }

  /** The node that is reported for an entity: it is connected when the entity is alive
      and at an end of some device's link that is up. */
  lemma NodeMeans(snapshot: StateSnapshot, i: nat)
    requires i < |snapshot.entities|
    ensures var entities := snapshot.entities;
      var node, entity := NodesOfSnapshot(entities, LinksOfSnapshot(snapshot))[i], entities[i];
      && node.entityId == entity.entityId && node.businessNodeId == entity.businessNodeId
      && LastWith(entities, entity.entityId, node.ns3NodeId) && node.alive == entity.alive
      && (node.connected <==>
            && entity.alive
            && exists k: nat, l: nat ::
                 && DeviceUp(entities, k, l)
                 && (entities[k].entityId == entity.entityId || entities[k].devices[l].peer == entity.entityId))
  {
    hide LinksOf, DevicesBefore, AliveThere, NodeIndex, LastWith;
    var entities, id := snapshot.entities, snapshot.entities[i].entityId;
    var links := LinksOfSnapshot(snapshot);
    FoundIsLast(entities, id);
    SomeLastWith(entities, i);
    LinksCount(entities, entities);
    if n :| 0 <= n < |links| && links[n].up && (links[n].source == id || links[n].target == id) {
      var k, l := DeviceAt(entities, |entities|, n);
      LinksAreDevices(entities, k, l);
      assert DeviceUp(entities, k, l);
    }
    if k: nat, l: nat :| DeviceUp(entities, k, l) && (entities[k].entityId == id || entities[k].devices[l].peer == id) {
      LinksAreDevices(entities, k, l);
      assert InUpLink(links, id);
    }
  }

  lemma {:induction false} SomeLastWith(entities: seq<Entity>, i: nat)
    requires i < |entities|
    ensures exists k: nat :: LastWith(entities, entities[i].entityId, k)
    decreases |entities| - i
  {
    if j :| i < j < |entities| && entities[j].entityId == entities[i].entityId {
      SomeLastWith(entities, j);
    } else {
      assert LastWith(entities, entities[i].entityId, i);
    }
  }
}
