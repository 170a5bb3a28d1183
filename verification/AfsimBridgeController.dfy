/** `AfsimBridgeController`: submitting states through tracker and queue, and
    the way from received lines to the effect sink. */
module AfsimBridgeController {
  import opened Wrappers
  import opened Protocol
  import opened DiffPatch
  import opened MetricsMessage
  import opened EffectDelivery
  import JsonText
  import MessageText
  import Trackers = StateDeltaTracker
  import Clients = TcpJsonlClient
  import Messages = MessageTransportGate
  import Effects = NetworkEffectGate

  datatype SubmitResult = InitialQueued | DeltaQueued | ResyncQueued | NoChange

  /** The lines of a full message and of a change. */
  function InitLine(requestId: string, timestampMs: nat, entities: seq<EntityState>, flows: seq<FlowConfig>,
                    double: real -> string): string {
    Clients.Normalized(JsonText.Render(MessageText.InitTree(requestId, timestampMs, entities, flows, double)))
  }

  function DeltaLine(requestId: string, timestampMs: nat, delta: DeltaState, double: real -> string): string {
    Clients.Normalized(JsonText.Render(MessageText.DeltaTree(requestId, timestampMs, delta, double)))
  }

  /** The submitting side as a value: the tracker's memory and the queue of lines. */
  datatype Client = Client(baseline: Trackers.Baseline, initialized: bool, sender: Clients.Sender<string>)

  /** What a submission consists of; `double` writes a double as text. */
  datatype Submission = Submission(
    requestId: string, timestampMs: nat, entities: seq<EntityState>, flows: seq<FlowConfig>, double: real -> string)

  function FullLine(submission: Submission, suffix: string): string {
    InitLine(
      submission.requestId + suffix, submission.timestampMs, submission.entities, submission.flows, submission.double)
  }

  function ChangeLine(submission: Submission, delta: DeltaState): string {
    DeltaLine(submission.requestId, submission.timestampMs, delta, submission.double)
  }

  function Submitted(submission: Submission): Option<Trackers.Baseline> {
    StateOf(submission.entities, submission.flows)
  }

  /** A reset that throws: entities that are fit have been taken over already. */
  function HalfReset(client: Client, submission: Submission): Client {
    match Trackers.IndexEntities(map[], submission.entities)
    case None => client
    case Some(entities) => client.(baseline := client.baseline.(entities := entities))
  }

  /** `SubmitInitial`; the answer is whether it returns without an exception. */
  function AfterInitial(client: Client, submission: Submission): (Client, bool) {
    match Submitted(submission)
    case None => (HalfReset(client, submission), false)
    case Some(state) => (Client(state, true, Clients.InitialQueued(client.sender, FullLine(submission, ""))), true)
  }

  /** `SubmitDelta`; `None` is the exception. */
  function AfterDelta(
    client: Client, maxPending: nat, delta: DeltaState, submission: Submission): (Client, Option<bool>) {
    match Submitted(submission)
    case None => (HalfReset(client, submission), None)
    case Some(state) =>
      var sender := Clients.DeltaQueued(client.sender, maxPending, ChangeLine(submission, delta),
                                        FullLine(submission, RESYNC_SUFFIX));
      (Client(state, true, sender), Some(!Clients.Overflows(client.sender, maxPending)))
  }

  /** `SubmitCurrentState`: the first state is sent whole, later ones as changes,
      and nothing without a change; unfit lists touch nothing once there is a
      baseline. */
  function AfterCurrent(client: Client, maxPending: nat, submission: Submission): (Client, Option<SubmitResult>) {
    if !client.initialized then
      var (next, ok) := AfterInitial(client, submission);
      (next, if ok then Some(InitialQueued) else None)
    else
      match Submitted(submission)
      case None => (client, None)
      case Some(state) =>
        if state == client.baseline then (client, Some(NoChange))
        else
          var (next, queued) := AfterDelta(client, maxPending, Trackers.Diff(client.baseline, state), submission);
          (next, Some(if queued == Some(true) then DeltaQueued else ResyncQueued))
  }

  class AfsimBridgeController {
    const client: Clients.Impl
    const deltaTracker: Trackers.StateDeltaTracker
    const messageGate: Messages.MessageTransportGate
    const gate: Effects.NetworkEffectGate
    var pendingEffects: Pending

    /** The receiving side as a value, without a past. */
    function Receiving(): State
      reads this, messageGate, gate
    {
      State(messageGate.State(), gate.State(), pendingEffects, [], [], 0)
    }

    constructor (maxPending: nat)
      requires maxPending > 0
      ensures client.Valid() && client.maxPendingMessages == maxPending
      ensures fresh(client) && fresh(deltaTracker) && fresh(messageGate) && fresh(gate)
      ensures Submitting() == Client(Trackers.Baseline(map[], map[]), false, Clients.Sender([], None, None, false))
      ensures Receiving() == START
    {
      client := new Clients.Impl(maxPending);
      deltaTracker := new Trackers.StateDeltaTracker();
      messageGate := new Messages.MessageTransportGate();
      gate := new Effects.NetworkEffectGate();
      pendingEffects := map[];
    }

    function Submitting(): Client
      reads client, deltaTracker
    {
      Client(deltaTracker.View(), deltaTracker.mInitialized, client.View())
    }

    method SubmitInitial(submission: Submission) returns (ok: bool)
      requires client.Valid()
      modifies client, deltaTracker
      ensures client.Valid() && (Submitting(), ok) == AfterInitial(old(Submitting()), submission)
    {
      hide Clients.InitialQueued, Clients.Normalized;
      ok := deltaTracker.Reset(submission.entities, submission.flows);
      if ok {
        assert submission.requestId + "" == submission.requestId;
        client.QueueInitial(JsonText.Render(MessageText.InitTree(
          submission.requestId, submission.timestampMs, submission.entities, submission.flows, submission.double)));
      }
    }

    method SubmitCurrentState(submission: Submission) returns (result: Option<SubmitResult>)
      requires client.Valid()
      modifies client, deltaTracker
      ensures client.Valid()
      ensures (Submitting(), result) == AfterCurrent(old(Submitting()), client.maxPendingMessages, submission)
    {
      hide Trackers.Diff, Trackers.Empty, Clients.DeltaQueued, Clients.InitialQueued, FullLine, ChangeLine;
      if !deltaTracker.mInitialized {
        var ok := SubmitInitial(submission);
        return if ok then Some(InitialQueued) else None;
      }
      ghost var before := deltaTracker.View();
      var delta := deltaTracker.Update(submission.entities, submission.flows);
      if delta.None? {
        return None;
      }
      Trackers.DiffIsEmpty(before, deltaTracker.View());
      if Trackers.Empty(delta.value) {
        return Some(NoChange);
      }
      var submitted := SubmitDelta(delta.value, submission);
      result := if submitted.value then Some(DeltaQueued) else Some(ResyncQueued);
    }

    /** Resets the tracker once more, and queues the change beside the snapshot
        that a reconnection would send. */
    method SubmitDelta(delta: DeltaState, submission: Submission) returns (queued: Option<bool>)
      requires client.Valid()
      modifies client, deltaTracker
      ensures client.Valid()
      ensures (Submitting(), queued) == AfterDelta(old(Submitting()), client.maxPendingMessages, delta, submission)
    {
      hide Clients.DeltaQueued, Clients.Normalized;
      var ok := deltaTracker.Reset(submission.entities, submission.flows);
      if !ok {
        return None;
      }
      var deltaJson := JsonText.Render(MessageText.DeltaTree(
        submission.requestId, submission.timestampMs, delta, submission.double));
      var resyncJson := JsonText.Render(MessageText.InitTree(
        submission.requestId + RESYNC_SUFFIX, submission.timestampMs, submission.entities, submission.flows,
        submission.double));
      var fits := client.QueueDelta(deltaJson, resyncJson);
      queued := Some(fits);
    }

    /** The handler of a received line; what it throws, the client's reading
        loop catches. */
    method OnJsonLine(line: string, double: string -> Option<real>)
      modifies this`pendingEffects, messageGate, gate
      ensures var next := Received(old(Receiving()), line, double);
        messageGate.State() == next.messages && gate.State() == next.effects && pendingEffects == next.pending
    {
      hide ReadMetrics, ReadEffects, Messages.ProfilesOf, Effects.WithDecisions, Filed;
      ghost var before := Receiving();
      var accepted := messageGate.UpdateFromMetricsJson(line, double);
      if accepted.None? {
        return;
      }
      var decisions := gate.UpdateFromMetricsJson(line);
      if decisions.None? {
        return;
      }
      FileAll(before.(messages := messageGate.State(), effects := gate.State()), decisions.value);
    }

    method FileAll(ghost moved: State, decisions: seq<EffectDecision>)
      requires pendingEffects == moved.pending
      modifies this`pendingEffects
      ensures pendingEffects == Filed(moved, decisions).pending
      ensures Filed(moved, decisions).messages == moved.messages && Filed(moved, decisions).effects == moved.effects
    {
      hide KeyOf;
      assert decisions[..0] == [];
      for i := 0 to |decisions|
        invariant pendingEffects == Filed(moved, decisions[..i]).pending
      {
        assert decisions[..i + 1][..i] == decisions[..i];
        pendingEffects := pendingEffects[KeyOf(decisions[i]) := decisions[i]];
      }
      assert decisions[..|decisions|] == decisions;
      FiledGates(moved, decisions);
    }

    /** Each pending decision goes to the sink once, in some order; a refusal is
        reported and does not stop the others. `sink` tells which decisions the
        sink takes without an exception. */
    method ApplyPendingEffects(sink: EffectDecision -> bool)
      returns (applied: nat, attempts: seq<EffectDecision>, reported: seq<EffectDecision>)
      requires forall key :: key in pendingEffects ==> KeyOf(pendingEffects[key]) == key
      modifies this`pendingEffects
      ensures pendingEffects == map[] && Visits(old(pendingEffects), attempts)
      ensures applied + |reported| == |attempts| == |old(pendingEffects)|
      ensures reported == Refused(attempts, sink)
    {
      hide KeyOf;
      var all := pendingEffects;
      pendingEffects := map[];
      var pending := all;
      applied, attempts, reported := 0, [], [];
      assert VisitedSoFar(all, pending, attempts);
      while pending != map[]
        invariant pending.Keys <= all.Keys && VisitedSoFar(all, pending, attempts)
        invariant reported == Refused(attempts, sink) && applied + |reported| == |attempts|
        decreases |pending|
        modifies {}
      {
        hide VisitedSoFar;
        var key :| key in pending;
        var decision := pending[key];
        VisitedOneMore(all, pending, attempts, key);
        assert (attempts + [decision])[..|attempts|] == attempts;
        if sink(decision) {
          applied := applied + 1;
        } else {
          reported := reported + [decision];
        }
        attempts := attempts + [decision];
        SmallerWithout(pending, key);
        pending := pending - {key};
      }
      assert Visits(all, attempts) by {
        AllVisited(all, attempts);
      }
      VisitsCount(all, attempts);
    }
  }

  // ----- Submissions that throw ---------------------------------------------------------

  /** A `SubmitInitial` that throws queues nothing. It leaves the tracker at the
      state that was queued last exactly when the entities are unfit themselves
      or are those of that state. */
  lemma FailedInitialKeepsBaselineIff(client: Client, submission: Submission)
    requires !AfterInitial(client, submission).1
    ensures var next := AfterInitial(client, submission).0;
      var entities := Trackers.IndexEntities(map[], submission.entities);
      && next.sender == client.sender && next.initialized == client.initialized
      && (next.baseline == client.baseline <==> entities.None? || entities.value == client.baseline.entities)
  {
    hide Trackers.IndexEntities, Trackers.IndexFlows;
  }

  /** Otherwise the entities of that call are lost: submitted again with the
      flows that were queued last, they count as no change, nothing is queued,
      and the line kept for a reconnection still describes the old state. */
  lemma FailedInitialLosesUpdate(client: Client, maxPending: nat, failed: Submission, repeated: Submission)
    requires client.initialized && !AfterInitial(client, failed).1
    requires Trackers.IndexEntities(map[], failed.entities).Some?
    requires Trackers.IndexEntities(map[], failed.entities).value != client.baseline.entities
    requires repeated.entities == failed.entities
    requires Trackers.IndexFlows(map[], repeated.flows) == Some(client.baseline.flows)
    ensures var (last, result) := AfterCurrent(AfterInitial(client, failed).0, maxPending, repeated);
      && result == Some(NoChange) && last.sender == client.sender
      && Submitted(repeated).Some? && Submitted(repeated).value != client.baseline
  {
    hide Trackers.IndexEntities, Trackers.IndexFlows, Trackers.Diff;
  }

  // ----- Helpers of the drain ------------------------------------------------------------

  lemma FiledGates(state: State, decisions: seq<EffectDecision>)
    ensures Filed(state, decisions).messages == state.messages && Filed(state, decisions).effects == state.effects
    decreases |decisions|
  {
    if decisions != [] {
      FiledGates(state, decisions[..|decisions| - 1]);
    }
  }

  /** The attempts that the sink refuses, in order. */
  function Refused(attempts: seq<EffectDecision>, sink: EffectDecision -> bool): seq<EffectDecision>
    decreases |attempts|
  {
    if attempts == [] then []
    else
      var last := attempts[|attempts| - 1];
      Refused(attempts[..|attempts| - 1], sink) + if sink(last) then [] else [last]
  }

  /** The decisions that are no longer pending have been visited, once each. */
  ghost predicate VisitedSoFar(all: Pending, pending: Pending, attempts: seq<EffectDecision>) {
    && (forall key :: key in pending ==> key in all && pending[key] == all[key])
    && (forall key :: key in all ==> KeyOf(all[key]) == key)
    && (forall i :: 0 <= i < |attempts| ==>
          KeyOf(attempts[i]) in all && KeyOf(attempts[i]) !in pending && all[KeyOf(attempts[i])] == attempts[i])
    && (forall i, j :: 0 <= i < j < |attempts| ==> KeyOf(attempts[i]) != KeyOf(attempts[j]))
    && (forall key :: key in all && key !in pending ==> exists i :: 0 <= i < |attempts| && KeyOf(attempts[i]) == key)
  }

  lemma VisitedOneMore(all: Pending, pending: Pending, attempts: seq<EffectDecision>, key: Key)
    requires VisitedSoFar(all, pending, attempts) && key in pending
    ensures VisitedSoFar(all, pending - {key}, attempts + [pending[key]])
  {
    hide KeyOf;
    var more := attempts + [pending[key]];
    assert more[|attempts|] == pending[key] && KeyOf(pending[key]) == key;
    forall k | k in all && k !in pending - {key} ensures exists i :: 0 <= i < |more| && KeyOf(more[i]) == k {
      if k != key {
        var i :| 0 <= i < |attempts| && KeyOf(attempts[i]) == k;
        assert more[i] == attempts[i];
      }
    }
  }

  lemma AllVisited(all: Pending, attempts: seq<EffectDecision>)
    requires VisitedSoFar(all, map[], attempts)
    ensures Visits(all, attempts)
  {
  }

  lemma SmallerWithout(pending: Pending, key: Key)
    requires key in pending
    ensures |pending - {key}| < |pending|
  {
    assert (pending - {key}).Keys == pending.Keys - {key};
    assert |(pending - {key}).Keys| == |pending - {key}| && |pending.Keys| == |pending|;
  }
}
