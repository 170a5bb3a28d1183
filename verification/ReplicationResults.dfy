/** What the replication invariant says of every run from the start. */
module ReplicationResults {
  import opened Wrappers
  import opened Text
  import opened Json
  import opened Models
  import opened StateStore
  import opened Protocol
  import opened StateDeltaTracker
  import opened DiffPatch
  import opened SnapshotMeaning
  import opened TcpJsonlClient
  import opened BridgeService
  import opened Idempotency
  import opened Replication

  /** In every reachable state with an open connection, delivering what is
      outstanding makes the service hold the latest submitted state; with
      nothing outstanding it holds it already. */
  lemma ServiceConverges(maxPending: nat, actions: seq<Action>)
    requires ValidRun(Start(maxPending), actions)
    ensures var system := RunFrom(Start(maxPending), actions);
      system.sender.connected && system.initialized ==>
        && Converges(system.core, Live(system), system.baseline, system.last, system.used)
        && (Live(system) == [] ==> Holds(system.core.store, system.baseline))
  {
    hide Holds, CoreKnown;
    StartInv(maxPending);
    RunKeepsInv(Start(maxPending), actions);
  }

  /** If the service still remembers the snapshot that a new connection sends
      again, its store holds that snapshot, and the answer is the duplicate
      acknowledgement that changes nothing. */
  lemma ResyncDuplicateIsSound(maxPending: nat, actions: seq<Action>, coalesced: Option<nat>)
    requires ValidRun(Start(maxPending), actions)
    requires var system := RunFrom(Start(maxPending), actions);
      system.sender.resync.Some? && system.sender.resync.value.id in CacheIds(system.core)
    ensures var system := RunFrom(Start(maxPending), actions);
      var (core, reply) := Accept(system.core, Obj(PayloadOf(system.sender.resync.value)), coalesced);
      && Holds(system.core.store, system.baseline)
      && core == system.core && reply.Acknowledged? && reply.response.duplicate
  {
    StartInv(maxPending);
    RunKeepsInv(Start(maxPending), actions);
    var system := RunFrom(Start(maxPending), actions);
    var newest := system.sender.resync.value;
    hide PayloadOf, ValidateEnvelope, Lookup, Apply, Holds, Strip, ValidRun, RunFrom, InStep, Describes, NewestLast,
      Sound;
    EnvelopeOf(newest);
    CacheIdsMention(system.core, newest.id);
    LookupNone(system.core.cache, newest.id);
    var i := FoundAt(system.core.cache, newest.id);
  }

  // ----- The submission itself -----------------------------------------------------

  predicate Submits(action: Action) {
    action.Submit? || action.SubmitInitial?
  }

  lemma {:induction false} BaselineStays(system: System, actions: seq<Action>)
    requires ValidRun(system, actions) && forall i :: 0 <= i < |actions| ==> !Submits(actions[i])
    ensures RunFrom(system, actions).baseline == system.baseline
    ensures RunFrom(system, actions).initialized == system.initialized
    decreases |actions|
  {
    if actions != [] {
      assert Next(system, actions[0]).baseline == system.baseline by {
        hide Accept, PayloadOf;
      }
      hide Next, Enabled;
      BaselineStays(Next(system, actions[0]), actions[1..]);
    }
  }

  lemma ConvergedHolds(system: System)
    requires Inv(system) && system.initialized
    ensures system.sender.connected && Live(system) == [] ==> Holds(system.core.store, system.baseline)
  {
    hide Holds, CoreKnown;
  }

  /** The latest submission of a run, followed by anything but submissions: on an
      open connection with nothing outstanding, the snapshot that the service
      computes on has the submitted entities and flows, field by field, each once
      and by ascending id. */
  lemma LatestSubmissionArrives(maxPending: nat, earlier: seq<Action>, submission: Action, later: seq<Action>)
    requires ValidRun(Start(maxPending), earlier) && Submits(submission)
    requires var system := RunFrom(Start(maxPending), earlier);
      Enabled(system, submission) && ValidRun(Next(system, submission), later)
    requires forall i :: 0 <= i < |later| ==> !Submits(later[i])
    ensures var final := RunFrom(Next(RunFrom(Start(maxPending), earlier), submission), later);
      final.sender.connected && Live(final) == [] ==>
        && Snapshot(final.core.store).Some?
        && AreSubmitted(Snapshot(final.core.store).value, submission.entities, submission.flows)
        && Snapshot(final.core.store).value.timestampMs == final.core.store.timestampMs
        && Snapshot(final.core.store).value.revision == final.core.store.revision
  {
    hide ValidRun, RunFrom, Next, Inv, Live, Snapshot, Holds, IsSnapshotOf, AreSubmitted, Proper;
    var system := RunFrom(Start(maxPending), earlier);
    var submitted := Next(system, submission);
    var final := RunFrom(submitted, later);
    StartInv(maxPending);
    RunKeepsInv(Start(maxPending), earlier);
    StepKeepsInv(system, submission);
    RunKeepsInv(submitted, later);
    SubmittedBaseline(system, submission);
    BaselineStays(submitted, later);
    ConvergedHolds(final);
    if final.sender.connected && Live(final) == [] {
      SnapshotIsState(final.core.store, final.baseline);
      StateIsSubmitted(Snapshot(final.core.store).value, submission.entities, submission.flows);
    }
  }

  lemma SubmittedBaseline(system: System, submission: Action)
    requires Submits(submission) && Enabled(system, submission)
    ensures Next(system, submission).initialized
    ensures StateOf(submission.entities, submission.flows) == Some(Next(system, submission).baseline)
    ensures Proper(Next(system, submission).baseline)
  {
    hide StateOf, Proper, Diff, Trimmed;
  }

  /** One record for each element of the list, and no others, by ascending id. */
  ghost predicate EntitiesSubmitted(records: seq<Entity>, entities: seq<EntityState>) {
    && |records| == |entities|
    && (forall k :: 0 <= k < |entities| ==> exists i :: 0 <= i < |records| && IsEntity(records[i], entities[k]))
    && (forall i, j :: 0 <= i < j < |records| ==>
          records[i].entityId != records[j].entityId && AtMost(records[i].entityId, records[j].entityId))
  }

  ghost predicate FlowsSubmitted(records: seq<Flow>, flows: seq<FlowConfig>) {
    && |records| == |flows|
    && (forall k :: 0 <= k < |flows| ==> exists i :: 0 <= i < |records| && IsFlow(records[i], flows[k]))
    && (forall i, j :: 0 <= i < j < |records| ==>
          records[i].flowId != records[j].flowId && AtMost(records[i].flowId, records[j].flowId))
  }

  ghost predicate AreSubmitted(snapshot: StateSnapshot, entities: seq<EntityState>, flows: seq<FlowConfig>) {
    EntitiesSubmitted(snapshot.entities, entities) && FlowsSubmitted(snapshot.flows, flows)
  }

  lemma SentIsThere(records: seq<Entity>, entities: seq<EntityState>, k: nat)
    requires k < |entities| && IndexEntities(map[], entities).Some?
    requires AreEntities(records, IndexEntities(map[], entities).value)
    ensures |records| == |entities| && exists i :: 0 <= i < |records| && IsEntity(records[i], entities[k])
  {
    hide IsEntity, AtMost, IndexEntities;
    var sent := IndexEntities(map[], entities).value;
    assert |sent| == |entities| && entities[k].entityId in sent && sent[entities[k].entityId] == entities[k] by {
      IndexEntitiesMeans(entities);
    }
    var i :| 0 <= i < |records| && records[i].entityId == entities[k].entityId;
  }

  lemma SentAreSubmitted(records: seq<Entity>, entities: seq<EntityState>)
    requires IndexEntities(map[], entities).Some? && AreEntities(records, IndexEntities(map[], entities).value)
    ensures EntitiesSubmitted(records, entities)
  {
    assert forall i, j :: 0 <= i < j < |records| ==>
      records[i].entityId != records[j].entityId && AtMost(records[i].entityId, records[j].entityId);
    assert |records| == |entities| by {
      IndexEntitiesMeans(entities);
    }
    hide IsEntity, AtMost, IndexEntities, AreEntities;
    forall k | 0 <= k < |entities| ensures exists i :: 0 <= i < |records| && IsEntity(records[i], entities[k]) {
      SentIsThere(records, entities, k);
    }
  }

  lemma SentFlowIsThere(records: seq<Flow>, flows: seq<FlowConfig>, k: nat)
    requires IndexFlows(map[], flows).Some? && AreFlows(records, IndexFlows(map[], flows).value) && k < |flows|
    ensures |records| == |flows| && exists i :: 0 <= i < |records| && IsFlow(records[i], flows[k])
  {
    hide IsFlow, AtMost, IndexFlows;
    var sent := IndexFlows(map[], flows).value;
    assert |sent| == |flows| && flows[k].flowId in sent && sent[flows[k].flowId] == flows[k] by {
      IndexFlowsMeans(flows);
    }
    var i :| 0 <= i < |records| && records[i].flowId == flows[k].flowId;
  }

  lemma SentFlowsAreSubmitted(records: seq<Flow>, flows: seq<FlowConfig>)
    requires IndexFlows(map[], flows).Some? && AreFlows(records, IndexFlows(map[], flows).value)
    ensures FlowsSubmitted(records, flows)
  {
    assert forall i, j :: 0 <= i < j < |records| ==>
      records[i].flowId != records[j].flowId && AtMost(records[i].flowId, records[j].flowId);
    assert |records| == |flows| by {
      IndexFlowsMeans(flows);
    }
    hide IsFlow, AtMost, IndexFlows, AreFlows;
    forall k | 0 <= k < |flows| ensures exists i :: 0 <= i < |records| && IsFlow(records[i], flows[k]) {
      SentFlowIsThere(records, flows, k);
    }
  }

  lemma StateIsSubmitted(snapshot: StateSnapshot, entities: seq<EntityState>, flows: seq<FlowConfig>)
    requires StateOf(entities, flows).Some? && IsSnapshotOf(snapshot, StateOf(entities, flows).value)
    ensures AreSubmitted(snapshot, entities, flows)
  {
    hide AreEntities, AreFlows, EntitiesSubmitted, FlowsSubmitted, IndexEntities, IndexFlows;
    SentAreSubmitted(snapshot.entities, entities);
    SentFlowsAreSubmitted(snapshot.flows, flows);
  }

  // ----- No change is sent twice -------------------------------------------------

  /** The line being sent and the queue behind it. */
  function Line(system: System): seq<Message> {
    CurrentLine(system.sender) + system.sender.pending
  }

  function SentMessages(system: System): seq<Message> {
    seq(|system.sent|, i requires 0 <= i < |system.sent| => system.sent[i].message)
  }

  /** Everything sent so far and, while connected, everything about to be sent. */
  function Sendings(system: System): seq<Message> {
    SentMessages(system) + if system.sender.connected then Line(system) else []
  }

  ghost predicate DistinctChanges(messages: seq<Message>) {
    forall i, j :: 0 <= i < j < |messages| && messages[i].Change? && messages[j].Change? ==>
      messages[i].id != messages[j].id
  }

  ghost predicate SentInv(system: System) {
    && (system.sender.resync.Some? ==> system.sender.resync.value.Full?)
    && (forall i :: 0 <= i < |Sendings(system)| && Sendings(system)[i].Change? ==>
          Sendings(system)[i].id in system.used)
    && DistinctChanges(Sendings(system))
    && (system.sender.current.Some? ==> system.sender.connected)
  }

  /** The changes of `longer` are those of `shorter` and possibly a fresh one. */
  lemma MoreSendings(shorter: seq<Message>, longer: seq<Message>, last: Message, used: set<string>)
    requires DistinctChanges(shorter)
    requires forall i :: 0 <= i < |shorter| && shorter[i].Change? ==> shorter[i].id in used
    requires exists n: nat :: n <= |shorter| && longer == shorter[..n] + [last]
    requires last.Full? || last.id !in used
    ensures DistinctChanges(longer)
    ensures forall i :: 0 <= i < |longer| && longer[i].Change? ==> longer[i].id in used + {last.id}
  {
  }

  lemma FewerSendings(shorter: seq<Message>, longer: seq<Message>)
    requires DistinctChanges(longer) && shorter <= longer
    ensures DistinctChanges(shorter)
  {
  }

  lemma QueuedKeepsSent(system: System, next: System, last: Message, kept: nat)
    requires SentInv(system) && next.sent == system.sent
    requires next.sender == system.sender.(resync := next.sender.resync, pending := next.sender.pending)
    requires next.sender.resync.Some? && next.sender.resync.value.Full?
    requires kept <= |system.sender.pending| && next.sender.pending == system.sender.pending[..kept] + [last]
    requires last.Full? || last.id !in system.used
    requires system.used + {last.id} <= next.used
    ensures SentInv(next)
  {
    assert SentMessages(next) == SentMessages(system);
    if system.sender.connected {
      var shorter, longer := Sendings(system), Sendings(next);
      var n := |system.sent| + |CurrentLine(system.sender)| + kept;
      assert longer == shorter[..n] + [last];
      MoreSendings(shorter, longer, last, system.used);
    }
  }

  lemma SubmitKeepsSent(system: System, action: Action)
    requires SentInv(system) && Enabled(system, action) && (action.Submit? || action.SubmitInitial?)
    ensures SentInv(Next(system, action))
  {
    hide StateOf, Proper, Diff, Strip, Trimmed, SentInv;
    var next := Next(system, action);
    var state := StateOf(action.entities, action.flows).value;
    var first := Full(action.requestId, action.timestampMs, action.entities, action.flows);
    var change := Change(action.requestId, action.timestampMs, Diff(system.baseline, state));
    var resync := Full(action.requestId + RESYNC_SUFFIX, action.timestampMs, action.entities, action.flows);
    var pending := system.sender.pending;
    if action.SubmitInitial? || !system.initialized {
      assert next.sender.pending == pending[..0] + [first];
      QueuedKeepsSent(system, next, first, 0);
    } else if system.baseline == state {
      SameSendings(system, next);
    } else if Overflows(system.sender, system.maxPending) {
      assert next.sender.pending == pending[..0] + [resync];
      QueuedKeepsSent(system, next, resync, 0);
    } else {
      assert next.sender.pending == pending[..|pending|] + [change];
      QueuedKeepsSent(system, next, change, |pending|);
    }
  }

  lemma SameSendings(system: System, next: System)
    requires SentInv(system) && next.sender == system.sender && next.sent == system.sent && next.used == system.used
    ensures SentInv(next)
  {
    assert Sendings(next) == Sendings(system);
  }

  lemma FewerKeepsSent(system: System, next: System)
    requires SentInv(system) && next.used == system.used && next.sender.resync == system.sender.resync
    requires next.sender.current.Some? ==> next.sender.connected
    requires Sendings(next) <= Sendings(system)
    ensures SentInv(next)
  {
    hide Sendings;
    FewerSendings(Sendings(next), Sendings(system));
    forall i | 0 <= i < |Sendings(next)| ensures Sendings(next)[i] == Sendings(system)[i] {}
  }

  lemma ConnectKeepsSent(system: System)
    requires SentInv(system) && Enabled(system, Connect)
    ensures SentInv(Next(system, Connect))
  {
    var next := Next(system, Connect);
    var before, after := Sendings(system), Sendings(next);
    assert SentMessages(next) == SentMessages(system);
    if system.sender.resync.Some? {
      var newest := system.sender.resync.value;
      assert after == before[..|before|] + [newest];
      hide Sendings;
      MoreSendings(before, after, newest, system.used);
      forall i | 0 <= i < |after| && after[i].Change? ensures after[i].id in system.used {
        assert after[i] == before[i];
      }
    } else {
      FewerKeepsSent(system, next);
    }
  }

  lemma LineSendings(system: System, action: Action)
    requires Enabled(system, action) && (action.Take? || action.Finish? || action.Disconnect?)
    ensures Sendings(Next(system, action)) <= Sendings(system)
  {
    var next := Next(system, action);
    var sent, sent' := SentMessages(system), SentMessages(next);
    if action.Finish? {
      var message, pending := system.sender.current.value, system.sender.pending;
      assert sent' == sent + [message];
      hide SentMessages;
      assert (sent + [message]) + pending == sent + ([message] + pending);
    } else {
      assert sent' == sent;
      hide SentMessages;
      if action.Take? {
        assert Line(next) == Line(system);
      }
    }
  }

  lemma LineKeepsSent(system: System, action: Action)
    requires SentInv(system) && Enabled(system, action) && (action.Take? || action.Finish? || action.Disconnect?)
    ensures SentInv(Next(system, action))
  {
    hide Sendings, DistinctChanges;
    LineSendings(system, action);
    FewerKeepsSent(system, Next(system, action));
  }

  lemma {:induction false} RunKeepsSent(system: System, actions: seq<Action>)
    requires SentInv(system) && ValidRun(system, actions)
    ensures SentInv(RunFrom(system, actions))
    decreases |actions|
  {
    if actions != [] {
      hide SentInv;
      var action := actions[0];
      if action.Submit? || action.SubmitInitial? {
        SubmitKeepsSent(system, action);
      } else if action.Deliver? {
        SameSendings(system, Next(system, action));
      } else if action.Connect? {
        ConnectKeepsSent(system);
      } else {
        LineKeepsSent(system, action);
      }
      RunKeepsSent(Next(system, action), actions[1..]);
    }
  }

  /** Over any run no change is ever handed to a socket twice, on one
      connection or on two: a reconnect recovers by full snapshots only. */
  lemma ChangesSentOnce(maxPending: nat, actions: seq<Action>, i: nat, j: nat)
    requires ValidRun(Start(maxPending), actions)
    requires i < j < |RunFrom(Start(maxPending), actions).sent|
    requires RunFrom(Start(maxPending), actions).sent[i].message.Change?
    ensures RunFrom(Start(maxPending), actions).sent[i].message != RunFrom(Start(maxPending), actions).sent[j].message
  {
    RunKeepsSent(Start(maxPending), actions);
    var system := RunFrom(Start(maxPending), actions);
    assert Sendings(system)[i] == system.sent[i].message && Sendings(system)[j] == system.sent[j].message;
  }

  // ----- The order of lines ------------------------------------------------------------

  /** Between two connections the lines that wait stay in order: taking one changes
      nothing of their order, sending one takes the first away, a send that fails
      leaves all of them, and a broken connection costs at most the line being sent.
      Only a new connection replaces them, by the newest snapshot. */
  lemma LinesStayInOrder(system: System, action: Action)
    requires Enabled(system, action)
    ensures var next := Next(system, action);
      && (action.Take? ==> Line(next) == Line(system))
      && (action.Finish? && action.sent ==> [system.sender.current.value] + Line(next) == Line(system))
      && (action.Finish? && !action.sent ==> Line(next) == Line(system) && !next.sender.connected)
      && (action.Disconnect? ==> CurrentLine(system.sender) + Line(next) == Line(system) && !next.sender.connected)
      && (action.Deliver? ==> Line(next) == Line(system))
      && (action.Connect? ==>
          Line(next) == if system.sender.resync.Some? then [system.sender.resync.value] else [])
  {
    hide Accept, PayloadOf;
  }

  // ----- Bounds -------------------------------------------------------------------

  ghost predicate Bounded(system: System) {
    && system.maxPending > 0
    && |system.sender.pending| <= system.maxPending + 1
    && (system.sender.connected ==> |system.sender.pending| <= system.maxPending)
  }

  lemma StepKeepsBounded(system: System, action: Action)
    requires Bounded(system) && Enabled(system, action)
    ensures Bounded(Next(system, action))
    ensures
      (action.Submit? || action.SubmitInitial?) &&
      Next(system, action).sender.pending != system.sender.pending ==>
      |Next(system, action).sender.pending| <= system.maxPending
  {
    hide StateOf, Submittable, Accept, PayloadOf, Diff;
  }

  /** The queue never holds more than one line above its limit, and at most
      the limit after every submission that queues something. */
  lemma {:induction false} QueueBounded(system: System, actions: seq<Action>, submission: Action)
    requires Bounded(system) && ValidRun(system, actions)
    ensures Bounded(RunFrom(system, actions))
    ensures Enabled(RunFrom(system, actions), submission) && (submission.Submit? || submission.SubmitInitial?) ==>
      var before, after := RunFrom(system, actions), Next(RunFrom(system, actions), submission);
      after.sender.pending == before.sender.pending || |after.sender.pending| <= before.maxPending
    decreases |actions|
  {
    hide Enabled, Next, Bounded;
    if actions == [] {
      if Enabled(system, submission) {
        StepKeepsBounded(system, submission);
      }
    } else {
      StepKeepsBounded(system, actions[0]);
      QueueBounded(Next(system, actions[0]), actions[1..], submission);
    }
  }

  // ----- Recovery --------------------------------------------------------------------

  predicate Progress(action: Action) {
    action.Take? || (action.Finish? && action.sent) || action.Deliver?
  }

  /** How many steps the outstanding messages still need. */
  function Work(system: System): nat {
    3 * |system.sender.pending| + 2 * |CurrentLine(system.sender)| + |system.transit|
  }

  lemma ProgressWorks(system: System, action: Action)
    requires system.sender.connected && Enabled(system, action) && Progress(action)
    ensures var next := Next(system, action);
      && Work(next) < Work(system) && next.sender.connected
      && next.baseline == system.baseline && next.initialized == system.initialized
  {
    hide Accept, PayloadOf;
  }

  lemma ProgressPossible(system: System)
    requires system.sender.connected && Live(system) != []
    ensures exists action :: Enabled(system, action) && Progress(action)
  {
    if system.transit != [] {
      assert Enabled(system, Deliver(None)) && Progress(Deliver(None));
    } else if system.sender.current.Some? {
      assert Enabled(system, Finish(true, true)) && Progress(Finish(true, true));
    } else {
      assert Enabled(system, Take) && Progress(Take);
    }
  }

  /** On a connection that stays up and without new submissions, sending and
      delivering ends after at most `Work` steps, and when no such step is left
      the service holds the latest submitted state. */
  lemma {:induction false} ProgressEndsConverged(system: System, actions: seq<Action>)
    requires Inv(system) && system.sender.connected && system.initialized
    requires ValidRun(system, actions) && forall i :: 0 <= i < |actions| ==> Progress(actions[i])
    ensures |actions| <= Work(system)
    ensures var final := RunFrom(system, actions);
      && final.baseline == system.baseline
      && ((forall action :: Progress(action) ==> !Enabled(final, action)) ==> Holds(final.core.store, system.baseline))
    decreases |actions|
  {
    if actions == [] {
      hide Holds, CoreKnown, Enabled;
      if Live(system) != [] {
        ProgressPossible(system);
      }
    } else {
      hide Inv, Holds, Enabled, Next, Work;
      StepKeepsInv(system, actions[0]);
      ProgressWorks(system, actions[0]);
      ProgressEndsConverged(Next(system, actions[0]), actions[1..]);
    }
  }

  /** From wherever a run has got to, however many messages were lost: after
      the next connection, sending and delivering brings the service to the
      latest submitted state. */
  lemma ReconnectRecovers(maxPending: nat, actions: seq<Action>, recovery: seq<Action>)
    requires ValidRun(Start(maxPending), actions)
    requires var system := RunFrom(Start(maxPending), actions);
      && system.initialized && !system.sender.connected
      && ValidRun(Next(system, Connect), recovery)
      && (forall i :: 0 <= i < |recovery| ==> Progress(recovery[i]))
      && (forall action :: Progress(action) ==> !Enabled(RunFrom(Next(system, Connect), recovery), action))
    ensures var system := RunFrom(Start(maxPending), actions);
      && |recovery| <= 2
      && Holds(RunFrom(Next(system, Connect), recovery).core.store, system.baseline)
  {
    StartInv(maxPending);
    RunKeepsInv(Start(maxPending), actions);
    var system := RunFrom(Start(maxPending), actions);
    var connected := Next(system, Connect);
    ConnectedWork(system);
    hide Inv, Holds, Next, RunFrom, ValidRun, Work, Progress;
    StepKeepsInv(system, Connect);
    ProgressEndsConverged(connected, recovery);
  }

  lemma ConnectedWork(system: System)
    requires Enabled(system, Connect)
    ensures var connected := Next(system, Connect);
      && Work(connected) <= 2 && connected.sender.connected
      && connected.baseline == system.baseline && connected.initialized == system.initialized
  {
  }
}
