/** The client's steps in the replication system, over messages, are the steps of
    the controller, tracker and queue objects, over the lines they write. */
module ClientRefinement {
  import opened Wrappers
  import opened Json
  import opened JsonText
  import opened JsonReader
  import opened MessageText
  import opened MessageMeaning
  import opened Text
  import opened Protocol
  import opened DiffPatch
  import opened StateDeltaTracker
  import opened TcpJsonlClient
  import opened BridgeService
  import opened Replication
  import opened ReplicationResults
  import Controllers = AfsimBridgeController

  function LineFor(message: Message, double: real -> string): string {
    match message
    case Full(id, timestamp, entities, flows) => Controllers.InitLine(id, timestamp, entities, flows, double)
    case Change(id, timestamp, delta) => Controllers.DeltaLine(id, timestamp, delta, double)
  }

  function LinesFor(messages: seq<Message>, double: real -> string): (lines: seq<string>)
    ensures |lines| == |messages|
    ensures forall i :: 0 <= i < |messages| ==> lines[i] == LineFor(messages[i], double)
  {
    seq(|messages|, i requires 0 <= i < |messages| => LineFor(messages[i], double))
  }

  function Optional(message: Option<Message>, double: real -> string): Option<string> {
    if message.None? then None else Some(LineFor(message.value, double))
  }

  /** The queue of lines that stands for a queue of messages. */
  function Written(sender: Sender<Message>, double: real -> string): Sender<string> {
    Sender(LinesFor(sender.pending, double), Optional(sender.resync, double), Optional(sender.current, double),
           sender.connected)
  }

  /** The controller's submitting side in the system. */
  function ClientOf(system: System, double: real -> string): Controllers.Client {
    Controllers.Client(system.baseline, system.initialized, Written(system.sender, double))
  }

  function SubmissionOf(action: Action, double: real -> string): Controllers.Submission
    requires action.Submit? || action.SubmitInitial?
  {
    Controllers.Submission(action.requestId, action.timestampMs, action.entities, action.flows, double)
  }

  /** A submission in the system is `SubmitCurrentState` on the objects. What it
      answers tells what has become of the queue: the first snapshot alone, one
      more change, the snapshot alone because the queue was full, or no change
      because the state is the one submitted last. */
  lemma SubmitIsWritten(system: System, action: Action, double: real -> string)
    requires action.Submit? && Enabled(system, action)
    ensures var (client, result) :=
        Controllers.AfterCurrent(ClientOf(system, double), system.maxPending, SubmissionOf(action, double));
      var before, after := system.sender.pending, Next(system, action).sender.pending;
      && client == ClientOf(Next(system, action), double)
      && (result == Some(Controllers.InitialQueued) <==> !system.initialized)
      && (result == Some(Controllers.NoChange) <==>
            system.initialized && StateOf(action.entities, action.flows) == Some(system.baseline))
      && (result == Some(Controllers.ResyncQueued) <==>
            && system.initialized && StateOf(action.entities, action.flows) != Some(system.baseline)
            && system.maxPending <= |before|)
      && (result == Some(Controllers.DeltaQueued) <==>
            && system.initialized && StateOf(action.entities, action.flows) != Some(system.baseline)
            && |before| < system.maxPending)
      && (result == Some(Controllers.InitialQueued) ==> |after| == 1 && after[0].Full?)
      && (result == Some(Controllers.NoChange) ==> after == before)
      && (result == Some(Controllers.ResyncQueued) ==> |after| == 1 && after[0].Full?)
      && (result == Some(Controllers.DeltaQueued) ==>
            |after| == |before| + 1 && after[..|before|] == before && after[|before|].Change?)
  {
    hide Controllers.InitLine, Controllers.DeltaLine, Diff, StateOf, Trimmed, DiffPatch.Proper;
    var pending := system.sender.pending;
    var state := StateOf(action.entities, action.flows).value;
    var change := Change(action.requestId, action.timestampMs, Diff(system.baseline, state));
    assert LinesFor(pending + [change], double) == LinesFor(pending, double) + [LineFor(change, double)];
    assert action.requestId + "" == action.requestId;
  }

  /** An explicit initial submission is `SubmitInitial` on the objects. */
  lemma InitialIsWritten(system: System, action: Action, double: real -> string)
    requires action.SubmitInitial? && Enabled(system, action)
    ensures Controllers.AfterInitial(ClientOf(system, double), SubmissionOf(action, double))
         == (ClientOf(Next(system, action), double), true)
  {
    hide Controllers.InitLine, Controllers.DeltaLine, StateOf, Trimmed, DiffPatch.Proper;
    assert action.requestId + "" == action.requestId;
    var full := Full(action.requestId, action.timestampMs, action.entities, action.flows);
    assert LinesFor([full], double) == [LineFor(full, double)];
  }

  /** The steps of the connection thread are those of the queue object. */
  lemma ConnectionIsWritten(system: System, action: Action, double: real -> string)
    requires Enabled(system, action)
    ensures var before, after := Written(system.sender, double), Written(Next(system, action).sender, double);
      && (action.Connect? ==> after == Connected(before))
      && (action.Take? ==> after == NextTaken(before))
      && (action.Finish? ==> after == if action.sent then CurrentSent(before) else SendFailed(before))
      && (action.Disconnect? ==> after == Disconnected(before))
      && (action.Deliver? ==> after == before)
  {
    hide Controllers.InitLine, Controllers.DeltaLine, LineFor, Submittable, PayloadOf;
    var pending := system.sender.pending;
    if action.Take? {
      assert LinesFor(pending[1..], double) == LinesFor(pending, double)[1..];
    } else if action.Finish? && !action.sent {
      var current := system.sender.current.value;
      assert LinesFor([current] + pending, double) == [LineFor(current, double)] + LinesFor(pending, double);
    }
  }

  // ----- What a line means ------------------------------------------------------------------

  /** The doubles of the message are written as text that denotes them. */
  ghost predicate ExactMessage(message: Message, double: real -> string, value: Numbers) {
    ExactEntities(if message.Full? then message.entities else message.delta.entityUpserts, double, value)
  }

  function TreeFor(message: Message, double: real -> string): Tree {
    match message
    case Full(id, timestamp, entities, flows) => InitTree(id, timestamp, entities, flows, double)
    case Change(id, timestamp, delta) => DeltaTree(id, timestamp, delta, double)
  }

  /** The line of a message is its text and a newline, and the text, read as
      JSON, denotes exactly the payload that the service is given in the system. */
  lemma LineMeansPayload(message: Message, double: real -> string, value: Numbers)
    requires WritesLiterals(double) && ExactMessage(message, double, value)
    ensures var text := Render(TreeFor(message, double));
      var read := ReadValue(text);
      && LineFor(message, double) == text + [LF]
      && read.Some? && read.value.1 == "" && Denotes(read.value.0, Obj(PayloadOf(message)), value)
  {
    hide InitTree, DeltaTree, InitPayload, DeltaPayload, Render, ReadValue, Denotes, ExactEntities, Normalized,
      JsonText.Proper, Frameable;
    match message {
      case Full(id, timestamp, entities, flows) =>
        InitTextMeans(id, timestamp, entities, flows, double, value);
        ProperInit(id, timestamp, entities, flows, double);
      case Change(id, timestamp, delta) =>
        DeltaTextMeans(id, timestamp, delta, double, value);
        ProperDelta(id, timestamp, delta, double);
    }
    RenderIsFrameable(TreeFor(message, double));
    FrameableNormalized(Render(TreeFor(message, double)));
  }

  // ----- A submission that throws ---------------------------------------------------------

  /** In any reachable state, a `SubmitInitial` that throws over its flows, followed
      by the same entities with the flows that were submitted last, answers that
      nothing has changed. However the connection then behaves, once nothing is
      outstanding the service holds the old state and not the submitted one. */
  lemma ThrownEntitiesNeverArrive(
    maxPending: nat, actions: seq<Action>, failed: Controllers.Submission, repeated: Controllers.Submission,
    later: seq<Action>, double: real -> string)
    requires ValidRun(Start(maxPending), actions)
    requires var system := RunFrom(Start(maxPending), actions);
      && system.initialized
      && Controllers.Submitted(failed).None?
      && IndexEntities(map[], failed.entities).Some?
      && EntityTable(IndexEntities(map[], failed.entities).value) != EntityTable(system.baseline.entities)
      && repeated.entities == failed.entities
      && IndexFlows(map[], repeated.flows) == Some(system.baseline.flows)
      && ValidRun(system, later) && (forall i :: 0 <= i < |later| ==> !Submits(later[i]))
    ensures var system := RunFrom(Start(maxPending), actions);
      var client := ClientOf(system, double);
      var (last, result) := Controllers.AfterCurrent(Controllers.AfterInitial(client, failed).0, maxPending, repeated);
      var final := RunFrom(system, later);
      && result == Some(Controllers.NoChange) && last.sender == client.sender
      && Controllers.Submitted(repeated).Some?
      && (final.sender.connected && Live(final) == [] ==>
          Holds(final.core.store, system.baseline) && !Holds(final.core.store, Controllers.Submitted(repeated).value))
  {
    hide ValidRun, RunFrom, EntityTable, FlowTable, Controllers.AfterCurrent, Live, Inv, Written;
    var system := RunFrom(Start(maxPending), actions);
    Controllers.FailedInitialLosesUpdate(ClientOf(system, double), maxPending, failed, repeated);
    StartInv(maxPending);
    RunKeepsInv(Start(maxPending), actions);
    RunKeepsInv(system, later);
    BaselineStays(system, later);
    ConvergedHolds(RunFrom(system, later));
  }
}
