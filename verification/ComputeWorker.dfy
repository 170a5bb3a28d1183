/** The compute worker and `process` as one system: each step is the code
    between two points where the event loop may switch tasks. */
module ComputeWorker {
  import opened Wrappers
  import opened StateStore
  import opened StoreIntegrity
  import opened BridgeService
  import opened Idempotency

  /** The worker waits for the event, runs a job, or has found the result
      current (against the revision `checked`) and is about to publish it. */
  datatype Phase =
    | Waiting
    | Computing(job: Job)
    | Publishing(job: Job, checked: nat)

  datatype Ack = Ack(revision: nat, coalesced: Option<nat>)

  /** A published revision and the state revision it was checked against. */
  datatype Publication = Publication(revision: nat, checked: nat)

  /** `accepting` is the job of a `process` that has changed the state and not
      yet queued. The last five fields only record the past. */
  datatype System = System(
    box: Mailbox, accepting: Option<Job>, phase: Phase,
    acks: seq<Ack>, replaced: nat, taken: nat, finished: nat, published: seq<Publication>)

  datatype Action =
    | Apply(job: Job)
    | Enqueue
    | Wake
    | Return(error: Option<string>)
    | Publish

  const START := System(Mailbox(0, None, false, 0, None), None, Waiting, [], 0, 0, 0, [])

  function Revision(job: Job): nat {
    job.snapshot.revision
  }

  predicate Enabled(system: System, action: Action) {
    match action
    case Apply(job) => system.accepting.None? && Revision(job) == system.box.revision + 1
    case Enqueue => system.accepting.Some?
    case Wake => system.phase.Waiting? && system.box.event
    case Return(_) => system.phase.Computing?
    case Publish => system.phase.Publishing?
  }

  function Next(system: System, action: Action): System
    requires Enabled(system, action)
  {
    match action
    case Apply(job) =>
      system.(box := system.box.(revision := Revision(job)), accepting := Some(job))
    case Enqueue =>
      var job := system.accepting.value;
      system.(box := Queued(system.box, job), accepting := None,
              acks := system.acks + [Ack(Revision(job), RevisionOf(system.box.pending))],
              replaced := system.replaced + if system.box.pending.Some? then 1 else 0)
    case Wake =>
      if system.box.pending.None? then system.(box := Taken(system.box))
      else
        system.(box := Taken(system.box), phase := Computing(system.box.pending.value), taken := system.taken + 1)
    case Return(error) =>
      var job := system.phase.job;
      var box := Computed(system.box, error);
      if error.Some? || Stale(box, job) then system.(box := box, phase := Waiting, finished := Revision(job))
      else system.(box := box, phase := Publishing(job, box.revision))
    case Publish =>
      var Publishing(job, checked) := system.phase;
      system.(box := Published(system.box, job), phase := Waiting, finished := Revision(job),
              published := system.published + [Publication(Revision(job), checked)])
  }

  ghost predicate ValidRun(system: System, actions: seq<Action>)
    decreases |actions|
  {
    actions != [] ==> Enabled(system, actions[0]) && ValidRun(Next(system, actions[0]), actions[1..])
  }

  function RunFrom(system: System, actions: seq<Action>): System
    requires ValidRun(system, actions)
    decreases |actions|
  {
    if actions == [] then system else RunFrom(Next(system, actions[0]), actions[1..])
  }

  // ----- The invariant -------------------------------------------------------------

  /** The newest revision handed to the mailbox so far. */
  function Handed(system: System): int {
    if system.accepting.Some? then system.box.revision - 1 else system.box.revision
  }

  predicate Busy(system: System) {
    !system.phase.Waiting?
  }

  /** Newest handed revision: in the mailbox; or, that being empty, with the
      worker or the last one it finished. */
  predicate NewestKept(system: System) {
    Handed(system) > 0 ==>
      if system.box.pending.Some? then Revision(system.box.pending.value) == Handed(system)
      else if Busy(system) then Revision(system.phase.job) == Handed(system)
      else system.finished == Handed(system)
  }

  predicate Ordered(system: System) {
    && (system.accepting.Some? ==> Revision(system.accepting.value) == system.box.revision > 0)
    && (system.box.pending.Some? ==> 0 < Revision(system.box.pending.value) <= Handed(system))
    && (system.box.pending.Some? <==> system.box.event)
    && system.finished <= Handed(system)
    && (Busy(system) ==> system.finished < Revision(system.phase.job) <= Handed(system))
    && (system.box.pending.Some? && Busy(system) ==> Revision(system.phase.job) < Revision(system.box.pending.value))
    && (system.box.pending.Some? ==> system.finished < Revision(system.box.pending.value))
  }

  /** A worker that has finished the newest revision without an error has
      published it. */
  predicate OutcomeKnown(system: System) {
    && (!Busy(system) && system.finished == system.box.revision && system.finished > 0 && system.box.lastError.None? ==>
          system.box.computedRevision == system.finished)
    && (system.phase.Publishing? ==> system.phase.checked == Revision(system.phase.job) && system.box.lastError.None?)
  }

  predicate PublishedOnce(system: System) {
    && (forall i :: 0 <= i < |system.published| ==> system.published[i].revision == system.published[i].checked)
    && (forall i, j :: 0 <= i < j < |system.published| ==> system.published[i].revision < system.published[j].revision)
    && (forall i :: 0 <= i < |system.published| ==> 0 < system.published[i].revision <= system.finished)
    && system.box.computedRevision
       == if system.published == [] then 0 else system.published[|system.published| - 1].revision
  }

  predicate Conserved(system: System) {
    && |system.acks| == Handed(system)
    && |system.acks| == system.replaced + system.taken + (if system.box.pending.Some? then 1 else 0)
    && (forall i :: 0 <= i < |system.acks| ==>
          && system.acks[i].revision == i + 1
          && (system.acks[i].coalesced.None? || system.acks[i].coalesced.value == i))
  }

  predicate Inv(system: System) {
    NewestKept(system) && Ordered(system) && OutcomeKnown(system) && PublishedOnce(system) && Conserved(system)
  }

  lemma StepKeepsOrdered(system: System, action: Action)
    requires NewestKept(system) && Ordered(system) && Enabled(system, action)
    ensures NewestKept(Next(system, action)) && Ordered(Next(system, action))
  {
  }

  lemma StepKeepsPublished(system: System, action: Action)
    requires Ordered(system) && OutcomeKnown(system) && PublishedOnce(system) && Enabled(system, action)
    ensures OutcomeKnown(Next(system, action)) && PublishedOnce(Next(system, action))
  {
  }

  lemma StepKeepsConserved(system: System, action: Action)
    requires NewestKept(system) && Ordered(system) && Conserved(system) && Enabled(system, action)
    ensures Conserved(Next(system, action))
  {
  }

  lemma StepKeepsInv(system: System, action: Action)
    requires Inv(system) && Enabled(system, action)
    ensures Inv(Next(system, action))
  {
    hide NewestKept, Ordered, OutcomeKnown, PublishedOnce, Conserved, Enabled, Next;
    StepKeepsOrdered(system, action);
    StepKeepsPublished(system, action);
    StepKeepsConserved(system, action);
  }

  lemma {:induction false} RunKeepsInv(system: System, actions: seq<Action>)
    requires Inv(system) && ValidRun(system, actions)
    ensures Inv(RunFrom(system, actions))
    decreases |actions|
  {
    hide Inv, Enabled, Next;
    if actions != [] {
      StepKeepsInv(system, actions[0]);
      RunKeepsInv(Next(system, actions[0]), actions[1..]);
    }
  }

  // ----- Results --------------------------------------------------------------------

  /** Coalescing never loses the newest state: outside `process`, the newest
      revision is the waiting job, or nothing waits and it is the job at hand
      or the last one finished. */
  lemma NewestNeverLost(actions: seq<Action>)
    requires ValidRun(START, actions)
    requires RunFrom(START, actions).accepting.None? && RunFrom(START, actions).box.revision > 0
    ensures var system := RunFrom(START, actions);
      || (system.box.pending.Some? && Revision(system.box.pending.value) == system.box.revision)
      || (system.box.pending.None? && Busy(system) && Revision(system.phase.job) == system.box.revision)
      || (system.box.pending.None? && !Busy(system) && system.finished == system.box.revision)
  {
    RunKeepsInv(START, actions);
  }

  /** A worker with nothing left to do and no error has computed and published
      the state's revision. */
  lemma QuiescentIsCurrent(actions: seq<Action>)
    requires ValidRun(START, actions)
    requires var system := RunFrom(START, actions);
      forall action :: Enabled(system, action) ==> action.Apply?
    ensures var system := RunFrom(START, actions);
      system.box.lastError.None? ==> system.box.computedRevision == system.box.revision
  {
    RunKeepsInv(START, actions);
    var system := RunFrom(START, actions);
    assert !Enabled(system, Enqueue) && !Enabled(system, Wake) && !Enabled(system, Return(None));
    assert !Enabled(system, Publish);
  }

  /** Each published revision was the state's revision when it was checked, and
      they strictly increase. */
  lemma PublicationsIncrease(actions: seq<Action>)
    requires ValidRun(START, actions)
    ensures var published := RunFrom(START, actions).published;
      && (forall i :: 0 <= i < |published| ==> 0 < published[i].revision == published[i].checked)
      && (forall i, j :: 0 <= i < j < |published| ==> published[i].revision < published[j].revision)
  {
    RunKeepsInv(START, actions);
  }

  /** Every accepted job is replaced, taken or still waiting, and an
      acknowledgement reports at most the revision just before its own. */
  lemma JobsConserved(actions: seq<Action>)
    requires ValidRun(START, actions)
    ensures var system := RunFrom(START, actions);
      && |system.acks| == system.replaced + system.taken + (if system.box.pending.Some? then 1 else 0)
      && system.box.revision == |system.acks| + (if system.accepting.Some? then 1 else 0)
      && forall i :: 0 <= i < |system.acks| ==>
           system.acks[i].coalesced.None? || system.acks[i].coalesced == Some(system.acks[i].revision - 1)
  {
    RunKeepsInv(START, actions);
  }

  /** Computations still to come if no message arrives: the one running, the
      one waiting, and the one `process` is about to queue. */
  function Remaining(system: System): nat {
    (if system.phase.Computing? then 1 else 0)
    + (if system.box.pending.Some? then 1 else 0)
    + (if system.accepting.Some? then 1 else 0)
  }

  function Returns(actions: seq<Action>): nat {
    if actions == [] then 0 else (if actions[0].Return? then 1 else 0) + Returns(actions[1..])
  }

  /** Without new messages at most `Remaining` computations end, so at most two
      once no `process` is underway. */
  lemma {:induction false} FewComputationsLeft(system: System, actions: seq<Action>)
    requires ValidRun(system, actions) && forall i :: 0 <= i < |actions| ==> !actions[i].Apply?
    ensures Returns(actions) <= Remaining(system)
    ensures system.accepting.None? ==> Returns(actions) <= 2
    decreases |actions|
  {
    if actions != [] {
      FewComputationsLeft(Next(system, actions[0]), actions[1..]);
    }
  }

  /** How many steps are left without new messages. */
  function StepsLeft(system: System): nat {
    (if system.accepting.Some? then 4 else 0) + (if system.box.pending.Some? then 3 else 0)
    + (match system.phase case Waiting => 0 case Computing(_) => 2 case Publishing(_, _) => 1)
  }

  lemma StepIsProgress(system: System, action: Action)
    requires Inv(system) && Enabled(system, action) && !action.Apply?
    ensures StepsLeft(Next(system, action)) < StepsLeft(system)
  {
    hide NewestKept, OutcomeKnown, PublishedOnce, Conserved;
  }

  /** From wherever a run has got to, without new messages the worker comes to rest
      after at most nine steps; at rest, nothing is left to do, and unless the last
      computation failed the state's revision has been computed. */
  lemma WorkerStops(actions: seq<Action>, more: seq<Action>)
    requires ValidRun(START, actions) && ValidRun(RunFrom(START, actions), more)
    requires forall i :: 0 <= i < |more| ==> !more[i].Apply?
    ensures |more| <= 9
    ensures var final := RunFrom(RunFrom(START, actions), more);
      (forall action :: Enabled(final, action) ==> action.Apply?) && final.box.lastError.None? ==>
        final.box.computedRevision == final.box.revision
  {
    hide Inv, Next, Enabled, RunFrom, ValidRun;
    RunKeepsInv(START, actions) by {
      StartInv();
    }
    var system := RunFrom(START, actions);
    StepsRunOut(system, more);
    RunConcat(START, actions, more);
    if forall action :: Enabled(RunFrom(system, more), action) ==> action.Apply? {
      QuiescentIsCurrent(actions + more);
    }
  }

  lemma StartInv()
    ensures Inv(START)
  {
  }

  lemma {:induction false} StepsRunOut(system: System, more: seq<Action>)
    requires Inv(system) && ValidRun(system, more) && forall i :: 0 <= i < |more| ==> !more[i].Apply?
    ensures |more| <= StepsLeft(system)
    decreases |more|
  {
    hide Inv, Next, Enabled, StepsLeft;
    if more != [] {
      StepKeepsInv(system, more[0]);
      StepIsProgress(system, more[0]);
      StepsRunOut(Next(system, more[0]), more[1..]);
    }
  }

  lemma {:induction false} RunConcat(system: System, actions: seq<Action>, more: seq<Action>)
    requires ValidRun(system, actions) && ValidRun(RunFrom(system, actions), more)
    ensures ValidRun(system, actions + more)
    ensures RunFrom(system, actions + more) == RunFrom(RunFrom(system, actions), more)
    decreases |actions|
  {
    hide Next, Enabled;
    if actions == [] {
      assert actions + more == more;
    } else {
      assert (actions + more)[0] == actions[0] && (actions + more)[1..] == actions[1..] + more;
      RunConcat(Next(system, actions[0]), actions[1..], more);
    }
  }

  /** The steps that other tasks may take inside `process`, between the change of
      the state and the queueing of its snapshot. */
  predicate OfOthers(action: Action) {
    !action.Apply? && !action.Enqueue?
  }

  lemma {:induction false} OthersKeepAccepting(system: System, between: seq<Action>)
    requires ValidRun(system, between) && forall i :: 0 <= i < |between| ==> OfOthers(between[i])
    ensures RunFrom(system, between).accepting == system.accepting
    ensures RunFrom(system, between).box.revision == system.box.revision
    ensures RunFrom(system, between).acks == system.acks
    decreases |between|
  {
    if between != [] {
      OthersKeepAccepting(Next(system, between[0]), between[1..]);
    }
  }

  /** `process` is the two steps of this system, with whatever the worker does in
      between: an accepted message changes the revision by one and queues its
      snapshot, and the acknowledgement carries the revision and the coalesced
      revision recorded here. */
  lemma ProcessIsTwoSteps(system: System, core: Core, input: Input, between: seq<Action>)
    requires Sound(core) && Accepts(core, input)
    requires system.accepting.None? && system.box.revision == core.store.revision
    requires forall i :: 0 <= i < |between| ==> OfOthers(between[i])
    ensures var (next, reply) := Accept(core, input.payload, input.coalesced);
      && Snapshot(next.store).Some?
      && var job := Job(reply.response.requestId, Snapshot(next.store).value);
      && Enabled(system, Apply(job))
      && (ValidRun(Next(system, Apply(job)), between) ==>
          var middle := RunFrom(Next(system, Apply(job)), between);
          && Enabled(middle, Enqueue) && middle.accepting == Some(job) && middle.box.revision == next.store.revision
          && middle.acks == system.acks
          && (input.coalesced == RevisionOf(middle.box.pending) ==>
              && Next(middle, Enqueue).box == Queued(middle.box, job)
              && Next(middle, Enqueue).acks
                 == system.acks + [Ack(reply.response.revision, reply.response.coalescedRevision)]))
  {
    AcceptStep(core, input);
    var (next, reply) := Accept(core, input.payload, input.coalesced);
    SnapshotSucceeds(next.store);
    AcceptedReply(core, input);
    hide Accept, Accepts, NewEntry, Consistent, Newest;
    var job := Job(reply.response.requestId, Snapshot(next.store).value);
    if ValidRun(Next(system, Apply(job)), between) {
      OthersKeepAccepting(Next(system, Apply(job)), between);
    }
  }

  lemma AcceptedReply(core: Core, input: Input)
    requires Accepts(core, input)
    ensures var (next, reply) := Accept(core, input.payload, input.coalesced);
      reply.response.revision == next.store.revision && reply.response.coalescedRevision == input.coalesced
  {
    hide Lookup, Remember, Snapshot;
  }
}
