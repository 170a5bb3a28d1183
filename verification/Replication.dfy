/** Replication of the client's state to the service over a link that breaks:
    tracker, queue, bytes in transit and the service's acceptance as one system
    of atomic steps. */
module Replication {
  import opened Wrappers
  import opened Text
  import opened Json
  import opened Models
  import opened StateStore
  import opened StoreIntegrity
  import opened Protocol
  import opened StateDeltaTracker
  import opened DiffPatch
  import opened TcpJsonlClient
  import opened BridgeService
  import opened Idempotency

  datatype Message =
    | Full(id: string, timestampMs: nat, entities: seq<EntityState>, flows: seq<FlowConfig>)
    | Change(id: string, timestampMs: nat, delta: DeltaState)

  function PayloadOf(message: Message): Dict {
    match message
    case Full(id, timestamp, entities, flows) => InitPayload(id, timestamp, entities, flows)
    case Change(id, timestamp, delta) => DeltaPayload(id, timestamp, delta)
  }

  /** The client (tracker and queue), the bytes in transit, and the service.
      `last`, `used`, `connection` and `sent` only record the past. */
  datatype System = System(
    baseline: Baseline, initialized: bool, maxPending: nat, sender: Sender<Message>,
    transit: seq<Message>, core: Core,
    last: nat, used: set<string>, connection: nat, sent: seq<Sending>)

  datatype Sending = Sending(connection: nat, message: Message)

  datatype Action =
    | Submit(requestId: string, timestampMs: nat, entities: seq<EntityState>, flows: seq<FlowConfig>)
    | SubmitInitial(requestId: string, timestampMs: nat, entities: seq<EntityState>, flows: seq<FlowConfig>)
    | Connect
    | Take
    | Finish(sent: bool, arrived: bool)
    | Disconnect
    | Deliver(coalesced: Option<nat>)

  function Start(maxPending: nat): System {
    System(
      Baseline(map[], map[]), false, maxPending, Sender([], None, None, false), [], Core(EMPTY_STORE, []), 0, {}, 0, [])
  }

  ghost predicate Submittable(
    system: System, requestId: string, timestampMs: nat, entities: seq<EntityState>, flows: seq<FlowConfig>)
  {
    && Trimmed(requestId) && requestId !in system.used && requestId + RESYNC_SUFFIX !in system.used
    && system.last <= timestampMs
    && StateOf(entities, flows).Some? && Proper(StateOf(entities, flows).value)
  }

  ghost predicate Enabled(system: System, action: Action) {
    match action
    case Submit(requestId, timestamp, entities, flows) => Submittable(system, requestId, timestamp, entities, flows)
    case SubmitInitial(requestId, timestamp, entities, flows) =>
      Submittable(system, requestId, timestamp, entities, flows)
    case Connect => !system.sender.connected
    case Take => system.sender.connected && system.sender.current.None? && system.sender.pending != []
    case Finish(_, _) => system.sender.connected && system.sender.current.Some?
    case Disconnect => system.sender.connected
    case Deliver(_) => system.transit != []
  }

  /** `SubmitInitial`: the tracker is reset and the queue replaced. */
  function InitialSubmitted(system: System, full: Message, state: Baseline): System {
    system.(baseline := state, initialized := true, sender := InitialQueued(system.sender, full),
            last := full.timestampMs, used := system.used + {full.id})
  }

  /** `SubmitCurrentState`: nothing is sent without a change. */
  function CurrentSubmitted(system: System, change: Message, full: Message, state: Baseline): System {
    if system.baseline == state then system.(last := change.timestampMs)
    else
      system.(baseline := state, sender := DeltaQueued(system.sender, system.maxPending, change, full),
              last := change.timestampMs, used := system.used + {change.id, full.id})
  }

  /** A failed `SendAll` may still have handed over everything but the final
      newline, and the service reads an unterminated last line. */
  function Next(system: System, action: Action): System
    requires Enabled(system, action)
  {
    match action
    case Submit(requestId, timestamp, entities, flows) =>
      var state := StateOf(entities, flows).value;
      if !system.initialized then InitialSubmitted(system, Full(requestId, timestamp, entities, flows), state)
      else
        CurrentSubmitted(system, Change(requestId, timestamp, Diff(system.baseline, state)),
                         Full(requestId + RESYNC_SUFFIX, timestamp, entities, flows), state)
    case SubmitInitial(requestId, timestamp, entities, flows) =>
      InitialSubmitted(system, Full(requestId, timestamp, entities, flows), StateOf(entities, flows).value)
    case Connect =>
      system.(sender := Connected(system.sender), transit := [], connection := system.connection + 1)
    case Take =>
      system.(sender := NextTaken(system.sender))
    case Finish(sent, arrived) =>
      var message := system.sender.current.value;
      system.(sender := if sent then CurrentSent(system.sender) else SendFailed(system.sender),
              transit := if sent || arrived then system.transit + [message] else system.transit,
              sent := system.sent + [Sending(system.connection, message)])
    case Disconnect =>
      system.(sender := Disconnected(system.sender))
    case Deliver(coalesced) =>
      system.(
        core := Accept(system.core, Obj(PayloadOf(system.transit[0])), coalesced).0,
        transit := system.transit[1..])
  }

  ghost predicate ValidRun(system: System, actions: seq<Action>)
    decreases |actions|
  {
    actions != [] ==> Enabled(system, actions[0]) && ValidRun(Next(system, actions[0]), actions[1..])
  }

  function RunFrom(system: System, actions: seq<Action>): System
    requires ValidRun(system, actions)
    decreases |actions|
  {
    if actions == [] then system else RunFrom(Next(system, actions[0]), actions[1..])
  }

  // ----- One message at the service ---------------------------------------------

  ghost function CacheIds(core: Core): set<string> {
    set i | 0 <= i < |core.cache| :: core.cache[i].id
  }

  /** What is known of every message that is around: its id has been used and
      its time is not in the future. */
  ghost predicate Known(message: Message, last: nat, used: set<string>) {
    Trimmed(message.id) && message.timestampMs <= last && message.id in used
  }

  ghost predicate CoreKnown(core: Core, last: nat, used: set<string>) {
    Sound(core) && core.store.timestampMs <= last && CacheIds(core) <= used
  }

  lemma EnvelopeMembers(message: Message)
    ensures var d := PayloadOf(message);
      && Get(d, Name.ProtocolVersion) == Str(PROTOCOL_VERSION)
      && Get(d, Name.MessageType) == Str(if message.Full? then INIT else DELTA)
      && Get(d, Name.RequestId) == Str(message.id)
      && Get(d, Name.TimestampMs) == Int(message.timestampMs)
  {
    hide EntityObjects, FlowObjects, Strings;
  }

  lemma EnvelopeOf(message: Message)
    requires Trimmed(message.id)
    ensures ValidateEnvelope(Obj(PayloadOf(message)))
         == Ok(Envelope(if message.Full? then INIT else DELTA, message.id, message.timestampMs))
  {
    EnvelopeMembers(message);
    FixedWords();
    hide PayloadOf, Strip;
  }

  lemma FixedWords()
    ensures Strip(INIT) == INIT && Strip(DELTA) == DELTA
  {
    assert !IsSpace(INIT[0]) && !IsSpace(INIT[|INIT| - 1]) && StripLeft(INIT) == INIT && StripRight(INIT) == INIT;
    assert !IsSpace(DELTA[0]) && !IsSpace(DELTA[|DELTA| - 1]) && StripLeft(DELTA) == DELTA;
    assert StripRight(DELTA) == DELTA;
  }

  lemma CacheIdsMention(core: Core, id: string)
    ensures id in CacheIds(core) <==> Mentions(core.cache, id)
  {
  }

  /** A message with a remembered id changes nothing. */
  lemma AcceptRemembered(core: Core, message: Message, coalesced: Option<nat>)
    requires Trimmed(message.id) && message.id in CacheIds(core)
    ensures Accept(core, Obj(PayloadOf(message)), coalesced).0 == core
  {
    hide PayloadOf, ValidateEnvelope, Lookup, Apply, Strip;
    EnvelopeOf(message);
    CacheIdsMention(core, message.id);
    LookupNone(core.cache, message.id);
  }

  ghost function AppliedTo(store: Store, message: Message): Option<Store> {
    if message.Full? then Initialize(store, PayloadOf(message), message.timestampMs)
    else ApplyDelta(store, PayloadOf(message), message.timestampMs)
  }

  lemma AcceptUnknown(core: Core, message: Message, coalesced: Option<nat>) returns (entry: Entry)
    requires Sound(core) && Trimmed(message.id) && message.id !in CacheIds(core)
    ensures entry.id == message.id && entry.digest == PayloadOf(message)
    ensures var applied := AppliedTo(core.store, message);
      Accept(core, Obj(PayloadOf(message)), coalesced).0
      == if applied.None? then core else Core(applied.value, Newest(core.cache + [entry]))
    ensures AppliedTo(core.store, message).Some? ==>
      AppliedTo(core.store, message).value.timestampMs == message.timestampMs
  {
    hide PayloadOf, ValidateEnvelope, Lookup, Initialize, ApplyDelta, Snapshot, Trimmed, Consistent, Remember,
      Distinct, Mentions;
    EnvelopeOf(message);
    CacheIdsMention(core, message.id);
    LookupNone(core.cache, message.id);
    var envelope := ValidateEnvelope(Obj(PayloadOf(message))).value;
    var applied := Apply(core.store, envelope, PayloadOf(message));
    var revision := if applied.Some? then applied.value.revision else 0;
    entry := Entry(message.id, PayloadOf(message), AcceptedResponse(envelope, revision, coalesced));
    if applied.Some? {
      ApplyKeepsConsistent(core.store, envelope, PayloadOf(message));
      AppliedTime(core.store, envelope, PayloadOf(message));
      RememberNew(core.cache, entry);
    }
  }

  lemma NewestMembers(cache: seq<Entry>, entry: Entry)
    ensures var newest := Newest(cache + [entry]);
      && newest != [] && newest[|newest| - 1] == entry
      && forall i :: 0 <= i < |newest| ==> newest[i] in cache || newest[i] == entry
  {
  }

  /** Another one is applied if the store takes it, and is then remembered. */
  lemma AcceptNew(core: Core, message: Message, coalesced: Option<nat>)
    requires Sound(core) && Trimmed(message.id) && message.id !in CacheIds(core)
    ensures var next := Accept(core, Obj(PayloadOf(message)), coalesced).0;
      var applied := AppliedTo(core.store, message);
      && (applied.None? ==> next == core)
      && (applied.Some? ==>
            && next.store == applied.value && next.store.timestampMs == message.timestampMs
            && next.cache != [] && next.cache[|next.cache| - 1].id == message.id
            && CacheIds(next) <= CacheIds(core) + {message.id}
            && (forall i :: 0 <= i < |next.cache| ==>
                  next.cache[i] in core.cache
                  || (next.cache[i].id == message.id && next.cache[i].digest == PayloadOf(message))))
  {
    hide PayloadOf, Accept, AppliedTo, Newest, Trimmed, Sound;
    var entry := AcceptUnknown(core, message, coalesced);
    NewestMembers(core.cache, entry);
  }

  lemma AppliedTime(store: Store, envelope: Envelope, payload: Dict)
    requires Apply(store, envelope, payload).Some?
    ensures Apply(store, envelope, payload).value.timestampMs == envelope.timestampMs
  {
    hide IndexFrom, Patch, ReferencesResolve;
  }

  lemma AcceptRemembersAs(core: Core, message: Message, coalesced: Option<nat>, newest: Message)
    requires Sound(core) && Trimmed(message.id) && RememberedAs(core, newest)
    requires message.id == newest.id ==> message == newest
    ensures RememberedAs(Accept(core, Obj(PayloadOf(message)), coalesced).0, newest)
  {
    hide Accept, PayloadOf, AppliedTo, Strip, Sound, CacheIds, Accepts, NewEntry;
    if message.id in CacheIds(core) {
      AcceptRemembered(core, message, coalesced);
    } else {
      AcceptNew(core, message, coalesced);
    }
  }

  /** Any message leaves the service in a known state. */
  lemma AcceptKnown(core: Core, message: Message, coalesced: Option<nat>, last: nat, used: set<string>)
    requires CoreKnown(core, last, used) && Known(message, last, used)
    ensures var next := Accept(core, Obj(PayloadOf(message)), coalesced).0;
      CoreKnown(next, last, used) && CacheIds(next) <= CacheIds(core) + {message.id}
  {
    AcceptStep(core, Input(Obj(PayloadOf(message)), coalesced));
    hide Accept, PayloadOf, AppliedTo, Strip, Sound, CacheIds, Accepts, NewEntry;
    if message.id in CacheIds(core) {
      AcceptRemembered(core, message, coalesced);
    } else {
      AcceptNew(core, message, coalesced);
    }
  }

  ghost predicate Describes(message: Message, state: Baseline) {
    message.Full? && StateOf(message.entities, message.flows) == Some(state) && Proper(state)
  }

  lemma AcceptFull(core: Core, message: Message, coalesced: Option<nat>, state: Baseline)
    requires Sound(core) && Trimmed(message.id) && message.id !in CacheIds(core) && Describes(message, state)
    ensures Holds(Accept(core, Obj(PayloadOf(message)), coalesced).0.store, state)
  {
    AcceptNew(core, message, coalesced);
    InitApplies(core.store, message.entities, message.flows, message.id, message.timestampMs);
    hide Accept, InitPayload, Initialize, ApplyDelta, StateOf, Proper, CacheIds, Sound, Strip;
  }

  lemma AcceptChange(core: Core, message: Message, coalesced: Option<nat>, before: Baseline, after: Baseline)
    requires Sound(core) && Trimmed(message.id) && message.id !in CacheIds(core)
    requires message.Change? && message.delta == Diff(before, after)
    requires Holds(core.store, before) && Proper(before) && Proper(after)
    requires core.store.timestampMs <= message.timestampMs
    ensures Holds(Accept(core, Obj(PayloadOf(message)), coalesced).0.store, after)
  {
    AcceptNew(core, message, coalesced);
    DeltaAppliesTwice(core.store, before, after, message.id, message.timestampMs);
    hide Accept, DeltaPayload, Initialize, ApplyDelta, Diff, Proper, CacheIds, Sound, Strip;
  }

  // ----- What the outstanding messages will do ------------------------------------

  /** Whatever the service replies, delivering `messages` in order to `core`
      ends with the service holding `target`. */
  ghost predicate Converges(core: Core, messages: seq<Message>, target: Baseline, last: nat, used: set<string>)
    decreases |messages|
  {
    if messages == [] then Holds(core.store, target) && CoreKnown(core, last, used)
    else
      forall coalesced: Option<nat> ::
        Converges(Accept(core, Obj(PayloadOf(messages[0])), coalesced).0, messages[1..], target, last, used)
  }

  lemma {:induction false} ConvergesLater(
    core: Core, messages: seq<Message>, target: Baseline, last: nat, used: set<string>, last': nat, used': set<string>)
    requires Converges(core, messages, target, last, used) && last <= last' && used <= used'
    ensures Converges(core, messages, target, last', used')
    decreases |messages|
  {
    hide Accept, PayloadOf, Holds, Sound, CacheIds;
    if messages != [] {
      forall coalesced: Option<nat>
        ensures Converges(Accept(core, Obj(PayloadOf(messages[0])), coalesced).0, messages[1..], target, last', used')
      {
        var core' := Accept(core, Obj(PayloadOf(messages[0])), coalesced).0;
        ConvergesLater(core', messages[1..], target, last, used, last', used');
      }
    }
  }

  /** One more change at the end brings the service from the old state to the new. */
  lemma {:induction false} ConvergesAfterChange(
    core: Core, messages: seq<Message>, change: Message, before: Baseline, after: Baseline,
    last: nat, used: set<string>, used': set<string>)
    requires Converges(core, messages, before, last, used)
    requires change.Change? && change.delta == Diff(before, after) && Proper(before) && Proper(after)
    requires last <= change.timestampMs && change.id !in used && Trimmed(change.id)
    requires used + {change.id} <= used'
    ensures Converges(core, messages + [change], after, change.timestampMs, used')
    decreases |messages|
  {
    hide Accept, PayloadOf, Holds, Sound, CacheIds, Diff, Proper, Strip;
    var all := messages + [change];
    forall coalesced: Option<nat>
      ensures Converges(Accept(core, Obj(PayloadOf(all[0])), coalesced).0, all[1..], after, change.timestampMs, used')
    {
      var next := Accept(core, Obj(PayloadOf(all[0])), coalesced).0;
      if messages == [] {
        assert change.id !in CacheIds(core);
        AcceptChange(core, change, coalesced, before, after);
        AcceptKnown(core, change, coalesced, change.timestampMs, used');
        assert all[1..] == [];
      } else {
        ConvergesAfterChange(next, messages[1..], change, before, after, last, used, used');
        assert all[1..] == messages[1..] + [change];
      }
    }
  }

  /** A new full snapshot at the end decides everything. */
  lemma {:induction false} ConvergesAfterFull(
    core: Core, messages: seq<Message>, full: Message, state: Baseline, last: nat, used: set<string>,
    used': set<string>)
    requires CoreKnown(core, last, used) && forall i :: 0 <= i < |messages| ==> Known(messages[i], last, used)
    requires Describes(full, state) && last <= full.timestampMs && full.id !in used && Trimmed(full.id)
    requires used + {full.id} <= used'
    ensures Converges(core, messages + [full], state, full.timestampMs, used')
    decreases |messages|
  {
    hide Accept, PayloadOf, Holds, Sound, CacheIds, Describes, Strip;
    var all := messages + [full];
    forall coalesced: Option<nat>
      ensures Converges(Accept(core, Obj(PayloadOf(all[0])), coalesced).0, all[1..], state, full.timestampMs, used')
    {
      var next := Accept(core, Obj(PayloadOf(all[0])), coalesced).0;
      if messages == [] {
        assert full.id !in CacheIds(core);
        AcceptFull(core, full, coalesced, state);
        AcceptKnown(core, full, coalesced, full.timestampMs, used');
        assert all[1..] == [];
      } else {
        AcceptKnown(core, messages[0], coalesced, last, used);
        ConvergesAfterFull(next, messages[1..], full, state, last, used, used');
        assert all[1..] == messages[1..] + [full];
      }
    }
  }

  // ----- The invariant ---------------------------------------------------------

  function CurrentLine(sender: Sender<Message>): seq<Message> {
    if sender.current.Some? then [sender.current.value] else []
  }

  /** The messages that can still reach the service: while connected, those in
      transit, the one being sent and the queue; otherwise those in transit. */
  function Live(system: System): seq<Message> {
    if system.sender.connected then system.transit + CurrentLine(system.sender) + system.sender.pending
    else system.transit
  }

  /** Once the newest snapshot has been applied or comes up in the order of
      delivery, nothing but it follows. */
  ghost predicate NewestLast(core: Core, live: seq<Message>, newest: Message) {
    && (forall i :: 0 <= i < |live| && live[i].id == newest.id ==> live[i] == newest)
    && (forall i, j :: 0 <= i < j < |live| && live[i] == newest ==> live[j] == newest)
    && (newest.id in CacheIds(core) ==> forall i :: 0 <= i < |live| ==> live[i] == newest)
  }

  ghost predicate AllKnown(messages: seq<Message>, last: nat, used: set<string>) {
    forall i :: 0 <= i < |messages| ==> Known(messages[i], last, used)
  }

  /** What is remembered under the id of the newest snapshot is that snapshot. */
  ghost predicate RememberedAs(core: Core, newest: Message) {
    forall i :: 0 <= i < |core.cache| && core.cache[i].id == newest.id ==> core.cache[i].digest == PayloadOf(newest)
  }

  /** Deduplication never blocks recovery: the newest snapshot is remembered
      only while the service holds exactly its state. */
  ghost predicate RecoverySound(system: System) {
    system.sender.resync.Some? ==>
      var newest := system.sender.resync.value;
      && Describes(newest, system.baseline) && Known(newest, system.last, system.used)
      && NewestLast(system.core, Live(system), newest)
      && RememberedAs(system.core, newest)
      && (newest.id in CacheIds(system.core) ==> Holds(system.core.store, system.baseline))
  }

  ghost predicate InStep(system: System) {
    system.sender.connected && system.sender.resync.Some? ==>
      Converges(system.core, Live(system), system.baseline, system.last, system.used)
  }

  ghost predicate Idle(system: System) {
    system.sender.resync.None? ==> system.sender.pending == [] && system.sender.current.None? && system.transit == []
  }

  ghost predicate Inv(system: System) {
    && CoreKnown(system.core, system.last, system.used)
    && AllKnown(Live(system), system.last, system.used)
    && (system.initialized <==> system.sender.resync.Some?)
    && (system.sender.current.Some? ==> system.sender.connected)
    && Idle(system)
    && RecoverySound(system)
    && InStep(system)
  }

  lemma StartInv(maxPending: nat)
    ensures Inv(Start(maxPending))
  {
  }

  /** A fresh full snapshot replaces the queue: first submission, explicit
      reset and overflow alike. */
  lemma FullKeepsInv(system: System, full: Message, state: Baseline, used': set<string>)
    requires Inv(system) && Describes(full, state) && Trimmed(full.id)
    requires system.last <= full.timestampMs && full.id !in system.used && system.used + {full.id} <= used'
    ensures Inv(system.(baseline := state, initialized := true, sender := InitialQueued(system.sender, full),
                        last := full.timestampMs, used := used'))
  {
    hide Converges, Sound, Describes, Holds, Strip, PayloadOf;
    var next := system.(baseline := state, initialized := true, sender := InitialQueued(system.sender, full),
                        last := full.timestampMs, used := used');
    assert full.id !in CacheIds(system.core);
    forall i | 0 <= i < |system.core.cache| ensures system.core.cache[i].id != full.id {
      assert system.core.cache[i].id in CacheIds(system.core);
    }
    if system.sender.connected {
      var ahead := system.transit + CurrentLine(system.sender);
      assert forall i :: 0 <= i < |ahead| ==> ahead[i] == Live(system)[i];
      assert Live(next) == ahead + [full];
      ConvergesAfterFull(system.core, ahead, full, state, system.last, system.used, used');
    }
  }

  lemma AllKnownGrows(
    messages: seq<Message>, message: Message, last: nat, used: set<string>, last': nat, used': set<string>)
    requires AllKnown(messages, last, used) && last <= last' && used <= used' && Known(message, last', used')
    ensures AllKnown(messages, last', used') && AllKnown(messages + [message], last', used')
  {
    hide Trimmed;
    forall i | 0 <= i < |messages| ensures Known(messages[i], last', used') {
      assert Known(messages[i], last, used);
    }
  }

  lemma ChangeKeepsInv(system: System, change: Message, full: Message, state: Baseline)
    requires Inv(system) && system.initialized
    requires Describes(full, state) && change.Change? && change.delta == Diff(system.baseline, state)
    requires Trimmed(full.id) && Trimmed(change.id) && full.id != change.id
    requires system.last <= full.timestampMs == change.timestampMs
    requires full.id !in system.used && change.id !in system.used
    ensures Inv(system.(baseline := state,
                        sender := system.sender.(resync := Some(full), pending := system.sender.pending + [change]),
                        last := change.timestampMs, used := system.used + {change.id, full.id}))
  {
    assert Proper(system.baseline) && Proper(state);
    var used' := system.used + {change.id, full.id};
    assert Known(full, change.timestampMs, used') && Known(change, change.timestampMs, used');
    assert CoreKnown(system.core, change.timestampMs, used');
    hide Converges, Sound, Describes, Holds, Trimmed, Diff, Proper, CacheIds, NewestLast, RememberedAs, Live,
      AllKnown, PayloadOf, CurrentLine, Known, CoreKnown;
    var next := system.(baseline := state,
                        sender := system.sender.(resync := Some(full), pending := system.sender.pending + [change]),
                        last := change.timestampMs, used := used');
    var live := Live(system);
    LiveAfterChange(system, next, change);
    AllKnownGrows(live, change, system.last, system.used, next.last, used');
    UnknownIsNotLast(system.core, live, full, system.last, system.used, change);
    if system.sender.connected {
      ConvergesAfterChange(system.core, live, change, system.baseline, state, system.last, system.used, used');
    }
  }

  lemma LiveAfterChange(system: System, next: System, change: Message)
    requires next.transit == system.transit
    requires next.sender == system.sender.(resync := next.sender.resync, pending := system.sender.pending + [change])
    ensures Live(next) == if system.sender.connected then Live(system) + [change] else Live(system)
  {
  }

  /** A snapshot with a fresh id is neither remembered nor underway. */
  lemma UnknownIsNotLast(
    core: Core, live: seq<Message>, full: Message, last: nat, used: set<string>, change: Message)
    requires CoreKnown(core, last, used) && full.id !in used && full.id != change.id
    requires AllKnown(live, last, used)
    ensures NewestLast(core, live, full) && NewestLast(core, live + [change], full)
    ensures RememberedAs(core, full) && full.id !in CacheIds(core)
  {
    hide Sound, Trimmed, PayloadOf;
    assert full.id !in CacheIds(core);
    forall i | 0 <= i < |live| ensures live[i].id != full.id {
      assert Known(live[i], last, used);
    }
    forall i | 0 <= i < |core.cache| ensures core.cache[i].id != full.id {
      assert core.cache[i].id in CacheIds(core);
    }
  }

  lemma SuffixTrimmed(requestId: string)
    requires Trimmed(requestId)
    ensures Trimmed(requestId + RESYNC_SUFFIX) && requestId + RESYNC_SUFFIX != requestId
  {
    StripIdempotent(requestId);
    var id := requestId + RESYNC_SUFFIX;
    assert !IsSpace(id[0]) && id[|id| - 1] == 'c';
    assert StripLeft(id) == id && StripRight(id) == id;
  }

  lemma SubmitKeepsInv(system: System, action: Action)
    requires Inv(system) && Enabled(system, action) && (action.Submit? || action.SubmitInitial?)
    ensures Inv(Next(system, action))
  {
    hide Inv, Proper, StateOf, Diff, Trimmed;
    var state := StateOf(action.entities, action.flows).value;
    var change := Change(action.requestId, action.timestampMs, Diff(system.baseline, state));
    var resync := Full(action.requestId + RESYNC_SUFFIX, action.timestampMs, action.entities, action.flows);
    SuffixTrimmed(action.requestId);
    if action.SubmitInitial? || !system.initialized {
      FullKeepsInv(system, Full(action.requestId, action.timestampMs, action.entities, action.flows), state,
                   system.used + {action.requestId});
    } else if system.baseline == state {
      TimePasses(system, action.timestampMs);
    } else if Overflows(system.sender, system.maxPending) {
      FullKeepsInv(system, resync, state, system.used + {change.id, resync.id});
    } else {
      ChangeKeepsInv(system, change, resync, state);
    }
  }

  lemma TimePasses(system: System, last: nat)
    requires Inv(system) && system.last <= last
    ensures Inv(system.(last := last))
  {
    hide Converges, Sound, Describes, Holds, Strip, CacheIds, NewestLast, RememberedAs;
    var next := system.(last := last);
    assert Live(next) == Live(system);
    if system.sender.connected && system.sender.resync.Some? {
      ConvergesLater(system.core, Live(system), system.baseline, system.last, system.used, last, system.used);
    }
  }

  /** On a new connection the newest snapshot is sent again; if the service
      still remembers it, it already holds its state. */
  lemma ConnectKeepsInv(system: System)
    requires Inv(system) && !system.sender.connected
    ensures Inv(Next(system, Connect))
  {
    hide Sound, Describes, Holds, Strip, CacheIds, Accept, RememberedAs, PayloadOf;
    var next := Next(system, Connect);
    if system.sender.resync.Some? {
      var newest := system.sender.resync.value;
      assert Live(next) == [newest];
      forall coalesced: Option<nat>
        ensures Converges(Accept(system.core, Obj(PayloadOf(newest)), coalesced).0, [newest][1..],
                          system.baseline, system.last, system.used)
      {
        AcceptKnown(system.core, newest, coalesced, system.last, system.used);
        if newest.id in CacheIds(system.core) {
          AcceptRemembered(system.core, newest, coalesced);
        } else {
          AcceptFull(system.core, newest, coalesced, system.baseline);
        }
      }
    } else {
      assert Live(next) == [];
    }
  }

  lemma DeliverKeepsInv(system: System, coalesced: Option<nat>)
    requires Inv(system) && system.transit != []
    ensures Inv(Next(system, Deliver(coalesced)))
  {
    hide Sound, Describes, Holds, Strip, Accept, PayloadOf, RememberedAs;
    var next := Next(system, Deliver(coalesced));
    var message, live := system.transit[0], Live(system);
    var newest := system.sender.resync.value;
    assert live[0] == message && Live(next) == live[1..];
    assert Known(message, system.last, system.used);
    AcceptKnown(system.core, message, coalesced, system.last, system.used);
    AcceptRemembersAs(system.core, message, coalesced, newest);
    if newest.id in CacheIds(next.core) {
      if newest.id in CacheIds(system.core) {
        assert message == newest;
        AcceptRemembered(system.core, message, coalesced);
      } else {
        assert message.id == newest.id;
        assert message == newest;
        AcceptFull(system.core, message, coalesced, system.baseline);
      }
    }
  }

  lemma LineKeepsInv(system: System, action: Action)
    requires Inv(system) && Enabled(system, action) && (action.Take? || action.Finish? || action.Disconnect?)
    ensures Inv(Next(system, action))
  {
    hide Sound, Describes, Holds, Strip, Converges, CacheIds, Known, RememberedAs, PayloadOf;
    var next := Next(system, action);
    var live, live' := Live(system), Live(next);
    if action.Take? || (action.Finish? && action.sent) {
      assert live' == live;
    } else {
      assert live' == live[..|live'|];
    }
  }

  lemma StepKeepsInv(system: System, action: Action)
    requires Inv(system) && Enabled(system, action)
    ensures Inv(Next(system, action))
  {
    hide Inv;
    match action {
      case Submit(_, _, _, _) => SubmitKeepsInv(system, action);
      case SubmitInitial(_, _, _, _) => SubmitKeepsInv(system, action);
      case Connect => ConnectKeepsInv(system);
      case Take => LineKeepsInv(system, action);
      case Finish(_, _) => LineKeepsInv(system, action);
      case Disconnect => LineKeepsInv(system, action);
      case Deliver(coalesced) => DeliverKeepsInv(system, coalesced);
    }
  }

  /** Time and used ids only grow. */
  lemma StepMovesOn(system: System, action: Action)
    requires Enabled(system, action)
    ensures system.last <= Next(system, action).last && system.used <= Next(system, action).used
  {
    hide Accept, PayloadOf, Diff, StateOf, Proper;
  }

  /** Every run of the whole system keeps the invariant. */
  lemma {:induction false} RunKeepsInv(system: System, actions: seq<Action>)
    requires Inv(system) && ValidRun(system, actions)
    ensures Inv(RunFrom(system, actions))
    ensures system.last <= RunFrom(system, actions).last && system.used <= RunFrom(system, actions).used
    decreases |actions|
  {
    hide Inv, Enabled, Next;
    if actions != [] {
      StepMovesOn(system, actions[0]);
      StepKeepsInv(system, actions[0]);
      RunKeepsInv(Next(system, actions[0]), actions[1..]);
    }
  }
}
