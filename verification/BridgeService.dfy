/** Acceptance of messages (`BridgeService.process` and its idempotency cache).
    `Core` is the part of the service that only `process` changes; the mailbox
    of the compute worker is the `pending` job. The digest of a message is the
    message itself. */
module BridgeService {
  import opened Wrappers
  import opened Json
  import opened Models
  import opened StateStore

  datatype Response = Response(
    requestId: string, timestampMs: int, revision: nat, coalescedRevision: Option<nat>, duplicate: bool)

  datatype Reply = Acknowledged(response: Response) | Refused(code: nat) | LatestMetrics

  datatype Entry = Entry(id: string, digest: Dict, response: Response)

  datatype Core = Core(store: Store, cache: seq<Entry>)

  datatype Job = Job(requestId: string, snapshot: StateSnapshot)

  /** What the compute worker and `process` share: the state revision, the
      mailbox for one job with its event, and the outcome of the last job. */
  datatype Mailbox = Mailbox(
    revision: nat, pending: Option<Job>, event: bool, computedRevision: nat, lastError: Option<string>)

  function RevisionOf(pending: Option<Job>): Option<nat> {
    if pending.Some? then Some(pending.value.snapshot.revision) else None
  }

  /** `_queue`: the new job replaces the one that is waiting. */
  function Queued(box: Mailbox, job: Job): Mailbox {
    box.(pending := Some(job), event := true)
  }

  function Taken(box: Mailbox): Mailbox {
    box.(pending := None, event := false)
  }

  function Computed(box: Mailbox, error: Option<string>): Mailbox {
    box.(lastError := error)
  }

  /** The result of an old revision is not published. */
  predicate Stale(box: Mailbox, job: Job) {
    job.snapshot.revision < box.revision
  }

  function Published(box: Mailbox, job: Job): Mailbox {
    box.(computedRevision := job.snapshot.revision)
  }

  const CACHE_SIZE: nat := 1000

  /** `OrderedDict.get`. */
  function Lookup(cache: seq<Entry>, id: string): Option<Entry> {
    if cache == [] then None
    else if cache[0].id == id then Some(cache[0])
    else Lookup(cache[1..], id)
  }

  /** The newest entries, at most `CACHE_SIZE` of them. */
  function Newest(entries: seq<Entry>): seq<Entry> {
    if |entries| <= CACHE_SIZE then entries else entries[|entries| - CACHE_SIZE..]
  }

  function Without(cache: seq<Entry>, id: string): seq<Entry> {
    if cache == [] then []
    else (if cache[0].id == id then [] else [cache[0]]) + Without(cache[1..], id)
  }

  /** `_remember_request`: stored, moved to the end, the oldest dropped. */
  function Remember(cache: seq<Entry>, entry: Entry): seq<Entry> {
    Newest(Without(cache, entry.id) + [entry])
  }

  function Apply(store: Store, envelope: Envelope, payload: Dict): Option<Store> {
    if envelope.messageType == INIT then Initialize(store, payload, envelope.timestampMs)
    else ApplyDelta(store, payload, envelope.timestampMs)
  }

  function AcceptedResponse(envelope: Envelope, revision: nat, coalesced: Option<nat>): Response {
    Response(envelope.requestId, envelope.timestampMs, revision, coalesced, false)
  }

  /** One message; `coalesced` is the revision that queueing the new job
      replaces, if any. */
  function Accept(core: Core, payload: Json, coalesced: Option<nat>): (Core, Reply) {
    match ValidateEnvelope(payload)
    case Error(code) => (core, Refused(code))
    case Ok(envelope) =>
      if envelope.messageType == QUERY then (core, LatestMetrics)
      else
        match Lookup(core.cache, envelope.requestId)
        case Some(entry) =>
          (core,
           if entry.digest == payload.fields then Acknowledged(entry.response.(duplicate := true)) else Refused(1004))
        case None =>
          match Apply(core.store, envelope, payload.fields)
          case None => (core, Refused(1002))
          case Some(store) =>
            if Snapshot(store).None? then (Core(store, core.cache), Refused(1002))
            else
              var response := AcceptedResponse(envelope, store.revision, coalesced);
              (Core(store, Remember(core.cache, Entry(envelope.requestId, payload.fields, response))),
               Acknowledged(response))
  }

  class BridgeService {
    const state: StateStore
    var idempotency: seq<Entry>
    var pending: Option<Job>
    var event: bool
    var computedRevision: nat
    var lastError: Option<string>

    function View(): Core
      reads this, state
    {
      Core(state.View(), idempotency)
    }

    function Box(): Mailbox
      reads this, state
    {
      Mailbox(state.revision, pending, event, computedRevision, lastError)
    }

    constructor ()
      ensures fresh(state)
      ensures View() == Core(EMPTY_STORE, []) && Box() == Mailbox(0, None, false, 0, None)
    {
      state := new StateStore();
      idempotency, pending, event, computedRevision, lastError := [], None, false, 0, None;
    }

    method Find(id: string) returns (found: Option<Entry>)
      ensures found == Lookup(idempotency, id)
    {
      for i := 0 to |idempotency|
        invariant Lookup(idempotency, id) == Lookup(idempotency[i..], id)
      {
        if idempotency[i].id == id {
          return Some(idempotency[i]);
        }
        assert idempotency[i..][1..] == idempotency[i + 1..];
      }
      found := None;
    }

    /** The mailbox keeps one job; the revision it loses is reported. */
    method Queue(job: Job) returns (replaced: Option<nat>)
      modifies this`pending, this`event
      ensures replaced == RevisionOf(old(pending)) && Box() == Queued(old(Box()), job)
    {
      replaced := if pending.Some? then Some(pending.value.snapshot.revision) else None;
      pending := Some(job);
      event := true;
    }

    /** The worker, woken by the event, empties the mailbox. */
    method TakeJob() returns (job: Option<Job>)
      modifies this`pending, this`event
      ensures job == old(pending) && Box() == Taken(old(Box()))
    {
      job := pending;
      pending := None;
      event := false;
    }

    /** The runner has returned or failed; `publish` if its result is current. */
    method FinishJob(job: Job, error: Option<string>) returns (publish: bool)
      modifies this`lastError
      ensures Box() == Computed(old(Box()), error)
      ensures publish == (error.None? && !Stale(old(Box()), job))
    {
      lastError := error;
      publish := error.None? && !(job.snapshot.revision < state.revision);
    }

    method Publish(job: Job)
      modifies this`computedRevision
      ensures Box() == Published(old(Box()), job)
    {
      computedRevision := job.snapshot.revision;
    }

    method RememberRequest(entry: Entry)
      modifies this`idempotency
      ensures idempotency == Remember(old(idempotency), entry)
    {
      var all := Without(idempotency, entry.id) + [entry];
      idempotency := all;
      ghost var dropped := 0;
      assert all[0..] == all;
      while |idempotency| > CACHE_SIZE
        invariant dropped <= |all| && idempotency == all[dropped..]
        invariant |idempotency| >= CACHE_SIZE || dropped == 0
        decreases |idempotency|
      {
        idempotency := idempotency[1..];
        dropped := dropped + 1;
      }
    }

    method Process(payload: Json) returns (reply: Reply)
      modifies this, state
      ensures (View(), reply) == Accept(old(View()), payload, RevisionOf(old(pending)))
      ensures Box() ==
        if reply.Acknowledged? && !reply.response.duplicate then
          Queued(old(Box()).(revision := View().store.revision),
                 Job(reply.response.requestId, Snapshot(View().store).value))
        else old(Box()).(revision := View().store.revision)
    {
      hide ValidateEnvelope, Initialize, ApplyDelta, Snapshot, Lookup, Remember;
      var validated := ValidateEnvelope(payload);
      if validated.Error? {
        return Refused(validated.code);
      }
      var envelope := validated.value;
      if envelope.messageType == QUERY {
        return LatestMetrics;
      }
      assert payload.Obj? by { EnvelopeIsObject(payload); }
      var cached := Find(envelope.requestId);
      if cached.Some? {
        if cached.value.digest != payload.fields {
          return Refused(1004);
        }
        return Acknowledged(cached.value.response.(duplicate := true));
      }
      var ok;
      if envelope.messageType == INIT {
        ok := state.InitializeFrom(payload.fields, envelope.timestampMs);
      } else {
        ok := state.ApplyDeltaFrom(payload.fields, envelope.timestampMs);
      }
      if !ok {
        return Refused(1002);
      }
      var snapshot := Snapshot(state.View());
      if snapshot.None? {
        return Refused(1002);
      }
      var replaced := Queue(Job(envelope.requestId, snapshot.value));
      var response := AcceptedResponse(envelope, state.revision, replaced);
      RememberRequest(Entry(envelope.requestId, payload.fields, response));
      reply := Acknowledged(response);
    }
  }

  lemma EnvelopeIsObject(payload: Json)
    requires ValidateEnvelope(payload).Ok?
    ensures payload.Obj?
  {
  }
}
