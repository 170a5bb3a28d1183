/** Exactly-once acceptance. The service remembers its last thousand accepted
    requests; here it is compared with one that remembers them all. */
module Idempotency {
  import opened Wrappers
  import opened Json
  import opened Models
  import opened StateStore
  import opened StoreIntegrity
  import opened BridgeService

  datatype Input = Input(payload: Json, coalesced: Option<nat>)

  ghost predicate Distinct(entries: seq<Entry>) {
    forall i, j :: 0 <= i < j < |entries| ==> entries[i].id != entries[j].id
  }

  ghost predicate Mentions(entries: seq<Entry>, id: string) {
    exists i :: 0 <= i < |entries| && entries[i].id == id
  }

  // ----- The cache ------------------------------------------------------------

  lemma {:induction false} LookupNone(entries: seq<Entry>, id: string)
    ensures Lookup(entries, id).None? <==> !Mentions(entries, id)
  {
    if entries != [] {
      LookupNone(entries[1..], id);
      if Mentions(entries, id) && entries[0].id != id {
        var i :| 0 <= i < |entries| && entries[i].id == id;
        assert entries[1..][i - 1].id == id;
      }
    }
  }

  lemma {:induction false} FoundAt(entries: seq<Entry>, id: string) returns (i: nat)
    requires Lookup(entries, id).Some?
    ensures i < |entries| && entries[i] == Lookup(entries, id).value && entries[i].id == id
  {
    if entries[0].id == id {
      i := 0;
    } else {
      i := FoundAt(entries[1..], id);
      i := i + 1;
    }
  }

  lemma {:induction false} LookupFinds(entries: seq<Entry>, i: nat)
    requires Distinct(entries) && i < |entries|
    ensures Lookup(entries, entries[i].id) == Some(entries[i])
  {
    if i > 0 {
      assert Distinct(entries[1..]);
      LookupFinds(entries[1..], i - 1);
    }
  }

  lemma {:induction false} WithoutStranger(entries: seq<Entry>, id: string)
    requires !Mentions(entries, id)
    ensures Without(entries, id) == entries
  {
    if entries != [] {
      assert entries[0].id != id;
      forall i | 0 <= i < |entries[1..]| ensures entries[1..][i].id != id {
        assert entries[i + 1].id != id;
      }
      WithoutStranger(entries[1..], id);
    }
  }

  lemma NewestKeepsDistinct(entries: seq<Entry>)
    requires Distinct(entries)
    ensures Distinct(Newest(entries))
  {
  }

  lemma RememberNew(cache: seq<Entry>, entry: Entry)
    requires Distinct(cache) && !Mentions(cache, entry.id)
    ensures Remember(cache, entry) == Newest(cache + [entry])
    ensures Distinct(Remember(cache, entry))
  {
    WithoutStranger(cache, entry.id);
    forall i | 0 <= i < |cache| ensures cache[i].id != entry.id {}
    assert Distinct(cache + [entry]);
    NewestKeepsDistinct(cache + [entry]);
  }

  // ----- Runs of the service ---------------------------------------------------

  function Final(core: Core, inputs: seq<Input>): Core
    decreases |inputs|
  {
    if inputs == [] then core
    else Final(Accept(core, inputs[0].payload, inputs[0].coalesced).0, inputs[1..])
  }

  function Replies(core: Core, inputs: seq<Input>): seq<Reply>
    decreases |inputs|
  {
    if inputs == [] then []
    else
      var (next, reply) := Accept(core, inputs[0].payload, inputs[0].coalesced);
      [reply] + Replies(next, inputs[1..])
  }

  /** The request is accepted: applied, queued and remembered. */
  predicate Accepts(core: Core, input: Input) {
    var reply := Accept(core, input.payload, input.coalesced).1;
    reply.Acknowledged? && !reply.response.duplicate
  }

  lemma AcceptedIsObject(core: Core, input: Input)
    requires Accepts(core, input)
    ensures input.payload.Obj?
  {
    hide ValidateEnvelope;
    if ValidateEnvelope(input.payload).Ok? {
      EnvelopeIsObject(input.payload);
    }
  }

  function NewEntry(core: Core, input: Input): Entry
    requires Accepts(core, input)
  {
    var response := Accept(core, input.payload, input.coalesced).1.response;
    AcceptedIsObject(core, input);
    Entry(response.requestId, input.payload.fields, response)
  }

  function AcceptedLog(core: Core, inputs: seq<Input>): seq<Entry>
    decreases |inputs|
  {
    if inputs == [] then []
    else
      (if Accepts(core, inputs[0]) then [NewEntry(core, inputs[0])] else [])
      + AcceptedLog(Accept(core, inputs[0].payload, inputs[0].coalesced).0, inputs[1..])
  }

  ghost predicate Sound(core: Core) {
    && Consistent(core.store)
    && Distinct(core.cache) && |core.cache| <= CACHE_SIZE
    && forall i :: 0 <= i < |core.cache| ==> !core.cache[i].response.duplicate
  }

  lemma ApplyKeepsConsistent(store: Store, envelope: Envelope, payload: Dict)
    requires Consistent(store) && Apply(store, envelope, payload).Some?
    ensures var next := Apply(store, envelope, payload).value;
      Consistent(next) && next.initialized && next.revision == store.revision + 1 && Snapshot(next).Some?
  {
    hide Consistent, Initialize, ApplyDelta, Snapshot;
    if envelope.messageType == INIT {
      ExecuteKeepsConsistent(store, InitCommand(payload, envelope.timestampMs));
    } else {
      ExecuteKeepsConsistent(store, DeltaCommand(payload, envelope.timestampMs));
    }
    SnapshotSucceeds(Apply(store, envelope, payload).value);
  }

  /** One message, in full: either it is accepted, its id being unknown to the
      cache, and store and cache move on together; or nothing changes. */
  lemma AcceptStep(core: Core, input: Input)
    requires Sound(core)
    ensures var next := Accept(core, input.payload, input.coalesced).0;
      && Sound(next)
      && (if Accepts(core, input) then
            && !Mentions(core.cache, NewEntry(core, input).id)
            && next.cache == Newest(core.cache + [NewEntry(core, input)])
            && next.store.revision == core.store.revision + 1
            && next.store.initialized
          else next == core)
  {
    hide Consistent, ValidateEnvelope, Apply, Snapshot, Lookup, Distinct, Mentions, Remember;
    var validated := ValidateEnvelope(input.payload);
    if validated.Ok? && validated.value.messageType != QUERY {
      EnvelopeIsObject(input.payload);
      var id := validated.value.requestId;
      LookupNone(core.cache, id);
      if Lookup(core.cache, id).None? && Apply(core.store, validated.value, input.payload.fields).Some? {
        ApplyKeepsConsistent(core.store, validated.value, input.payload.fields);
        RememberNew(core.cache, NewEntry(core, input));
      } else if Lookup(core.cache, id).Some? {
        var i := FoundAt(core.cache, id);
      }
    }
  }

  /** The command that a message of an accepted type is for the store. */
  function CommandOf(envelope: Envelope, payload: Dict): Command {
    if envelope.messageType == "afsim_init" then InitCommand(payload, envelope.timestampMs)
    else DeltaCommand(payload, envelope.timestampMs)
  }

  /** Every answer of the service. A refusal, a query and a repeat change nothing; a
      new request is acknowledged exactly when the store accepts it, with its own id
      and time and the store's new revision; building the snapshot never fails. */
  lemma ReplyMeans(core: Core, input: Input)
    requires Sound(core)
    ensures var validated := ValidateEnvelope(input.payload);
      var (next, reply) := Accept(core, input.payload, input.coalesced);
      && (validated.Error? ==> next == core && reply == Refused(validated.code))
      && (validated.Ok? && validated.value.messageType == "metrics_query" ==> next == core && reply == LatestMetrics)
      && (validated.Ok? && validated.value.messageType != "metrics_query" ==>
            && input.payload.Obj?
            && (forall i :: 0 <= i < |core.cache| && core.cache[i].id == validated.value.requestId ==>
                  && next == core
                  && reply == if core.cache[i].digest == input.payload.fields
                              then Acknowledged(core.cache[i].response.(duplicate := true)) else Refused(1004))
            && (!Mentions(core.cache, validated.value.requestId) ==>
                  match Execute(core.store, CommandOf(validated.value, input.payload.fields))
                  case None => next == core && reply == Refused(1002)
                  case Some(store) =>
                    && next.store == store
                    && reply == Acknowledged(Response(validated.value.requestId, validated.value.timestampMs,
                                                      store.revision, input.coalesced, false))))
  {
    hide Consistent, ValidateEnvelope, Initialize, ApplyDelta, Snapshot, Lookup, Distinct, Mentions, Remember;
    var validated := ValidateEnvelope(input.payload);
    assert INIT != DELTA && QUERY == "metrics_query" && INIT == "afsim_init";
    if validated.Ok? && validated.value.messageType != QUERY {
      EnvelopeIsObject(input.payload);
      var id := validated.value.requestId;
      LookupNone(core.cache, id);
      forall i | 0 <= i < |core.cache| && core.cache[i].id == id
        ensures Lookup(core.cache, id) == Some(core.cache[i])
      {
        LookupFinds(core.cache, i);
      }
      if Apply(core.store, validated.value, input.payload.fields).Some? {
        ApplyKeepsConsistent(core.store, validated.value, input.payload.fields);
      }
    }
  }

  lemma NewestLength(entries: seq<Entry>)
    ensures |Newest(entries)| == if |entries| < 1000 then |entries| else 1000
  {
  }

  /** The cache is always the newest entries of everything accepted, in order
      and with distinct ids, and the revision counts the acceptances. */
  lemma {:induction false} CacheIsNewestAccepted(core: Core, inputs: seq<Input>)
    requires Sound(core)
    ensures var final := Final(core, inputs);
      && Sound(final)
      && final.cache == Newest(core.cache + AcceptedLog(core, inputs))
      && |final.cache|
         == (var accepted := |core.cache| + |AcceptedLog(core, inputs)|; if accepted < 1000 then accepted else 1000)
      && final.store.revision == core.store.revision + |AcceptedLog(core, inputs)|
    decreases |inputs|
  {
    hide Sound, Accept, Accepts, NewEntry, Newest;
    NewestLength(core.cache + AcceptedLog(core, inputs));
    if inputs == [] {
      assert core.cache + [] == core.cache;
      SmallIsNewest(core);
    } else {
      AcceptStep(core, inputs[0]);
      var next := Accept(core, inputs[0].payload, inputs[0].coalesced).0;
      CacheIsNewestAccepted(next, inputs[1..]);
      var rest := AcceptedLog(next, inputs[1..]);
      if Accepts(core, inputs[0]) {
        var entry := NewEntry(core, inputs[0]);
        NewestThenMore(core.cache + [entry], rest);
        assert core.cache + [entry] + rest == core.cache + ([entry] + rest);
      } else {
        assert [] + rest == rest;
      }
    }
  }

  lemma SmallIsNewest(core: Core)
    requires Sound(core)
    ensures Newest(core.cache) == core.cache
  {
  }

  lemma NewestThenMore(entries: seq<Entry>, more: seq<Entry>)
    ensures Newest(Newest(entries) + more) == Newest(entries + more)
  {
    if |entries| > CACHE_SIZE {
      var cut := |entries| - CACHE_SIZE;
      assert entries[cut..] + more == (entries + more)[cut..];
    }
  }

  // ----- Answers to repeats ----------------------------------------------------

  /** As long as the store has moved on by fewer than a thousand revisions, a
      repeat of an accepted message gets the original response marked as a
      duplicate, reuse of its id with other content is refused, and neither
      changes anything. */
  lemma RepeatAnswered(core: Core, input: Input, between: seq<Input>, again: Input)
    requires Sound(core) && Accepts(core, input)
    requires ValidateEnvelope(again.payload).Ok? && ValidateEnvelope(again.payload).value.messageType != QUERY
    requires ValidateEnvelope(again.payload).value.requestId == NewEntry(core, input).id
    requires var first := Accept(core, input.payload, input.coalesced).0;
      Final(first, between).store.revision < first.store.revision + 1000
    ensures var first := Accept(core, input.payload, input.coalesced).0;
      var later := Final(first, between);
      var original := Accept(core, input.payload, input.coalesced).1.response;
      Accept(later, again.payload, again.coalesced)
      == (later, if again.payload == input.payload then Acknowledged(original.(duplicate := true)) else Refused(1004))
  {
    hide Accept, ValidateEnvelope, Consistent, Lookup;
    var first := Accept(core, input.payload, input.coalesced).0;
    var entry := NewEntry(core, input);
    AcceptStep(core, input);
    CacheIsNewestAccepted(first, between);
    var log := AcceptedLog(first, between);
    var later := Final(first, between);
    var all := first.cache + log;
    assert all[|first.cache| - 1] == entry;
    var i := |later.cache| - 1 - |log|;
    assert later.cache[i] == entry;
    LookupFinds(later.cache, i);
    AcceptedIsObject(core, input);
    assert entry.digest == input.payload.fields;
    hide Final, AcceptedLog, NewEntry;
    CachedAnswer(later, again, entry);
  }

  lemma CachedAnswer(core: Core, input: Input, entry: Entry)
    requires var validated := ValidateEnvelope(input.payload);
      && validated.Ok? && validated.value.messageType != QUERY
      && Lookup(core.cache, validated.value.requestId) == Some(entry)
    ensures input.payload.Obj?
    ensures Accept(core, input.payload, input.coalesced) ==
      (core,
       if entry.digest == input.payload.fields then Acknowledged(entry.response.(duplicate := true)) else Refused(1004))
  {
    EnvelopeIsObject(input.payload);
    hide ValidateEnvelope;
  }

  // ----- The service that remembers everything ----------------------------------

  datatype Ideal = Ideal(store: Store, log: seq<Entry>)

  function AcceptOnce(ideal: Ideal, payload: Json, coalesced: Option<nat>): (Ideal, Reply) {
    match ValidateEnvelope(payload)
    case Error(code) => (ideal, Refused(code))
    case Ok(envelope) =>
      if envelope.messageType == QUERY then (ideal, LatestMetrics)
      else
        match Lookup(ideal.log, envelope.requestId)
        case Some(entry) =>
          (ideal,
           if entry.digest == payload.fields then Acknowledged(entry.response.(duplicate := true)) else Refused(1004))
        case None =>
          match Apply(ideal.store, envelope, payload.fields)
          case None => (ideal, Refused(1002))
          case Some(store) =>
            var response := AcceptedResponse(envelope, store.revision, coalesced);
            (Ideal(store, ideal.log + [Entry(envelope.requestId, payload.fields, response)]), Acknowledged(response))
  }

  ghost predicate Refines(core: Core, ideal: Ideal) {
    && Sound(core) && core.store == ideal.store
    && core.cache == Newest(ideal.log) && Distinct(ideal.log)
    && (forall i :: 0 <= i < |ideal.log| ==> !ideal.log[i].response.duplicate)
  }

  /** The message does not reuse the id of a request that has been forgotten. */
  ghost predicate InWindow(ideal: Ideal, payload: Json) {
    var validated := ValidateEnvelope(payload);
    validated.Ok? && validated.value.messageType != QUERY ==>
      (Mentions(ideal.log, validated.value.requestId) ==> Mentions(Newest(ideal.log), validated.value.requestId))
  }

  lemma LookupInWindow(log: seq<Entry>, id: string)
    requires Distinct(log) && Mentions(Newest(log), id)
    ensures Lookup(Newest(log), id) == Lookup(log, id) && Lookup(log, id).Some?
  {
    var cache := Newest(log);
    var i :| 0 <= i < |cache| && cache[i].id == id;
    NewestKeepsDistinct(log);
    LookupFinds(cache, i);
    LookupFinds(log, |log| - |cache| + i);
  }

  /** The service answers like the one that remembers everything exactly as
      long as the message is in the window, and then it stays in step. */
  lemma AcceptRefines(core: Core, ideal: Ideal, input: Input)
    requires Refines(core, ideal)
    ensures var (next, reply) := Accept(core, input.payload, input.coalesced);
      var (nextIdeal, replyIdeal) := AcceptOnce(ideal, input.payload, input.coalesced);
      && (reply == replyIdeal <==> InWindow(ideal, input.payload))
      && (InWindow(ideal, input.payload) ==> Refines(next, nextIdeal))
  {
    hide Consistent, ValidateEnvelope, Apply, Snapshot, Lookup, Distinct, Mentions, Remember;
    AcceptStep(core, input);
    var validated := ValidateEnvelope(input.payload);
    if validated.Ok? && validated.value.messageType != QUERY {
      EnvelopeIsObject(input.payload);
      var id := validated.value.requestId;
      LookupNone(core.cache, id);
      LookupNone(ideal.log, id);
      if Apply(core.store, validated.value, input.payload.fields).Some? {
        ApplyKeepsConsistent(core.store, validated.value, input.payload.fields);
      }
      if Mentions(core.cache, id) {
        LookupInWindow(ideal.log, id);
      } else if Mentions(ideal.log, id) {
        var i := FoundAt(ideal.log, id);
      } else if Apply(core.store, validated.value, input.payload.fields).Some? {
        var entry := NewEntry(core, input);
        NewestThenMore(ideal.log, [entry]);
        ExtendDistinct(ideal.log, entry);
      }
    }
  }

  lemma ExtendDistinct(log: seq<Entry>, entry: Entry)
    requires Distinct(log) && !Mentions(log, entry.id)
    ensures Distinct(log + [entry])
  {
    forall i | 0 <= i < |log| ensures log[i].id != entry.id {}
  }

  function FinalOnce(ideal: Ideal, inputs: seq<Input>): Ideal
    decreases |inputs|
  {
    if inputs == [] then ideal
    else FinalOnce(AcceptOnce(ideal, inputs[0].payload, inputs[0].coalesced).0, inputs[1..])
  }

  function RepliesOnce(ideal: Ideal, inputs: seq<Input>): seq<Reply>
    decreases |inputs|
  {
    if inputs == [] then []
    else
      var (next, reply) := AcceptOnce(ideal, inputs[0].payload, inputs[0].coalesced);
      [reply] + RepliesOnce(next, inputs[1..])
  }

  ghost predicate AllInWindow(ideal: Ideal, inputs: seq<Input>)
    decreases |inputs|
  {
    inputs != [] ==>
      && InWindow(ideal, inputs[0].payload)
      && AllInWindow(AcceptOnce(ideal, inputs[0].payload, inputs[0].coalesced).0, inputs[1..])
  }

  /** Over a whole run whose repeats fall in the window, the bounded cache is
      as good as an unbounded one. */
  lemma {:induction false} RunRefines(core: Core, ideal: Ideal, inputs: seq<Input>)
    requires Refines(core, ideal) && AllInWindow(ideal, inputs)
    ensures Refines(Final(core, inputs), FinalOnce(ideal, inputs))
    ensures Replies(core, inputs) == RepliesOnce(ideal, inputs)
    decreases |inputs|
  {
    hide Refines, InWindow, Accept, AcceptOnce;
    if inputs != [] {
      AcceptRefines(core, ideal, inputs[0]);
      RunRefines(Accept(core, inputs[0].payload, inputs[0].coalesced).0,
                 AcceptOnce(ideal, inputs[0].payload, inputs[0].coalesced).0, inputs[1..]);
    }
  }

  /** The message repeats the id of an accepted request, with whatever content. */
  predicate Repeats(ideal: Ideal, payload: Json) {
    var validated := ValidateEnvelope(payload);
    validated.Ok? && validated.value.messageType != QUERY && Lookup(ideal.log, validated.value.requestId).Some?
  }

  function WithoutRepeats(ideal: Ideal, inputs: seq<Input>): seq<Input>
    decreases |inputs|
  {
    if inputs == [] then []
    else
      var next := AcceptOnce(ideal, inputs[0].payload, inputs[0].coalesced).0;
      (if Repeats(ideal, inputs[0].payload) then [] else [inputs[0]]) + WithoutRepeats(next, inputs[1..])
  }

  lemma {:induction false} RepeatsDoNothing(ideal: Ideal, inputs: seq<Input>)
    ensures FinalOnce(ideal, WithoutRepeats(ideal, inputs)) == FinalOnce(ideal, inputs)
    ensures AllInWindow(ideal, WithoutRepeats(ideal, inputs))
    decreases |inputs|
  {
    if inputs != [] {
      hide ValidateEnvelope, Apply, Lookup, Newest;
      var next := AcceptOnce(ideal, inputs[0].payload, inputs[0].coalesced).0;
      RepeatsDoNothing(next, inputs[1..]);
      var kept := WithoutRepeats(ideal, inputs);
      if Repeats(ideal, inputs[0].payload) {
        assert next == ideal && kept == WithoutRepeats(next, inputs[1..]);
      } else {
        assert kept[0] == inputs[0] && kept[1..] == WithoutRepeats(next, inputs[1..]);
        var validated := ValidateEnvelope(inputs[0].payload);
        if validated.Ok? {
          LookupNone(ideal.log, validated.value.requestId);
        }
      }
    }
  }

  /** Exactly once: a run whose repeats fall in the window leaves the store and
      the cache that the run without the repeats leaves. */
  lemma ExactlyOnce(core: Core, ideal: Ideal, inputs: seq<Input>)
    requires Refines(core, ideal) && AllInWindow(ideal, inputs)
    ensures Final(core, inputs) == Final(core, WithoutRepeats(ideal, inputs))
  {
    hide AllInWindow, Final, FinalOnce, WithoutRepeats, Sound, Replies, RepliesOnce;
    RunRefines(core, ideal, inputs);
    RepeatsDoNothing(ideal, inputs);
    RunRefines(core, ideal, WithoutRepeats(ideal, inputs));
  }
}
