/** Delivery of effect decisions over whole runs of received lines and drains
    (`AfsimBridgeController::OnJsonLine`, `ApplyPendingEffects`). */
module EffectDelivery {
  import opened Wrappers
  import opened MetricsMessage
  import opened FieldNames
  import opened JsonScanner
  import Messages = MessageTransportGate
  import Effects = NetworkEffectGate

  /** What a pending decision is filed under. */
  datatype Key = Key(entityId: string, subsystemType: string, subsystemId: string, peerEntityId: string)

  type Pending = map<Key, EffectDecision>

  function KeyOf(decision: EffectDecision): Key {
    Key(decision.entityId, decision.subsystemType, decision.subsystemId, decision.peerEntityId)
  }

  /** `attempts` visits every pending decision once. */
  ghost predicate Visits(pending: Pending, attempts: seq<EffectDecision>) {
    && (forall i :: 0 <= i < |attempts| ==> KeyOf(attempts[i]) in pending && pending[KeyOf(attempts[i])] == attempts[i])
    && (forall i, j :: 0 <= i < j < |attempts| ==> KeyOf(attempts[i]) != KeyOf(attempts[j]))
    && (forall key :: key in pending ==> exists i :: 0 <= i < |attempts| && KeyOf(attempts[i]) == key)
  }

  /** The controller's receiving side; `accepted`, `attempts` and `superseded`
      only record the past. */
  datatype State = State(
    messages: Messages.Gate, effects: Effects.EffectGate, pending: Pending,
    accepted: seq<EffectDecision>, attempts: seq<EffectDecision>, superseded: nat)

  const START := State(Messages.EMPTY_GATE, Effects.EMPTY_EFFECT_GATE, map[], [], [], 0)

  datatype Event =
    | Line(text: string)
    | Drain(attempts: seq<EffectDecision>)

  /** The message gate comes first; if it throws, the effect gate is not asked. */
  function Received(state: State, text: string, double: string -> Option<real>): State {
    Messages.RevisionFits(text, double);
    var (messages, answer) := Messages.Updated(state.messages, ReadMetrics(text, double));
    if answer.None? then state.(messages := messages)
    else
      var (effects, decisions) := Effects.Updated(state.effects, ReadEffects(text));
      if decisions.None? then state.(messages := messages)
      else
        Filed(state.(messages := messages, effects := effects), decisions.value)
  }

  /** The controller's receiving side with one more decision: only the newest
      one for each key is kept. */
  function FiledOne(state: State, decision: EffectDecision): State {
    state.(pending := state.pending[KeyOf(decision) := decision],
           accepted := state.accepted + [decision],
           superseded := state.superseded + if KeyOf(decision) in state.pending then 1 else 0)
  }

  function Filed(state: State, decisions: seq<EffectDecision>): State
    decreases |decisions|
  {
    if decisions == [] then state
    else FiledOne(Filed(state, decisions[..|decisions| - 1]), decisions[|decisions| - 1])
  }

  lemma SizeOfUpdate(pending: Pending, decision: EffectDecision)
    ensures |pending[KeyOf(decision) := decision]| == |pending| + (if KeyOf(decision) in pending then 0 else 1)
  {
    var updated := pending[KeyOf(decision) := decision];
    assert updated.Keys == pending.Keys + {KeyOf(decision)};
    assert |updated.Keys| == |updated| && |pending.Keys| == |pending|;
  }

  function Drained(state: State, attempts: seq<EffectDecision>): State {
    state.(pending := map[], attempts := state.attempts + attempts)
  }

  ghost predicate Enabled(state: State, event: Event) {
    event.Drain? ==> Visits(state.pending, event.attempts)
  }

  function Next(state: State, event: Event, double: string -> Option<real>): State {
    match event
    case Line(text) => Received(state, text, double)
    case Drain(attempts) => Drained(state, attempts)
  }

  ghost predicate ValidRun(state: State, events: seq<Event>, double: string -> Option<real>)
    decreases |events|
  {
    events != [] ==> Enabled(state, events[0]) && ValidRun(Next(state, events[0], double), events[1..], double)
  }

  function After(state: State, events: seq<Event>, double: string -> Option<real>): State
    decreases |events|
  {
    if events == [] then state else After(Next(state, events[0], double), events[1..], double)
  }

  // ----- What every step keeps ----------------------------------------------------------------

  /** A drain applies or fails each pending decision exactly once. */
  lemma VisitsCount(pending: Pending, attempts: seq<EffectDecision>)
    requires Visits(pending, attempts)
    ensures |attempts| == |pending|
    decreases |attempts|
  {
    if attempts == [] {
      assert pending == map[];
    } else {
      hide Visits, KeyOf;
      var n := |attempts|;
      var key := KeyOf(attempts[n - 1]);
      VisitsFront(pending, attempts);
      VisitsCount(pending - {key}, attempts[..n - 1]);
      assert (pending - {key}).Keys == pending.Keys - {key};
      assert |(pending - {key}).Keys| == |pending - {key}| && |pending.Keys| == |pending|;
    }
  }

  lemma VisitsFront(pending: Pending, attempts: seq<EffectDecision>)
    requires Visits(pending, attempts) && attempts != []
    ensures KeyOf(attempts[|attempts| - 1]) in pending
    ensures Visits(pending - {KeyOf(attempts[|attempts| - 1])}, attempts[..|attempts| - 1])
  {
    hide KeyOf;
    var n, front := |attempts|, attempts[..|attempts| - 1];
    var fewer := pending - {KeyOf(attempts[n - 1])};
    forall key | key in fewer ensures exists i :: 0 <= i < |front| && KeyOf(front[i]) == key {
      var i :| 0 <= i < n && KeyOf(attempts[i]) == key;
      assert front[i] == attempts[i];
    }
  }

  /** For one key the revisions that reach the sink increase strictly. */
  ghost predicate Increasing(attempts: seq<EffectDecision>) {
    forall i, j :: 0 <= i < j < |attempts| && KeyOf(attempts[i]) == KeyOf(attempts[j]) ==>
      attempts[i].revision < attempts[j].revision
  }

  /** Pending decisions are filed under their own key, and are newer than what
      was attempted for that key. */
  ghost predicate PendingIsNew(state: State) {
    && (forall key :: key in state.pending ==> KeyOf(state.pending[key]) == key)
    && (forall i :: 0 <= i < |state.attempts| && KeyOf(state.attempts[i]) in state.pending ==>
          state.attempts[i].revision < state.pending[KeyOf(state.attempts[i])].revision)
  }

  /** Nothing is newer than the effect gate's revision, which is not above the
      message gate's. */
  ghost predicate Bounded(state: State) {
    && state.effects.latestRevision <= state.messages.latestRevision
    && (forall key :: key in state.pending ==> state.pending[key].revision <= state.effects.latestRevision)
    && (forall i :: 0 <= i < |state.attempts| ==> state.attempts[i].revision <= state.effects.latestRevision)
  }

  ghost predicate Pends(state: State, decision: EffectDecision) {
    KeyOf(decision) in state.pending && state.pending[KeyOf(decision)] == decision
  }

  ghost predicate ReplacedLater(accepted: seq<EffectDecision>, i: nat) {
    i < |accepted| && exists j :: i < j < |accepted| && KeyOf(accepted[j]) == KeyOf(accepted[i])
  }

  /** Every accepted decision was attempted, is pending, or was replaced by a
      later one for its key. */
  ghost predicate Settled(state: State) {
    forall i :: 0 <= i < |state.accepted| ==>
      state.accepted[i] in state.attempts || Pends(state, state.accepted[i]) || ReplacedLater(state.accepted, i)
  }

  /** Only accepted decisions are pending or attempted. */
  ghost predicate Sourced(state: State) {
    && (forall key :: key in state.pending ==> state.pending[key] in state.accepted)
    && (forall i :: 0 <= i < |state.attempts| ==> state.attempts[i] in state.accepted)
  }

  ghost predicate Conserved(state: State) {
    |state.accepted| == |state.attempts| + |state.pending| + state.superseded
  }

  ghost predicate Inv(state: State) {
    && Increasing(state.attempts) && PendingIsNew(state) && Bounded(state) && Settled(state) && Sourced(state)
    && Conserved(state) && Effects.StatesAre(state.accepted, state.effects.states)
  }

  // ----- Filing ----------------------------------------------------------------------------------

  /** What is attempted is older than any decision that is being filed. */
  ghost predicate AttemptsBelow(state: State, revision: nat) {
    forall i :: 0 <= i < |state.attempts| ==> state.attempts[i].revision < revision
  }

  ghost predicate QueueIsFine(state: State) {
    PendingIsNew(state) && Bounded(state) && Settled(state) && Sourced(state) && Conserved(state)
  }

  lemma FiledOneIsNew(state: State, decision: EffectDecision)
    requires PendingIsNew(state) && Bounded(state)
    requires AttemptsBelow(state, decision.revision) && decision.revision <= state.effects.latestRevision
    ensures PendingIsNew(FiledOne(state, decision)) && Bounded(FiledOne(state, decision))
  {
  }

  lemma FiledOneIsSettled(state: State, decision: EffectDecision)
    requires Settled(state)
    ensures Settled(FiledOne(state, decision))
  {
    var next, n := FiledOne(state, decision), |state.accepted|;
    assert next.accepted[n] == decision && Pends(next, decision);
    forall i | 0 <= i < n
      ensures next.accepted[i] in next.attempts || Pends(next, next.accepted[i]) || ReplacedLater(next.accepted, i)
    {
      assert next.accepted[i] == state.accepted[i];
      if ReplacedLater(state.accepted, i) {
        var j :| i < j < n && KeyOf(state.accepted[j]) == KeyOf(state.accepted[i]);
        assert next.accepted[j] == state.accepted[j];
      } else if KeyOf(state.accepted[i]) == KeyOf(decision) {
        assert ReplacedLater(next.accepted, i);
      }
    }
  }

  lemma FiledOneIsSourced(state: State, decision: EffectDecision)
    requires Sourced(state)
    ensures Sourced(FiledOne(state, decision))
  {
    var next := FiledOne(state, decision);
    assert next.accepted[|state.accepted|] == decision;
    forall d | d in state.accepted ensures d in next.accepted {
    }
  }

  lemma {:induction false} FiledKeepsQueue(state: State, decisions: seq<EffectDecision>, revision: nat)
    requires QueueIsFine(state) && AttemptsBelow(state, revision) && revision <= state.effects.latestRevision
    requires forall i :: 0 <= i < |decisions| ==> decisions[i].revision == revision
    ensures QueueIsFine(Filed(state, decisions))
    ensures Filed(state, decisions) == state.(pending := Filed(state, decisions).pending,
      accepted := state.accepted + decisions, superseded := Filed(state, decisions).superseded)
    decreases |decisions|
  {
    hide PendingIsNew, Bounded, Settled, Sourced, AttemptsBelow;
    var n := |decisions|;
    if n == 0 {
      assert state.accepted + decisions == state.accepted;
    } else {
      var front, last := decisions[..n - 1], decisions[n - 1];
      FiledKeepsQueue(state, front, revision);
      var before := Filed(state, front);
      AttemptsUnchanged(state, before, revision);
      FiledOneIsNew(before, last);
      FiledOneIsSettled(before, last);
      FiledOneIsSourced(before, last);
      SizeOfUpdate(before.pending, last);
      assert state.accepted + front + [last] == state.accepted + decisions;
    }
  }

  lemma AttemptsUnchanged(state: State, next: State, revision: nat)
    requires AttemptsBelow(state, revision) && next.attempts == state.attempts
    ensures AttemptsBelow(next, revision)
  {
  }

  /** What the reader gives a decision is the message's revision. */
  lemma {:induction false} DecisionsCarryRevision(objects: seq<string>, revision: nat)
    ensures ReadDecisions(objects, revision).Some? ==>
      forall i :: 0 <= i < |ReadDecisions(objects, revision).value| ==>
        ReadDecisions(objects, revision).value[i].revision == revision
    decreases |objects|
  {
    hide StringField, ParseState;
    if objects != [] {
      DecisionsCarryRevision(objects[..|objects| - 1], revision);
    }
  }

  lemma EffectsCarryRevision(text: string)
    ensures ReadEffects(text).Message? ==>
      forall i :: 0 <= i < |ReadEffects(text).value.decisions| ==>
        ReadEffects(text).value.decisions[i].revision == ReadEffects(text).value.revision
  {
    hide ReadDecisions, ReadRevision, ObjectArray;
    if ReadEffects(text).Message? {
      var revision := ReadRevision(text).value;
      DecisionsCarryRevision(ObjectArray(text, MESSAGE_NAMES[12]).value, revision);
    }
  }

  /** The gates may move on without touching the queue. */
  lemma GatesMove(state: State, next: State)
    requires QueueIsFine(state)
    requires next == state.(messages := next.messages, effects := next.effects)
    requires state.effects.latestRevision <= next.effects.latestRevision <= next.messages.latestRevision
    ensures QueueIsFine(next)
    ensures state.effects.latestRevision < next.effects.latestRevision ==>
      AttemptsBelow(next, next.effects.latestRevision)
  {
    forall i | 0 <= i < |next.accepted|
      ensures next.accepted[i] in next.attempts || Pends(next, next.accepted[i]) || ReplacedLater(next.accepted, i)
    {
      assert Pends(next, next.accepted[i]) == Pends(state, state.accepted[i]);
    }
  }

  lemma NothingFiled(state: State)
    ensures Filed(state, []) == state
  {
  }

  /** A line keeps everything, also when one of the gates throws. */
  lemma LineKeepsInv(state: State, text: string, double: string -> Option<real>)
    requires Inv(state)
    ensures Inv(Received(state, text, double))
  {
    hide ReadMetrics, ReadEffects, Messages.ProfilesOf, Filed, Effects.WithDecisions, Effects.StatesAre, Increasing,
      QueueIsFine, AttemptsBelow;
    Messages.RevisionFits(text, double);
    GatesAgree(text, double);
    EffectsCarryRevision(text);
    InvMeans(state);
    var (messages, answer) := Messages.Updated(state.messages, ReadMetrics(text, double));
    if answer.Some? {
      var (effects, decisions) := Effects.Updated(state.effects, ReadEffects(text));
      if decisions.Some? {
        var moved := state.(messages := messages, effects := effects);
        GatesMove(state, moved);
        InvMeans(moved);
        if effects.latestRevision == state.effects.latestRevision {
          NothingFiled(moved);
        } else {
          FiledKeepsQueue(moved, decisions.value, effects.latestRevision);
          Effects.StatesFollow(state.accepted, state.effects.states, decisions.value);
          InvMeans(Filed(moved, decisions.value));
        }
      } else {
        GatesMove(state, state.(messages := messages));
        InvMeans(state.(messages := messages));
      }
    }
  }

  lemma InvMeans(state: State)
    ensures Inv(state) <==>
      QueueIsFine(state) && Increasing(state.attempts) && Effects.StatesAre(state.accepted, state.effects.states)
    ensures QueueIsFine(state) ==> state.effects.latestRevision <= state.messages.latestRevision
  {
  }

  /** A drain empties the queue and keeps everything. */
  lemma DrainKeepsInv(state: State, attempts: seq<EffectDecision>)
    requires Inv(state) && Visits(state.pending, attempts)
    ensures Inv(Drained(state, attempts))
  {
    VisitsCount(state.pending, attempts);
    DrainKeepsIncreasing(state, attempts);
    DrainKeepsSettled(state, attempts);
    DrainKeepsBounded(state, attempts);
    hide Increasing, Settled, Effects.StatesAre, Bounded, Sourced;
  }

  lemma DrainKeepsBounded(state: State, attempts: seq<EffectDecision>)
    requires Bounded(state) && Sourced(state) && Visits(state.pending, attempts)
    ensures Bounded(Drained(state, attempts)) && Sourced(Drained(state, attempts))
  {
    var next := Drained(state, attempts);
    forall i | 0 <= i < |next.attempts|
      ensures next.attempts[i] in next.accepted && next.attempts[i].revision <= next.effects.latestRevision
    {
      if i >= |state.attempts| {
        assert next.attempts[i] == attempts[i - |state.attempts|];
      } else {
        assert next.attempts[i] == state.attempts[i];
      }
    }
  }

  lemma DrainKeepsIncreasing(state: State, attempts: seq<EffectDecision>)
    requires Increasing(state.attempts) && PendingIsNew(state) && Visits(state.pending, attempts)
    ensures Increasing(state.attempts + attempts)
  {
    var n, all := |state.attempts|, state.attempts + attempts;
    forall i, j | n <= i < j < |all| ensures KeyOf(all[i]) != KeyOf(all[j]) {
      assert all[i] == attempts[i - n] && all[j] == attempts[j - n];
    }
    forall i, j | 0 <= i < n <= j < |all| && KeyOf(all[i]) == KeyOf(all[j]) ensures all[i].revision < all[j].revision {
      assert all[i] == state.attempts[i] && all[j] == attempts[j - n] && state.pending[KeyOf(all[j])] == all[j];
    }
    forall i, j | 0 <= i < j < n && KeyOf(all[i]) == KeyOf(all[j]) ensures all[i].revision < all[j].revision {
      assert all[i] == state.attempts[i] && all[j] == state.attempts[j];
    }
  }

  lemma DrainKeepsSettled(state: State, attempts: seq<EffectDecision>)
    requires Settled(state) && Visits(state.pending, attempts)
    ensures Settled(Drained(state, attempts))
  {
    hide ReplacedLater;
    var next := Drained(state, attempts);
    forall i | 0 <= i < |next.accepted|
      ensures next.accepted[i] in next.attempts || Pends(next, next.accepted[i]) || ReplacedLater(next.accepted, i)
    {
      if Pends(state, state.accepted[i]) {
        var j :| 0 <= j < |attempts| && KeyOf(attempts[j]) == KeyOf(state.accepted[i]);
        assert attempts[j] == state.accepted[i];
        assert attempts[j] in attempts;
      }
    }
  }

  // ----- Whole runs --------------------------------------------------------------------------------

  lemma StartIsFine()
    ensures Inv(START)
  {
  }

  /** Over any run of received lines, readable or not, and drains: the effect
      gate is never ahead of the message gate, revisions reaching the sink increase
      strictly for each key, every accepted decision was attempted, is pending or
      was replaced by a later one for its key, nothing else is ever attempted, and
      the counts add up. */
  lemma {:induction false} RunKeepsInv(state: State, events: seq<Event>, double: string -> Option<real>)
    requires Inv(state) && ValidRun(state, events, double)
    ensures Inv(After(state, events, double))
    decreases |events|
  {
    hide Inv, Received, Drained, Visits;
    if events != [] {
      match events[0] {
        case Line(text) => LineKeepsInv(state, text, double);
        case Drain(attempts) => DrainKeepsInv(state, attempts);
      }
      RunKeepsInv(Next(state, events[0], double), events[1..], double);
    }
  }

  /** The newest accepted decision on a subsystem and peer is never lost: it was
      attempted or it is pending, and after a drain it was attempted. Decisions
      replace each other only if all four ids agree. */
  lemma NewestIsDelivered(events: seq<Event>, double: string -> Option<real>, i: nat)
    requires ValidRun(START, events, double)
    ensures var state := After(START, events, double);
      var accepted := state.accepted;
      && i < |accepted|
      && (forall j :: i < j < |accepted| ==>
            !(&& accepted[j].entityId == accepted[i].entityId && accepted[j].subsystemId == accepted[i].subsystemId
              && accepted[j].subsystemType == accepted[i].subsystemType
              && accepted[j].peerEntityId == accepted[i].peerEntityId))
      ==>
        && (accepted[i] in state.attempts || exists key :: key in state.pending && state.pending[key] == accepted[i])
        && (state.pending == map[] ==> accepted[i] in state.attempts)
  {
    hide After, ValidRun;
    StartIsFine();
    RunKeepsInv(START, events, double);
    var state := After(START, events, double);
    if i < |state.accepted| && Pends(state, state.accepted[i]) {
      assert state.pending[KeyOf(state.accepted[i])] == state.accepted[i];
    }
  }

  /** Among the attempts that agree in all four ids the revisions increase. */
  lemma AttemptsIncrease(events: seq<Event>, double: string -> Option<real>, i: nat, j: nat)
    requires ValidRun(START, events, double)
    ensures var attempts := After(START, events, double).attempts;
      && i < j < |attempts|
      && attempts[i].entityId == attempts[j].entityId && attempts[i].subsystemId == attempts[j].subsystemId
      && attempts[i].subsystemType == attempts[j].subsystemType && attempts[i].peerEntityId == attempts[j].peerEntityId
      ==>
        attempts[i].revision < attempts[j].revision
  {
    hide After, ValidRun;
    StartIsFine();
    RunKeepsInv(START, events, double);
  }

  /** No two pending decisions agree in all four ids. */
  lemma PendingIsOneEach(events: seq<Event>, double: string -> Option<real>, k: Key, l: Key)
    requires ValidRun(START, events, double)
    ensures var pending := After(START, events, double).pending;
      && k in pending && l in pending
      && pending[k].entityId == pending[l].entityId && pending[k].subsystemId == pending[l].subsystemId
      && pending[k].subsystemType == pending[l].subsystemType && pending[k].peerEntityId == pending[l].peerEntityId
      ==>
        k == l
  {
    hide After, ValidRun;
    StartIsFine();
    RunKeepsInv(START, events, double);
  }

  /** Index `i` holds the last decision on that subsystem of that entity. */
  ghost predicate LastOn(decisions: seq<EffectDecision>, entityId: string, subsystemId: string, i: nat) {
    && i < |decisions| && decisions[i].entityId == entityId && decisions[i].subsystemId == subsystemId
    && forall j :: i < j < |decisions| ==>
         !(decisions[j].entityId == entityId && decisions[j].subsystemId == subsystemId)
  }

  lemma LastOnIsLast(decisions: seq<EffectDecision>, entityId: string, subsystemId: string, i: nat)
    ensures LastOn(decisions, entityId, subsystemId, i) <==>
      Effects.LastDecision(decisions, (entityId, subsystemId), i)
  {
  }

  lemma {:induction false} LastOnExists(
    decisions: seq<EffectDecision>, entityId: string, subsystemId: string, i: nat) returns (last: nat)
    requires i < |decisions| && decisions[i].entityId == entityId && decisions[i].subsystemId == subsystemId
    ensures LastOn(decisions, entityId, subsystemId, last)
    decreases |decisions| - i
  {
    if j :| i < j < |decisions| && decisions[j].entityId == entityId && decisions[j].subsystemId == subsystemId {
      last := LastOnExists(decisions, entityId, subsystemId, j);
    } else {
      last := i;
    }
  }

  /** The state that is answered for a subsystem of an entity is the one in the
      last accepted decision on it, and blocked if there is none. */
  lemma StateIsLastDecided(
    events: seq<Event>, double: string -> Option<real>, entityId: string, subsystemId: string)
    requires ValidRun(START, events, double)
    ensures var state := After(START, events, double);
      var accepted, answer := state.accepted, Effects.StateOf(state.effects, (entityId, subsystemId));
      && (forall i: nat :: LastOn(accepted, entityId, subsystemId, i) ==> answer == accepted[i].state)
      && ((forall i :: 0 <= i < |accepted| ==>
             !(accepted[i].entityId == entityId && accepted[i].subsystemId == subsystemId)) ==> answer == Blocked)
  {
    hide After, ValidRun, Effects.LastDecision;
    StartIsFine();
    RunKeepsInv(START, events, double);
    var state := After(START, events, double);
    forall i: nat
      ensures LastOn(state.accepted, entityId, subsystemId, i) <==>
        Effects.LastDecision(state.accepted, (entityId, subsystemId), i)
    {
      LastOnIsLast(state.accepted, entityId, subsystemId, i);
    }
  }

  /** A subsystem can operate exactly when the last accepted decision on it does
      not block it. */
  lemma OperatesIffDecided(events: seq<Event>, double: string -> Option<real>, entityId: string, subsystemId: string)
    requires ValidRun(START, events, double)
    ensures var state := After(START, events, double);
      Effects.Operable(state.effects, entityId, subsystemId) <==>
        exists i: nat :: LastOn(state.accepted, entityId, subsystemId, i) && state.accepted[i].state != Blocked
  {
    hide After, ValidRun, LastOn, Effects.StateOf;
    StateIsLastDecided(events, double, entityId, subsystemId);
    var state := After(START, events, double);
    var accepted := state.accepted;
    Effects.OperableMeans(state.effects, entityId, subsystemId);
    if Effects.StateOf(state.effects, (entityId, subsystemId)) != Blocked {
      var i :| 0 <= i < |accepted| && accepted[i].entityId == entityId && accepted[i].subsystemId == subsystemId;
      var last := LastOnExists(accepted, entityId, subsystemId, i);
      assert LastOn(accepted, entityId, subsystemId, last);
    }
  }
}
