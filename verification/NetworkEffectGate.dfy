/** `NetworkEffectGate.cpp`: the last decision for each subsystem, guarded by the
    revision. */
module NetworkEffectGate {
  import opened Wrappers
  import opened JsonScanner
  import opened FieldNames
  import opened MetricsMessage
  import opened LossDraw
  import Gates = MessageTransportGate

  /** An entity and one of its subsystems. */
  type Subsystem = (string, string)

  type States = map<Subsystem, EffectState>

  datatype EffectGate = EffectGate(states: States, latestRevision: Word)

  const EMPTY_EFFECT_GATE := EffectGate(map[], 0)

  function SubsystemOf(decision: EffectDecision): Subsystem {
    (decision.entityId, decision.subsystemId)
  }

  function WithDecisions(states: States, decisions: seq<EffectDecision>): States
    decreases |decisions|
  {
    if decisions == [] then states
    else
      var last := decisions[|decisions| - 1];
      WithDecisions(states, decisions[..|decisions| - 1])[SubsystemOf(last) := last.state]
  }

  /** Only decisions of a newer revision are taken over and returned. */
  function Updated(gate: EffectGate, reading: Reading<Effects>): (EffectGate, Option<seq<EffectDecision>>)
    requires reading.Message? ==> reading.value.revision < TWO_64
  {
    match reading
    case Throws => (gate, None)
    case OtherMessage => (gate, Some([]))
    case Message(effects) =>
      if effects.revision <= gate.latestRevision then (gate, Some([]))
      else (EffectGate(WithDecisions(gate.states, effects.decisions), effects.revision), Some(effects.decisions))
  }

  /** A subsystem that was never decided on is blocked. */
  function StateOf(gate: EffectGate, subsystem: Subsystem): EffectState {
    if subsystem in gate.states then gate.states[subsystem] else Blocked
  }

  /** A subsystem can operate if it has a state that is not blocked. */
  predicate Operable(gate: EffectGate, entityId: string, subsystemId: string) {
    (entityId, subsystemId) in gate.states && gate.states[(entityId, subsystemId)] != Blocked
  }

  lemma OperableMeans(gate: EffectGate, entityId: string, subsystemId: string)
    ensures Operable(gate, entityId, subsystemId) <==> StateOf(gate, (entityId, subsystemId)) != Blocked
  {
  }

  /** Index `i` holds the last decision on the subsystem. */
  ghost predicate LastDecision(decisions: seq<EffectDecision>, subsystem: Subsystem, i: nat) {
    i < |decisions| && SubsystemOf(decisions[i]) == subsystem
    && forall j :: i < j < |decisions| ==> SubsystemOf(decisions[j]) != subsystem
  }

  /** The states are those of the last decisions, and no others. */
  ghost predicate StatesAre(decisions: seq<EffectDecision>, states: States) {
    && (forall i: nat, subsystem: Subsystem :: LastDecision(decisions, subsystem, i) ==>
          subsystem in states && states[subsystem] == decisions[i].state)
    && (forall subsystem :: subsystem in states ==> exists i: nat :: LastDecision(decisions, subsystem, i))
  }

  lemma StatesSnoc(decisions: seq<EffectDecision>, states: States, next: EffectDecision)
    requires StatesAre(decisions, states)
    ensures StatesAre(decisions + [next], states[SubsystemOf(next) := next.state])
  {
    var all, after := decisions + [next], states[SubsystemOf(next) := next.state];
    assert LastDecision(all, SubsystemOf(next), |decisions|);
    forall i: nat, subsystem: Subsystem | LastDecision(all, subsystem, i)
      ensures subsystem in after && after[subsystem] == all[i].state
    {
      if i < |decisions| {
        assert all[|decisions|] == next;
        assert LastDecision(decisions, subsystem, i) by {
          forall j | i < j < |decisions| ensures SubsystemOf(decisions[j]) != subsystem {
            assert all[j] == decisions[j];
          }
        }
      }
    }
    forall subsystem | subsystem in after ensures exists i: nat :: LastDecision(all, subsystem, i) {
      if subsystem != SubsystemOf(next) {
        var i: nat :| LastDecision(decisions, subsystem, i);
        assert LastDecision(all, subsystem, i);
      }
    }
  }

  /** Adding the decisions of a message keeps the states those of the last ones. */
  lemma {:induction false} StatesFollow(before: seq<EffectDecision>, states: States, decisions: seq<EffectDecision>)
    requires StatesAre(before, states)
    ensures StatesAre(before + decisions, WithDecisions(states, decisions))
    decreases |decisions|
  {
    hide StatesAre;
    var n := |decisions|;
    if n == 0 {
      assert before + decisions == before;
    } else {
      StatesFollow(before, states, decisions[..n - 1]);
      StatesSnoc(before + decisions[..n - 1], WithDecisions(states, decisions[..n - 1]), decisions[n - 1]);
      assert before + decisions[..n - 1] + [decisions[n - 1]] == before + decisions;
    }
  }

  // ----- The object ------------------------------------------------------------------------

  method ReadEffectObjects(objects: seq<string>, revision: nat) returns (decisions: Option<seq<EffectDecision>>)
    ensures decisions == ReadDecisions(objects, revision)
  {
    hide ReadEffect, ReadAll;
    var read := o => ReadEffect(o, revision);
    var parsed: seq<EffectDecision> := [];
    assert objects[..0] == [];
    Gates.ReadAllOfNothing(read);
    for i := 0 to |objects|
      invariant ReadAll(objects[..i], read) == Some(parsed)
    {
      var decision := ReadEffect(objects[i], revision);
      if decision.None? {
        Gates.ReadAllFails(objects, read, i);
        return None;
      }
      Gates.ReadAllSnoc(objects, read, i, parsed);
      parsed := parsed + [decision.value];
    }
    assert objects[..|objects|] == objects;
    decisions := Some(parsed);
  }

  class NetworkEffectGate {
    var states: States
    var latestRevision: Word

    function State(): EffectGate
      reads this
    {
      EffectGate(states, latestRevision)
    }

    constructor ()
      ensures State() == EMPTY_EFFECT_GATE
    {
      states, latestRevision := map[], 0;
    }

    method UpdateFromMetricsJson(line: string) returns (decisions: Option<seq<EffectDecision>>)
      modifies this
      ensures ReadEffects(line).Message? ==> ReadEffects(line).value.revision < TWO_64
      ensures (State(), decisions) == Updated(old(State()), ReadEffects(line))
    {
      hide StringField, Uint64Field, ObjectArray, ReadDecisions;
      Gates.RevisionFits(line, _ => None);
      var messageType := JsonString(line, MESSAGE_NAMES[1]);
      if messageType.None? {
        return None;
      }
      if messageType.value != METRICS {
        return Some([]);
      }
      var revision := JsonUint64(line, MESSAGE_NAMES[5]);
      if revision.None? {
        return None;
      }
      var objects := ReadObjectArray(line, MESSAGE_NAMES[12]);
      if objects.None? {
        return None;
      }
      var parsed := ReadEffectObjects(objects.value, revision.value);
      if parsed.None? {
        return None;
      }
      if revision.value <= latestRevision {
        return Some([]);
      }
      ghost var before := states;
      assert parsed.value[..0] == [];
      for i := 0 to |parsed.value|
        invariant latestRevision == old(latestRevision)
        invariant states == WithDecisions(before, parsed.value[..i])
      {
        var decision := parsed.value[i];
        assert parsed.value[..i + 1][..i] == parsed.value[..i];
        states := states[SubsystemOf(decision) := decision.state];
      }
      assert parsed.value[..|parsed.value|] == parsed.value;
      latestRevision := revision.value;
      decisions := parsed;
    }

    method GetState(entityId: string, subsystemId: string) returns (state: EffectState)
      ensures state == StateOf(State(), (entityId, subsystemId))
    {
      if (entityId, subsystemId) in states {
        return states[(entityId, subsystemId)];
      }
      state := Blocked;
    }

    method CanOperate(entityId: string, subsystemId: string) returns (able: bool)
      ensures able <==> Operable(State(), entityId, subsystemId)
    {
      var state := GetState(entityId, subsystemId);
      able := state != Blocked;
    }
  }
}
