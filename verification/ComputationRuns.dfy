/** Whole runs of computations against one runner process. Each computation
    writes its batch and reads up to the first `ERROR` or `DONE` line
    (`engine.py`, `compute`); what else the batch makes the runner write stays in
    the pipe for the next one. */
module ComputationRuns {
  import opened Models
  import opened StateStore
  import opened StoreIntegrity
  import opened ScenarioText
  import opened ScenarioHandOff
  import opened ScenarioMeaning
  import Ns3Runner
  import JsonText

  // ----- Lines in general -----------------------------------------------------------------

  /** The line fails, or leaves the pipe and the scenario's id alone. */
  ghost predicate Harmless(line: string, double: Reader) {
    forall runner: Runner ::
      || Step(runner, line, double) == Fail(runner)
      || (Step(runner, line, double).pipe == runner.pipe
          && Step(runner, line, double).scenario.id == runner.scenario.id)
  }

  /** The line fails whatever the runner holds. */
  ghost predicate Unreadable(line: string, double: Reader) {
    forall runner: Runner :: Step(runner, line, double) == Fail(runner)
  }

  ghost predicate AllHarmless(lines: seq<string>, double: Reader) {
    forall i :: 0 <= i < |lines| ==> Harmless(lines[i], double)
  }

  lemma RecordsAreHarmless(parts: seq<string>, double: Reader)
    requires AreFields(parts) && parts != [] && parts[0] != RUN && parts[0] != SCENARIO
    ensures Harmless(Joined(parts), double)
  {
    hide AreFields, Joined, ReadNode, ReadLink, ReadFlow, ReadHeader, Step;
    forall runner: Runner
      ensures Step(runner, Joined(parts), double) == Fail(runner)
        || (Step(runner, Joined(parts), double).pipe == runner.pipe
            && Step(runner, Joined(parts), double).scenario.id == runner.scenario.id)
    {
      StepJoined(runner, parts, double);
    }
  }

  // ----- The lines of a batch -----------------------------------------------------------------

  lemma {:induction false} NodeLinesAre(entities: seq<Entity>, number: Writer)
    ensures |NodeLines(entities, number)| == |entities|
    ensures forall i :: 0 <= i < |entities| ==>
      NodeLines(entities, number)[i] == Joined(NodeParts(i, entities[i], number))
    decreases |entities|
  {
    hide Joined, NodeParts;
    var n := |entities|;
    if n > 0 {
      NodeLinesAre(entities[..n - 1], number);
    }
  }

  lemma {:induction false} LinkLinesAre(all: seq<Entity>, links: seq<EngineLink>, number: Writer)
    requires Indexed(all, links, [])
    ensures |LinkLines(all, links, number)| == |links|
    ensures forall i :: 0 <= i < |links| ==>
      LinkLines(all, links, number)[i] == Joined(PartsOfLink(all, i, links[i], number))
    decreases |links|
  {
    hide Joined, PartsOfLink, NodeIndex;
    var n := |links|;
    if n > 0 {
      LinkLinesAre(all, links[..n - 1], number);
    }
  }

  lemma {:induction false} FlowLinesAre(all: seq<Entity>, flows: seq<Flow>)
    requires Indexed(all, [], flows)
    ensures |FlowLines(all, flows)| == |flows|
    ensures forall i :: 0 <= i < |flows| ==> FlowLines(all, flows)[i] == Joined(PartsOfFlow(all, i, flows[i]))
    decreases |flows|
  {
    hide Joined, PartsOfFlow, NodeIndex;
    var n := |flows|;
    if n > 0 {
      FlowLinesAre(all, flows[..n - 1]);
    }
  }

  lemma NodeLineHarmless(index: nat, entity: Entity, number: Writer, double: Reader)
    requires Faithful(number, double)
    ensures Harmless(Joined(NodeParts(index, entity, number)), double)
  {
    hide IsField, Flag, JsonText.Decimal, Joined, Harmless, ToUint32, ToUint64, ToBool;
    WordsAreFields();
    WordsDiffer();
    NumeralRead(index);
    FlagRead(entity.alive);
    assert IsField(number(entity.position.x)) && IsField(number(entity.position.y));
    assert IsField(number(entity.position.z));
    RecordsAreHarmless(NodeParts(index, entity, number), double);
  }

  lemma LinkLineHarmless(all: seq<Entity>, index: nat, link: EngineLink, number: Writer, double: Reader)
    requires Faithful(number, double) && NodeIndex(all, link.source).Some? && NodeIndex(all, link.target).Some?
    ensures Harmless(Joined(PartsOfLink(all, index, link, number)), double)
  {
    hide IsField, Flag, JsonText.Decimal, IntText, Joined, Harmless, NodeIndex, ToUint32, ToUint64, ToBool;
    WordsAreFields();
    WordsDiffer();
    NumeralRead(index);
    NumeralRead(IndexOf(all, link.source));
    NumeralRead(IndexOf(all, link.target));
    IntTextIsField(link.dataRateBps);
    FlagRead(link.up);
    assert IsField(number(link.delayMs)) && IsField(number(link.lossRate));
    RecordsAreHarmless(PartsOfLink(all, index, link, number), double);
  }

  lemma FlowLineHarmless(all: seq<Entity>, index: nat, flow: Flow, double: Reader)
    requires NodeIndex(all, flow.source).Some? && NodeIndex(all, flow.target).Some?
    ensures Harmless(Joined(PartsOfFlow(all, index, flow)), double)
  {
    hide AreFields, Flag, JsonText.Decimal, IntText, Joined, Harmless, NodeIndex, Enabled;
    WordsDiffer();
    FlowFields(index, IndexOf(all, flow.source), IndexOf(all, flow.target), flow, Enabled(all, flow));
    RecordsAreHarmless(PartsOfFlow(all, index, flow), double);
  }

  /** The lines between the header and `RUN`. */
  function Tail(batch: Batch, number: Writer): seq<string>
    requires Indexed(batch.entities, batch.links, batch.flows)
  {
    NodeLines(batch.entities, number) + LinkLines(batch.entities, batch.links, number)
    + FlowLines(batch.entities, batch.flows)
  }

  lemma TailIsHarmless(batch: Batch, number: Writer, double: Reader)
    requires Faithful(number, double) && Indexed(batch.entities, batch.links, batch.flows)
    ensures AllHarmless(Tail(batch, number), double)
  {
    hide Harmless, Faithful, Joined, NodeParts, PartsOfLink, PartsOfFlow, NodeLines, LinkLines, FlowLines, NodeIndex;
    var all := batch.entities;
    NodeLinesAre(all, number);
    LinkLinesAre(all, batch.links, number);
    FlowLinesAre(all, batch.flows);
    forall i | 0 <= i < |all| ensures Harmless(NodeLines(all, number)[i], double) {
      NodeLineHarmless(i, all[i], number, double);
    }
    forall i | 0 <= i < |batch.links| ensures Harmless(LinkLines(all, batch.links, number)[i], double) {
      LinkLineHarmless(all, i, batch.links[i], number, double);
    }
    forall i | 0 <= i < |batch.flows| ensures Harmless(FlowLines(all, batch.flows)[i], double) {
      FlowLineHarmless(all, i, batch.flows[i], double);
    }
  }

  /** A record that does not fit has a line that nothing can read. */
  lemma UnfitHasUnreadable(batch: Batch, number: Writer, double: Reader)
    requires Faithful(number, double) && Sound(batch) && FitsCounts(batch) && !Fits(batch, number, double)
    ensures exists i :: 0 <= i < |Tail(batch, number)| && Unreadable(Tail(batch, number)[i], double)
  {
    hide Faithful, Joined, NodeParts, PartsOfLink, PartsOfFlow, NodeLines, LinkLines, FlowLines, NodeIndex, Step,
      FitsNode, FitsLink, FitsFlow, RangedFlow;
    var all, tail := batch.entities, Tail(batch, number);
    var n, m := |all|, |batch.links|;
    NodeLinesAre(all, number);
    LinkLinesAre(all, batch.links, number);
    FlowLinesAre(all, batch.flows);
    if i :| 0 <= i < n && !FitsNode(all[i], number, double) {
      forall runner: Runner ensures Step(runner, tail[i], double) == Fail(runner) {
        NodeLine(runner, i, all[i], number, double);
      }
      assert Unreadable(tail[i], double);
    } else if i :| 0 <= i < m && !FitsLink(batch.links[i], number, double) {
      assert tail[n + i] == LinkLines(all, batch.links, number)[i];
      forall runner: Runner ensures Step(runner, tail[n + i], double) == Fail(runner) {
        LinkLine(runner, all, i, batch.links[i], number, double);
      }
      assert Unreadable(tail[n + i], double);
    } else {
      var i :| 0 <= i < |batch.flows| && !FitsFlow(batch.flows[i]);
      assert tail[n + m + i] == FlowLines(all, batch.flows)[i];
      forall runner: Runner ensures Step(runner, tail[n + m + i], double) == Fail(runner) {
        FlowLine(runner, all, i, batch.flows[i], double);
      }
      assert Unreadable(tail[n + m + i], double);
    }
  }

  // ----- What a batch leaves in the pipe --------------------------------------------------------

  /** The pipe has grown by failures only, at least `least` of them. */
  ghost predicate GrownByFailures(before: seq<Terminal>, after: seq<Terminal>, least: nat) {
    && |before| + least <= |after| && after[..|before|] == before
    && forall i :: |before| <= i < |after| ==> after[i].Failed?
  }

  lemma {:induction false} HarmlessLines(runner: Runner, lines: seq<string>, double: Reader)
    requires AllHarmless(lines, double)
    ensures var after := StepAll(runner, lines, double);
      && GrownByFailures(runner.pipe, after.pipe, 0)
      && (after.scenario.id == runner.scenario.id || after.scenario.id == "")
      && ((exists i :: 0 <= i < |lines| && Unreadable(lines[i], double)) ==>
            GrownByFailures(runner.pipe, after.pipe, 1))
    decreases |lines|
  {
    hide Step;
    var n := |lines|;
    if n > 0 {
      var front, last := lines[..n - 1], lines[n - 1];
      HarmlessLines(runner, front, double);
      var before := StepAll(runner, front, double);
      assert Harmless(last, double);
      if i :| 0 <= i < n && Unreadable(lines[i], double) {
        if i < n - 1 {
          assert Unreadable(front[i], double);
        } else {
          assert Step(before, last, double) == Fail(before);
        }
      }
    }
  }

  ghost predicate Own(terminal: Terminal, id: string) {
    terminal.Failed? || terminal.scenario.id == id || terminal.scenario.id == ""
  }

  /** Every batch adds something to the pipe, with its own id or none. One that
      does not fit adds an error first, and then still something more. */
  lemma BatchGrowsPipe(runner: Runner, batch: Batch, number: Writer, double: Reader)
    requires Faithful(number, double) && Sound(batch) && IsField(batch.id)
    ensures var after := StepAll(runner, Lines(batch, number), double).pipe;
      && |runner.pipe| < |after| && after[..|runner.pipe|] == runner.pipe
      && (forall i :: |runner.pipe| <= i < |after| ==> Own(after[i], batch.id))
      && (!Fits(batch, number, double) ==> |runner.pipe| + 2 <= |after| && after[|runner.pipe|] == Failed)
  {
    hide Faithful, Step, StepAll, NodeLines, LinkLines, FlowLines, HeaderLine, IsField, NodeIndex, Ns3Runner.Valid,
      AllHarmless, Unreadable;
    var header := HeaderLine(batch);
    HeaderRead(runner, batch, double);
    StepNothing(runner, double);
    StepAllSnoc(runner, [], header, double);
    assert [] + [header] == [header];
    var first := Step(runner, header, double);
    TailIsHarmless(batch, number, double);
    HarmlessLines(first, Tail(batch, number), double);
    if FitsCounts(batch) && !Fits(batch, number, double) {
      UnfitHasUnreadable(batch, number, double);
    }
    StepAllConcat(runner, [header], Tail(batch, number), double);
    assert [header] + Tail(batch, number) == RecordLines(batch, number);
    StepAllSnoc(runner, RecordLines(batch, number), RUN, double);
    RunStep(StepAll(runner, RecordLines(batch, number), double), double);
  }

  // ----- Computations ---------------------------------------------------------------------------

  /** What the compute loop hands over: a snapshot of a consistent store. */
  ghost predicate Computable(snapshot: StateSnapshot) {
    Closed(snapshot) && Ranged(snapshot)
  }

  /** One call of `compute`: the batch is written, then one group is read. */
  function Compute(runner: Runner, snapshot: StateSnapshot, number: Writer, double: Reader): (Runner, Terminal)
    requires Computable(snapshot) && Faithful(number, double)
  {
    BatchIsSound(snapshot);
    IdIsField(snapshot);
    BatchGrowsPipe(runner, BatchOf(snapshot), number, double);
    var after := StepAll(runner, Lines(BatchOf(snapshot), number), double);
    (Runner(after.scenario, after.pipe[1..]), after.pipe[0])
  }

  /** The engine accepts only a `DONE` line with the scenario's own id. */
  predicate Succeeds(terminal: Terminal, snapshot: StateSnapshot) {
    terminal.Done? && terminal.scenario.id == ScenarioId(snapshot)
  }

  ghost predicate AllComputable(snapshots: seq<StateSnapshot>) {
    forall i :: 0 <= i < |snapshots| ==> Computable(snapshots[i])
  }

  /** The runner after the computations, from its start. */
  function AfterAll(snapshots: seq<StateSnapshot>, number: Writer, double: Reader): Runner
    requires AllComputable(snapshots) && Faithful(number, double)
    decreases |snapshots|
  {
    if snapshots == [] then Runner(NO_SCENARIO, [])
    else
      var n := |snapshots|;
      Compute(AfterAll(snapshots[..n - 1], number, double), snapshots[n - 1], number, double).0
  }

  ghost predicate FitsSnapshot(snapshot: StateSnapshot, number: Writer, double: Reader) {
    Fits(BatchOf(snapshot), number, double)
  }

  ghost predicate AllFit(snapshots: seq<StateSnapshot>, number: Writer, double: Reader) {
    forall i :: 0 <= i < |snapshots| ==> FitsSnapshot(snapshots[i], number, double)
  }

  /** Left over from earlier computations. */
  ghost predicate Stale(terminal: Terminal, snapshots: seq<StateSnapshot>) {
    || terminal.Failed? || terminal.scenario.id == ""
    || exists i :: 0 <= i < |snapshots| && ScenarioId(snapshots[i]) == terminal.scenario.id
  }

  ghost predicate AllStale(pipe: seq<Terminal>, snapshots: seq<StateSnapshot>) {
    forall i :: 0 <= i < |pipe| ==> Stale(pipe[i], snapshots)
  }

  /** As long as everything fitted, nothing is left over; after the first batch
      that did not, something always is. */
  lemma {:induction false} PipeOf(snapshots: seq<StateSnapshot>, number: Writer, double: Reader)
    requires AllComputable(snapshots) && Faithful(number, double)
    ensures var pipe := AfterAll(snapshots, number, double).pipe;
      if AllFit(snapshots, number, double) then pipe == [] else pipe != [] && AllStale(pipe, snapshots)
    decreases |snapshots|
  {
    hide Faithful, Computable, StepAll, Lines, FitsSnapshot, ScenarioId, LinksOf, Stale;
    var n := |snapshots|;
    if n > 0 {
      var front, last := snapshots[..n - 1], snapshots[n - 1];
      PipeOf(front, number, double);
      var runner := AfterAll(front, number, double);
      ComputeGrows(runner, last, number, double);
      var next := Compute(runner, last, number, double).0;
      FitSplit(snapshots, n - 1, number, double);
      assert snapshots[..n] == snapshots;
      if AllFit(front, number, double) && FitsSnapshot(last, number, double) {
        assert next.pipe == [];
      } else {
        forall i | 0 <= i < |next.pipe| ensures Stale(next.pipe[i], snapshots) {
          if i + 1 < |runner.pipe| {
            StaleStays(runner.pipe[i + 1], front, last);
          } else {
            OwnIsStale(next.pipe[i], front, last);
          }
        }
      }
    }
  }

  lemma StaleStays(terminal: Terminal, front: seq<StateSnapshot>, last: StateSnapshot)
    requires Stale(terminal, front)
    ensures forall snapshots ::
      snapshots != [] && snapshots[..|snapshots| - 1] == front && snapshots[|snapshots| - 1] == last ==>
      Stale(terminal, snapshots)
  {
    hide ScenarioId;
    forall snapshots: seq<StateSnapshot>
      | snapshots != [] && snapshots[..|snapshots| - 1] == front && snapshots[|snapshots| - 1] == last
      ensures Stale(terminal, snapshots)
    {
      if i :| 0 <= i < |front| && terminal.Done? && ScenarioId(front[i]) == terminal.scenario.id {
        assert snapshots[i] == front[i];
      }
    }
  }

  lemma OwnIsStale(terminal: Terminal, front: seq<StateSnapshot>, last: StateSnapshot)
    requires Own(terminal, ScenarioId(last))
    ensures forall snapshots ::
      snapshots != [] && snapshots[..|snapshots| - 1] == front && snapshots[|snapshots| - 1] == last ==>
      Stale(terminal, snapshots)
  {
    hide ScenarioId;
  }

  /** One computation: from an empty pipe it succeeds and leaves it empty exactly
      when the snapshot fits; from another one it reads what was left over. */
  lemma ComputeGrows(runner: Runner, snapshot: StateSnapshot, number: Writer, double: Reader)
    requires Computable(snapshot) && Faithful(number, double)
    ensures var (next, read) := Compute(runner, snapshot, number, double);
      && (runner.pipe != [] ==> read == runner.pipe[0] && next.pipe != [])
      && (runner.pipe == [] && FitsSnapshot(snapshot, number, double) ==>
          && Sound(BatchOf(snapshot)) && read == Done(ScenarioOf(BatchOf(snapshot))) && next.pipe == [])
      && (runner.pipe == [] && !FitsSnapshot(snapshot, number, double) ==> read == Failed && next.pipe != [])
      && (forall i :: 0 <= i < |next.pipe| && i + 1 < |runner.pipe| ==> next.pipe[i] == runner.pipe[i + 1])
      && (forall i :: 0 <= i < |next.pipe| && |runner.pipe| <= i + 1 ==> Own(next.pipe[i], ScenarioId(snapshot)))
  {
    hide Faithful, StepAll, Lines, Fits, ScenarioId, LinksOf, Own, ScenarioOf, RangedFlow, NodeIndex;
    BatchIsSound(snapshot);
    IdIsField(snapshot);
    var batch := BatchOf(snapshot);
    BatchGrowsPipe(runner, batch, number, double);
    if Fits(batch, number, double) {
      FitBatchIsRun(runner, batch, number, double);
    }
    var after := StepAll(runner, Lines(batch, number), double).pipe;
    assert forall i :: 0 <= i < |runner.pipe| ==> after[i] == after[..|runner.pipe|][i];
  }

  // ----- Ids of scenarios ---------------------------------------------------------------------

  lemma {:induction false} DecimalsDiffer(a: nat, b: nat)
    requires JsonText.Decimal(a) == JsonText.Decimal(b)
    ensures a == b
    decreases a
  {
    var s, t := JsonText.Decimal(a), JsonText.Decimal(b);
    assert s[|s| - 1] == JsonText.DigitChar(a % 10) && t[|t| - 1] == JsonText.DigitChar(b % 10);
    if a >= 10 && b >= 10 {
      assert s[..|s| - 1] == JsonText.Decimal(a / 10) && t[..|t| - 1] == JsonText.Decimal(b / 10);
      DecimalsDiffer(a / 10, b / 10);
    } else {
      JsonText.DecimalIsNumber(a / 10);
      JsonText.DecimalIsNumber(b / 10);
    }
  }

  function LeadingDigits(text: string): nat {
    if text != "" && JsonText.IsDigit(text[0]) then 1 + LeadingDigits(text[1..]) else 0
  }

  lemma {:induction false} DigitsEnd(digits: string, rest: string)
    requires forall i :: 0 <= i < |digits| ==> JsonText.IsDigit(digits[i])
    ensures LeadingDigits(digits + ("-" + rest)) == |digits|
  {
    var text := digits + ("-" + rest);
    if digits == "" {
      assert text[0] == '-';
    } else {
      DigitsEnd(digits[1..], rest);
      assert text[0] == digits[0] && text[1..] == digits[1..] + ("-" + rest);
    }
  }

  /** The id tells revisions apart. */
  lemma IdsDiffer(a: StateSnapshot, b: StateSnapshot)
    requires ScenarioId(a) == ScenarioId(b)
    ensures a.revision == b.revision
  {
    hide IntText;
    var s, t := JsonText.Decimal(a.revision), JsonText.Decimal(b.revision);
    JsonText.DecimalIsNumber(a.revision);
    JsonText.DecimalIsNumber(b.revision);
    var id := ScenarioId(a);
    assert id == s + ("-" + IntText(a.timestampMs)) && id == t + ("-" + IntText(b.timestampMs));
    DigitsEnd(s, IntText(a.timestampMs));
    DigitsEnd(t, IntText(b.timestampMs));
    assert s == id[..|s|] && t == id[..|t|];
    DecimalsDiffer(a.revision, b.revision);
  }

  /** Revisions grow from one computation to the next, as the worker takes the
      newest pending snapshot. */
  predicate RevisionsIncrease(snapshots: seq<StateSnapshot>) {
    forall i, j :: 0 <= i < j < |snapshots| ==> snapshots[i].revision < snapshots[j].revision
  }

  /** What computation `k` reads. */
  function Outcome(snapshots: seq<StateSnapshot>, k: nat, number: Writer, double: Reader): Terminal
    requires AllComputable(snapshots) && Faithful(number, double) && k < |snapshots|
  {
    Compute(AfterAll(snapshots[..k], number, double), snapshots[k], number, double).1
  }

  /** A computation succeeds exactly when its snapshot and all before it fit the
      runner's widths, and then the runner has run exactly its records. After one
      that does not fit, no later one succeeds on the same process. */
  lemma ComputationSucceedsIff(snapshots: seq<StateSnapshot>, k: nat, number: Writer, double: Reader)
    requires AllComputable(snapshots) && Faithful(number, double) && k < |snapshots|
    requires RevisionsIncrease(snapshots)
    ensures Succeeds(Outcome(snapshots, k, number, double), snapshots[k])
       <==> AllFit(snapshots[..k + 1], number, double)
    ensures AllFit(snapshots[..k + 1], number, double) ==>
      && Sound(BatchOf(snapshots[k]))
      && Outcome(snapshots, k, number, double) == Done(ScenarioOf(BatchOf(snapshots[k])))
      && IsScenarioOf(ScenarioOf(BatchOf(snapshots[k])), snapshots[k])
  {
    hide Faithful, Computable, FitsSnapshot, ScenarioId, AfterAll, Compute, Sound, IsScenarioOf;
    if AllFit(snapshots[..k + 1], number, double) {
      assert Sound(BatchOf(snapshots[k])) by { ComputableIsSound(snapshots[k]); }
      ScenarioIsSnapshots(snapshots[k]);
    }
    var front := snapshots[..k];
    PipeOf(front, number, double);
    ComputeGrows(AfterAll(front, number, double), snapshots[k], number, double);
    FitSplit(snapshots, k, number, double);
    if !AllFit(front, number, double) {
      var read := AfterAll(front, number, double).pipe[0];
      if read.Done? && read.scenario.id == ScenarioId(snapshots[k]) {
        IdIsField(snapshots[k]);
        var i :| 0 <= i < k && ScenarioId(front[i]) == read.scenario.id;
        IdsDiffer(front[i], snapshots[k]);
        assert false;
      }
    }
  }

  lemma ComputableIsSound(snapshot: StateSnapshot)
    requires Computable(snapshot)
    ensures Sound(BatchOf(snapshot))
  {
    hide Closed, Ranged, LinksOf, ScenarioId, RangedFlow, NodeIndex;
    BatchIsSound(snapshot);
  }

  lemma FitSplit(snapshots: seq<StateSnapshot>, k: nat, number: Writer, double: Reader)
    requires k < |snapshots|
    ensures AllFit(snapshots[..k + 1], number, double)
       <==> AllFit(snapshots[..k], number, double) && FitsSnapshot(snapshots[k], number, double)
  {
    hide FitsSnapshot;
    var more, front := snapshots[..k + 1], snapshots[..k];
    if AllFit(more, number, double) {
      forall i | 0 <= i < k ensures FitsSnapshot(front[i], number, double) {
        assert more[i] == front[i];
      }
      assert more[k] == snapshots[k];
    }
    if AllFit(front, number, double) && FitsSnapshot(snapshots[k], number, double) {
      forall i | 0 <= i < k + 1 ensures FitsSnapshot(more[i], number, double) {
        if i < k { assert more[i] == front[i]; }
      }
    }
  }

  /** After any sequence of messages, accepted or not, the snapshot of an
      initialized store can be computed on; if it fits, what the runner runs is
      exactly its records, and valid. */
  lemma StoredStateIsRun(commands: seq<Command>, runner: Runner, number: Writer, double: Reader)
    requires Faithful(number, double) && ExecuteAll(EMPTY_STORE, commands).initialized
    ensures Snapshot(ExecuteAll(EMPTY_STORE, commands)).Some?
    ensures var snapshot := Snapshot(ExecuteAll(EMPTY_STORE, commands)).value;
      && Computable(snapshot) && Sound(BatchOf(snapshot))
      && Ns3Runner.Valid(ScenarioOf(BatchOf(snapshot)))
      && IsScenarioOf(ScenarioOf(BatchOf(snapshot)), snapshot)
      && (FitsSnapshot(snapshot, number, double) ==>
          StepAll(runner, Lines(BatchOf(snapshot), number), double)
          == Runner(ScenarioOf(BatchOf(snapshot)), runner.pipe + [Done(ScenarioOf(BatchOf(snapshot)))]))
  {
    EmptyIsConsistent();
    hide Faithful, StepAll, Lines, Fits, ExecuteAll, Consistent, Snapshot, Closed, Ranged, LinksOf, ScenarioOf,
      ScenarioId, Ns3Runner.Valid, IsScenarioOf;
    StoreStaysConsistent(EMPTY_STORE, commands);
    SnapshotIsRanged(ExecuteAll(EMPTY_STORE, commands));
    var snapshot := Snapshot(ExecuteAll(EMPTY_STORE, commands)).value;
    BatchIsSound(snapshot);
    SoundIsValid(BatchOf(snapshot));
    ScenarioIsSnapshots(snapshot);
    IdIsField(snapshot);
    if FitsSnapshot(snapshot, number, double) {
      FitBatchIsRun(runner, BatchOf(snapshot), number, double);
    }
  }

  lemma EmptyIsConsistent()
    ensures Consistent(EMPTY_STORE)
  {
  }
}
