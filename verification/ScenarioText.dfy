/** The text that the engine hands to the ns-3 runner (`engine.py`, `compute`)
    and the command loop that reads it (`afsim-ns3-runner.cc`, `main`). */
module ScenarioText {
  import opened Wrappers
  import opened Models
  import opened StateStore
  import opened Ns3Runner
  import JsonText
  import JsonScanner

  // ----- Fields of a line ----------------------------------------------------------------

  const TAB: char := '\t'

  function Joined(parts: seq<string>): string {
    if parts == [] then ""
    else if |parts| == 1 then parts[0]
    else parts[0] + [TAB] + Joined(parts[1..])
  }

  function TabAt(line: string): (n: nat)
    ensures n <= |line|
  {
    if line == "" || line[0] == TAB then 0 else 1 + TabAt(line[1..])
  }

  /** `std::getline` with a tab until the stream ends: an empty last field does
      not count. */
  function SplitTabs(line: string): seq<string>
    decreases |line|
  {
    if line == "" then []
    else
      var n := TabAt(line);
      if n == |line| then [line] else [line[..n]] + SplitTabs(line[n + 1..])
  }

  predicate IsField(part: string) {
    part != "" && TAB !in part
  }

  predicate AreFields(parts: seq<string>) {
    forall i :: 0 <= i < |parts| ==> IsField(parts[i])
  }

  lemma {:induction false} TabAfter(part: string, rest: string)
    requires TAB !in part
    ensures TabAt(part) == |part|
    ensures TabAt(part + [TAB] + rest) == |part|
    decreases |part|
  {
    var line := part + [TAB] + rest;
    if part == "" {
      assert line[0] == TAB;
    } else {
      assert line[0] == part[0] && part[0] in part;
      assert line[1..] == part[1..] + [TAB] + rest;
      TabAfter(part[1..], rest);
    }
  }

  /** Fields that are not empty and hold no tab are split as they were joined. */
  lemma {:induction false} SplitJoined(parts: seq<string>)
    requires AreFields(parts)
    ensures SplitTabs(Joined(parts)) == parts
  {
    if parts != [] {
      var first, rest := parts[0], parts[1..];
      TabAfter(first, Joined(rest));
      if |parts| > 1 {
        var line := first + [TAB] + Joined(rest);
        SplitJoined(rest);
        assert line[..|first|] == first && line[|first| + 1..] == Joined(rest);
        assert [first] + rest == parts;
      } else {
        assert parts == [first];
      }
    }
  }

  /** A tab at the end of a line adds no field: fields without tabs, empty or not, are
      split as they were joined. */
  lemma {:induction false} FinalTabAddsNothing(parts: seq<string>)
    requires parts != [] && forall i :: 0 <= i < |parts| ==> TAB !in parts[i]
    ensures SplitTabs(Joined(parts) + [TAB]) == parts
    decreases |parts|
  {
    var first, rest := parts[0], parts[1..];
    var line := Joined(parts) + [TAB];
    var after := if rest == [] then "" else Joined(rest) + [TAB];
    assert line == first + [TAB] + after;
    TabAfter(first, after);
    assert line[..|first|] == first && line[|first| + 1..] == after;
    if rest != [] {
      FinalTabAddsNothing(rest);
    }
    assert [first] + rest == parts;
  }

  // ----- Numbers ------------------------------------------------------------------------------

  const MAX_UINT32: nat := 0xFFFF_FFFF

  /** `std::stoull`: blanks, a sign, digits; a negative number wraps around. */
  function ToUint64(text: string): Option<nat> {
    var body := JsonScanner.SkipBlanks(text);
    var signed := body != "" && (body[0] == '-' || body[0] == '+');
    var digits := if signed then body[1..] else body;
    if digits == "" || !JsonText.IsDigit(digits[0]) then None
    else
      var value :- JsonScanner.ReadDigits(digits, 0);
      Some(
        if signed && body[0] == '-' then (JsonScanner.MAX_UINT64 + 1 - value) % (JsonScanner.MAX_UINT64 + 1)
        else value)
  }

  function ToUint32(text: string): Option<nat> {
    var value :- ToUint64(text);
    if value > MAX_UINT32 then None else Some(value)
  }

  function ToBool(text: string): Option<bool> {
    if text == "1" then Some(true) else if text == "0" then Some(false) else None
  }

  function Flag(b: bool): string {
    if b then "1" else "0"
  }

  /** A decimal numeral is read exactly when it fits the width. */
  lemma NumeralRead(n: nat)
    ensures ToUint64(JsonText.Decimal(n)) == if n <= JsonScanner.MAX_UINT64 then Some(n) else None
    ensures ToUint32(JsonText.Decimal(n)) == if n <= MAX_UINT32 then Some(n) else None
    ensures IsField(JsonText.Decimal(n))
  {
    JsonScanner.DigitsAccumulate(n, "");
    JsonText.DecimalIsNumber(n);
    var text := JsonText.Decimal(n);
    assert text + "" == text;
    assert JsonText.IsDigit(text[0]) && !JsonScanner.IsBlank(text[0]);
    assert JsonScanner.SkipBlanks(text) == text;
    forall c | c in text ensures c != TAB {
      var i :| 0 <= i < |text| && text[i] == c;
      assert JsonText.IsDigit(text[i]);
    }
  }

  /** Behind a minus sign a numeral is read modulo two to the 64. */
  lemma NegativeNumeralRead(n: nat)
    ensures ToUint64("-" + JsonText.Decimal(n))
      == if n <= JsonScanner.MAX_UINT64 then Some((0x1_0000_0000_0000_0000 - n) % 0x1_0000_0000_0000_0000) else None
  {
    JsonScanner.DigitsAccumulate(n, "");
    JsonText.DecimalIsNumber(n);
    var digits := JsonText.Decimal(n);
    var text := "-" + digits;
    assert digits + "" == digits && text[0] == '-' && text[1..] == digits;
    assert !JsonScanner.IsBlank('-');
    assert JsonScanner.SkipBlanks(text) == text;
  }

  lemma FlagMeans(text: string)
    ensures ToBool(text) == Some(true) <==> text == "1"
    ensures ToBool(text) == Some(false) <==> text == "0"
  {
    assert "0"[0] != "1"[0];
  }

  lemma FlagRead(b: bool)
    ensures ToBool(Flag(b)) == Some(b) && IsField(Flag(b))
  {
  }

  // ----- The runner's commands --------------------------------------------------------------------

  const SCENARIO := "SCENARIO"
  const NODE := "NODE"
  const LINK := "LINK"
  const FLOW := "FLOW"
  const RUN := "RUN"

  lemma WordsDiffer()
    ensures SCENARIO != NODE && SCENARIO != LINK && SCENARIO != FLOW && SCENARIO != RUN
    ensures NODE != LINK && NODE != FLOW && NODE != RUN && LINK != FLOW && LINK != RUN && FLOW != RUN
    ensures AreFields([SCENARIO, NODE, LINK, FLOW, RUN])
  {
    assert NODE[0] == 'N' && LINK[0] == 'L' && FLOW[0] == 'F';
  }

  const NO_SCENARIO := Scenario("", 0, 0, 0, [], [], [])

  type Reader = string -> Option<real>

  function ReadNode(parts: seq<string>, double: Reader): Option<NodeInput> {
    if |parts| != 6 then None
    else
      var index :- ToUint32(parts[1]);
      var x :- double(parts[2]);
      var y :- double(parts[3]);
      var z :- double(parts[4]);
      var alive :- ToBool(parts[5]);
      Some(NodeInput(index, x, y, z, alive))
  }

  function ReadLink(parts: seq<string>, double: Reader): Option<LinkInput> {
    if |parts| != 8 then None
    else
      var index :- ToUint32(parts[1]);
      var source :- ToUint32(parts[2]);
      var target :- ToUint32(parts[3]);
      var dataRateBps :- ToUint64(parts[4]);
      var delayMs :- double(parts[5]);
      var lossRate :- double(parts[6]);
      var up :- ToBool(parts[7]);
      Some(LinkInput(index, source, target, dataRateBps, delayMs, lossRate, up))
  }

  function ReadFlow(parts: seq<string>): Option<FlowInput> {
    if |parts| != 8 then None
    else
      var index :- ToUint32(parts[1]);
      var source :- ToUint32(parts[2]);
      var target :- ToUint32(parts[3]);
      var packetSizeBytes :- ToUint32(parts[4]);
      var intervalMs :- ToUint32(parts[5]);
      var durationMs :- ToUint32(parts[6]);
      var enabled :- ToBool(parts[7]);
      Some(FlowInput(index, source, target, packetSizeBytes, intervalMs, durationMs, enabled))
  }

  function ReadHeader(parts: seq<string>): Option<Scenario> {
    if |parts| != 5 then None
    else
      var nodes :- ToUint32(parts[2]);
      var links :- ToUint32(parts[3]);
      var flows :- ToUint32(parts[4]);
      Some(Scenario(parts[1], nodes, links, flows, [], [], []))
  }

  /** A command that is not `RUN`; `None` is an exception. */
  function Obey(scenario: Scenario, parts: seq<string>, double: Reader): Option<Scenario>
    requires parts != []
  {
    if parts[0] == SCENARIO then ReadHeader(parts)
    else if parts[0] == NODE then
      var node :- ReadNode(parts, double);
      Some(scenario.(nodes := scenario.nodes + [node]))
    else if parts[0] == LINK then
      var link :- ReadLink(parts, double);
      Some(scenario.(links := scenario.links + [link]))
    else if parts[0] == FLOW then
      var flow :- ReadFlow(parts);
      Some(scenario.(flows := scenario.flows + [flow]))
    else None
  }

  /** What ends a group of output lines: an `ERROR` line, or the `DONE` line of a
      scenario that was run. */
  datatype Terminal = Failed | Done(scenario: Scenario)

  /** The scenario being put together, and the groups written and not yet read. */
  datatype Runner = Runner(scenario: Scenario, pipe: seq<Terminal>)

  function Fail(runner: Runner): Runner {
    Runner(NO_SCENARIO, runner.pipe + [Failed])
  }

  /** One line of the command loop. After an error the scenario is forgotten. */
  function Step(runner: Runner, line: string, double: Reader): Runner {
    var parts := SplitTabs(line);
    if parts == [] then runner
    else if parts[0] == RUN then
      if Ns3Runner.Valid(runner.scenario) then runner.(pipe := runner.pipe + [Done(runner.scenario)]) else Fail(runner)
    else
      match Obey(runner.scenario, parts, double)
      case None => Fail(runner)
      case Some(scenario) => runner.(scenario := scenario)
  }

  /** A line without fields is skipped. A line of an unknown command, or with the wrong
      number of fields, is an error: it is reported and the scenario forgotten. */
  lemma BadLineFails(runner: Runner, line: string, double: Reader)
    ensures SplitTabs(line) == [] ==> Step(runner, line, double) == runner
    ensures var parts := SplitTabs(line);
      && parts != [] && line != "QUIT"
      && (|| (parts[0] == "NODE" && |parts| != 6) || (parts[0] == "LINK" && |parts| != 8)
          || (parts[0] == "FLOW" && |parts| != 8) || (parts[0] == "SCENARIO" && |parts| != 5)
          || (&& parts[0] != "NODE" && parts[0] != "LINK" && parts[0] != "FLOW" && parts[0] != "SCENARIO"
              && parts[0] != "RUN"))
      ==>
        Step(runner, line, double) == Runner(Scenario("", 0, 0, 0, [], [], []), runner.pipe + [Failed])
  {
    hide ToUint32, ToUint64, ToBool, SplitTabs;
    WordsDiffer();
  }

  function StepAll(runner: Runner, lines: seq<string>, double: Reader): Runner
    decreases |lines|
  {
    if lines == [] then runner else Step(StepAll(runner, lines[..|lines| - 1], double), lines[|lines| - 1], double)
  }

  lemma {:induction false} StepAllConcat(runner: Runner, a: seq<string>, b: seq<string>, double: Reader)
    ensures StepAll(runner, a + b, double) == StepAll(StepAll(runner, a, double), b, double)
    decreases |b|
  {
    hide Step;
    if b == [] {
      assert a + b == a;
    } else {
      var n := |b|;
      assert (a + b)[..|a + b| - 1] == a + b[..n - 1] && (a + b)[|a + b| - 1] == b[n - 1];
      StepAllConcat(runner, a, b[..n - 1], double);
    }
  }

  // ----- The engine's lines ----------------------------------------------------------------------------

  /** `LinkRecord`: one for each device of each entity. */
  datatype EngineLink = EngineLink(
    linkId: string, source: string, target: string, kind: string, dataRateBps: int,
    delayMs: real, lossRate: real, up: bool)

  /** `node_index`: an id that occurs twice has the last index. */
  function NodeIndex(entities: seq<Entity>, id: string): Option<nat>
    decreases |entities|
  {
    if entities == [] then None
    else if entities[|entities| - 1].entityId == id then Some(|entities| - 1)
    else NodeIndex(entities[..|entities| - 1], id)
  }

  /** `alive.get(id, False)`. */
  function IsAlive(entities: seq<Entity>, id: string): bool
    decreases |entities|
  {
    if entities == [] then false
    else if entities[|entities| - 1].entityId == id then entities[|entities| - 1].alive
    else IsAlive(entities[..|entities| - 1], id)
  }

  function LinkOf(all: seq<Entity>, entity: Entity, device: Device): EngineLink {
    EngineLink(entity.entityId + ":" + device.deviceId, entity.entityId, device.peer, device.kind, device.dataRateBps,
               device.delayMs, device.lossRate,
               device.linkState == "UP" && entity.alive && IsAlive(all, device.peer))
  }

  function LinksOfEntity(all: seq<Entity>, entity: Entity, devices: seq<Device>): (links: seq<EngineLink>)
    ensures |links| == |devices|
    ensures forall i :: 0 <= i < |devices| ==> links[i] == LinkOf(all, entity, devices[i])
  {
    seq(|devices|, i requires 0 <= i < |devices| => LinkOf(all, entity, devices[i]))
  }

  function LinksOf(all: seq<Entity>, entities: seq<Entity>): seq<EngineLink>
    decreases |entities|
  {
    if entities == [] then []
    else
      var last := entities[|entities| - 1];
      LinksOf(all, entities[..|entities| - 1]) + LinksOfEntity(all, last, last.devices)
  }

  /** `_links`. */
  method Links(snapshot: StateSnapshot) returns (links: seq<EngineLink>)
    ensures links == LinksOf(snapshot.entities, snapshot.entities)
  {
    hide LinkOf;
    var all := snapshot.entities;
    links := [];
    assert all[..0] == [];
    for i := 0 to |all|
      invariant links == LinksOf(all, all[..i])
    {
      var entity := all[i];
      ghost var before := links;
      for j := 0 to |entity.devices|
        invariant links == before + LinksOfEntity(all, entity, entity.devices[..j])
      {
        assert LinksOfEntity(all, entity, entity.devices[..j + 1])
            == LinksOfEntity(all, entity, entity.devices[..j]) + [LinkOf(all, entity, entity.devices[j])];
        links := links + [LinkOf(all, entity, entity.devices[j])];
      }
      assert entity.devices[..|entity.devices|] == entity.devices;
      assert all[..i + 1][..i] == all[..i];
    }
    assert all[..|all|] == all;
  }

  function IntText(n: int): string {
    if n < 0 then "-" + JsonText.Decimal(-n) else JsonText.Decimal(n)
  }

  function ScenarioId(snapshot: StateSnapshot): string {
    JsonText.Decimal(snapshot.revision) + "-" + IntText(snapshot.timestampMs)
  }

  type Writer = real -> string

  function HeaderParts(id: string, nodes: nat, links: nat, flows: nat): seq<string> {
    [SCENARIO, id, JsonText.Decimal(nodes), JsonText.Decimal(links), JsonText.Decimal(flows)]
  }

  function NodeParts(index: nat, entity: Entity, number: Writer): seq<string> {
    [NODE, JsonText.Decimal(index), number(entity.position.x), number(entity.position.y), number(entity.position.z),
     Flag(entity.alive)]
  }

  function LinkParts(index: nat, source: nat, target: nat, link: EngineLink, number: Writer): seq<string> {
    [LINK, JsonText.Decimal(index), JsonText.Decimal(source), JsonText.Decimal(target), IntText(link.dataRateBps),
     number(link.delayMs), number(link.lossRate), Flag(link.up)]
  }

  function FlowParts(index: nat, source: nat, target: nat, flow: Flow, enabled: bool): seq<string> {
    [FLOW, JsonText.Decimal(index), JsonText.Decimal(source), JsonText.Decimal(target), IntText(flow.packetSizeBytes),
     IntText(flow.intervalMs), IntText(flow.durationMs), Flag(enabled)]
  }

  function Enabled(entities: seq<Entity>, flow: Flow): bool {
    flow.active && IsAlive(entities, flow.source) && IsAlive(entities, flow.target)
  }

  /** `node_index[id]`, for an id that is there. */
  function IndexOf(entities: seq<Entity>, id: string): nat
    requires NodeIndex(entities, id).Some?
  {
    NodeIndex(entities, id).value
  }
}
