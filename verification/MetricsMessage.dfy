/** The service's metrics message: how it is written, and how the two gates of
    the client read it (`MessageTransportGate.cpp`, `NetworkEffectGate.cpp`). */
module MetricsMessage {
  import opened Wrappers
  import opened JsonText
  import opened JsonScanner
  import opened KeySearch
  import opened FieldReading
  import opened FieldNames

  const METRICS := "ns3_metrics"

  // ----- What the gates take from a message --------------------------------------------

  /** A directed link as the message gate reads it. */
  datatype LinkEntry = LinkEntry(source: string, target: string, up: bool, delayMs: real, lossRate: real)

  /** A flow's measurement as the message gate reads it. */
  datatype MetricEntry = MetricEntry(source: string, target: string, usable: bool, latencyMs: real)

  datatype Metrics = Metrics(revision: nat, links: seq<LinkEntry>, metrics: seq<MetricEntry>)

  datatype EffectState = Available | Degraded | Blocked

  datatype EffectDecision = EffectDecision(
    entityId: string, subsystemId: string, subsystemType: string, peerEntityId: string,
    state: EffectState, revision: nat)

  datatype Effects = Effects(revision: nat, decisions: seq<EffectDecision>)

  /** What reading a line comes to: an exception, a message of another type, or
      a metrics message. */
  datatype Reading<T> = Throws | OtherMessage | Message(value: T)

  // ----- Reading ---------------------------------------------------------------------------

  /** The elements read one by one; the first that throws ends it. */
  function ReadAll<T>(objects: seq<string>, read: string -> Option<T>): Option<seq<T>>
    decreases |objects|
  {
    if objects == [] then Some([])
    else
      var front :- ReadAll(objects[..|objects| - 1], read);
      var last :- read(objects[|objects| - 1]);
      Some(front + [last])
  }

  /** `JsonDouble`; `double` is the conversion of the number's text. */
  function DoubleField(json: string, key: string, double: string -> Option<real>): Option<real> {
    var text :- NumberField(json, key);
    double(text)
  }

  function ReadLink(link: string, double: string -> Option<real>): Option<LinkEntry> {
    var state :- StringField(link, LINK_NAMES[7]);
    var delayMs :- DoubleField(link, LINK_NAMES[5], double);
    var lossRate :- DoubleField(link, LINK_NAMES[6], double);
    var source :- StringField(link, LINK_NAMES[1]);
    var target :- StringField(link, LINK_NAMES[2]);
    Some(LinkEntry(source, target, state == "UP", delayMs, lossRate))
  }

  /** The state of the link is looked at only when the flow is connected. */
  function ReadMetric(metric: string, double: string -> Option<real>): Option<MetricEntry> {
    var source :- StringField(metric, METRIC_NAMES[1]);
    var target :- StringField(metric, METRIC_NAMES[2]);
    var connected :- BooleanField(metric, METRIC_NAMES[3]);
    var state :- if connected then StringField(metric, METRIC_NAMES[9]) else Some("");
    var latencyMs :- DoubleField(metric, METRIC_NAMES[4], double);
    Some(MetricEntry(source, target, connected && state == "UP", latencyMs))
  }

  function ParseState(text: string): Option<EffectState> {
    if text == "AVAILABLE" then Some(Available)
    else if text == "DEGRADED" then Some(Degraded)
    else if text == "BLOCKED" then Some(Blocked)
    else None
  }

  function ReadEffect(effect: string, revision: nat): Option<EffectDecision> {
    var entityId :- StringField(effect, EFFECT_NAMES[0]);
    var subsystemId :- StringField(effect, EFFECT_NAMES[2]);
    var subsystemType :- StringField(effect, EFFECT_NAMES[3]);
    var peerEntityId :- StringField(effect, EFFECT_NAMES[4]);
    var text :- StringField(effect, EFFECT_NAMES[5]);
    var state :- ParseState(text);
    Some(EffectDecision(entityId, subsystemId, subsystemType, peerEntityId, state, revision))
  }

  function ReadLinks(objects: seq<string>, double: string -> Option<real>): Option<seq<LinkEntry>> {
    ReadAll(objects, o => ReadLink(o, double))
  }

  function ReadMetricEntries(objects: seq<string>, double: string -> Option<real>): Option<seq<MetricEntry>> {
    ReadAll(objects, o => ReadMetric(o, double))
  }

  function ReadDecisions(objects: seq<string>, revision: nat): Option<seq<EffectDecision>> {
    ReadAll(objects, o => ReadEffect(o, revision))
  }

  /** Type and revision, which both gates read first. */
  function ReadRevision(line: string): Reading<nat> {
    match StringField(line, MESSAGE_NAMES[1])
    case None => Throws
    case Some(messageType) =>
      if messageType != METRICS then OtherMessage
      else
        match Uint64Field(line, MESSAGE_NAMES[5])
        case None => Throws
        case Some(revision) => Message(revision)
  }

  function ReadMetricsBody(line: string, revision: nat, double: string -> Option<real>): Option<Metrics> {
    var linkObjects :- ObjectArray(line, MESSAGE_NAMES[8]);
    var links :- ReadLinks(linkObjects, double);
    var metricObjects :- ObjectArray(line, MESSAGE_NAMES[9]);
    var metrics :- ReadMetricEntries(metricObjects, double);
    Some(Metrics(revision, links, metrics))
  }

  function ReadMetrics(line: string, double: string -> Option<real>): Reading<Metrics> {
    match ReadRevision(line)
    case Throws => Throws
    case OtherMessage => OtherMessage
    case Message(revision) =>
      match ReadMetricsBody(line, revision, double)
      case None => Throws
      case Some(metrics) => Message(metrics)
  }

  function ReadEffects(line: string): Reading<Effects> {
    match ReadRevision(line)
    case Throws => Throws
    case OtherMessage => OtherMessage
    case Message(revision) =>
      match ObjectArray(line, MESSAGE_NAMES[12])
      case None => Throws
      case Some(objects) =>
        match ReadDecisions(objects, revision)
        case None => Throws
        case Some(decisions) => Message(Effects(revision, decisions))
  }

  /** Both gates see the same type and the same revision in a line. */
  lemma GatesAgree(line: string, double: string -> Option<real>)
    ensures ReadMetrics(line, double).OtherMessage? <==> ReadEffects(line).OtherMessage?
    ensures ReadMetrics(line, double).Message? && ReadEffects(line).Message? ==>
      ReadMetrics(line, double).value.revision == ReadEffects(line).value.revision
  {
    hide StringField, Uint64Field, ObjectArray, ReadLinks, ReadMetricEntries, ReadDecisions;
  }

  // ----- Writing ---------------------------------------------------------------------------

  datatype LinkRecord = LinkRecord(
    linkId: string, source: string, target: string, kind: string, dataRateBps: nat,
    delayMs: real, lossRate: real, state: string)

  datatype MetricRecord = MetricRecord(
    flowId: string, source: string, target: string, connected: bool, latencyMs: real, lossRate: real,
    throughputBps: real, txPackets: nat, rxPackets: nat, linkState: string)

  datatype EffectRecord = EffectRecord(
    entityId: string, businessNodeId: string, subsystemId: string, subsystemType: string,
    peerEntityId: string, state: EffectState, reasons: seq<Tree>, thresholds: Tree)

  /** The response that `_compute_loop` broadcasts. The members that the client
      does not read are JSON values of any kind. */
  datatype Response = Response(
    status: Tree, requestId: string, timestampMs: nat, revision: nat, nodeMappings: Tree, nodes: Tree,
    links: seq<LinkRecord>, metrics: seq<MetricRecord>, computeMs: Tree, queueState: Tree,
    effects: seq<EffectRecord>)

  function StateText(state: EffectState): string {
    match state
    case Available => "AVAILABLE"
    case Degraded => "DEGRADED"
    case Blocked => "BLOCKED"
  }

  lemma StateReadsBack(state: EffectState)
    ensures ParseState(StateText(state)) == Some(state) && Readable(StateText(state))
  {
    ReadableMeans(StateText(state));
  }

  function LinkValues(link: LinkRecord, number: real -> string): (values: seq<Tree>)
    ensures |values| == |LINK_NAMES|
  {
    [Text(link.linkId), Text(link.source), Text(link.target), Text(link.kind), Literal(Decimal(link.dataRateBps)),
     Literal(number(link.delayMs)), Literal(number(link.lossRate)), Text(link.state)]
  }

  function MetricValues(metric: MetricRecord, number: real -> string): (values: seq<Tree>)
    ensures |values| == |METRIC_NAMES|
  {
    [Text(metric.flowId), Text(metric.source), Text(metric.target), Literal(BooleanText(metric.connected)),
     Literal(number(metric.latencyMs)), Literal(number(metric.lossRate)), Literal(number(metric.throughputBps)),
     Literal(Decimal(metric.txPackets)), Literal(Decimal(metric.rxPackets)), Text(metric.linkState),
     Text(metric.source + "->" + metric.target)]
  }

  function EffectValues(effect: EffectRecord): (values: seq<Tree>)
    ensures |values| == |EFFECT_NAMES|
  {
    [Text(effect.entityId), Text(effect.businessNodeId), Text(effect.subsystemId), Text(effect.subsystemType),
     Text(effect.peerEntityId), Text(StateText(effect.state)), Array(effect.reasons), effect.thresholds]
  }

  function LinkTree(link: LinkRecord, number: real -> string): Tree {
    Object(Members(LINK_NAMES, LinkValues(link, number)))
  }

  function MetricTree(metric: MetricRecord, number: real -> string): Tree {
    Object(Members(METRIC_NAMES, MetricValues(metric, number)))
  }

  function EffectTree(effect: EffectRecord): Tree {
    Object(Members(EFFECT_NAMES, EffectValues(effect)))
  }

  function LinkTrees(links: seq<LinkRecord>, number: real -> string): (trees: seq<Tree>)
    ensures |trees| == |links|
    ensures forall i :: 0 <= i < |links| ==> trees[i] == LinkTree(links[i], number)
  {
    seq(|links|, i requires 0 <= i < |links| => LinkTree(links[i], number))
  }

  function MetricTrees(metrics: seq<MetricRecord>, number: real -> string): (trees: seq<Tree>)
    ensures |trees| == |metrics|
    ensures forall i :: 0 <= i < |metrics| ==> trees[i] == MetricTree(metrics[i], number)
  {
    seq(|metrics|, i requires 0 <= i < |metrics| => MetricTree(metrics[i], number))
  }

  function EffectTrees(effects: seq<EffectRecord>): (trees: seq<Tree>)
    ensures |trees| == |effects|
    ensures forall i :: 0 <= i < |effects| ==> trees[i] == EffectTree(effects[i])
  {
    seq(|effects|, i requires 0 <= i < |effects| => EffectTree(effects[i]))
  }

  function ResponseValues(response: Response, number: real -> string): (values: seq<Tree>)
    ensures |values| == |MESSAGE_NAMES|
  {
    [Text("0.2"), Text(METRICS), response.status, Text(response.requestId), Literal(Decimal(response.timestampMs)),
     Literal(Decimal(response.revision)), response.nodeMappings, response.nodes,
     Array(LinkTrees(response.links, number)), Array(MetricTrees(response.metrics, number)), response.computeMs,
     response.queueState, Array(EffectTrees(response.effects))]
  }

  function ResponseTree(response: Response, number: real -> string): Tree {
    Object(Members(MESSAGE_NAMES, ResponseValues(response, number)))
  }

  // ----- What must hold of a response for its fields to be found ----------------------------

  /** Nothing written before a field that is looked up looks like its name. */
  ghost predicate LookupsClean(names: seq<string>, values: seq<Tree>, wanted: set<nat>)
    requires |names| == |values|
  {
    forall i, j :: i in wanted && i < |names| && 0 <= j < i ==> Clean(values[j], names[i])
  }

  const LINK_LOOKUPS: set<nat> := {1, 2, 5, 6, 7}
  const METRIC_LOOKUPS: set<nat> := {1, 2, 3, 4, 9}
  const EFFECT_LOOKUPS: set<nat> := {0, 2, 3, 4, 5}
  const MESSAGE_LOOKUPS: set<nat> := {1, 5, 8, 9, 12}

  /** The number's text is one, and the client reads its value back. */
  ghost predicate Exact(value: real, number: real -> string, double: string -> Option<real>) {
    IsNumberText(number(value)) && double(number(value)) == Some(value)
  }

  ghost predicate GoodLink(link: LinkRecord, number: real -> string, double: string -> Option<real>) {
    && Exact(link.delayMs, number, double) && Exact(link.lossRate, number, double)
    && Readable(link.source) && Readable(link.target) && Readable(link.state)
    && LookupsClean(LINK_NAMES, LinkValues(link, number), LINK_LOOKUPS)
  }

  ghost predicate GoodMetric(metric: MetricRecord, number: real -> string, double: string -> Option<real>) {
    && Exact(metric.latencyMs, number, double)
    && IsNumberText(number(metric.lossRate)) && IsNumberText(number(metric.throughputBps))
    && Readable(metric.source) && Readable(metric.target) && Readable(metric.linkState)
    && LookupsClean(METRIC_NAMES, MetricValues(metric, number), METRIC_LOOKUPS)
  }

  ghost predicate GoodEffect(effect: EffectRecord) {
    && Proper(Array(effect.reasons)) && Proper(effect.thresholds)
    && Readable(effect.entityId) && Readable(effect.subsystemId) && Readable(effect.subsystemType)
    && Readable(effect.peerEntityId)
    && LookupsClean(EFFECT_NAMES, EffectValues(effect), EFFECT_LOOKUPS)
  }

  ghost predicate GoodResponse(response: Response, number: real -> string, double: string -> Option<real>) {
    && response.revision <= MAX_UINT64
    && Proper(response.status) && Proper(response.nodeMappings) && Proper(response.nodes)
    && Proper(response.computeMs) && Proper(response.queueState)
    && (forall i :: 0 <= i < |response.links| ==> GoodLink(response.links[i], number, double))
    && (forall i :: 0 <= i < |response.metrics| ==> GoodMetric(response.metrics[i], number, double))
    && (forall i :: 0 <= i < |response.effects| ==> GoodEffect(response.effects[i]))
    && LookupsClean(MESSAGE_NAMES, ResponseValues(response, number), MESSAGE_LOOKUPS)
  }

  // ----- What is read back ---------------------------------------------------------------------

  function EntryOfLink(link: LinkRecord): LinkEntry {
    LinkEntry(link.source, link.target, link.state == "UP", link.delayMs, link.lossRate)
  }

  function EntryOfMetric(metric: MetricRecord): MetricEntry {
    MetricEntry(metric.source, metric.target, metric.connected && metric.linkState == "UP", metric.latencyMs)
  }

  function DecisionOf(effect: EffectRecord, revision: nat): EffectDecision {
    EffectDecision(
      effect.entityId, effect.subsystemId, effect.subsystemType, effect.peerEntityId, effect.state, revision)
  }

  function EntriesOfLinks(links: seq<LinkRecord>): (entries: seq<LinkEntry>)
    ensures |entries| == |links|
    ensures forall i :: 0 <= i < |links| ==> entries[i] == EntryOfLink(links[i])
  {
    seq(|links|, i requires 0 <= i < |links| => EntryOfLink(links[i]))
  }

  function EntriesOfMetrics(metrics: seq<MetricRecord>): (entries: seq<MetricEntry>)
    ensures |entries| == |metrics|
    ensures forall i :: 0 <= i < |metrics| ==> entries[i] == EntryOfMetric(metrics[i])
  {
    seq(|metrics|, i requires 0 <= i < |metrics| => EntryOfMetric(metrics[i]))
  }

  function DecisionsOf(effects: seq<EffectRecord>, revision: nat): (decisions: seq<EffectDecision>)
    ensures |decisions| == |effects|
    ensures forall i :: 0 <= i < |effects| ==> decisions[i] == DecisionOf(effects[i], revision)
  {
    seq(|effects|, i requires 0 <= i < |effects| => DecisionOf(effects[i], revision))
  }

  lemma ProperLink(link: LinkRecord, number: real -> string)
    requires IsNumberText(number(link.delayMs)) && IsNumberText(number(link.lossRate))
    ensures forall j :: 0 <= j < |LINK_NAMES| ==> Proper(LinkValues(link, number)[j])
  {
    hide Decimal;
    DecimalIsNumber(link.dataRateBps);
  }

  lemma LinkField(link: LinkRecord, i: nat, number: real -> string, double: string -> Option<real>)
    requires GoodLink(link, number, double) && i in LINK_LOOKUPS
    ensures i < |LINK_NAMES| && Reachable(Members(LINK_NAMES, LinkValues(link, number)), i, LINK_NAMES[i])
  {
    hide Reachable, Proper, Clean, Readable, IsNumberText, Good, LinkValues;
    ProperLink(link, number);
    LinkNamesAreGood();
    FieldReachable(LINK_NAMES, LinkValues(link, number), i);
  }

  lemma LinkReadsBack(link: LinkRecord, number: real -> string, double: string -> Option<real>)
    requires GoodLink(link, number, double)
    ensures ReadLink(Render(LinkTree(link, number)), double) == Some(EntryOfLink(link))
  {
    hide Reachable, Readable, IsNumberText, StringField, NumberField, Render, LookupsClean;
    var members := Members(LINK_NAMES, LinkValues(link, number));
    LinkField(link, 1, number, double);
    LinkField(link, 2, number, double);
    LinkField(link, 5, number, double);
    LinkField(link, 6, number, double);
    LinkField(link, 7, number, double);
    assert Render(Object(members)) + "" == Render(Object(members));
    StringFieldRead(members, 1, LINK_NAMES[1], "");
    StringFieldRead(members, 2, LINK_NAMES[2], "");
    NumberFieldRead(members, 5, LINK_NAMES[5], "");
    NumberFieldRead(members, 6, LINK_NAMES[6], "");
    StringFieldRead(members, 7, LINK_NAMES[7], "");
  }

  lemma ProperMetric(metric: MetricRecord, number: real -> string)
    requires IsNumberText(number(metric.latencyMs)) && IsNumberText(number(metric.lossRate))
    requires IsNumberText(number(metric.throughputBps))
    ensures forall j :: 0 <= j < |METRIC_NAMES| ==> Proper(MetricValues(metric, number)[j])
  {
    hide Decimal;
    DecimalIsNumber(metric.txPackets);
    DecimalIsNumber(metric.rxPackets);
  }

  lemma MetricField(metric: MetricRecord, i: nat, number: real -> string, double: string -> Option<real>)
    requires GoodMetric(metric, number, double) && i in METRIC_LOOKUPS
    ensures i < |METRIC_NAMES| && Reachable(Members(METRIC_NAMES, MetricValues(metric, number)), i, METRIC_NAMES[i])
  {
    hide Reachable, Proper, Clean, Readable, IsNumberText, Good, MetricValues;
    ProperMetric(metric, number);
    MetricNamesAreGood();
    FieldReachable(METRIC_NAMES, MetricValues(metric, number), i);
  }

  lemma MetricReadsBack(metric: MetricRecord, number: real -> string, double: string -> Option<real>)
    requires GoodMetric(metric, number, double)
    ensures ReadMetric(Render(MetricTree(metric, number)), double) == Some(EntryOfMetric(metric))
  {
    hide Reachable, Readable, IsNumberText, StringField, NumberField, BooleanField, Render, LookupsClean, BooleanText;
    var members := Members(METRIC_NAMES, MetricValues(metric, number));
    MetricField(metric, 1, number, double);
    MetricField(metric, 2, number, double);
    MetricField(metric, 3, number, double);
    MetricField(metric, 4, number, double);
    MetricField(metric, 9, number, double);
    assert Render(Object(members)) + "" == Render(Object(members));
    StringFieldRead(members, 1, METRIC_NAMES[1], "");
    StringFieldRead(members, 2, METRIC_NAMES[2], "");
    BooleanFieldRead(members, 3, METRIC_NAMES[3], metric.connected, "");
    NumberFieldRead(members, 4, METRIC_NAMES[4], "");
    StringFieldRead(members, 9, METRIC_NAMES[9], "");
  }

  lemma EffectField(effect: EffectRecord, i: nat)
    requires GoodEffect(effect) && i in EFFECT_LOOKUPS
    ensures i < |EFFECT_NAMES| && Reachable(Members(EFFECT_NAMES, EffectValues(effect)), i, EFFECT_NAMES[i])
  {
    hide Reachable, Clean, Readable, Good;
    assert forall j :: 0 <= j < |EFFECT_NAMES| ==> Proper(EffectValues(effect)[j]);
    EffectNamesAreGood();
    FieldReachable(EFFECT_NAMES, EffectValues(effect), i);
  }

  lemma EffectReadsBack(effect: EffectRecord, revision: nat)
    requires GoodEffect(effect)
    ensures ReadEffect(Render(EffectTree(effect)), revision) == Some(DecisionOf(effect, revision))
  {
    hide Reachable, Readable, StringField, Render, LookupsClean, StateText, ParseState;
    var members := Members(EFFECT_NAMES, EffectValues(effect));
    EffectField(effect, 0);
    EffectField(effect, 2);
    EffectField(effect, 3);
    EffectField(effect, 4);
    EffectField(effect, 5);
    assert Render(Object(members)) + "" == Render(Object(members));
    StateReadsBack(effect.state);
    StringFieldRead(members, 0, EFFECT_NAMES[0], "");
    StringFieldRead(members, 2, EFFECT_NAMES[2], "");
    StringFieldRead(members, 3, EFFECT_NAMES[3], "");
    StringFieldRead(members, 4, EFFECT_NAMES[4], "");
    StringFieldRead(members, 5, EFFECT_NAMES[5], "");
  }

  // ----- Whole arrays and the whole message ---------------------------------------------------

  lemma RenderEachIs(items: seq<Tree>)
    ensures |RenderEach(items)| == |items|
    ensures forall i :: 0 <= i < |items| ==> RenderEach(items)[i] == Render(items[i])
  {
    hide Render;
    if items != [] {
      RenderEachIs(items[1..]);
    }
  }

  /** Objects that are read one by one are all read. */
  lemma {:induction false} ReadEach<T>(objects: seq<string>, read: string -> Option<T>, values: seq<T>)
    requires |objects| == |values|
    requires forall i :: 0 <= i < |objects| ==> read(objects[i]) == Some(values[i])
    ensures ReadAll(objects, read) == Some(values)
    decreases |objects|
  {
    var n := |objects|;
    if n > 0 {
      ReadEach(objects[..n - 1], read, values[..n - 1]);
      assert values == values[..n - 1] + [values[n - 1]];
    }
  }

  lemma LinksReadBack(links: seq<LinkRecord>, number: real -> string, double: string -> Option<real>)
    requires forall i :: 0 <= i < |links| ==> GoodLink(links[i], number, double)
    ensures ReadLinks(RenderEach(LinkTrees(links, number)), double) == Some(EntriesOfLinks(links))
  {
    hide GoodLink, ReadLink, LinkTree, RenderEach, ReadAll, EntryOfLink, Render;
    var objects := RenderEach(LinkTrees(links, number));
    RenderEachIs(LinkTrees(links, number));
    forall i | 0 <= i < |links| ensures ReadLink(objects[i], double) == Some(EntriesOfLinks(links)[i]) {
      LinkReadsBack(links[i], number, double);
    }
    ReadEach(objects, o => ReadLink(o, double), EntriesOfLinks(links));
  }

  lemma MetricsReadBack(metrics: seq<MetricRecord>, number: real -> string, double: string -> Option<real>)
    requires forall i :: 0 <= i < |metrics| ==> GoodMetric(metrics[i], number, double)
    ensures ReadMetricEntries(RenderEach(MetricTrees(metrics, number)), double) == Some(EntriesOfMetrics(metrics))
  {
    hide GoodMetric, ReadMetric, MetricTree, RenderEach, ReadAll, EntryOfMetric, Render;
    var objects := RenderEach(MetricTrees(metrics, number));
    RenderEachIs(MetricTrees(metrics, number));
    forall i | 0 <= i < |metrics| ensures ReadMetric(objects[i], double) == Some(EntriesOfMetrics(metrics)[i]) {
      MetricReadsBack(metrics[i], number, double);
    }
    ReadEach(objects, o => ReadMetric(o, double), EntriesOfMetrics(metrics));
  }

  lemma EffectsReadBack(effects: seq<EffectRecord>, revision: nat)
    requires forall i :: 0 <= i < |effects| ==> GoodEffect(effects[i])
    ensures ReadDecisions(RenderEach(EffectTrees(effects)), revision) == Some(DecisionsOf(effects, revision))
  {
    hide GoodEffect, ReadEffect, EffectTree, RenderEach, ReadAll, DecisionOf, Render;
    var objects := RenderEach(EffectTrees(effects));
    RenderEachIs(EffectTrees(effects));
    forall i | 0 <= i < |effects| ensures ReadEffect(objects[i], revision) == Some(DecisionsOf(effects, revision)[i]) {
      EffectReadsBack(effects[i], revision);
    }
    ReadEach(objects, o => ReadEffect(o, revision), DecisionsOf(effects, revision));
  }

  lemma ProperLinkTree(link: LinkRecord, number: real -> string, double: string -> Option<real>)
    requires GoodLink(link, number, double)
    ensures Proper(LinkTree(link, number))
  {
    hide LinkValues, LookupsClean, IsNumberText, Readable;
    ProperLink(link, number);
    MembersProper(LINK_NAMES, LinkValues(link, number));
  }

  lemma ProperMetricTree(metric: MetricRecord, number: real -> string, double: string -> Option<real>)
    requires GoodMetric(metric, number, double)
    ensures Proper(MetricTree(metric, number))
  {
    hide MetricValues, LookupsClean, IsNumberText, Readable;
    ProperMetric(metric, number);
    MembersProper(METRIC_NAMES, MetricValues(metric, number));
  }

  lemma ProperEffectTree(effect: EffectRecord)
    requires GoodEffect(effect)
    ensures Proper(EffectTree(effect))
  {
    hide LookupsClean, Readable;
    assert forall j :: 0 <= j < |EFFECT_NAMES| ==> Proper(EffectValues(effect)[j]);
    MembersProper(EFFECT_NAMES, EffectValues(effect));
  }

  lemma ProperResponse(response: Response, number: real -> string, double: string -> Option<real>)
    requires GoodResponse(response, number, double)
    ensures forall j :: 0 <= j < |MESSAGE_NAMES| ==> Proper(ResponseValues(response, number)[j])
  {
    hide Decimal, GoodLink, GoodMetric, GoodEffect, LinkTree, MetricTree, EffectTree, LookupsClean;
    DecimalIsNumber(response.timestampMs);
    DecimalIsNumber(response.revision);
    forall i | 0 <= i < |response.links| ensures Proper(LinkTree(response.links[i], number)) {
      ProperLinkTree(response.links[i], number, double);
    }
    forall i | 0 <= i < |response.metrics| ensures Proper(MetricTree(response.metrics[i], number)) {
      ProperMetricTree(response.metrics[i], number, double);
    }
    forall i | 0 <= i < |response.effects| ensures Proper(EffectTree(response.effects[i])) {
      ProperEffectTree(response.effects[i]);
    }
  }

  lemma MessageField(response: Response, i: nat, number: real -> string, double: string -> Option<real>)
    requires GoodResponse(response, number, double) && i in MESSAGE_LOOKUPS
    ensures i < |MESSAGE_NAMES|
    ensures Reachable(Members(MESSAGE_NAMES, ResponseValues(response, number)), i, MESSAGE_NAMES[i])
  {
    hide Reachable, Proper, Clean, Good, ResponseValues, GoodLink, GoodMetric, GoodEffect;
    ProperResponse(response, number, double);
    MessageNamesAreGood();
    FieldReachable(MESSAGE_NAMES, ResponseValues(response, number), i);
  }

  lemma MetricsIsReadable()
    ensures Readable(METRICS)
  {
    ReadableMeans(METRICS);
  }

  lemma RevisionReadsBack(response: Response, number: real -> string, double: string -> Option<real>)
    requires GoodResponse(response, number, double)
    ensures ReadRevision(Render(ResponseTree(response, number))) == Message(response.revision)
  {
    hide Reachable, StringField, Uint64Field, Render, GoodLink, GoodMetric, GoodEffect, LookupsClean, Readable,
      Decimal, LinkTrees, MetricTrees, EffectTrees;
    var members := Members(MESSAGE_NAMES, ResponseValues(response, number));
    MessageField(response, 1, number, double);
    MessageField(response, 5, number, double);
    assert Render(Object(members)) + "" == Render(Object(members));
    MetricsIsReadable();
    StringFieldRead(members, 1, MESSAGE_NAMES[1], "");
    Uint64FieldRead(members, 5, MESSAGE_NAMES[5], response.revision, "");
  }

  /** The message gate reads back the links and metrics that were written. */
  lemma MessageGateReadsBack(response: Response, number: real -> string, double: string -> Option<real>)
    requires GoodResponse(response, number, double)
    ensures ReadMetrics(Render(ResponseTree(response, number)), double)
         == Message(Metrics(response.revision, EntriesOfLinks(response.links), EntriesOfMetrics(response.metrics)))
  {
    hide Reachable, ReadRevision, ObjectArray, Render, GoodLink, GoodMetric, GoodEffect, LookupsClean, ReadLinks,
      ReadMetricEntries, RenderEach, LinkTree, MetricTree, EffectTree;
    var members := Members(MESSAGE_NAMES, ResponseValues(response, number));
    RevisionReadsBack(response, number, double);
    MessageField(response, 8, number, double);
    MessageField(response, 9, number, double);
    assert Render(Object(members)) + "" == Render(Object(members));
    AllObjectTrees(response, number);
    ObjectArrayRead(members, 8, MESSAGE_NAMES[8], "");
    ObjectArrayRead(members, 9, MESSAGE_NAMES[9], "");
    LinksReadBack(response.links, number, double);
    MetricsReadBack(response.metrics, number, double);
  }

  lemma AllObjectTrees(response: Response, number: real -> string)
    ensures AllObjects(LinkTrees(response.links, number))
    ensures AllObjects(MetricTrees(response.metrics, number))
    ensures AllObjects(EffectTrees(response.effects))
  {
  }

  /** The effect gate reads back the effects that were written. */
  lemma EffectGateReadsBack(response: Response, number: real -> string, double: string -> Option<real>)
    requires GoodResponse(response, number, double)
    ensures ReadEffects(Render(ResponseTree(response, number)))
         == Message(Effects(response.revision, DecisionsOf(response.effects, response.revision)))
  {
    hide Reachable, ReadRevision, ObjectArray, Render, GoodLink, GoodMetric, GoodEffect, LookupsClean, ReadDecisions,
      RenderEach, LinkTree, MetricTree, EffectTree;
    var members := Members(MESSAGE_NAMES, ResponseValues(response, number));
    RevisionReadsBack(response, number, double);
    MessageField(response, 12, number, double);
    assert Render(Object(members)) + "" == Render(Object(members));
    AllObjectTrees(response, number);
    ObjectArrayRead(members, 12, MESSAGE_NAMES[12], "");
    EffectsReadBack(response.effects, response.revision);
  }
}
