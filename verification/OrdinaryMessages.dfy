/** When the fields of a metrics message are found: always, as long as no string
    value equals a name that the client looks up or ends with a quote and such a
    name. A request id that is such a name makes the client drop the message. */
module OrdinaryMessages {
  import opened Wrappers
  import opened JsonText
  import opened JsonScanner
  import opened KeySearch
  import opened FieldReading
  import opened FieldNames
  import opened MetricsMessage

  /** The names that the two gates look up. */
  predicate LookedUp(key: string) {
    || (exists i :: i in MESSAGE_LOOKUPS && 0 <= i < |MESSAGE_NAMES| && MESSAGE_NAMES[i] == key)
    || (exists i :: i in LINK_LOOKUPS && 0 <= i < |LINK_NAMES| && LINK_NAMES[i] == key)
    || (exists i :: i in METRIC_LOOKUPS && 0 <= i < |METRIC_NAMES| && METRIC_NAMES[i] == key)
    || (exists i :: i in EFFECT_LOOKUPS && 0 <= i < |EFFECT_NAMES| && EFFECT_NAMES[i] == key)
  }

  predicate EndsInQuoteAndKey(s: string, key: string) {
    EndsWith(s, [QUOTE] + key)
  }

  /** The string is none of the looked-up names and ends with none after a quote. */
  ghost predicate Ordinary(s: string) {
    forall key :: LookedUp(key) ==> s != key && !EndsInQuoteAndKey(s, key)
  }

  /** Nothing in the tree, names included, looks like a member of the message
      that is looked up. */
  ghost predicate OrdinaryTree(tree: Tree) {
    forall i :: i in MESSAGE_LOOKUPS && 0 <= i < |MESSAGE_NAMES| ==> Clean(tree, MESSAGE_NAMES[i])
  }

  ghost predicate OrdinaryLink(link: LinkRecord) {
    Ordinary(link.linkId) && Ordinary(link.source) && Ordinary(link.target) && Ordinary(link.kind)
      && Ordinary(link.state)
  }

  ghost predicate OrdinaryMetric(metric: MetricRecord) {
    Ordinary(metric.flowId) && Ordinary(metric.source) && Ordinary(metric.target) && Ordinary(metric.linkState)
  }

  ghost predicate OrdinaryEffect(effect: EffectRecord) {
    && Ordinary(effect.entityId) && Ordinary(effect.businessNodeId) && Ordinary(effect.subsystemId)
    && Ordinary(effect.subsystemType) && Ordinary(effect.peerEntityId)
  }

  ghost predicate OrdinaryResponse(response: Response) {
    && Ordinary(response.requestId) && OrdinaryTree(response.status) && OrdinaryTree(response.nodeMappings)
    && OrdinaryTree(response.nodes) && OrdinaryTree(response.computeMs) && OrdinaryTree(response.queueState)
    && (forall i :: 0 <= i < |response.links| ==> OrdinaryLink(response.links[i]))
    && (forall i :: 0 <= i < |response.metrics| ==> OrdinaryMetric(response.metrics[i]))
    && (forall i :: 0 <= i < |response.effects| ==> OrdinaryEffect(response.effects[i]))
  }

  lemma OrdinaryText(s: string, key: string)
    requires Ordinary(s) && LookedUp(key)
    ensures Clean(Text(s), key)
  {
    hide LookedUp, HidesKey, EndsWith;
    assert s != key && !EndsInQuoteAndKey(s, key);
    CleanMeans(s, key);
  }

  lemma LinkLookup(i: nat)
    requires i in LINK_LOOKUPS
    ensures i < |LINK_NAMES| && LookedUp(LINK_NAMES[i])
  {
  }

  lemma MetricLookup(i: nat)
    requires i in METRIC_LOOKUPS
    ensures i < |METRIC_NAMES| && LookedUp(METRIC_NAMES[i])
  {
  }

  lemma EffectLookup(i: nat)
    requires i in EFFECT_LOOKUPS
    ensures i < |EFFECT_NAMES| && LookedUp(EFFECT_NAMES[i])
  {
  }

  lemma MessageLookup(i: nat)
    requires i in MESSAGE_LOOKUPS
    ensures i < |MESSAGE_NAMES| && LookedUp(MESSAGE_NAMES[i])
  {
  }

  lemma LookedUpIsPlain(key: string)
    requires LookedUp(key)
    ensures PlainKey(key)
  {
    hide PlainKey;
    MessageNamesAreGood();
    LinkNamesAreGood();
    MetricNamesAreGood();
    EffectNamesAreGood();
  }

  /** A text that ends in an ordinary string, after a character that no name
      holds, is ordinary. */
  lemma OrdinaryAfter(front: string, c: char, back: string)
    requires Ordinary(back) && !PlainChar(c) && c != QUOTE
    ensures Ordinary(front + [c] + back)
  {
    hide LookedUp, PlainChar;
    var s := front + [c] + back;
    forall key | LookedUp(key) ensures s != key && !EndsInQuoteAndKey(s, key) {
      LookedUpIsPlain(key);
      assert back != key && !EndsInQuoteAndKey(back, key);
      assert s[|front|] == c;
      EndsWithinBack(front, c, back, key);
    }
  }

  lemma EndsWithinBack(front: string, c: char, back: string, key: string)
    requires PlainText(key) && !PlainChar(c) && c != QUOTE
    ensures EndsInQuoteAndKey(front + [c] + back, key) ==> EndsInQuoteAndKey(back, key)
  {
    hide PlainChar;
    var s, suffix := front + [c] + back, [QUOTE] + key;
    if EndsInQuoteAndKey(s, key) {
      var at := |s| - |suffix|;
      forall k | at <= k < |s| ensures s[k] != c {
        assert s[at..][k - at] == suffix[k - at];
        if k > at {
          assert suffix[k - at] == key[k - at - 1];
        }
      }
      assert s[|front|] == c;
      assert |front| < at;
      assert s[at..] == back[|back| - |suffix|..];
    }
  }

  lemma LinkValuesClean(link: LinkRecord, number: real -> string, key: string)
    requires OrdinaryLink(link) && LookedUp(key)
    ensures forall j :: 0 <= j < |LINK_NAMES| ==> Clean(LinkValues(link, number)[j], key)
  {
    hide LookedUp, Ordinary, CleanString, Decimal;
    OrdinaryText(link.linkId, key);
    OrdinaryText(link.source, key);
    OrdinaryText(link.target, key);
    OrdinaryText(link.kind, key);
    OrdinaryText(link.state, key);
  }

  lemma MetricValuesClean(metric: MetricRecord, number: real -> string, key: string)
    requires OrdinaryMetric(metric) && LookedUp(key)
    ensures forall j :: 0 <= j < |METRIC_NAMES| ==> Clean(MetricValues(metric, number)[j], key)
  {
    hide LookedUp, Ordinary, CleanString, Decimal, BooleanText;
    OrdinaryText(metric.flowId, key);
    OrdinaryText(metric.source, key);
    OrdinaryText(metric.target, key);
    OrdinaryText(metric.linkState, key);
    OrdinaryAfter(metric.source + "-", '>', metric.target);
    assert metric.source + "-" + ['>'] + metric.target == metric.source + "->" + metric.target;
    OrdinaryText(metric.source + "->" + metric.target, key);
  }

  /** The strings before the state of an effect. */
  lemma EffectFrontClean(effect: EffectRecord, key: string)
    requires OrdinaryEffect(effect) && LookedUp(key)
    ensures forall j :: 0 <= j < 5 ==> Clean(EffectValues(effect)[j], key)
  {
    hide LookedUp, Ordinary, CleanString, StateText;
    OrdinaryText(effect.entityId, key);
    OrdinaryText(effect.businessNodeId, key);
    OrdinaryText(effect.subsystemId, key);
    OrdinaryText(effect.subsystemType, key);
    OrdinaryText(effect.peerEntityId, key);
  }

  lemma LinkLookupsClean(link: LinkRecord, number: real -> string)
    requires OrdinaryLink(link)
    ensures LookupsClean(LINK_NAMES, LinkValues(link, number), LINK_LOOKUPS)
  {
    hide OrdinaryLink, LookedUp, LinkValues, Clean;
    forall i, j | i in LINK_LOOKUPS && i < |LINK_NAMES| && 0 <= j < i
      ensures Clean(LinkValues(link, number)[j], LINK_NAMES[i])
    {
      LinkLookup(i);
      LinkValuesClean(link, number, LINK_NAMES[i]);
    }
  }

  lemma MetricLookupsClean(metric: MetricRecord, number: real -> string)
    requires OrdinaryMetric(metric)
    ensures LookupsClean(METRIC_NAMES, MetricValues(metric, number), METRIC_LOOKUPS)
  {
    hide OrdinaryMetric, LookedUp, MetricValues, Clean;
    forall i, j | i in METRIC_LOOKUPS && i < |METRIC_NAMES| && 0 <= j < i
      ensures Clean(MetricValues(metric, number)[j], METRIC_NAMES[i])
    {
      MetricLookup(i);
      MetricValuesClean(metric, number, METRIC_NAMES[i]);
    }
  }

  lemma EffectLookupsClean(effect: EffectRecord)
    requires OrdinaryEffect(effect)
    ensures LookupsClean(EFFECT_NAMES, EffectValues(effect), EFFECT_LOOKUPS)
  {
    hide OrdinaryEffect, LookedUp, EffectValues, Clean;
    forall i, j | i in EFFECT_LOOKUPS && i < |EFFECT_NAMES| && 0 <= j < i
      ensures Clean(EffectValues(effect)[j], EFFECT_NAMES[i])
    {
      EffectLookup(i);
      EffectFrontClean(effect, EFFECT_NAMES[i]);
    }
  }

  // ----- The whole message ---------------------------------------------------------------

  lemma NestedNames()
    ensures MESSAGE_NAMES[9] !in LINK_NAMES && MESSAGE_NAMES[12] !in LINK_NAMES && MESSAGE_NAMES[12] !in METRIC_NAMES
  {
  }

  lemma LinksClean(links: seq<LinkRecord>, number: real -> string, key: string)
    requires forall i :: 0 <= i < |links| ==> OrdinaryLink(links[i])
    requires LookedUp(key) && key !in LINK_NAMES
    ensures Clean(Array(LinkTrees(links, number)), key)
  {
    hide OrdinaryLink, LookedUp, LinkValues;
    LinkNamesAreGood();
    forall i | 0 <= i < |links| ensures Clean(LinkTree(links[i], number), key) {
      LinkValuesClean(links[i], number, key);
      MembersClean(LINK_NAMES, LinkValues(links[i], number), key);
    }
  }

  lemma MetricsClean(metrics: seq<MetricRecord>, number: real -> string, key: string)
    requires forall i :: 0 <= i < |metrics| ==> OrdinaryMetric(metrics[i])
    requires LookedUp(key) && key !in METRIC_NAMES
    ensures Clean(Array(MetricTrees(metrics, number)), key)
  {
    hide OrdinaryMetric, LookedUp, MetricValues;
    MetricNamesAreGood();
    forall i | 0 <= i < |metrics| ensures Clean(MetricTree(metrics[i], number), key) {
      MetricValuesClean(metrics[i], number, key);
      MembersClean(METRIC_NAMES, MetricValues(metrics[i], number), key);
    }
  }

  lemma FixedTextsAreClean(key: string)
    requires LookedUp(key)
    ensures CleanString("0.2", key) && CleanString(METRICS, key)
  {
    assert |key| != 3 && |key| != 11;
    NoQuoteHidesNothing("0.2", key);
    NoQuoteHidesNothing(METRICS, key);
  }

  lemma {:induction false} NoQuoteHidesNothing(s: string, key: string)
    requires QUOTE !in s
    ensures !HidesKey(s, key)
  {
    if s != "" {
      NoQuoteHidesNothing(s[1..], key);
    }
  }

  /** The values in front of the links, for any key; those in front of the later
      arrays for the names that no link or metric has. */
  lemma MessageValuesClean(response: Response, number: real -> string, i: nat, j: nat)
    requires OrdinaryResponse(response) && i in MESSAGE_LOOKUPS && j < i < |MESSAGE_NAMES|
    ensures Clean(ResponseValues(response, number)[j], MESSAGE_NAMES[i])
  {
    hide LookedUp, Ordinary, OrdinaryLink, OrdinaryMetric, OrdinaryEffect, LinkTrees, MetricTrees, EffectTrees,
      CleanString, Decimal;
    MessageLookup(i);
    var key := MESSAGE_NAMES[i];
    FixedTextsAreClean(key);
    OrdinaryText(response.requestId, key);
    NestedNames();
    if j == 8 {
      LinksClean(response.links, number, key);
    } else if j == 9 {
      MetricsClean(response.metrics, number, key);
    }
  }

  /** The part of `GoodResponse` that is not about the search for names. */
  ghost predicate Writable(response: Response, number: real -> string, double: string -> Option<real>) {
    && response.revision <= MAX_UINT64
    && Proper(response.status) && Proper(response.nodeMappings) && Proper(response.nodes)
    && Proper(response.computeMs) && Proper(response.queueState)
    && (forall i :: 0 <= i < |response.links| ==> WritableLink(response.links[i], number, double))
    && (forall i :: 0 <= i < |response.metrics| ==> WritableMetric(response.metrics[i], number, double))
    && (forall i :: 0 <= i < |response.effects| ==> WritableEffect(response.effects[i]))
  }

  ghost predicate WritableLink(link: LinkRecord, number: real -> string, double: string -> Option<real>) {
    && Exact(link.delayMs, number, double) && Exact(link.lossRate, number, double)
    && Readable(link.source) && Readable(link.target) && Readable(link.state)
  }

  ghost predicate WritableMetric(metric: MetricRecord, number: real -> string, double: string -> Option<real>) {
    && Exact(metric.latencyMs, number, double)
    && IsNumberText(number(metric.lossRate)) && IsNumberText(number(metric.throughputBps))
    && Readable(metric.source) && Readable(metric.target) && Readable(metric.linkState)
  }

  ghost predicate WritableEffect(effect: EffectRecord) {
    && Proper(Array(effect.reasons)) && Proper(effect.thresholds)
    && Readable(effect.entityId) && Readable(effect.subsystemId) && Readable(effect.subsystemType)
    && Readable(effect.peerEntityId)
  }

  /** A message of ordinary strings is read back completely by both gates. */
  lemma OrdinaryMessageIsReadBack(response: Response, number: real -> string, double: string -> Option<real>)
    requires OrdinaryResponse(response) && Writable(response, number, double)
    ensures ReadMetrics(Render(ResponseTree(response, number)), double)
         == Message(Metrics(response.revision, EntriesOfLinks(response.links), EntriesOfMetrics(response.metrics)))
    ensures ReadEffects(Render(ResponseTree(response, number)))
         == Message(Effects(response.revision, DecisionsOf(response.effects, response.revision)))
  {
    OrdinaryIsGood(response, number, double);
    hide *;
    MessageGateReadsBack(response, number, double);
    EffectGateReadsBack(response, number, double);
  }

  lemma OrdinaryIsGood(response: Response, number: real -> string, double: string -> Option<real>)
    requires OrdinaryResponse(response) && Writable(response, number, double)
    ensures GoodResponse(response, number, double)
  {
    hide OrdinaryLink, OrdinaryMetric, OrdinaryEffect, Clean, LinkValues, MetricValues, EffectValues, ResponseValues,
      Proper, Readable, IsNumberText, Ordinary, OrdinaryTree;
    forall i | 0 <= i < |response.links| ensures GoodLink(response.links[i], number, double) {
      LinkLookupsClean(response.links[i], number);
    }
    forall i | 0 <= i < |response.metrics| ensures GoodMetric(response.metrics[i], number, double) {
      MetricLookupsClean(response.metrics[i], number);
    }
    forall i | 0 <= i < |response.effects| ensures GoodEffect(response.effects[i]) {
      EffectLookupsClean(response.effects[i]);
    }
    forall i, j | i in MESSAGE_LOOKUPS && i < |MESSAGE_NAMES| && 0 <= j < i
      ensures Clean(ResponseValues(response, number)[j], MESSAGE_NAMES[i])
    {
      MessageValuesClean(response, number, i, j);
    }
  }

  // ----- The members that the client does not read ------------------------------------------

  const NODE_NAMES: seq<string> := ["entity_id", "business_node_id", "ns3_node_id", "alive", "connected"]

  datatype NodeRecord = NodeRecord(
    entityId: string, businessNodeId: string, ns3NodeId: nat, alive: bool, connected: bool)

  function NodeValues(node: NodeRecord): (values: seq<Tree>)
    ensures |values| == |NODE_NAMES|
  {
    [Text(node.entityId), Text(node.businessNodeId), Literal(Decimal(node.ns3NodeId)),
     Literal(BooleanText(node.alive)), Literal(BooleanText(node.connected))]
  }

  function NodeTree(node: NodeRecord): Tree {
    Object(Members(NODE_NAMES, NodeValues(node)))
  }

  function NodeTrees(nodes: seq<NodeRecord>): (trees: seq<Tree>)
    ensures |trees| == |nodes|
    ensures forall i :: 0 <= i < |nodes| ==> trees[i] == NodeTree(nodes[i])
  {
    seq(|nodes|, i requires 0 <= i < |nodes| => NodeTree(nodes[i]))
  }

  lemma PlainNodeNames()
    ensures PlainKey("ns3_node_id")
    ensures PlainKey("alive")
  {
  }

  lemma NodeNamesArePlain()
    ensures Plain(NODE_NAMES)
  {
    hide PlainKey;
    PlainNodeNames();
    EffectNamesAreGood();
    MetricNamesAreGood();
    assert PlainKey(EFFECT_NAMES[0]) && PlainKey(EFFECT_NAMES[1]) && PlainKey(METRIC_NAMES[3]);
  }

  lemma NodeNamesAreOthers()
    ensures forall i :: i in MESSAGE_LOOKUPS && 0 <= i < |MESSAGE_NAMES| ==> MESSAGE_NAMES[i] !in NODE_NAMES
  {
  }

  /** The list of nodes is ordinary if their ids are; that they have members
      which links, metrics and effects have too does no harm. */
  lemma NodesAreOrdinary(nodes: seq<NodeRecord>)
    requires forall i :: 0 <= i < |nodes| ==> Ordinary(nodes[i].entityId) && Ordinary(nodes[i].businessNodeId)
    ensures OrdinaryTree(Array(NodeTrees(nodes)))
  {
    hide LookedUp, Ordinary, Decimal, BooleanText, CleanString;
    NodeNamesArePlain();
    NodeNamesAreOthers();
    forall i, k | i in MESSAGE_LOOKUPS && 0 <= i < |MESSAGE_NAMES| && 0 <= k < |nodes|
      ensures Clean(NodeTree(nodes[k]), MESSAGE_NAMES[i])
    {
      MessageLookup(i);
      OrdinaryText(nodes[k].entityId, MESSAGE_NAMES[i]);
      OrdinaryText(nodes[k].businessNodeId, MESSAGE_NAMES[i]);
      MembersClean(NODE_NAMES, NodeValues(nodes[k]), MESSAGE_NAMES[i]);
    }
  }

  // ----- A name that is not ordinary ----------------------------------------------------------

  lemma FrontClean(response: Response, number: real -> string, key: string)
    requires Clean(response.status, key) && LookedUp(key) && key !in MESSAGE_NAMES[..4]
    ensures AllClean(Members(MESSAGE_NAMES, ResponseValues(response, number))[..3], key)
    ensures CleanString(MESSAGE_NAMES[3], key)
  {
    hide LookedUp, CleanString, Clean, Decimal, LinkTrees, MetricTrees, EffectTrees;
    var names := MESSAGE_NAMES;
    MessageNamesAreGood();
    FixedTextsAreClean(key);
    forall j | 0 <= j < 4 ensures CleanString(names[j], key) {
      assert PlainKey(names[j]) && names[..4][j] == names[j];
      PlainHidesNothing(names[j], key);
      NameIsClean(names[j], key);
    }
    TextIsClean("0.2", key);
    TextIsClean(METRICS, key);
  }

  lemma TextIsClean(s: string, key: string)
    requires CleanString(s, key)
    ensures Clean(Text(s), key)
  {
  }

  lemma TypeReachable(response: Response, number: real -> string)
    requires forall j :: 0 <= j < |MESSAGE_NAMES| ==> Proper(ResponseValues(response, number)[j])
    ensures Reachable(Members(MESSAGE_NAMES, ResponseValues(response, number)), 1, MESSAGE_NAMES[1])
  {
    hide LookedUp, Proper, CleanString, Decimal, LinkTrees, MetricTrees, EffectTrees, Reachable;
    MessageNamesAreGood();
    MessageLookup(1);
    FixedTextsAreClean(MESSAGE_NAMES[1]);
    TextIsClean("0.2", MESSAGE_NAMES[1]);
    FieldReachable(MESSAGE_NAMES, ResponseValues(response, number), 1);
  }

  lemma TypeReadsBack(response: Response, number: real -> string)
    requires forall j :: 0 <= j < |MESSAGE_NAMES| ==> Proper(ResponseValues(response, number)[j])
    ensures StringField(Render(ResponseTree(response, number)), MESSAGE_NAMES[1]) == Some(METRICS)
  {
    hide Proper, Render, StringField, Decimal, LinkTrees, MetricTrees, EffectTrees, Reachable, Readable;
    var members := Members(MESSAGE_NAMES, ResponseValues(response, number));
    TypeReachable(response, number);
    MetricsIsReadable();
    assert Render(Object(members)) + "" == Render(Object(members));
    StringFieldRead(members, 1, MESSAGE_NAMES[1], "");
  }

  lemma RequestNamedLinksHidesLinks(response: Response, number: real -> string)
    requires response.requestId == MESSAGE_NAMES[8]
    requires OrdinaryTree(response.status)
    requires forall j :: 0 <= j < |MESSAGE_NAMES| ==> Proper(ResponseValues(response, number)[j])
    ensures ObjectArray(Render(ResponseTree(response, number)), MESSAGE_NAMES[8]) == None
  {
    hide LookedUp, Proper, Render, CleanString, ValueText, Decimal, LinkTrees, MetricTrees, EffectTrees, Collect, End,
      AllClean, ValueTail, PlainText;
    var members, key := Members(MESSAGE_NAMES, ResponseValues(response, number)), MESSAGE_NAMES[8];
    MessageNamesAreGood();
    MessageLookup(8);
    assert key !in MESSAGE_NAMES[..4];
    assert 8 in MESSAGE_LOOKUPS && Clean(response.status, key);
    FrontClean(response, number, key);
    assert PlainKey(MESSAGE_NAMES[8]) && PlainKey(MESSAGE_NAMES[4]);
    ImitatedKeyMisleads(members, 3, "", key);
    assert Render(Object(members)) + "" == Render(Object(members));
    TimeStampIsNoArray(response.timestampMs, ValueTail(members, 4, ""));
  }

  /** A response to a request whose id is `links` is not understood: the message
      gate takes the time stamp for the array of links and throws. */
  lemma RequestNamedLinksThrows(response: Response, number: real -> string, double: string -> Option<real>)
    requires response.requestId == MESSAGE_NAMES[8]
    requires OrdinaryTree(response.status)
    requires forall j :: 0 <= j < |MESSAGE_NAMES| ==> Proper(ResponseValues(response, number)[j])
    ensures ReadMetrics(Render(ResponseTree(response, number)), double) == Throws
  {
    hide ResponseTree, ResponseValues, OrdinaryTree, Proper, Render, StringField, Uint64Field, ObjectArray, ReadLinks,
      ReadMetricEntries;
    TypeReadsBack(response, number);
    RequestNamedLinksHidesLinks(response, number);
  }

  lemma NameIsClean(name: string, key: string)
    requires name != key && !HidesKey(name, key)
    ensures CleanString(name, key)
  {
  }

  lemma TimeStampIsNoArray(timestampMs: nat, tail: string)
    ensures Render(Literal(Decimal(timestampMs))) + tail != ""
    ensures (Render(Literal(Decimal(timestampMs))) + tail)[0] != '['
  {
    DecimalIsNumber(timestampMs);
    assert (Decimal(timestampMs) + tail)[0] == Decimal(timestampMs)[0];
  }
}
