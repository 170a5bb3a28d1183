/** What the service's response says, written out: the text read as JSON has exactly
    these members. */
module ResponseText {
  import opened Wrappers
  import opened JsonText
  import opened JsonReader
  import opened FieldNames
  import opened MetricsMessage
  import opened OrdinaryMessages
  import opened Responses
  import opened Models
  import E = Effects

  lemma LinkIsWritten(link: LinkRecord, number: real -> string)
    ensures LinkTree(link, number) == Object([
      Member("link_id", Text(link.linkId)),
      Member("source_entity_id", Text(link.source)),
      Member("target_entity_id", Text(link.target)),
      Member("kind", Text(link.kind)),
      Member("data_rate_bps", Literal(Decimal(link.dataRateBps))),
      Member("delay_ms", Literal(number(link.delayMs))),
      Member("configured_loss_rate", Literal(number(link.lossRate))),
      Member("state", Text(link.state))])
  {
    hide Decimal;
  }

  lemma MetricIsWritten(metric: MetricRecord, number: real -> string)
    ensures MetricTree(metric, number) == Object([
      Member("flow_id", Text(metric.flowId)),
      Member("source_entity_id", Text(metric.source)),
      Member("target_entity_id", Text(metric.target)),
      Member("connected", Literal(BooleanText(metric.connected))),
      Member("latency_ms", Literal(number(metric.latencyMs))),
      Member("loss_rate", Literal(number(metric.lossRate))),
      Member("throughput_bps", Literal(number(metric.throughputBps))),
      Member("tx_packets", Literal(Decimal(metric.txPackets))),
      Member("rx_packets", Literal(Decimal(metric.rxPackets))),
      Member("link_state", Text(metric.linkState)),
      Member("traffic_direction", Text(metric.source + "->" + metric.target))])
  {
    hide Decimal, BooleanText;
  }

  lemma EffectIsWritten(effect: EffectRecord)
    ensures EffectTree(effect) == Object([
      Member("entity_id", Text(effect.entityId)),
      Member("business_node_id", Text(effect.businessNodeId)),
      Member("subsystem_id", Text(effect.subsystemId)),
      Member("subsystem_type", Text(effect.subsystemType)),
      Member("peer_entity_id", Text(effect.peerEntityId)),
      Member("state", Text(match effect.state
                           case Available => "AVAILABLE" case Degraded => "DEGRADED" case Blocked => "BLOCKED")),
      Member("reasons", Array(effect.reasons)),
      Member("thresholds", effect.thresholds)])
  {
  }

  /** The effect of a policy as the service writes it: its ids, its state, each reason
      by name, and the policy's own thresholds. */
  lemma PolicyEffectIsWritten(entity: Entity, policy: Policy, metrics: seq<E.Metric>, number: real -> string)
    requires KnownState(E.EffectOf(entity, policy, metrics))
    ensures var effect := E.EffectOf(entity, policy, metrics);
      var reasons: seq<Tree> := seq(|effect.reasons|, i requires 0 <= i < |effect.reasons| =>
        Text(match effect.reasons[i]
             case NoNetworkMetric => "NO_NETWORK_METRIC" case Disconnected => "DISCONNECTED"
             case DelayExceeded => "DELAY_EXCEEDED" case LossExceeded => "LOSS_EXCEEDED"
             case ThroughputBelowMinimum => "THROUGHPUT_BELOW_MINIMUM"));
      EffectTree(RecordOfEffect(effect, number)) == Object([
        Member("entity_id", Text(entity.entityId)),
        Member("business_node_id", Text(entity.businessNodeId)),
        Member("subsystem_id", Text(policy.subsystemId)),
        Member("subsystem_type", Text(policy.subsystemType)),
        Member("peer_entity_id", Text(policy.peer)),
        Member("state", Text(effect.state)),
        Member("reasons", Array(reasons)),
        Member("thresholds", Object([
          Member("max_delay_ms", Literal(number(policy.maxDelayMs))),
          Member("max_loss_rate", Literal(number(policy.maxLossRate))),
          Member("min_throughput_bps", Literal(number(policy.minThroughputBps))),
          Member("violation_state", Text(policy.violationState))]))])
  {
    hide E.Judged, E.LastOf, KnownState;
    var effect := E.EffectOf(entity, policy, metrics);
    EffectIsWritten(RecordOfEffect(effect, number));
    E.EffectCarries(entity, policy, metrics);
    hide E.EffectOf;
    assert ReasonTrees(effect.reasons) == seq(|effect.reasons|, i requires 0 <= i < |effect.reasons| =>
      Text(match effect.reasons[i]
           case NoNetworkMetric => "NO_NETWORK_METRIC" case Disconnected => "DISCONNECTED"
           case DelayExceeded => "DELAY_EXCEEDED" case LossExceeded => "LOSS_EXCEEDED"
           case ThroughputBelowMinimum => "THROUGHPUT_BELOW_MINIMUM"));
  }

  lemma ResponseIsWritten(response: Response, number: real -> string)
    ensures ResponseTree(response, number) == Object([
      Member("protocol_version", Text("0.2")),
      Member("message_type", Text("ns3_metrics")),
      Member("status", response.status),
      Member("request_id", Text(response.requestId)),
      Member("timestamp_ms", Literal(Decimal(response.timestampMs))),
      Member("revision", Literal(Decimal(response.revision))),
      Member("node_mappings", response.nodeMappings),
      Member("nodes", response.nodes),
      Member("links", Array(LinkTrees(response.links, number))),
      Member("metrics", Array(MetricTrees(response.metrics, number))),
      Member("compute_ms", response.computeMs),
      Member("queue_state", response.queueState),
      Member("effects", Array(EffectTrees(response.effects)))])
  {
    hide Decimal, LinkTrees, MetricTrees, EffectTrees;
  }

  lemma NodeIsWritten(node: NodeRecord)
    ensures NodeTree(node) == Object([
      Member("entity_id", Text(node.entityId)),
      Member("business_node_id", Text(node.businessNodeId)),
      Member("ns3_node_id", Literal(Decimal(node.ns3NodeId))),
      Member("alive", Literal(BooleanText(node.alive))),
      Member("connected", Literal(BooleanText(node.connected)))])
    ensures MappingTree(node) == Object([
      Member("entity_id", Text(node.entityId)),
      Member("business_node_id", Text(node.businessNodeId)),
      Member("ns3_node_id", Literal(Decimal(node.ns3NodeId)))])
  {
    hide Decimal, BooleanText;
  }

  lemma QueueIsWritten(pending: Option<nat>)
    ensures QueueTree(pending) == Object([
      Member("pending", Literal(if pending.Some? then "true" else "false")),
      Member("latest_pending_revision", Literal(if pending.Some? then Decimal(pending.value) else "null"))])
    ensures STATUS == Object([Member("code", Literal("0")), Member("message", Text("ok"))])
  {
    hide Decimal;
  }

  /** Its numbers are written as numbers, and its other values as JSON. */
  ghost predicate WrittenAsJson(response: Response, number: real -> string) {
    && Proper(response.status) && Proper(response.nodeMappings) && Proper(response.nodes)
    && Proper(response.computeMs) && Proper(response.queueState)
    && (forall i :: 0 <= i < |response.links| ==>
          IsNumberText(number(response.links[i].delayMs)) && IsNumberText(number(response.links[i].lossRate)))
    && (forall i :: 0 <= i < |response.metrics| ==>
          && IsNumberText(number(response.metrics[i].latencyMs)) && IsNumberText(number(response.metrics[i].lossRate))
          && IsNumberText(number(response.metrics[i].throughputBps)))
    && (forall i :: 0 <= i < |response.effects| ==>
          Proper(Array(response.effects[i].reasons)) && Proper(response.effects[i].thresholds))
  }

  lemma ListsAreProper(response: Response, number: real -> string)
    requires WrittenAsJson(response, number)
    ensures Proper(Array(LinkTrees(response.links, number))) && Proper(Array(MetricTrees(response.metrics, number)))
    ensures Proper(Array(EffectTrees(response.effects)))
  {
    hide IsNumberText, LinkTree, MetricTree, EffectTree, Members;
    forall i | 0 <= i < |response.links| ensures Proper(LinkTree(response.links[i], number)) {
      ProperLink(response.links[i], number);
      MembersProper(LINK_NAMES, LinkValues(response.links[i], number));
      LinkTreeIs(response.links[i], number);
    }
    forall i | 0 <= i < |response.metrics| ensures Proper(MetricTree(response.metrics[i], number)) {
      ProperMetric(response.metrics[i], number);
      MembersProper(METRIC_NAMES, MetricValues(response.metrics[i], number));
      MetricTreeIs(response.metrics[i], number);
    }
    forall i | 0 <= i < |response.effects| ensures Proper(EffectTree(response.effects[i])) {
      EffectTreeIsProper(response.effects[i]);
    }
  }

  lemma LinkTreeIs(link: LinkRecord, number: real -> string)
    ensures LinkTree(link, number) == Object(Members(LINK_NAMES, LinkValues(link, number)))
  {
  }

  lemma MetricTreeIs(metric: MetricRecord, number: real -> string)
    ensures MetricTree(metric, number) == Object(Members(METRIC_NAMES, MetricValues(metric, number)))
  {
  }

  lemma EffectTreeIsProper(effect: EffectRecord)
    requires Proper(Array(effect.reasons)) && Proper(effect.thresholds)
    ensures Proper(EffectTree(effect))
  {
    MembersProper(EFFECT_NAMES, EffectValues(effect));
  }

  lemma ResponseIsProper(response: Response, number: real -> string)
    requires WrittenAsJson(response, number)
    ensures Proper(ResponseTree(response, number))
  {
    hide IsNumberText, IsLiteralText, Decimal, LinkTrees, MetricTrees, EffectTrees, Members;
    ListsAreProper(response, number);
    DecimalIsNumber(response.timestampMs);
    DecimalIsNumber(response.revision);
    NumberIsLiteral(Decimal(response.timestampMs));
    NumberIsLiteral(Decimal(response.revision));
    MembersProper(MESSAGE_NAMES, ResponseValues(response, number));
  }

  /** Whatever its strings contain, the response read as JSON is exactly this object. */
  lemma ResponseIsRead(response: Response, number: real -> string)
    requires WrittenAsJson(response, number)
    ensures ReadValue(Render(ResponseTree(response, number))) == Some((Object([
      Member("protocol_version", Text("0.2")),
      Member("message_type", Text("ns3_metrics")),
      Member("status", response.status),
      Member("request_id", Text(response.requestId)),
      Member("timestamp_ms", Literal(Decimal(response.timestampMs))),
      Member("revision", Literal(Decimal(response.revision))),
      Member("node_mappings", response.nodeMappings),
      Member("nodes", response.nodes),
      Member("links", Array(LinkTrees(response.links, number))),
      Member("metrics", Array(MetricTrees(response.metrics, number))),
      Member("compute_ms", response.computeMs),
      Member("queue_state", response.queueState),
      Member("effects", Array(EffectTrees(response.effects)))]), ""))
  {
    hide Decimal, LinkTrees, MetricTrees, EffectTrees, Render, ReadValue, WrittenAsJson, ResponseTree, Proper;
    ResponseIsProper(response, number);
    ResponseIsWritten(response, number);
    var tree := ResponseTree(response, number);
    RenderedIsRead(tree, "");
    assert Render(tree) + "" == Render(tree);
  }
}
