/** The member names of the service's metrics message, in the order they are
    written, and the lookups that they allow. */
module FieldNames {
  import opened JsonText
  import opened KeySearch
  import opened FieldReading

  const MESSAGE_NAMES: seq<string> := [
    "protocol_version", "message_type", "status", "request_id", "timestamp_ms", "revision",
    "node_mappings", "nodes", "links", "metrics", "compute_ms", "queue_state", "effects"]

  const LINK_NAMES: seq<string> := [
    "link_id", "source_entity_id", "target_entity_id", "kind",
    "data_rate_bps", "delay_ms", "configured_loss_rate", "state"]

  const METRIC_NAMES: seq<string> := [
    "flow_id", "source_entity_id", "target_entity_id", "connected", "latency_ms", "loss_rate",
    "throughput_bps", "tx_packets", "rx_packets", "link_state", "traffic_direction"]

  const EFFECT_NAMES: seq<string> := [
    "entity_id", "business_node_id", "subsystem_id", "subsystem_type", "peer_entity_id",
    "state", "reasons", "thresholds"]

  predicate Distinct(names: seq<string>) {
    forall i, j :: 0 <= i < j < |names| ==> names[i] != names[j]
  }

  predicate Plain(names: seq<string>) {
    forall i :: 0 <= i < |names| ==> PlainKey(names[i])
  }

  ghost predicate Good(names: seq<string>) {
    Distinct(names) && Plain(names)
  }

  lemma PlainEnvelopeNames()
    ensures PlainKey("protocol_version")
    ensures PlainKey("message_type")
    ensures PlainKey("status")
    ensures PlainKey("request_id")
  {
  }

  lemma PlainRevisionNames()
    ensures PlainKey("timestamp_ms")
    ensures PlainKey("revision")
    ensures PlainKey("node_mappings")
    ensures PlainKey("nodes")
  {
  }

  lemma PlainListNames()
    ensures PlainKey("links")
    ensures PlainKey("metrics")
    ensures PlainKey("compute_ms")
    ensures PlainKey("queue_state")
    ensures PlainKey("effects")
  {
  }

  lemma PlainLinkEndNames()
    ensures PlainKey("link_id")
    ensures PlainKey("source_entity_id")
    ensures PlainKey("target_entity_id")
    ensures PlainKey("kind")
  {
  }

  lemma PlainLinkQualityNames()
    ensures PlainKey("data_rate_bps")
    ensures PlainKey("delay_ms")
    ensures PlainKey("configured_loss_rate")
    ensures PlainKey("state")
  {
  }

  lemma PlainFlowNames()
    ensures PlainKey("flow_id")
    ensures PlainKey("connected")
    ensures PlainKey("latency_ms")
    ensures PlainKey("loss_rate")
  {
  }

  lemma PlainTrafficNames()
    ensures PlainKey("throughput_bps")
    ensures PlainKey("tx_packets")
    ensures PlainKey("rx_packets")
  {
  }

  lemma PlainDirectionNames()
    ensures PlainKey("link_state")
    ensures PlainKey("traffic_direction")
  {
  }

  lemma PlainEntityNames()
    ensures PlainKey("entity_id")
    ensures PlainKey("business_node_id")
    ensures PlainKey("peer_entity_id")
  {
  }

  lemma PlainSubsystemNames()
    ensures PlainKey("subsystem_id")
    ensures PlainKey("subsystem_type")
    ensures PlainKey("reasons")
    ensures PlainKey("thresholds")
  {
  }

  lemma MessageNamesAreGood()
    ensures Good(MESSAGE_NAMES)
  {
    hide PlainKey;
    PlainEnvelopeNames();
    PlainRevisionNames();
    PlainListNames();
  }

  lemma LinkNamesAreGood()
    ensures Good(LINK_NAMES)
  {
    hide PlainKey;
    PlainLinkEndNames();
    PlainLinkQualityNames();
  }

  lemma MetricNamesAreGood()
    ensures Good(METRIC_NAMES)
  {
    hide PlainKey;
    PlainLinkEndNames();
    PlainFlowNames();
    PlainTrafficNames();
    PlainDirectionNames();
  }

  lemma EffectNamesAreGood()
    ensures Good(EFFECT_NAMES)
  {
    hide PlainKey;
    PlainEntityNames();
    PlainSubsystemNames();
    PlainLinkQualityNames();
  }

  // ----- Objects with given names -------------------------------------------------------

  function Members(names: seq<string>, values: seq<Tree>): (members: seq<Member>)
    requires |names| == |values|
    ensures |members| == |names|
    ensures forall i :: 0 <= i < |names| ==> members[i] == Member(names[i], values[i])
  {
    seq(|names|, i requires 0 <= i < |names| && |names| == |values| => Member(names[i], values[i]))
  }

  lemma {:induction false} PlainHidesNothing(s: string, key: string)
    requires PlainText(s)
    ensures !HidesKey(s, key)
  {
    if s != "" {
      assert PlainChar(s[0]);
      PlainHidesNothing(s[1..], key);
    }
  }

  /** Member `i` is reached by its name when the values before it are clean. */
  lemma FieldReachable(names: seq<string>, values: seq<Tree>, i: nat)
    requires |names| == |values| && i < |names| && Good(names)
    requires forall j :: 0 <= j < |values| ==> Proper(values[j])
    requires forall j :: 0 <= j < i ==> Clean(values[j], names[i])
    ensures Reachable(Members(names, values), i, names[i])
  {
    hide Proper, Clean, HidesKey, PlainText;
    var members, key := Members(names, values), names[i];
    forall j | 0 <= j < i ensures CleanMember(members[j], key) {
      assert PlainKey(names[j]) && names[j] != key;
      PlainHidesNothing(names[j], key);
    }
    forall j | 0 <= j < |members[..i]| ensures CleanMember(members[..i][j], key) {
      assert members[..i][j] == members[j];
    }
  }

  /** An object is clean for a key that is none of its names. */
  lemma MembersClean(names: seq<string>, values: seq<Tree>, key: string)
    requires |names| == |values| && Plain(names) && key !in names
    requires forall j :: 0 <= j < |values| ==> Clean(values[j], key)
    ensures Clean(Object(Members(names, values)), key)
  {
    hide HidesKey, PlainText;
    forall j | 0 <= j < |names| ensures CleanString(names[j], key) {
      assert PlainKey(names[j]);
      PlainHidesNothing(names[j], key);
    }
  }

  lemma MembersProper(names: seq<string>, values: seq<Tree>)
    requires |names| == |values|
    requires forall j :: 0 <= j < |values| ==> Proper(values[j])
    ensures Proper(Object(Members(names, values)))
  {
  }
}
