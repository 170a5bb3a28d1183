/** JSON values as the service holds them after `json.loads`: a Python object is
    a map from keys to values, whatever the order its members were written in. */
module Json {

  /** The member names of the protocol; any other name is `Other`. */
  datatype Name =
    | ProtocolVersion | MessageType | RequestId | TimestampMs | Entities | Flows | EntityUpserts
    | EntityRemovals | FlowUpserts | FlowRemovals | EntityId | BusinessNodeId | ParentEntityId
    | Position | Velocity | HeadingDeg | Alive | Devices | EffectPolicies | XM | YM | ZM | VxMps
    | VyMps | VzMps | DeviceId | PeerEntityId | Kind | DataRateBps | DelayMs | LossRate | LinkState
    | SubsystemId | SubsystemType | MaxDelayMs | MaxLossRate | MinThroughputBps | ViolationState
    | FlowId | SourceEntityId | TargetEntityId | PacketSizeBytes | IntervalMs | DurationMs | Active
    | Other(text: string)

  /** The text of a member name. */
  function NameText(name: Name): string {
    match name
    case ProtocolVersion => "protocol_version"
    case MessageType => "message_type"
    case RequestId => "request_id"
    case TimestampMs => "timestamp_ms"
    case Entities => "entities"
    case Flows => "flows"
    case EntityUpserts => "entity_upserts"
    case EntityRemovals => "entity_removals"
    case FlowUpserts => "flow_upserts"
    case FlowRemovals => "flow_removals"
    case EntityId => "entity_id"
    case BusinessNodeId => "business_node_id"
    case ParentEntityId => "parent_entity_id"
    case Position => "position"
    case Velocity => "velocity"
    case HeadingDeg => "heading_deg"
    case Alive => "alive"
    case Devices => "devices"
    case EffectPolicies => "effect_policies"
    case XM => "x_m"
    case YM => "y_m"
    case ZM => "z_m"
    case VxMps => "vx_mps"
    case VyMps => "vy_mps"
    case VzMps => "vz_mps"
    case DeviceId => "device_id"
    case PeerEntityId => "peer_entity_id"
    case Kind => "kind"
    case DataRateBps => "data_rate_bps"
    case DelayMs => "delay_ms"
    case LossRate => "loss_rate"
    case LinkState => "link_state"
    case SubsystemId => "subsystem_id"
    case SubsystemType => "subsystem_type"
    case MaxDelayMs => "max_delay_ms"
    case MaxLossRate => "max_loss_rate"
    case MinThroughputBps => "min_throughput_bps"
    case ViolationState => "violation_state"
    case FlowId => "flow_id"
    case SourceEntityId => "source_entity_id"
    case TargetEntityId => "target_entity_id"
    case PacketSizeBytes => "packet_size_bytes"
    case IntervalMs => "interval_ms"
    case DurationMs => "duration_ms"
    case Active => "active"
    case Other(text) => text
  }

  datatype Json =
    | Null
    | Bool(b: bool)
    | Int(n: int)
    | Float(r: real)
    | Str(s: string)
    | Arr(items: seq<Json>)
    | Obj(fields: Dict)

  type Dict = map<Name, Json>

  /** `dict.get(key)`: a missing member reads like a null one. */
  function Get(d: Dict, key: Name): Json {
    if key in d then d[key] else Null
  }

  /** `dict.get(key, [])`. */
  function GetList(d: Dict, key: Name): Json {
    if key in d then d[key] else Arr([])
  }

  /** `{**left, **right}`. */
  function Union(left: Dict, right: Dict): Dict {
    left + right
  }

  // ----- Fixed values of the protocol ----------------------------------------

  const PROTOCOL_VERSION := "0.2"
  const INIT := "afsim_init"
  const DELTA := "afsim_delta"
  const QUERY := "metrics_query"
}
