/** The service's records and the validation that builds them
    (`EntityState.from_dict`, `FlowConfig.from_dict`, `validate_envelope`):
    `from_dict` raises a protocol error unless the `Valid` predicate holds, and
    otherwise returns the record given by the `Of` function. */
module Models {
  import opened Wrappers
  import opened Text
  import opened Json

  datatype Point = Point(x: real, y: real, z: real)

  datatype Device = Device(
    deviceId: string, peer: string, kind: string, dataRateBps: int,
    delayMs: real, lossRate: real, linkState: string)

  datatype Policy = Policy(
    subsystemId: string, subsystemType: string, peer: string, maxDelayMs: real,
    maxLossRate: real, minThroughputBps: real, violationState: string)

  datatype Entity = Entity(
    entityId: string, businessNodeId: string, parent: Option<string>,
    position: Point, velocity: Point, headingDeg: real, alive: bool,
    devices: seq<Device>, policies: seq<Policy>)

  datatype Flow = Flow(
    flowId: string, source: string, target: string, packetSizeBytes: int,
    intervalMs: int, durationMs: int, active: bool)

  // ----- Single members -----------------------------------------------------

  predicate HasText(d: Dict, key: Name) {
    Get(d, key).Str? && Strip(Get(d, key).s) != ""
  }

  function TextOf(d: Dict, key: Name): string
    requires HasText(d, key)
  {
    Strip(Get(d, key).s)
  }

  function OptionalTextOf(d: Dict, key: Name): Option<string>
    requires Get(d, key).Null? || HasText(d, key)
  {
    if Get(d, key).Null? then None else Some(TextOf(d, key))
  }

  predicate IsNumber(value: Json) {
    value.Int? || value.Float?
  }

  function NumberOf(value: Json): real
    requires IsNumber(value)
  {
    if value.Int? then value.n as real else value.r
  }

  predicate HasNumber(d: Dict, key: Name, minimum: real, maximum: Option<real>) {
    && IsNumber(Get(d, key))
    && minimum <= NumberOf(Get(d, key))
    && (maximum.Some? ==> NumberOf(Get(d, key)) <= maximum.value)
  }

  predicate HasInteger(d: Dict, key: Name, minimum: int) {
    Get(d, key).Int? && minimum <= Get(d, key).n
  }

  // ----- Records ------------------------------------------------------------

  predicate ValidPosition(data: Json) {
    data.Obj? && IsNumber(Get(data.fields, Name.XM)) && IsNumber(Get(data.fields, Name.YM))
    && IsNumber(Get(data.fields, Name.ZM))
  }

  function PositionOf(data: Json): Point
    requires ValidPosition(data)
  {
    Point(NumberOf(Get(data.fields, Name.XM)), NumberOf(Get(data.fields, Name.YM)),
          NumberOf(Get(data.fields, Name.ZM)))
  }

  predicate ValidVelocity(data: Json) {
    data.Obj? && IsNumber(Get(data.fields, Name.VxMps)) && IsNumber(Get(data.fields, Name.VyMps))
    && IsNumber(Get(data.fields, Name.VzMps))
  }

  function VelocityOf(data: Json): Point
    requires ValidVelocity(data)
  {
    Point(NumberOf(Get(data.fields, Name.VxMps)), NumberOf(Get(data.fields, Name.VyMps)),
          NumberOf(Get(data.fields, Name.VzMps)))
  }

  predicate ValidDevice(data: Json) {
    && data.Obj?
    && var d := data.fields;
    && HasText(d, Name.Kind)
    && (Lower(TextOf(d, Name.Kind)) == "wired" || Lower(TextOf(d, Name.Kind)) == "wireless")
    && HasText(d, Name.LinkState)
    && (Upper(TextOf(d, Name.LinkState)) == "UP" || Upper(TextOf(d, Name.LinkState)) == "DOWN")
    && HasText(d, Name.DeviceId)
    && HasText(d, Name.PeerEntityId)
    && HasInteger(d, Name.DataRateBps, 1)
    && HasNumber(d, Name.DelayMs, 0.0, None)
    && HasNumber(d, Name.LossRate, 0.0, Some(1.0))
  }

  function DeviceOf(data: Json): Device
    requires ValidDevice(data)
  {
    var d := data.fields;
    Device(TextOf(d, Name.DeviceId), TextOf(d, Name.PeerEntityId), Lower(TextOf(d, Name.Kind)),
           Get(d, Name.DataRateBps).n, NumberOf(Get(d, Name.DelayMs)), NumberOf(Get(d, Name.LossRate)),
           Upper(TextOf(d, Name.LinkState)))
  }

  predicate ValidPolicy(data: Json) {
    && data.Obj?
    && var d := data.fields;
    && HasText(d, Name.SubsystemType)
    && (Lower(TextOf(d, Name.SubsystemType)) == "weapon" || Lower(TextOf(d, Name.SubsystemType)) == "radar")
    && HasText(d, Name.ViolationState)
    && (Upper(TextOf(d, Name.ViolationState)) == "DEGRADED" || Upper(TextOf(d, Name.ViolationState)) == "BLOCKED")
    && HasText(d, Name.SubsystemId)
    && HasText(d, Name.PeerEntityId)
    && HasNumber(d, Name.MaxDelayMs, 0.0, None)
    && HasNumber(d, Name.MaxLossRate, 0.0, Some(1.0))
    && HasNumber(d, Name.MinThroughputBps, 0.0, None)
  }

  function PolicyOf(data: Json): Policy
    requires ValidPolicy(data)
  {
    var d := data.fields;
    Policy(TextOf(d, Name.SubsystemId), Lower(TextOf(d, Name.SubsystemType)), TextOf(d, Name.PeerEntityId),
           NumberOf(Get(d, Name.MaxDelayMs)), NumberOf(Get(d, Name.MaxLossRate)),
           NumberOf(Get(d, Name.MinThroughputBps)), Upper(TextOf(d, Name.ViolationState)))
  }

  predicate ValidEntity(d: Dict) {
    && Get(d, Name.Alive).Bool?
    && GetList(d, Name.Devices).Arr?
    && GetList(d, Name.EffectPolicies).Arr?
    && HasText(d, Name.EntityId)
    && HasText(d, Name.BusinessNodeId)
    && (Get(d, Name.ParentEntityId).Null? || HasText(d, Name.ParentEntityId))
    && ValidPosition(Get(d, Name.Position))
    && ValidVelocity(Get(d, Name.Velocity))
    && HasNumber(d, Name.HeadingDeg, 0.0, Some(360.0))
    && (forall item <- GetList(d, Name.Devices).items :: ValidDevice(item))
    && (forall item <- GetList(d, Name.EffectPolicies).items :: ValidPolicy(item))
  }

  function EntityOf(d: Dict): Entity
    requires ValidEntity(d)
  {
    var devices := GetList(d, Name.Devices).items;
    var policies := GetList(d, Name.EffectPolicies).items;
    Entity(TextOf(d, Name.EntityId), TextOf(d, Name.BusinessNodeId), OptionalTextOf(d, Name.ParentEntityId),
           PositionOf(Get(d, Name.Position)), VelocityOf(Get(d, Name.Velocity)),
           NumberOf(Get(d, Name.HeadingDeg)), Get(d, Name.Alive).b,
           seq(|devices|, i requires 0 <= i < |devices| && ValidDevice(devices[i]) => DeviceOf(devices[i])),
           seq(|policies|, i requires 0 <= i < |policies| && ValidPolicy(policies[i]) => PolicyOf(policies[i])))
  }

  predicate ValidFlow(d: Dict) {
    && (Name.Active in d ==> d[Name.Active].Bool?)
    && HasText(d, Name.FlowId)
    && HasText(d, Name.SourceEntityId)
    && HasText(d, Name.TargetEntityId)
    && HasInteger(d, Name.PacketSizeBytes, 64)
    && HasInteger(d, Name.IntervalMs, 1)
    && HasInteger(d, Name.DurationMs, 100)
  }

  function FlowOf(d: Dict): Flow
    requires ValidFlow(d)
  {
    Flow(TextOf(d, Name.FlowId), TextOf(d, Name.SourceEntityId), TextOf(d, Name.TargetEntityId),
         Get(d, Name.PacketSizeBytes).n, Get(d, Name.IntervalMs).n, Get(d, Name.DurationMs).n,
         if Name.Active in d then d[Name.Active].b else true)
  }

  datatype Envelope = Envelope(messageType: string, requestId: string, timestampMs: int)

  predicate IsMessageType(kind: string) {
    kind == INIT || kind == DELTA || kind == QUERY
  }

  function ValidateEnvelope(payload: Json): Result<Envelope> {
    if !payload.Obj? then Error(1001)
    else
      var d := payload.fields;
      if Get(d, Name.ProtocolVersion) != Str(PROTOCOL_VERSION) then Error(1003)
      else if !HasText(d, Name.MessageType) then Error(1002)
      else if !IsMessageType(TextOf(d, Name.MessageType)) then Error(1003)
      else if !HasText(d, Name.RequestId) || !HasInteger(d, Name.TimestampMs, 0) then Error(1002)
      else Ok(Envelope(TextOf(d, Name.MessageType), TextOf(d, Name.RequestId), Get(d, Name.TimestampMs).n))
  }

  /** An envelope is accepted exactly when the message is an object of this protocol
      version with a known type, an id that is not blank and a time that is not
      negative; otherwise the code tells the three kinds of error apart. */
  lemma EnvelopeMeans(payload: Json)
    ensures ValidateEnvelope(payload).Ok? <==>
      && payload.Obj? && Get(payload.fields, Name.ProtocolVersion) == Str("0.2")
      && Get(payload.fields, Name.MessageType).Str?
      && (|| Strip(Get(payload.fields, Name.MessageType).s) == "afsim_init"
          || Strip(Get(payload.fields, Name.MessageType).s) == "afsim_delta"
          || Strip(Get(payload.fields, Name.MessageType).s) == "metrics_query")
      && Get(payload.fields, Name.RequestId).Str? && Strip(Get(payload.fields, Name.RequestId).s) != ""
      && Get(payload.fields, Name.TimestampMs).Int? && 0 <= Get(payload.fields, Name.TimestampMs).n
    ensures ValidateEnvelope(payload).Ok? ==>
      var envelope := ValidateEnvelope(payload).value;
      && envelope.messageType == Strip(Get(payload.fields, Name.MessageType).s)
      && envelope.requestId == Strip(Get(payload.fields, Name.RequestId).s)
      && envelope.timestampMs == Get(payload.fields, Name.TimestampMs).n
    ensures ValidateEnvelope(payload) == Error(1001) <==> !payload.Obj?
    ensures ValidateEnvelope(payload) == Error(1003) <==>
      && payload.Obj?
      && (|| Get(payload.fields, Name.ProtocolVersion) != Str("0.2")
          || (&& Get(payload.fields, Name.MessageType).Str? && Strip(Get(payload.fields, Name.MessageType).s) != ""
              && Strip(Get(payload.fields, Name.MessageType).s) != "afsim_init"
              && Strip(Get(payload.fields, Name.MessageType).s) != "afsim_delta"
              && Strip(Get(payload.fields, Name.MessageType).s) != "metrics_query"))
    ensures ValidateEnvelope(payload).Error? ==> ValidateEnvelope(payload).code in [1001, 1002, 1003]
  {
    hide Strip;
    assert INIT != "" && DELTA != "" && QUERY != "";
  }
}
