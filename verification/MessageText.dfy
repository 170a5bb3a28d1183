/** The text of the client's messages (`AfsimNs3Protocol.cpp`), and lines of
    JSON in general: rendered messages hold no line break, so a stream of them
    is cut back into exactly those messages. */
module MessageText {
  import opened Protocol
  import opened JsonText
  import opened TcpJsonlClient
  import opened Json

  // ----- What the writers write ---------------------------------------------------------

  function IdTree(id: string): Tree {
    Text(id)
  }

  function DeviceTree(device: DeviceConfig, double: real -> string): Tree {
    Object([
      Member(NameText(Name.DeviceId), Text(device.deviceId)),
      Member(NameText(Name.PeerEntityId), Text(device.peerEntityId)),
      Member(NameText(Name.Kind), Text(device.kind)),
      Member(NameText(Name.DataRateBps), Literal(Decimal(device.dataRateBps))),
      Member(NameText(Name.DelayMs), Literal(double(device.delayMs))),
      Member(NameText(Name.LossRate), Literal(double(device.lossRate))),
      Member(NameText(Name.LinkState), Text(device.linkState))])
  }

  function PolicyTree(policy: EffectPolicy, double: real -> string): Tree {
    Object([
      Member(NameText(Name.SubsystemId), Text(policy.subsystemId)),
      Member(NameText(Name.SubsystemType), Text(policy.subsystemType)),
      Member(NameText(Name.PeerEntityId), Text(policy.peerEntityId)),
      Member(NameText(Name.MaxDelayMs), Literal(double(policy.maxDelayMs))),
      Member(NameText(Name.MaxLossRate), Literal(double(policy.maxLossRate))),
      Member(NameText(Name.MinThroughputBps), Literal(double(policy.minThroughputBps))),
      Member(NameText(Name.ViolationState), Text(policy.violationState))])
  }

  function PositionTree(position: Position, double: real -> string): Tree {
    Object([
      Member(NameText(Name.XM), Literal(double(position.xM))),
      Member(NameText(Name.YM), Literal(double(position.yM))),
      Member(NameText(Name.ZM), Literal(double(position.zM)))])
  }

  function VelocityTree(velocity: Velocity, double: real -> string): Tree {
    Object([
      Member(NameText(Name.VxMps), Literal(double(velocity.vxMps))),
      Member(NameText(Name.VyMps), Literal(double(velocity.vyMps))),
      Member(NameText(Name.VzMps), Literal(double(velocity.vzMps)))])
  }

  function Trees<V>(values: seq<V>, tree: V -> Tree): (trees: seq<Tree>)
    ensures |trees| == |values|
    ensures forall i :: 0 <= i < |values| ==> trees[i] == tree(values[i])
  {
    seq(|values|, i requires 0 <= i < |values| => tree(values[i]))
  }

  function DeviceTrees(devices: seq<DeviceConfig>, double: real -> string): (trees: seq<Tree>)
    ensures |trees| == |devices|
    ensures forall i :: 0 <= i < |devices| ==> trees[i] == DeviceTree(devices[i], double)
  {
    Trees(devices, d => DeviceTree(d, double))
  }

  function PolicyTrees(policies: seq<EffectPolicy>, double: real -> string): (trees: seq<Tree>)
    ensures |trees| == |policies|
    ensures forall i :: 0 <= i < |policies| ==> trees[i] == PolicyTree(policies[i], double)
  {
    Trees(policies, p => PolicyTree(p, double))
  }

  function EntityTree(entity: EntityState, double: real -> string): Tree {
    Object([
      Member(NameText(Name.EntityId), Text(entity.entityId)),
      Member(NameText(Name.BusinessNodeId), Text(entity.businessNodeId)),
      Member(NameText(Name.ParentEntityId), if entity.hasParent then Text(entity.parentEntityId) else Literal("null")),
      Member(NameText(Name.Position), PositionTree(entity.position, double)),
      Member(NameText(Name.Velocity), VelocityTree(entity.velocity, double)),
      Member(NameText(Name.HeadingDeg), Literal(double(entity.headingDeg))),
      Member(NameText(Name.Alive), Literal(BooleanText(entity.alive))),
      Member(NameText(Name.Devices), Array(DeviceTrees(entity.devices, double))),
      Member(NameText(Name.EffectPolicies), Array(PolicyTrees(entity.effectPolicies, double)))])
  }

  function EntityTrees(entities: seq<EntityState>, double: real -> string): (trees: seq<Tree>)
    ensures |trees| == |entities|
    ensures forall i :: 0 <= i < |entities| ==> trees[i] == EntityTree(entities[i], double)
  {
    Trees(entities, e => EntityTree(e, double))
  }

  function FlowTree(flow: FlowConfig): Tree {
    Object([
      Member(NameText(Name.FlowId), Text(flow.flowId)),
      Member(NameText(Name.SourceEntityId), Text(flow.sourceEntityId)),
      Member(NameText(Name.TargetEntityId), Text(flow.targetEntityId)),
      Member(NameText(Name.PacketSizeBytes), Literal(Decimal(flow.packetSizeBytes))),
      Member(NameText(Name.IntervalMs), Literal(Decimal(flow.intervalMs))),
      Member(NameText(Name.DurationMs), Literal(Decimal(flow.durationMs))),
      Member(NameText(Name.Active), Literal(BooleanText(flow.active)))])
  }

  function Envelope(messageType: string, requestId: string, timestampMs: nat): seq<Member> {
    [Member(NameText(Name.ProtocolVersion), Text(PROTOCOL_VERSION)),
     Member(NameText(Name.MessageType), Text(messageType)),
     Member(NameText(Name.RequestId), Text(requestId)),
     Member(NameText(Name.TimestampMs), Literal(Decimal(timestampMs)))]
  }

  function InitTree(requestId: string, timestampMs: nat, entities: seq<EntityState>, flows: seq<FlowConfig>,
                    double: real -> string): Tree {
    Object(Envelope(INIT, requestId, timestampMs) + [
      Member(NameText(Name.Entities), Array(EntityTrees(entities, double))),
      Member(NameText(Name.Flows), Array(Trees(flows, FlowTree)))])
  }

  function DeltaTree(requestId: string, timestampMs: nat, delta: DeltaState, double: real -> string): Tree {
    Object(Envelope(DELTA, requestId, timestampMs) + [
      Member(NameText(Name.EntityUpserts), Array(EntityTrees(delta.entityUpserts, double))),
      Member(NameText(Name.EntityRemovals), Array(Trees(delta.entityRemovals, IdTree))),
      Member(NameText(Name.FlowUpserts), Array(Trees(delta.flowUpserts, FlowTree))),
      Member(NameText(Name.FlowRemovals), Array(Trees(delta.flowRemovals, IdTree)))])
  }

  /** `WriteArray`, with the writer of one value as a parameter. */
  method WriteArray<V>(values: seq<V>, tree: V -> Tree) returns (output: string)
    ensures output == Render(Array(Trees(values, tree)))
  {
    hide Render;
    output := ['['];
    ghost var trees := Trees(values, tree);
    for index := 0 to |values|
      invariant output == ['['] + RenderItems(trees[..index])
    {
      if index != 0 {
        output := output + [','];
      }
      output := output + Render(tree(values[index]));
      RenderItemsSnoc(trees[..index], trees[index]);
      assert trees[..index + 1] == trees[..index] + [trees[index]];
    }
    assert trees[..|values|] == trees;
    output := output + [']'];
    RenderArray(trees);
  }

  lemma RenderArray(items: seq<Tree>)
    ensures Render(Array(items)) == ['['] + RenderItems(items) + [']']
  {
  }

  lemma {:induction false} RenderItemsSnoc(items: seq<Tree>, last: Tree)
    ensures RenderItems(items + [last])
         == RenderItems(items) + (if items == [] then "" else [',']) + Render(last)
    decreases |items|
  {
    hide Render;
    var all := items + [last];
    if items == [] {
      assert all[0] == last && |all| == 1;
    } else {
      var others := items[1..];
      RenderItemsSnoc(others, last);
      assert all[1..] == others + [last] && all[0] == items[0] && |all| > 1;
      var front, end := Render(items[0]) + [','], (if others == [] then "" else [',']) + Render(last);
      assert RenderItems(all) == front + RenderItems(others + [last]);
      assert RenderItems(others + [last]) == RenderItems(others) + end;
    }
  }

  // ----- No line breaks ---------------------------------------------------------------------

  predicate Unbroken(text: string) {
    forall i :: 0 <= i < |text| ==> text[i] != CR && text[i] != LF
  }

  lemma UnbrokenEscapeChar(c: char)
    ensures Unbroken(EscapeChar(c))
  {
    forall n: nat | n < 16 ensures HexDigit(n) != CR && HexDigit(n) != LF {
    }
  }

  lemma {:induction false} UnbrokenEscape(s: string)
    ensures Unbroken(Escape(s))
  {
    hide EscapeChar;
    if s != "" {
      UnbrokenEscapeChar(s[0]);
      UnbrokenEscape(s[1..]);
    }
  }

  /** Compact JSON never holds a raw CR or LF, whatever its strings contain. */
  lemma {:induction false} UnbrokenRender(tree: Tree)
    requires Proper(tree)
    ensures Unbroken(Render(tree))
    decreases tree
  {
    hide Escape;
    match tree
    case Text(s) => UnbrokenEscape(s);
    case Literal(text) =>
    case Array(items) => UnbrokenItems(items);
    case Object(members) => UnbrokenMembers(members);
  }

  lemma {:induction false} UnbrokenItems(items: seq<Tree>)
    requires forall i :: 0 <= i < |items| ==> Proper(items[i])
    ensures Unbroken(RenderItems(items))
    decreases items
  {
    hide Render, Proper;
    if items != [] {
      UnbrokenRender(items[0]);
      UnbrokenItems(items[1..]);
    }
  }

  lemma {:induction false} UnbrokenMembers(members: seq<Member>)
    requires forall i :: 0 <= i < |members| ==> Proper(members[i].value)
    ensures Unbroken(RenderMembers(members))
    decreases members
  {
    hide Render, Proper, Escape;
    if members != [] {
      UnbrokenEscape(members[0].name);
      UnbrokenRender(members[0].value);
      UnbrokenMembers(members[1..]);
      assert Unbroken(RenderMember(members[0]));
    }
  }

  lemma RenderIsFrameable(tree: Tree)
    requires Proper(tree)
    ensures Frameable(Render(tree))
  {
    UnbrokenRender(tree);
  }

  // ----- The messages are proper -----------------------------------------------------------

  /** `operator<<` on a double writes digits, signs, a point, an exponent or a
      lower-case word such as `inf`. */
  ghost predicate WritesLiterals(double: real -> string) {
    forall r :: IsLiteralText(double(r))
  }

  lemma DecimalIsLiteral(n: nat)
    ensures IsLiteralText(Decimal(n))
  {
    DecimalIsNumber(n);
  }

  lemma ProperItems(items: seq<Tree>)
    requires forall i :: 0 <= i < |items| ==> Proper(items[i])
    ensures Proper(Array(items))
  {
  }

  lemma ProperEntity(entity: EntityState, double: real -> string)
    requires WritesLiterals(double)
    ensures Proper(EntityTree(entity, double))
  {
    hide Decimal, IsLiteralText;
    forall i | 0 <= i < |entity.devices| ensures Proper(DeviceTree(entity.devices[i], double)) {
      DecimalIsLiteral(entity.devices[i].dataRateBps);
    }
    ProperItems(DeviceTrees(entity.devices, double));
    ProperItems(PolicyTrees(entity.effectPolicies, double));
    WordsAreLiteral(entity.alive);
    assert Proper(PositionTree(entity.position, double));
    assert Proper(VelocityTree(entity.velocity, double));
  }

  lemma WordsAreLiteral(b: bool)
    ensures IsLiteralText(BooleanText(b)) && IsLiteralText("null")
  {
  }

  lemma ProperFlow(flow: FlowConfig)
    ensures Proper(FlowTree(flow))
  {
    hide Decimal, IsLiteralText;
    DecimalIsLiteral(flow.packetSizeBytes);
    DecimalIsLiteral(flow.intervalMs);
    DecimalIsLiteral(flow.durationMs);
    WordsAreLiteral(flow.active);
  }

  lemma ProperLists(entities: seq<EntityState>, flows: seq<FlowConfig>, double: real -> string)
    requires WritesLiterals(double)
    ensures Proper(Array(EntityTrees(entities, double)))
    ensures Proper(Array(Trees(flows, FlowTree)))
  {
    hide EntityTree, FlowTree, Proper;
    forall i | 0 <= i < |entities| ensures Proper(EntityTree(entities[i], double)) {
      ProperEntity(entities[i], double);
    }
    forall i | 0 <= i < |flows| ensures Proper(FlowTree(flows[i])) {
      ProperFlow(flows[i]);
    }
    ProperItems(EntityTrees(entities, double));
    ProperItems(Trees(flows, FlowTree));
  }

  lemma ProperInit(requestId: string, timestampMs: nat, entities: seq<EntityState>, flows: seq<FlowConfig>,
                   double: real -> string)
    requires WritesLiterals(double)
    ensures Proper(InitTree(requestId, timestampMs, entities, flows, double))
  {
    hide EntityTree, FlowTree, Decimal, IsLiteralText;
    DecimalIsLiteral(timestampMs);
    ProperLists(entities, flows, double);
  }

  lemma ProperDelta(requestId: string, timestampMs: nat, delta: DeltaState, double: real -> string)
    requires WritesLiterals(double)
    ensures Proper(DeltaTree(requestId, timestampMs, delta, double))
  {
    hide EntityTree, FlowTree, Decimal, IsLiteralText;
    DecimalIsLiteral(timestampMs);
    ProperLists(delta.entityUpserts, delta.flowUpserts, double);
    ProperItems(Trees(delta.entityRemovals, IdTree));
    ProperItems(Trees(delta.flowRemovals, IdTree));
  }

  // ----- Streams of messages -------------------------------------------------------------------

  function Rendered(trees: seq<Tree>): (texts: seq<string>)
    ensures |texts| == |trees|
    ensures forall i :: 0 <= i < |trees| ==> texts[i] == Render(trees[i])
  {
    seq(|trees|, i requires 0 <= i < |trees| => Render(trees[i]))
  }

  /** However the stream of rendered messages is cut into chunks, the line
      handler is given exactly those messages, in order. */
  lemma MessagesArrive(trees: seq<Tree>, chunks: seq<string>)
    requires forall i :: 0 <= i < |trees| ==> Proper(trees[i])
    requires Concat(chunks) == Concat(NormalizedAll(Rendered(trees)))
    ensures DispatchChunks("", chunks) == Split(Rendered(trees), "")
  {
    hide Proper, Render, Frameable, NormalizedAll, Concat, DispatchChunks, SplitLines, Handled;
    forall i | 0 <= i < |trees| ensures Frameable(Rendered(trees)[i]) {
      RenderIsFrameable(trees[i]);
    }
    FramesRoundTrip(Rendered(trees));
    ChunksDoNotMatter("", chunks);
    assert "" + Concat(chunks) == Concat(chunks);
  }
}
