/** The scenario of the ns-3 runner and its search for an active path
    (`afsim-ns3-runner.cc`). */
module Ns3Runner {

  datatype NodeInput = NodeInput(index: nat, x: real, y: real, z: real, alive: bool)

  datatype LinkInput = LinkInput(
    index: nat, source: nat, target: nat, dataRateBps: nat, delayMs: real, lossRate: real, up: bool)

  datatype FlowInput = FlowInput(
    index: nat, source: nat, target: nat, packetSizeBytes: nat, intervalMs: nat, durationMs: nat, enabled: bool)

  datatype Scenario = Scenario(
    id: string, expectedNodes: nat, expectedLinks: nat, expectedFlows: nat,
    nodes: seq<NodeInput>, links: seq<LinkInput>, flows: seq<FlowInput>)

  /** `ValidateScenario` throws exactly when this fails. */
  predicate Valid(scenario: Scenario) {
    && |scenario.nodes| == scenario.expectedNodes
    && |scenario.links| == scenario.expectedLinks
    && |scenario.flows| == scenario.expectedFlows
    && (forall i :: 0 <= i < |scenario.nodes| ==> scenario.nodes[i].index == i)
    && (forall i :: 0 <= i < |scenario.links| ==> ValidLink(scenario.links[i], |scenario.nodes|))
    && (forall i :: 0 <= i < |scenario.flows| ==> ValidFlow(scenario.flows[i], |scenario.nodes|))
  }

  predicate ValidLink(link: LinkInput, nodes: nat) {
    && link.source < nodes && link.target < nodes && link.dataRateBps != 0
    && 0.0 <= link.delayMs && 0.0 <= link.lossRate <= 1.0
  }

  predicate ValidFlow(flow: FlowInput, nodes: nat) {
    && flow.source < nodes && flow.target < nodes && 64 <= flow.packetSizeBytes
    && flow.intervalMs != 0 && 100 <= flow.durationMs
  }

  method ValidateScenario(scenario: Scenario) returns (ok: bool)
    ensures ok <==> Valid(scenario)
  {
    if |scenario.nodes| != scenario.expectedNodes || |scenario.links| != scenario.expectedLinks
       || |scenario.flows| != scenario.expectedFlows {
      return false;
    }
    for index := 0 to |scenario.nodes|
      invariant forall i :: 0 <= i < index ==> scenario.nodes[i].index == i
    {
      if scenario.nodes[index].index != index {
        return false;
      }
    }
    for index := 0 to |scenario.links|
      invariant forall i :: 0 <= i < index ==> ValidLink(scenario.links[i], |scenario.nodes|)
    {
      var link := scenario.links[index];
      if link.source >= |scenario.nodes| || link.target >= |scenario.nodes| {
        return false;
      }
      if link.dataRateBps == 0 || link.delayMs < 0.0 || link.lossRate < 0.0 || link.lossRate > 1.0 {
        return false;
      }
    }
    for index := 0 to |scenario.flows|
      invariant forall i :: 0 <= i < index ==> ValidFlow(scenario.flows[i], |scenario.nodes|)
    {
      var flow := scenario.flows[index];
      if flow.source >= |scenario.nodes| || flow.target >= |scenario.nodes| {
        return false;
      }
      if flow.packetSizeBytes < 64 || flow.intervalMs == 0 || flow.durationMs < 100 {
        return false;
      }
    }
    ok := true;
  }

  // ----- Paths --------------------------------------------------------------------------

  /** What the runner has validated before it searches. */
  predicate LinksInRange(scenario: Scenario) {
    forall i :: 0 <= i < |scenario.links| ==>
      scenario.links[i].source < |scenario.nodes| && scenario.links[i].target < |scenario.nodes|
  }

  /** In a validated scenario the ends of links and flows are positions of nodes, and
      the nodes there carry just these indexes. */
  lemma ValidIsSearchable(scenario: Scenario)
    requires Valid(scenario)
    ensures LinksInRange(scenario)
    ensures forall i :: 0 <= i < |scenario.links| ==>
      && scenario.nodes[scenario.links[i].source].index == scenario.links[i].source
      && scenario.nodes[scenario.links[i].target].index == scenario.links[i].target
    ensures forall i :: 0 <= i < |scenario.flows| ==>
      && scenario.flows[i].source < |scenario.nodes| && scenario.flows[i].target < |scenario.nodes|
      && scenario.nodes[scenario.flows[i].source].index == scenario.flows[i].source
      && scenario.nodes[scenario.flows[i].target].index == scenario.flows[i].target
  {
  }

  predicate Alive(scenario: Scenario, node: nat) {
    node < |scenario.nodes| && scenario.nodes[node].alive
  }

  /** Link `k` is up, its ends are alive, and it joins the two nodes. */
  predicate JoinedBy(scenario: Scenario, k: nat, a: nat, b: nat) {
    && k < |scenario.links| && scenario.links[k].up
    && Alive(scenario, scenario.links[k].source) && Alive(scenario, scenario.links[k].target)
    && ((scenario.links[k].source == a && scenario.links[k].target == b)
        || (scenario.links[k].source == b && scenario.links[k].target == a))
  }

  ghost predicate Adjacent(scenario: Scenario, a: nat, b: nat) {
    exists k: nat :: JoinedBy(scenario, k, a, b)
  }

  /** A chain of up links between alive nodes. */
  ghost predicate IsPath(scenario: Scenario, path: seq<nat>, a: nat, b: nat) {
    && path != [] && path[0] == a && path[|path| - 1] == b
    && forall i :: 0 <= i < |path| - 1 ==> Adjacent(scenario, path[i], path[i + 1])
  }

  ghost predicate Reaches(scenario: Scenario, a: nat, b: nat) {
    exists path: seq<nat> :: IsPath(scenario, path, a, b)
  }

  ghost predicate Connected(scenario: Scenario, source: nat, target: nat) {
    Alive(scenario, source) && Alive(scenario, target) && Reaches(scenario, source, target)
  }

  lemma ReachesSelf(scenario: Scenario, a: nat)
    ensures Reaches(scenario, a, a)
  {
    assert IsPath(scenario, [a], a, a);
  }

  lemma ReachesFurther(scenario: Scenario, a: nat, b: nat, c: nat)
    requires Reaches(scenario, a, b) && Adjacent(scenario, b, c)
    ensures Reaches(scenario, a, c)
  {
    hide Adjacent;
    var path: seq<nat> :| IsPath(scenario, path, a, b);
    var longer := path + [c];
    forall i | 0 <= i < |longer| - 1 ensures Adjacent(scenario, longer[i], longer[i + 1]) {
      if i < |path| - 1 {
        assert longer[i] == path[i] && longer[i + 1] == path[i + 1];
      }
    }
    assert IsPath(scenario, longer, a, c);
  }

  /** A set that no up link leaves holds all of every path that starts in it. */
  lemma {:induction false} ClosedHoldsPath(scenario: Scenario, seen: set<nat>, path: seq<nat>, a: nat, b: nat)
    requires a in seen && IsPath(scenario, path, a, b)
    requires forall x, y :: x in seen && Adjacent(scenario, x, y) ==> y in seen
    ensures b in seen
    decreases |path|
  {
    hide Adjacent;
    if |path| > 1 {
      var rest := path[1..];
      assert Adjacent(scenario, path[0], path[1]);
      forall i | 0 <= i < |rest| - 1 ensures Adjacent(scenario, rest[i], rest[i + 1]) {
        assert rest[i] == path[i + 1] && rest[i + 1] == path[i + 2];
      }
      ClosedHoldsPath(scenario, seen, rest, path[1], b);
    }
  }

  lemma AdjacentSymmetric(scenario: Scenario, a: nat, b: nat)
    requires Adjacent(scenario, a, b)
    ensures Adjacent(scenario, b, a)
  {
    var k: nat :| JoinedBy(scenario, k, a, b);
    assert JoinedBy(scenario, k, b, a);
  }

  /** Whether two nodes are connected does not depend on the direction. */
  lemma ConnectedSymmetric(scenario: Scenario, source: nat, target: nat)
    ensures Connected(scenario, source, target) <==> Connected(scenario, target, source)
  {
    if Connected(scenario, source, target) {
      ReachesBack(scenario, source, target);
    }
    if Connected(scenario, target, source) {
      ReachesBack(scenario, target, source);
    }
  }

  lemma ReachesBack(scenario: Scenario, a: nat, b: nat)
    requires Reaches(scenario, a, b)
    ensures Reaches(scenario, b, a)
  {
    hide Adjacent;
    var path: seq<nat> :| IsPath(scenario, path, a, b);
    var n := |path|;
    var back: seq<nat> := seq(n, i requires 0 <= i < n => path[n - 1 - i]);
    forall i | 0 <= i < n - 1 ensures Adjacent(scenario, back[i], back[i + 1]) {
      assert Adjacent(scenario, path[n - 2 - i], path[n - 2 - i + 1]);
      AdjacentSymmetric(scenario, path[n - 2 - i], path[n - 1 - i]);
    }
    assert IsPath(scenario, back, b, a);
  }

  /** More links never disconnect anything. */
  lemma MoreLinksStayConnected(scenario: Scenario, more: seq<LinkInput>, source: nat, target: nat)
    requires Connected(scenario, source, target)
    ensures Connected(scenario.(links := scenario.links + more), source, target)
  {
    var larger := scenario.(links := scenario.links + more);
    var path: seq<nat> :| IsPath(scenario, path, source, target);
    forall i | 0 <= i < |path| - 1 ensures Adjacent(larger, path[i], path[i + 1]) {
      assert Adjacent(scenario, path[i], path[i + 1]);
      var k: nat :| JoinedBy(scenario, k, path[i], path[i + 1]);
      assert larger.links[k] == scenario.links[k];
      assert JoinedBy(larger, k, path[i], path[i + 1]);
    }
    assert IsPath(larger, path, source, target);
  }

  // ----- The search -------------------------------------------------------------------------

  /** The lists hold exactly the neighbours over the first `n` links. */
  ghost predicate ListsNeighbours(scenario: Scenario, adjacency: seq<seq<nat>>, n: nat) {
    && |adjacency| == |scenario.nodes|
    && (forall a, i :: 0 <= a < |adjacency| && 0 <= i < |adjacency[a]| ==> Adjacent(scenario, a, adjacency[a][i]))
    && (forall a, b, k: nat :: 0 <= a < |adjacency| && k < n && JoinedBy(scenario, k, a, b) ==> b in adjacency[a])
  }

  method Neighbours(scenario: Scenario) returns (adjacency: seq<seq<nat>>)
    requires LinksInRange(scenario)
    ensures ListsNeighbours(scenario, adjacency, |scenario.links|)
  {
    adjacency := seq(|scenario.nodes|, _ => []);
    for k := 0 to |scenario.links|
      invariant ListsNeighbours(scenario, adjacency, k)
    {
      var link := scenario.links[k];
      if !link.up || !scenario.nodes[link.source].alive || !scenario.nodes[link.target].alive {
        LinkSkipped(scenario, adjacency, k);
        continue;
      }
      ghost var before := adjacency;
      adjacency := adjacency[link.source := adjacency[link.source] + [link.target]];
      adjacency := adjacency[link.target := adjacency[link.target] + [link.source]];
      LinkListed(scenario, before, k, adjacency);
    }
  }

  lemma LinkSkipped(scenario: Scenario, adjacency: seq<seq<nat>>, k: nat)
    requires ListsNeighbours(scenario, adjacency, k) && k < |scenario.links|
    requires
      || !scenario.links[k].up
      || !Alive(scenario, scenario.links[k].source) || !Alive(scenario, scenario.links[k].target)
    ensures ListsNeighbours(scenario, adjacency, k + 1)
  {
  }

  lemma LinkListed(scenario: Scenario, before: seq<seq<nat>>, k: nat, after: seq<seq<nat>>)
    requires ListsNeighbours(scenario, before, k) && LinksInRange(scenario) && k < |scenario.links|
    requires var link := scenario.links[k];
      && link.up && Alive(scenario, link.source) && Alive(scenario, link.target)
      && var half := before[link.source := before[link.source] + [link.target]];
         after == half[link.target := half[link.target] + [link.source]]
    ensures ListsNeighbours(scenario, after, k + 1)
  {
    var link := scenario.links[k];
    assert JoinedBy(scenario, k, link.source, link.target) && JoinedBy(scenario, k, link.target, link.source);
    assert link.target in after[link.source] && link.source in after[link.target];
    forall a, i | 0 <= a < |after| && 0 <= i < |after[a]| ensures Adjacent(scenario, a, after[a][i]) {
      if i < |before[a]| {
        assert after[a][i] == before[a][i];
      }
    }
    forall a, b, j: nat | 0 <= a < |after| && j < k + 1 && JoinedBy(scenario, j, a, b) ensures b in after[a] {
      if j < k {
        assert b in before[a];
        assert before[a] <= after[a];
      }
    }
  }

  /** The search's bookkeeping: what is seen can be reached, and what is seen
      and no longer pending has all its neighbours seen and is not the target. */
  ghost predicate Searching(scenario: Scenario, source: nat, target: nat, seen: set<nat>, pending: seq<nat>) {
    && source in seen
    && (forall x :: x in seen ==> x < |scenario.nodes| && Reaches(scenario, source, x))
    && (forall i :: 0 <= i < |pending| ==> pending[i] in seen)
    && (forall x :: x in seen && x !in pending ==> x != target && Expanded(scenario, seen, x))
  }

  ghost predicate Expanded(scenario: Scenario, seen: set<nat>, x: nat) {
    forall y :: Adjacent(scenario, x, y) ==> y in seen
  }

  /** While the neighbours of `current` are looked at, `current` is neither
      pending nor done. */
  ghost predicate Expanding(
    scenario: Scenario, source: nat, target: nat, seen: set<nat>, pending: seq<nat>, current: nat)
  {
    && source in seen && current in seen && current != target
    && (forall x :: x in seen ==> x < |scenario.nodes| && Reaches(scenario, source, x))
    && (forall i :: 0 <= i < |pending| ==> pending[i] in seen)
    && (forall x :: x in seen && x !in pending && x != current ==> x != target && Expanded(scenario, seen, x))
  }

  lemma Popped(scenario: Scenario, source: nat, target: nat, seen: set<nat>, pending: seq<nat>)
    requires pending != [] && Searching(scenario, source, target, seen, pending)
    requires pending[|pending| - 1] != target
    ensures Expanding(scenario, source, target, seen, pending[..|pending| - 1], pending[|pending| - 1])
  {
    hide Expanded, Reaches;
    var front := pending[..|pending| - 1];
    forall x | x in pending && x != pending[|pending| - 1] ensures x in front {
      var i :| 0 <= i < |pending| && pending[i] == x;
      assert front[i] == x;
    }
  }

  lemma Pushed(scenario: Scenario, source: nat, target: nat, seen: set<nat>, pending: seq<nat>, current: nat, next: nat)
    requires Expanding(scenario, source, target, seen, pending, current)
    requires Adjacent(scenario, current, next) && next < |scenario.nodes|
    ensures Expanding(scenario, source, target, seen + {next}, pending + [next], current)
  {
    hide Adjacent, Reaches;
    ReachesFurther(scenario, source, current, next);
    var more := pending + [next];
    assert more[|pending|] == next;
    forall x | x in pending ensures x in more {
      var i :| 0 <= i < |pending| && pending[i] == x;
      assert more[i] == x;
    }
    forall x | x in seen + {next} && x !in more && x != current
      ensures x != target && Expanded(scenario, seen + {next}, x)
    {
      assert Expanded(scenario, seen, x);
    }
  }

  lemma SearchFailed(scenario: Scenario, source: nat, target: nat, seen: set<nat>)
    requires Searching(scenario, source, target, seen, [])
    ensures !Reaches(scenario, source, target)
  {
    hide Adjacent, IsPath;
    forall x, y | x in seen && Adjacent(scenario, x, y) ensures y in seen {
      assert Expanded(scenario, seen, x);
    }
    if Reaches(scenario, source, target) {
      var path: seq<nat> :| IsPath(scenario, path, source, target);
      ClosedHoldsPath(scenario, seen, path, source, target);
    }
  }

  lemma NeighboursInRange(scenario: Scenario, a: nat, b: nat)
    requires Adjacent(scenario, a, b)
    ensures b < |scenario.nodes|
  {
  }

  lemma AllExpanded(scenario: Scenario, adjacency: seq<seq<nat>>, seen: set<nat>, current: nat)
    requires ListsNeighbours(scenario, adjacency, |scenario.links|) && current < |adjacency|
    requires forall i :: 0 <= i < |adjacency[current]| ==> adjacency[current][i] in seen
    ensures Expanded(scenario, seen, current)
  {
    forall y | Adjacent(scenario, current, y) ensures y in seen {
      var k: nat :| JoinedBy(scenario, k, current, y);
      assert y in adjacency[current];
    }
  }

  /** The depth-first search with its own stack: true exactly when both ends are
      alive and joined by a chain of up links between alive nodes. */
  method HasActivePath(scenario: Scenario, source: nat, target: nat) returns (found: bool)
    requires LinksInRange(scenario)
    ensures found <==> Connected(scenario, source, target)
  {
    hide Reaches, Adjacent, Searching, Expanding, Expanded, ListsNeighbours;
    var n := |scenario.nodes|;
    if source >= n || target >= n || !scenario.nodes[source].alive || !scenario.nodes[target].alive {
      return false;
    }
    var adjacency := Neighbours(scenario);
    var visited := new bool[n](_ => false);
    var pending := [source];
    visited[source] := true;
    ghost var seen: set<nat> := {source};
    FirstSeen(scenario, source, target);
    while pending != []
      invariant Searching(scenario, source, target, seen, pending)
      invariant forall i :: 0 <= i < n ==> (visited[i] <==> i in seen)
      decreases Below(n) - seen, |pending|
    {
      var current := pending[|pending| - 1];
      SeenMeans(scenario, source, target, seen, pending, |pending| - 1);
      if current == target {
        return true;
      }
      Popped(scenario, source, target, seen, pending);
      pending := pending[..|pending| - 1];
      NeighboursMean(scenario, adjacency, current);
      ghost var wasSeen, wasPending := seen, pending;
      for i := 0 to |adjacency[current]|
        invariant Expanding(scenario, source, target, seen, pending, current)
        invariant forall j :: 0 <= j < i ==> adjacency[current][j] in seen
        invariant forall j :: 0 <= j < n ==> (visited[j] <==> j in seen)
        invariant wasSeen <= seen && (seen == wasSeen ==> pending == wasPending)
        invariant forall x :: x in seen && x !in wasSeen ==> x < n
      {
        var next := adjacency[current][i];
        if !visited[next] {
          Pushed(scenario, source, target, seen, pending, current, next);
          visited[next] := true;
          pending := pending + [next];
          seen := seen + {next};
        }
      }
      AllExpanded(scenario, adjacency, seen, current);
      ExpandedIsDone(scenario, source, target, seen, pending, current);
      Progress(n, wasSeen, seen);
    }
    SearchFailed(scenario, source, target, seen);
    found := false;
  }

  function Below(n: nat): (below: set<nat>)
    ensures forall i: nat :: i in below <==> i < n
  {
    if n == 0 then {} else Below(n - 1) + {n - 1}
  }

  lemma Progress(n: nat, before: set<nat>, after: set<nat>)
    requires before <= after && forall x :: x in after && x !in before ==> x < n
    ensures after != before ==> Below(n) - after < Below(n) - before
  {
    if after != before {
      var x :| x in after && x !in before;
      assert x in Below(n) - before && x !in Below(n) - after;
    }
  }

  lemma FirstSeen(scenario: Scenario, source: nat, target: nat)
    requires source < |scenario.nodes|
    ensures Searching(scenario, source, target, {source}, [source])
  {
    hide Reaches;
    ReachesSelf(scenario, source);
    assert [source][0] == source;
  }

  lemma SeenMeans(scenario: Scenario, source: nat, target: nat, seen: set<nat>, pending: seq<nat>, i: nat)
    requires Searching(scenario, source, target, seen, pending) && i < |pending|
    ensures pending[i] < |scenario.nodes| && Reaches(scenario, source, pending[i])
  {
  }

  lemma NeighboursMean(scenario: Scenario, adjacency: seq<seq<nat>>, current: nat)
    requires ListsNeighbours(scenario, adjacency, |scenario.links|) && current < |scenario.nodes|
    ensures |adjacency| == |scenario.nodes|
    ensures forall i :: 0 <= i < |adjacency[current]| ==>
      adjacency[current][i] < |scenario.nodes| && Adjacent(scenario, current, adjacency[current][i])
  {
    forall i | 0 <= i < |adjacency[current]| ensures adjacency[current][i] < |scenario.nodes| {
      NeighboursInRange(scenario, current, adjacency[current][i]);
    }
  }

  lemma ExpandedIsDone(scenario: Scenario, source: nat, target: nat, seen: set<nat>, pending: seq<nat>, current: nat)
    requires Expanding(scenario, source, target, seen, pending, current) && Expanded(scenario, seen, current)
    ensures Searching(scenario, source, target, seen, pending)
  {
    hide Expanded, Reaches;
  }
}
