/** `MessageTransportGate.cpp`: link and flow results folded into one profile a
    direction, guarded by the revision, and the decision for each message. */
module MessageTransportGate {
  import opened Wrappers
  import opened JsonText
  import opened JsonScanner
  import opened FieldNames
  import opened MetricsMessage
  import opened LossDraw

  datatype Profile = Profile(connected: bool, delayMs: real, lossRate: real)

  /** A direction: source and target. */
  type Pair = (string, string)

  type Profiles = map<Pair, Profile>

  const DEFAULT_PROFILE := Profile(false, 0.0, 1.0)

  function Max(a: real, b: real): real {
    if a < b then b else a
  }

  function Min(a: real, b: real): real {
    if b < a then b else a
  }

  // ----- The fold -------------------------------------------------------------------------

  function ProfileOfLink(link: LinkEntry): Profile {
    Profile(link.up, Max(0.0, link.delayMs), Max(0.0, Min(1.0, link.lossRate)))
  }

  function WithLink(profiles: Profiles, link: LinkEntry): Profiles {
    profiles[(link.source, link.target) := ProfileOfLink(link)]
  }

  function WithMetric(profiles: Profiles, metric: MetricEntry): Profiles {
    var pair := (metric.source, metric.target);
    var profile := if pair in profiles then profiles[pair] else DEFAULT_PROFILE;
    profiles[pair := Profile(metric.usable, Max(profile.delayMs, Max(0.0, metric.latencyMs)), profile.lossRate)]
  }

  function OfLinks(links: seq<LinkEntry>): Profiles
    decreases |links|
  {
    if links == [] then map[] else WithLink(OfLinks(links[..|links| - 1]), links[|links| - 1])
  }

  function OfMetrics(profiles: Profiles, metrics: seq<MetricEntry>): Profiles
    decreases |metrics|
  {
    if metrics == [] then profiles
    else WithMetric(OfMetrics(profiles, metrics[..|metrics| - 1]), metrics[|metrics| - 1])
  }

  function ProfilesOf(metrics: Metrics): Profiles {
    OfMetrics(OfLinks(metrics.links), metrics.metrics)
  }

  // ----- What the fold amounts to ------------------------------------------------------------

  predicate LinkIs(link: LinkEntry, pair: Pair) {
    (link.source, link.target) == pair
  }

  predicate MetricIs(metric: MetricEntry, pair: Pair) {
    (metric.source, metric.target) == pair
  }

  /** Index `i` holds the last link of the direction. */
  ghost predicate LastLink(links: seq<LinkEntry>, pair: Pair, i: nat) {
    i < |links| && LinkIs(links[i], pair) && forall j :: i < j < |links| ==> !LinkIs(links[j], pair)
  }

  ghost predicate LastMetric(metrics: seq<MetricEntry>, pair: Pair, i: nat) {
    i < |metrics| && MetricIs(metrics[i], pair) && forall j :: i < j < |metrics| ==> !MetricIs(metrics[j], pair)
  }

  predicate HasLink(links: seq<LinkEntry>, pair: Pair) {
    exists i :: 0 <= i < |links| && LinkIs(links[i], pair)
  }

  predicate HasMetric(metrics: seq<MetricEntry>, pair: Pair) {
    exists i :: 0 <= i < |metrics| && MetricIs(metrics[i], pair)
  }

  /** Only the last link of a direction counts. */
  ghost predicate LinkedBy(links: seq<LinkEntry>, profiles: Profiles, pair: Pair) {
    && (pair in profiles <==> HasLink(links, pair))
    && (HasLink(links, pair) ==> exists i: nat :: LastLink(links, pair, i))
    && (forall i: nat :: LastLink(links, pair, i) ==> pair in profiles && profiles[pair] == ProfileOfLink(links[i]))
  }

  lemma {:induction false} LinksFold(links: seq<LinkEntry>, pair: Pair)
    ensures LinkedBy(links, OfLinks(links), pair)
    decreases |links|
  {
    hide ProfileOfLink;
    var n := |links|;
    if n > 0 {
      var front, last := links[..n - 1], links[n - 1];
      LinksFold(front, pair);
      hide LinkedBy;
      if LinkIs(last, pair) {
        LinkedHere(links, OfLinks(links), pair);
      } else {
        LinkedElsewhere(links, OfLinks(front), OfLinks(links), pair);
      }
    }
  }

  lemma LinkedHere(links: seq<LinkEntry>, after: Profiles, pair: Pair)
    requires links != [] && LinkIs(links[|links| - 1], pair)
    requires pair in after && after[pair] == ProfileOfLink(links[|links| - 1])
    ensures LinkedBy(links, after, pair)
  {
    hide ProfileOfLink;
    assert LastLink(links, pair, |links| - 1);
  }

  lemma LinkedElsewhere(links: seq<LinkEntry>, before: Profiles, after: Profiles, pair: Pair)
    requires links != [] && !LinkIs(links[|links| - 1], pair)
    requires LinkedBy(links[..|links| - 1], before, pair)
    requires pair in before <==> pair in after
    requires pair in before ==> before[pair] == after[pair]
    ensures LinkedBy(links, after, pair)
  {
    hide ProfileOfLink, HasLink;
    var front := links[..|links| - 1];
    HasLinkSnoc(links, pair);
    forall i: nat ensures LastLink(links, pair, i) <==> LastLink(front, pair, i) {
    }
  }

  lemma HasLinkSnoc(links: seq<LinkEntry>, pair: Pair)
    requires links != []
    ensures HasLink(links, pair) <==> HasLink(links[..|links| - 1], pair) || LinkIs(links[|links| - 1], pair)
  {
    var front := links[..|links| - 1];
    if HasLink(links, pair) && !LinkIs(links[|links| - 1], pair) {
      var i :| 0 <= i < |links| && LinkIs(links[i], pair);
      assert LinkIs(front[i], pair);
    }
    if HasLink(front, pair) {
      var i :| 0 <= i < |front| && LinkIs(front[i], pair);
      assert LinkIs(links[i], pair);
    }
  }

  /** The profile that a direction starts from when the measurements are added. */
  function StartOf(profiles: Profiles, pair: Pair): Profile {
    if pair in profiles then profiles[pair] else DEFAULT_PROFILE
  }

  /** The delay is the greatest of where it started and all measured latencies,
      and at least zero when something was measured. */
  ghost predicate IsGreatestDelay(delay: real, start: real, metrics: seq<MetricEntry>, pair: Pair) {
    && start <= delay
    && (forall i :: 0 <= i < |metrics| && MetricIs(metrics[i], pair) ==> Max(0.0, metrics[i].latencyMs) <= delay)
    && (delay == start
        || exists i :: 0 <= i < |metrics| && MetricIs(metrics[i], pair) && delay == Max(0.0, metrics[i].latencyMs))
  }

  /** What adding the measurements makes of the profile of a direction. */
  ghost predicate MeasuredFrom(before: Profiles, metrics: seq<MetricEntry>, after: Profiles, pair: Pair) {
    && (pair in after <==> pair in before || HasMetric(metrics, pair))
    && (HasMetric(metrics, pair) ==> exists i: nat :: LastMetric(metrics, pair, i))
    && (pair in after ==>
        && after[pair].lossRate == StartOf(before, pair).lossRate
        && IsGreatestDelay(after[pair].delayMs, StartOf(before, pair).delayMs, metrics, pair)
        && (forall i: nat :: LastMetric(metrics, pair, i) ==> after[pair].connected == metrics[i].usable)
        && (!HasMetric(metrics, pair) ==> after[pair] == StartOf(before, pair)))
  }

  lemma {:induction false} MetricsFold(profiles: Profiles, metrics: seq<MetricEntry>, pair: Pair)
    ensures MeasuredFrom(profiles, metrics, OfMetrics(profiles, metrics), pair)
    decreases |metrics|
  {
    hide Max, IsGreatestDelay, LastMetric, HasMetric, MetricIs;
    var n := |metrics|;
    if n == 0 {
      NothingMeasured(profiles, pair);
      assert metrics == [];
    } else {
      hide MeasuredFrom;
      var front, last := metrics[..n - 1], metrics[n - 1];
      MetricsFold(profiles, front, pair);
      MetricIsPair(last, pair);
      if MetricIs(last, pair) {
        MeasuredHere(profiles, metrics, OfMetrics(profiles, front), pair);
      } else {
        MeasuredElsewhere(profiles, metrics, OfMetrics(profiles, front), OfMetrics(profiles, metrics), pair);
      }
    }
  }

  lemma MetricIsPair(metric: MetricEntry, pair: Pair)
    ensures MetricIs(metric, pair) <==> (metric.source, metric.target) == pair
  {
  }

  lemma NothingMeasured(profiles: Profiles, pair: Pair)
    ensures MeasuredFrom(profiles, [], profiles, pair)
  {
  }

  lemma MeasuredElsewhere(start: Profiles, metrics: seq<MetricEntry>, before: Profiles, after: Profiles, pair: Pair)
    requires metrics != [] && !MetricIs(metrics[|metrics| - 1], pair)
    requires MeasuredFrom(start, metrics[..|metrics| - 1], before, pair)
    requires pair in before <==> pair in after
    requires pair in before ==> before[pair] == after[pair]
    ensures MeasuredFrom(start, metrics, after, pair)
  {
    hide Max, IsGreatestDelay, HasMetric;
    var front := metrics[..|metrics| - 1];
    HasMetricSnoc(metrics, pair);
    forall i: nat ensures LastMetric(metrics, pair, i) <==> LastMetric(front, pair, i) {
    }
    if pair in after {
      GreatestSame(after[pair].delayMs, StartOf(start, pair).delayMs, metrics, pair);
    }
  }

  lemma MeasuredHere(start: Profiles, metrics: seq<MetricEntry>, before: Profiles, pair: Pair)
    requires metrics != [] && MetricIs(metrics[|metrics| - 1], pair)
    requires MeasuredFrom(start, metrics[..|metrics| - 1], before, pair)
    ensures MeasuredFrom(start, metrics, WithMetric(before, metrics[|metrics| - 1]), pair)
  {
    hide Max, IsGreatestDelay, HasMetric;
    var n := |metrics|;
    HasMetricSnoc(metrics, pair);
    assert LastMetric(metrics, pair, n - 1);
    if pair !in before {
      NothingIsGreatest(0.0, metrics[..n - 1], pair);
    }
    GreatestSnoc(StartOf(before, pair).delayMs, StartOf(start, pair).delayMs, metrics, pair);
  }

  lemma NothingIsGreatest(delay: real, metrics: seq<MetricEntry>, pair: Pair)
    requires !HasMetric(metrics, pair)
    ensures IsGreatestDelay(delay, delay, metrics, pair)
  {
    forall i | 0 <= i < |metrics| ensures !MetricIs(metrics[i], pair) {
    }
  }

  lemma HasMetricSnoc(metrics: seq<MetricEntry>, pair: Pair)
    requires metrics != []
    ensures HasMetric(metrics, pair)
       <==> HasMetric(metrics[..|metrics| - 1], pair) || MetricIs(metrics[|metrics| - 1], pair)
  {
    var front := metrics[..|metrics| - 1];
    if HasMetric(metrics, pair) && !MetricIs(metrics[|metrics| - 1], pair) {
      var i :| 0 <= i < |metrics| && MetricIs(metrics[i], pair);
      assert MetricIs(front[i], pair);
    }
    if HasMetric(front, pair) {
      var i :| 0 <= i < |front| && MetricIs(front[i], pair);
      assert MetricIs(metrics[i], pair);
    }
  }

  lemma GreatestSnoc(delay: real, start: real, metrics: seq<MetricEntry>, pair: Pair)
    requires metrics != [] && MetricIs(metrics[|metrics| - 1], pair)
    requires IsGreatestDelay(delay, start, metrics[..|metrics| - 1], pair)
    ensures IsGreatestDelay(Max(delay, Max(0.0, metrics[|metrics| - 1].latencyMs)), start, metrics, pair)
  {
    var front, last := metrics[..|metrics| - 1], metrics[|metrics| - 1];
    var greatest := Max(delay, Max(0.0, last.latencyMs));
    forall i | 0 <= i < |metrics| && MetricIs(metrics[i], pair)
      ensures Max(0.0, metrics[i].latencyMs) <= greatest
    {
      if i < |front| { assert front[i] == metrics[i]; }
    }
    if greatest != start && greatest == delay {
      var i :| 0 <= i < |front| && MetricIs(front[i], pair) && delay == Max(0.0, front[i].latencyMs);
      assert metrics[i] == front[i];
    }
  }

  lemma GreatestSame(delay: real, start: real, metrics: seq<MetricEntry>, pair: Pair)
    requires metrics != [] && !MetricIs(metrics[|metrics| - 1], pair)
    requires IsGreatestDelay(delay, start, metrics[..|metrics| - 1], pair)
    ensures IsGreatestDelay(delay, start, metrics, pair)
  {
    var front := metrics[..|metrics| - 1];
    forall i | 0 <= i < |metrics| && MetricIs(metrics[i], pair)
      ensures Max(0.0, metrics[i].latencyMs) <= delay
    {
      assert front[i] == metrics[i];
    }
    if delay != start {
      var i :| 0 <= i < |front| && MetricIs(front[i], pair) && delay == Max(0.0, front[i].latencyMs);
      assert metrics[i] == front[i];
    }
  }

  /** The profile of a direction: its loss comes from the last link, or is total
      without one; its delay is the greatest of zero, the last link's delay and all
      measured latencies; the last measurement decides whether it is connected,
      without one the last link does. */
  lemma ProfileMeans(metrics: Metrics, pair: Pair)
    ensures pair in ProfilesOf(metrics) <==> HasLink(metrics.links, pair) || HasMetric(metrics.metrics, pair)
    ensures pair in ProfilesOf(metrics) ==>
      var profile := ProfilesOf(metrics)[pair];
      && (!HasLink(metrics.links, pair) ==>
          profile.lossRate == 1.0 && IsGreatestDelay(profile.delayMs, 0.0, metrics.metrics, pair))
      && (forall i: nat :: LastLink(metrics.links, pair, i) ==>
          && profile.lossRate == Max(0.0, Min(1.0, metrics.links[i].lossRate))
          && IsGreatestDelay(profile.delayMs, Max(0.0, metrics.links[i].delayMs), metrics.metrics, pair))
      && (forall i: nat :: LastMetric(metrics.metrics, pair, i) ==> profile.connected == metrics.metrics[i].usable)
      && (!HasMetric(metrics.metrics, pair) ==>
          forall i: nat :: LastLink(metrics.links, pair, i) ==> profile.connected == metrics.links[i].up)
    ensures HasLink(metrics.links, pair) ==> exists i: nat :: LastLink(metrics.links, pair, i)
    ensures HasMetric(metrics.metrics, pair) ==> exists i: nat :: LastMetric(metrics.metrics, pair, i)
  {
    hide OfLinks, OfMetrics, HasLink, HasMetric, LastLink, LastMetric, IsGreatestDelay, Max, Min;
    LinksFold(metrics.links, pair);
    MetricsFold(OfLinks(metrics.links), metrics.metrics, pair);
  }

  // ----- The gate's state --------------------------------------------------------------------

  datatype Gate = Gate(profiles: Profiles, latestRevision: Word)

  const EMPTY_GATE := Gate(map[], 0)

  /** A result is taken over whole, and only if its revision is newer. The answer
      is what the update returns; `None` is an exception. */
  function Updated(gate: Gate, reading: Reading<Metrics>): (Gate, Option<bool>)
    requires reading.Message? ==> reading.value.revision < TWO_64
  {
    match reading
    case Throws => (gate, None)
    case OtherMessage => (gate, Some(false))
    case Message(metrics) =>
      if metrics.revision <= gate.latestRevision then (gate, Some(false))
      else (Gate(ProfilesOf(metrics), metrics.revision), Some(true))
  }

  lemma {:induction false} DigitsFit(text: string, value: nat)
    requires value <= MAX_UINT64
    ensures ReadDigits(text, value).Some? ==> ReadDigits(text, value).value <= MAX_UINT64
    decreases |text|
  {
    if text != "" && ReadDigits(text, value).Some? && IsDigit(text[0]) {
      DigitsFit(text[1..], value * 10 + (text[0] as nat - '0' as nat));
    }
  }

  /** A revision that is read fits in 64 bits. */
  lemma RevisionFits(line: string, double: string -> Option<real>)
    ensures ReadRevision(line).Message? ==> ReadRevision(line).value < TWO_64
    ensures ReadMetrics(line, double).Message? ==> ReadMetrics(line, double).value.revision < TWO_64
    ensures ReadEffects(line).Message? ==> ReadEffects(line).value.revision < TWO_64
  {
    hide ReadDigits, StringField, ObjectArray, ReadLinks, ReadMetricEntries, ReadDecisions;
    var text := ValueText(line, MESSAGE_NAMES[5]);
    if text.Some? {
      DigitsFit(text.value, 0);
    }
  }

  datatype Disposition = NoLink | Drop | Deliver

  datatype Reason = NoNetworkProfile | LinkDown | PacketLoss | Nothing

  datatype Decision = Decision(
    source: string, target: string, disposition: Disposition, delayMs: real, lossRate: real,
    revision: Word, reason: Reason)

  function Decided(gate: Gate, source: string, target: string, serial: Word): Decision {
    if (source, target) !in gate.profiles then
      Decision(source, target, NoLink, 0.0, 1.0, gate.latestRevision, NoNetworkProfile)
    else
      var profile := gate.profiles[(source, target)];
      if !profile.connected then
        Decision(source, target, NoLink, profile.delayMs, profile.lossRate, gate.latestRevision, LinkDown)
      else if profile.lossRate >= 1.0
              || UnitDrawValue(source, target, serial, gate.latestRevision) < profile.lossRate then
        Decision(source, target, Drop, profile.delayMs, profile.lossRate, gate.latestRevision, PacketLoss)
      else
        Decision(source, target, Deliver, profile.delayMs, profile.lossRate, gate.latestRevision, Nothing)
  }

  // ----- What a decision means ------------------------------------------------------------------

  /** The link of that exact direction that counts, and what was measured on it. */
  ghost predicate Carries(metrics: Metrics, pair: Pair, i: nat, draw: real) {
    && LastLink(metrics.links, pair, i)
    && metrics.links[i].lossRate < 1.0
    && Max(0.0, metrics.links[i].lossRate) <= draw
    && (!HasMetric(metrics.metrics, pair) ==> metrics.links[i].up)
    && (forall j: nat :: LastMetric(metrics.metrics, pair, j) ==> metrics.metrics[j].usable)
  }

  /** A message is delivered exactly when the result holds a link entry for that
      direction whose last one has a loss below one and not above the draw, and
      the last measurement of the direction, or without one that link, is up. */
  lemma DeliveredMeans(metrics: Metrics, revision: Word, source: string, target: string, serial: Word)
    ensures Decided(Gate(ProfilesOf(metrics), revision), source, target, serial).disposition == Deliver
       <==> exists i: nat :: Carries(metrics, (source, target), i, UnitDrawValue(source, target, serial, revision))
  {
    hide HasLink, HasMetric, LastMetric, IsGreatestDelay, UnitDrawValue, ProfilesOf, LinkIs;
    var pair := (source, target);
    var draw := UnitDrawValue(source, target, serial, revision);
    ProfileMeans(metrics, pair);
    var profiles := ProfilesOf(metrics);
    if pair in profiles && HasLink(metrics.links, pair) {
      var i: nat :| LastLink(metrics.links, pair, i);
      forall k: nat | LastLink(metrics.links, pair, k) ensures k == i {
        LastLinkIsUnique(metrics.links, pair, i, k);
      }
      var profile := profiles[pair];
      assert profile.lossRate == Max(0.0, Min(1.0, metrics.links[i].lossRate));
      if HasMetric(metrics.metrics, pair) {
        var j: nat :| LastMetric(metrics.metrics, pair, j);
        forall k: nat | LastMetric(metrics.metrics, pair, k) ensures k == j {
          LastMetricIsUnique(metrics.metrics, pair, j, k);
        }
        assert j < |metrics.metrics| by { LastMetricIsUnique(metrics.metrics, pair, j, j); }
        assert profile.connected == metrics.metrics[j].usable;
      } else {
        NoLastMetric(metrics.metrics, pair);
        assert profile.connected == metrics.links[i].up;
      }
      UnitDrawInUnit(source, target, serial, revision);
      assert Carries(metrics, pair, i, draw) <==>
        profile.connected && profile.lossRate < 1.0 && profile.lossRate <= draw;
    } else {
      forall i: nat ensures !LastLink(metrics.links, pair, i) {
        LastLinkIsLink(metrics.links, pair, i);
      }
    }
  }

  /** A decision carries the revision, and the delay and loss of the direction's
      profile as the result determines them; the reason tells the cases apart. */
  lemma DecisionExplained(metrics: Metrics, revision: Word, source: string, target: string, serial: Word)
    ensures var decision := Decided(Gate(ProfilesOf(metrics), revision), source, target, serial);
      var pair := (source, target);
      && decision.source == source && decision.target == target && decision.revision == revision
      && (decision.reason == NoNetworkProfile <==> !HasLink(metrics.links, pair) && !HasMetric(metrics.metrics, pair))
      && (decision.reason == Nothing <==> decision.disposition == Deliver)
      && (decision.reason == PacketLoss <==> decision.disposition == Drop)
      && (decision.reason == NoNetworkProfile ==> decision.delayMs == 0.0 && decision.lossRate == 1.0)
      && (forall i: nat :: LastLink(metrics.links, pair, i) ==>
          && decision.lossRate == Max(0.0, Min(1.0, metrics.links[i].lossRate))
          && IsGreatestDelay(decision.delayMs, Max(0.0, metrics.links[i].delayMs), metrics.metrics, pair))
      && (!HasLink(metrics.links, pair) ==>
          decision.lossRate == 1.0 && IsGreatestDelay(decision.delayMs, 0.0, metrics.metrics, pair))
      && (forall j: nat :: LastMetric(metrics.metrics, pair, j) ==>
          (decision.reason == LinkDown <==> !metrics.metrics[j].usable))
      && (!HasMetric(metrics.metrics, pair) ==>
          forall i: nat :: LastLink(metrics.links, pair, i) ==>
            (decision.reason == LinkDown <==> !metrics.links[i].up))
  {
    hide HasLink, HasMetric, LastMetric, LastLink, IsGreatestDelay, UnitDrawValue, ProfilesOf, Max, Min;
    var pair := (source, target);
    ProfileMeans(metrics, pair);
    forall i: nat | LastLink(metrics.links, pair, i) ensures HasLink(metrics.links, pair) {
      LastLinkIsLink(metrics.links, pair, i);
    }
    if !HasMetric(metrics.metrics, pair) {
      NoLastMetric(metrics.metrics, pair);
      if !HasLink(metrics.links, pair) {
        NothingIsGreatest(0.0, metrics.metrics, pair);
      }
    }
  }

  lemma UnitDrawInUnit(source: string, target: string, serial: Word, revision: Word)
    ensures 0.0 <= UnitDrawValue(source, target, serial, revision) < 1.0
  {
    UnitIsUnit(DrawHash(source, target, serial, revision));
  }

  lemma LastLinkIsUnique(links: seq<LinkEntry>, pair: Pair, i: nat, k: nat)
    requires LastLink(links, pair, i) && LastLink(links, pair, k)
    ensures i == k
  {
  }

  lemma LastLinkIsLink(links: seq<LinkEntry>, pair: Pair, i: nat)
    ensures LastLink(links, pair, i) ==> HasLink(links, pair)
  {
  }

  lemma LastMetricIsUnique(metrics: seq<MetricEntry>, pair: Pair, i: nat, k: nat)
    requires LastMetric(metrics, pair, i) && LastMetric(metrics, pair, k)
    ensures i == k < |metrics|
  {
  }

  lemma NoLastMetric(metrics: seq<MetricEntry>, pair: Pair)
    requires !HasMetric(metrics, pair)
    ensures forall j: nat :: !LastMetric(metrics, pair, j)
  {
    forall i | 0 <= i < |metrics| ensures !MetricIs(metrics[i], pair) {
    }
  }

  /** For the same direction, serial and revision, more loss never turns a drop
      into a delivery. */
  lemma MoreLossNeverDelivers(gate: Gate, source: string, target: string, serial: Word, lossRate: real)
    requires (source, target) in gate.profiles && gate.profiles[(source, target)].lossRate <= lossRate
    ensures var worse := gate.(profiles := gate.profiles[
              (source, target) := gate.profiles[(source, target)].(lossRate := lossRate)]);
      Decided(gate, source, target, serial).disposition != Deliver ==>
        Decided(worse, source, target, serial).disposition == Decided(gate, source, target, serial).disposition
  {
    hide UnitDrawValue;
  }

  // ----- Runs ------------------------------------------------------------------------------------

  /** The gate after any sequence of received lines. */
  function AfterLines(lines: seq<string>, double: string -> Option<real>): Gate
    decreases |lines|
  {
    if lines == [] then EMPTY_GATE
    else
      var last := lines[|lines| - 1];
      RevisionFits(last, double);
      Updated(AfterLines(lines[..|lines| - 1], double), ReadMetrics(last, double)).0
  }

  /** Line `i` holds the result that the gate acts on. */
  ghost predicate Newest(lines: seq<string>, double: string -> Option<real>, i: nat, gate: Gate) {
    && i < |lines| && ReadMetrics(lines[i], double).Message?
    && 0 < ReadMetrics(lines[i], double).value.revision
    && gate.latestRevision == ReadMetrics(lines[i], double).value.revision
    && gate.profiles == ProfilesOf(ReadMetrics(lines[i], double).value)
    && (forall j :: 0 <= j < i && ReadMetrics(lines[j], double).Message? ==>
          ReadMetrics(lines[j], double).value.revision < gate.latestRevision)
  }

  /** Whatever was received in whatever order, the gate holds the profiles of the
      greatest revision among the readable results, first received, and nothing
      from any other. */
  lemma {:induction false} GateHoldsNewest(lines: seq<string>, double: string -> Option<real>)
    ensures var gate := AfterLines(lines, double);
      && (gate == EMPTY_GATE || exists i: nat :: Newest(lines, double, i, gate))
      && (forall j :: 0 <= j < |lines| && ReadMetrics(lines[j], double).Message? ==>
            ReadMetrics(lines[j], double).value.revision <= gate.latestRevision)
    decreases |lines|
  {
    hide ReadMetrics, ProfilesOf;
    var n := |lines|;
    if n > 0 {
      var front, last := lines[..n - 1], lines[n - 1];
      GateHoldsNewest(front, double);
      RevisionFits(last, double);
      var before, after := AfterLines(front, double), AfterLines(lines, double);
      forall j | 0 <= j < n && ReadMetrics(lines[j], double).Message?
        ensures ReadMetrics(lines[j], double).value.revision <= after.latestRevision
      {
        if j < n - 1 { assert front[j] == lines[j]; }
      }
      if after != before {
        forall j | 0 <= j < n - 1 && ReadMetrics(lines[j], double).Message?
          ensures ReadMetrics(lines[j], double).value.revision < after.latestRevision
        {
          assert front[j] == lines[j];
        }
        assert Newest(lines, double, n - 1, after);
      } else if before != EMPTY_GATE {
        var i: nat :| Newest(front, double, i, before);
        NewestStays(front, last, double, i, before);
        assert lines == front + [last];
      }
    }
  }

  lemma NewestStays(front: seq<string>, last: string, double: string -> Option<real>, i: nat, gate: Gate)
    requires Newest(front, double, i, gate)
    ensures Newest(front + [last], double, i, gate)
  {
    hide ReadMetrics, ProfilesOf;
    var lines := front + [last];
    assert lines[i] == front[i];
    forall j | 0 <= j < i && ReadMetrics(lines[j], double).Message?
      ensures ReadMetrics(lines[j], double).value.revision < gate.latestRevision
    {
      assert lines[j] == front[j];
    }
  }

  // ----- The object --------------------------------------------------------------------------------

  lemma ReadAllFails<T>(objects: seq<string>, read: string -> Option<T>, i: nat)
    requires i < |objects| && read(objects[i]).None?
    ensures ReadAll(objects, read) == None
    decreases |objects|
  {
    if i < |objects| - 1 {
      ReadAllFails(objects[..|objects| - 1], read, i);
    }
  }

  lemma ReadAllSnoc<T>(objects: seq<string>, read: string -> Option<T>, i: nat, values: seq<T>)
    requires i < |objects| && ReadAll(objects[..i], read) == Some(values) && read(objects[i]).Some?
    ensures ReadAll(objects[..i + 1], read) == Some(values + [read(objects[i]).value])
  {
    assert objects[..i + 1][..i] == objects[..i];
  }

  lemma OfLinksSnoc(links: seq<LinkEntry>, link: LinkEntry)
    ensures OfLinks(links + [link]) == WithLink(OfLinks(links), link)
  {
    assert (links + [link])[..|links|] == links;
  }

  lemma OfMetricsSnoc(profiles: Profiles, metrics: seq<MetricEntry>, metric: MetricEntry)
    ensures OfMetrics(profiles, metrics + [metric]) == WithMetric(OfMetrics(profiles, metrics), metric)
  {
    assert (metrics + [metric])[..|metrics|] == metrics;
  }

  /** The loop over the links of a message. */
  method FoldLinks(objects: seq<string>, double: string -> Option<real>) returns (profiles: Option<Profiles>)
    ensures profiles == match ReadLinks(objects, double) { case None => None case Some(links) => Some(OfLinks(links)) }
  {
    hide ReadLink, ReadAll, OfLinks, WithLink;
    var read := o => ReadLink(o, double);
    ghost var links: seq<LinkEntry> := [];
    var folded: Profiles := map[];
    FoldsOfNothing(map[]);
    assert objects[..0] == [];
    ReadAllOfNothing(read);
    for i := 0 to |objects|
      invariant ReadAll(objects[..i], read) == Some(links)
      invariant folded == OfLinks(links)
    {
      var link := ReadLink(objects[i], double);
      if link.None? {
        ReadAllFails(objects, read, i);
        return None;
      }
      ReadAllSnoc(objects, read, i, links);
      OfLinksSnoc(links, link.value);
      links := links + [link.value];
      folded := WithLink(folded, link.value);
    }
    assert objects[..|objects|] == objects;
    profiles := Some(folded);
  }

  lemma ReadAllOfNothing<T>(read: string -> Option<T>)
    ensures ReadAll([], read) == Some([])
  {
  }

  lemma FoldsOfNothing(profiles: Profiles)
    ensures OfLinks([]) == map[] && OfMetrics(profiles, []) == profiles
  {
  }

  /** The loop over the measurements of a message. */
  method FoldMetrics(start: Profiles, objects: seq<string>, double: string -> Option<real>)
    returns (profiles: Option<Profiles>)
    ensures profiles
      == match ReadMetricEntries(objects, double) {
           case None => None
           case Some(metrics) => Some(OfMetrics(start, metrics))
         }
  {
    hide ReadMetric, ReadAll, OfMetrics, WithMetric;
    var read := o => ReadMetric(o, double);
    ghost var metrics: seq<MetricEntry> := [];
    var folded := start;
    FoldsOfNothing(start);
    assert objects[..0] == [];
    ReadAllOfNothing(read);
    for i := 0 to |objects|
      invariant ReadAll(objects[..i], read) == Some(metrics)
      invariant folded == OfMetrics(start, metrics)
    {
      var metric := ReadMetric(objects[i], double);
      if metric.None? {
        ReadAllFails(objects, read, i);
        return None;
      }
      ReadAllSnoc(objects, read, i, metrics);
      OfMetricsSnoc(start, metrics, metric.value);
      metrics := metrics + [metric.value];
      folded := WithMetric(folded, metric.value);
    }
    assert objects[..|objects|] == objects;
    profiles := Some(folded);
  }

  class MessageTransportGate {
    var profiles: Profiles
    var latestRevision: Word

    function State(): Gate
      reads this
    {
      Gate(profiles, latestRevision)
    }

    constructor ()
      ensures State() == EMPTY_GATE
    {
      profiles, latestRevision := map[], 0;
    }

    method UpdateFromMetricsJson(line: string, double: string -> Option<real>) returns (accepted: Option<bool>)
      modifies this
      ensures ReadMetrics(line, double).Message? ==> ReadMetrics(line, double).value.revision < TWO_64
      ensures (State(), accepted) == Updated(old(State()), ReadMetrics(line, double))
    {
      hide StringField, Uint64Field, ObjectArray, ReadLinks, ReadMetricEntries, OfLinks, OfMetrics;
      RevisionFits(line, double);
      var messageType := JsonString(line, MESSAGE_NAMES[1]);
      if messageType.None? {
        return None;
      }
      if messageType.value != METRICS {
        return Some(false);
      }
      var revision := JsonUint64(line, MESSAGE_NAMES[5]);
      if revision.None? {
        return None;
      }
      var linkObjects := ReadObjectArray(line, MESSAGE_NAMES[8]);
      if linkObjects.None? {
        return None;
      }
      var linked := FoldLinks(linkObjects.value, double);
      if linked.None? {
        return None;
      }
      var metricObjects := ReadObjectArray(line, MESSAGE_NAMES[9]);
      if metricObjects.None? {
        return None;
      }
      var measured := FoldMetrics(linked.value, metricObjects.value, double);
      if measured.None? {
        return None;
      }
      if revision.value <= latestRevision {
        return Some(false);
      }
      profiles := measured.value;
      latestRevision := revision.value;
      accepted := Some(true);
    }

    method Decide(source: string, target: string, serial: Word) returns (decision: Decision)
      ensures decision == Decided(State(), source, target, serial)
    {
      if (source, target) !in profiles {
        return Decision(source, target, NoLink, 0.0, 1.0, latestRevision, NoNetworkProfile);
      }
      var found := profiles[(source, target)];
      if !found.connected {
        return Decision(source, target, NoLink, found.delayMs, found.lossRate, latestRevision, LinkDown);
      }
      var dropped := found.lossRate >= 1.0;
      if !dropped {
        var draw := UnitDraw(source, target, serial, latestRevision);
        dropped := draw < found.lossRate;
      }
      if dropped {
        return Decision(source, target, Drop, found.delayMs, found.lossRate, latestRevision, PacketLoss);
      }
      decision := Decision(source, target, Deliver, found.delayMs, found.lossRate, latestRevision, Nothing);
    }
  }
}
