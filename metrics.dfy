/**
 * The metrics collector (`MetricsCollector`): bounded metric histories
 * (`MetricHistory`), one per connection plus one each for system and quality
 * readings, and the alert list with its acknowledge / clear operations and
 * the threshold checks that append alerts.
 *
 * Readings are `f32` in the program; here they are integers, with the same
 * comparisons against the thresholds, and `{:.1}` formatting renders an
 * integral value as "<n>.0". Instants are milliseconds of a monotonic clock;
 * alert UUIDs are supplied by the caller, one per alert created.
 */
module Metrics {
  import opened Text

  /** Capacity of every history the collector creates (five minutes at one reading per second). */
  const HistorySize: nat := 300

  datatype ConnectionType = P2P | Relay

  datatype ConnectionMetrics = ConnectionMetrics(
    connectionId: string,
    connectionType: ConnectionType,
    latencyMs: int,
    bandwidthMbps: int,
    packetLossPercent: int,
    jitterMs: int,
    qualityScore: int,
    lastUpdated: nat)

  datatype SystemMetrics = SystemMetrics(
    cpuUsagePercent: int,
    memoryUsagePercent: int,
    memoryUsedMb: nat,
    memoryTotalMb: nat,
    diskUsagePercent: int,
    networkRxMbps: int,
    networkTxMbps: int,
    screenCaptureFps: int,
    encodingFps: int,
    lastUpdated: nat)

  datatype QualityMetrics = QualityMetrics(
    videoQualityScore: int,
    inputResponsivenessMs: int,
    frameDropsPerSecond: int,
    compressionEfficiency: int,
    userSatisfactionScore: int,
    lastUpdated: nat)

  datatype AlertType =
    | HighLatency | PacketLoss | LowBandwidth | HighCpuUsage
    | HighMemoryUsage | LowQualityScore | ConnectionUnstable | FrameDrops

  datatype AlertSeverity = Low | Medium | High | Critical

  datatype PerformanceAlert = PerformanceAlert(
    id: string,
    alertType: AlertType,
    severity: AlertSeverity,
    message: string,
    metricValue: int,
    threshold: int,
    connectionId: Option<string>,
    createdAt: nat,
    acknowledged: bool)

  datatype AlertThresholds = AlertThresholds(
    maxLatencyMs: int,
    maxPacketLossPercent: int,
    minBandwidthMbps: int,
    maxCpuUsagePercent: int,
    maxMemoryUsagePercent: int,
    minQualityScore: int,
    maxFrameDropsPerSecond: int)

  const DefaultThresholds: AlertThresholds := AlertThresholds(100, 5, 1, 80, 90, 70, 2)

  // ------------------------------------------------------------- history

  datatype Sample<T> = Sample(at: nat, value: T)

  /** A bounded history: samples oldest first, at most maxSize of them once full. */
  datatype MetricHistory<T> = MetricHistory(values: seq<Sample<T>>, maxSize: nat)

  function NewHistory<T>(maxSize: nat): (h: MetricHistory<T>)
    ensures h.values == [] && h.maxSize == maxSize
  { MetricHistory([], maxSize) }

  /** MetricHistory::latest: the newest value, if any. */
  function Latest<T>(h: MetricHistory<T>): (r: Option<T>)
    ensures r.None? <==> h.values == []
    ensures r.Some? ==> r.value == h.values[|h.values| - 1].value
  { if h.values == [] then None else Some(h.values[|h.values| - 1].value) }

  /** MetricHistory::add: push the sample, then drop the front if the history overflowed. */
  function Add<T>(h: MetricHistory<T>, now: nat, v: T): (r: MetricHistory<T>)
    ensures r.maxSize == h.maxSize
    ensures |h.values| < h.maxSize ==> r.values == h.values + [Sample(now, v)]
    ensures |h.values| >= h.maxSize ==> r.values == (h.values + [Sample(now, v)])[1..]
    ensures |h.values| <= h.maxSize ==> |r.values| <= h.maxSize
    ensures h.maxSize >= 1 ==> Latest(r) == Some(v)
  {
    var pushed := h.values + [Sample(now, v)];
    MetricHistory(if |pushed| > h.maxSize then pushed[1..] else pushed, h.maxSize)
  }

  /** Values of the samples taken at or after `cutoff`, oldest first (MetricHistory::get_recent). */
  function Recent<T>(vs: seq<Sample<T>>, cutoff: int): (r: seq<T>)
    ensures |r| <= |vs|
  {
    if vs == [] then []
    else (if vs[0].at >= cutoff then [vs[0].value] else []) + Recent(vs[1..], cutoff)
  }

  // ------------------------------------------------------------- history properties

  /** A history with capacity 0 forgets the value just added: add pushes, then pops it again. */
  lemma ZeroCapacityForgets<T>(h: MetricHistory<T>, now: nat, v: T)
    requires h.maxSize == 0 && h.values == []
    ensures Add(h, now, v).values == [] && Latest(Add(h, now, v)).None?
  {
  }

  /** get_recent keeps insertion order: a new sample lands at the end of any window that includes it. */
  lemma {:induction false} RecentAppend<T>(vs: seq<Sample<T>>, s: Sample<T>, cutoff: int)
    ensures Recent(vs + [s], cutoff) == Recent(vs, cutoff) + (if s.at >= cutoff then [s.value] else [])
  {
    if vs == [] {
      assert vs + [s] == [s];
    } else {
      assert (vs + [s])[1..] == vs[1..] + [s];
      RecentAppend(vs[1..], s, cutoff);
    }
  }

  /** get_recent returns exactly the values of the samples inside the window. */
  lemma {:induction false} RecentMembers<T>(vs: seq<Sample<T>>, cutoff: int, v: T)
    ensures v in Recent(vs, cutoff) <==> exists i :: 0 <= i < |vs| && vs[i].at >= cutoff && vs[i].value == v
  {
    if vs != [] {
      RecentMembers(vs[1..], cutoff, v);
      if v in Recent(vs[1..], cutoff) {
        var i :| 0 <= i < |vs[1..]| && vs[1..][i].at >= cutoff && vs[1..][i].value == v;
        assert vs[i + 1] == vs[1..][i];
      }
      if exists i :: 0 <= i < |vs| && vs[i].at >= cutoff && vs[i].value == v {
        var i :| 0 <= i < |vs| && vs[i].at >= cutoff && vs[i].value == v;
        if i > 0 {
          assert vs[1..][i - 1] == vs[i];
        }
      }
    }
  }

  /** A window reaching back before every sample returns every value, in order. */
  lemma {:induction false} RecentAll<T>(vs: seq<Sample<T>>)
    ensures |Recent(vs, 0)| == |vs|
    ensures forall i :: 0 <= i < |vs| ==> Recent(vs, 0)[i] == vs[i].value
  {
    if vs != [] {
      RecentAll(vs[1..]);
    }
  }

  // ------------------------------------------------------------- alerts

  /** `{:.1}` of an integral reading. */
  function Fixed1(v: int): (s: string)
    ensures EndsWith(s, ".0")
  { (if v < 0 then "-" + NatToString(-v) else NatToString(v)) + ".0" }

  /** The part of an alert fixed by the threshold check, before create_alert adds id, time and flag. */
  datatype Draft = Draft(alertType: AlertType, severity: AlertSeverity, message: string, metricValue: int, threshold: int)

  /** check_connection_alerts' four checks, in the order they are made. */
  function ConnectionDrafts(m: ConnectionMetrics, t: AlertThresholds): (r: seq<Draft>)
    ensures |r| <= 4
  {
    Checked(m.latencyMs > t.maxLatencyMs, LatencyDraft(m, t))
    + Checked(m.packetLossPercent > t.maxPacketLossPercent, LossDraft(m, t))
    + Checked(m.bandwidthMbps < t.minBandwidthMbps, BandwidthDraft(m, t))
    + Checked(m.qualityScore < t.minQualityScore, QualityDraft(m, t))
  }

  /** Some draft in r is of type ty. */
  predicate Raises(r: seq<Draft>, ty: AlertType)
  {
    exists d :: d in r && d.alertType == ty
  }

  /** The threshold check_connection_alerts compares for an alert type; the other types are never raised by it. */
  predicate ConnectionBreach(m: ConnectionMetrics, t: AlertThresholds, ty: AlertType)
  {
    match ty
    case HighLatency => m.latencyMs > t.maxLatencyMs
    case PacketLoss => m.packetLossPercent > t.maxPacketLossPercent
    case LowBandwidth => m.bandwidthMbps < t.minBandwidthMbps
    case LowQualityScore => m.qualityScore < t.minQualityScore
    case _ => false
  }

  /** A connection alert of a type is raised exactly when its threshold is breached. */
  lemma ConnectionDraftsBreaches(m: ConnectionMetrics, t: AlertThresholds, ty: AlertType)
    ensures Raises(ConnectionDrafts(m, t), ty) <==> ConnectionBreach(m, t, ty)
  {
    var a := Checked(m.latencyMs > t.maxLatencyMs, LatencyDraft(m, t));
    var b := Checked(m.packetLossPercent > t.maxPacketLossPercent, LossDraft(m, t));
    var c := Checked(m.bandwidthMbps < t.minBandwidthMbps, BandwidthDraft(m, t));
    var e := Checked(m.qualityScore < t.minQualityScore, QualityDraft(m, t));
    assert ConnectionDrafts(m, t) == a + b + c + e;
    RaisesConcat(a, b, ty);
    RaisesConcat(a + b, c, ty);
    RaisesConcat(a + b + c, e, ty);
    RaisesChecked(m.latencyMs > t.maxLatencyMs, LatencyDraft(m, t), ty);
    RaisesChecked(m.packetLossPercent > t.maxPacketLossPercent, LossDraft(m, t), ty);
    RaisesChecked(m.bandwidthMbps < t.minBandwidthMbps, BandwidthDraft(m, t), ty);
    RaisesChecked(m.qualityScore < t.minQualityScore, QualityDraft(m, t), ty);
  }

  /** Packet-loss alerts are High severity, the other connection alerts Medium. */
  lemma ConnectionDraftsSeverity(m: ConnectionMetrics, t: AlertThresholds)
    ensures forall d :: d in ConnectionDrafts(m, t) ==> d.severity == (if d.alertType == PacketLoss then High else Medium)
  {
    var a := Checked(m.latencyMs > t.maxLatencyMs, LatencyDraft(m, t));
    var b := Checked(m.packetLossPercent > t.maxPacketLossPercent, LossDraft(m, t));
    var c := Checked(m.bandwidthMbps < t.minBandwidthMbps, BandwidthDraft(m, t));
    var e := Checked(m.qualityScore < t.minQualityScore, QualityDraft(m, t));
    assert ConnectionDrafts(m, t) == a + b + c + e;
    forall d: Draft | d in a + b + c + e
      ensures d.severity == (if d.alertType == PacketLoss then High else Medium)
    {
      assert d in a || d in b || d in c || d in e;
    }
  }

  lemma RaisesChecked(breached: bool, d: Draft, ty: AlertType)
    ensures Raises(Checked(breached, d), ty) <==> breached && d.alertType == ty
  {
    if breached {
      assert d in Checked(breached, d);
    }
  }

  lemma RaisesConcat(p: seq<Draft>, q: seq<Draft>, ty: AlertType)
    ensures Raises(p + q, ty) <==> Raises(p, ty) || Raises(q, ty)
  {
    if Raises(p + q, ty) {
      var d :| d in p + q && d.alertType == ty;
      assert d in p || d in q;
    }
    if Raises(q, ty) {
      var d :| d in q && d.alertType == ty;
      assert d in p + q;
    }
  }

  function LatencyDraft(m: ConnectionMetrics, t: AlertThresholds): (d: Draft)
    ensures d.alertType == HighLatency && d.severity == Medium
  { Draft(HighLatency, Medium, "High latency: " + Fixed1(m.latencyMs) + "ms", m.latencyMs, t.maxLatencyMs) }

  function LossDraft(m: ConnectionMetrics, t: AlertThresholds): (d: Draft)
    ensures d.alertType == PacketLoss && d.severity == High
  { Draft(PacketLoss, High, "Packet loss: " + Fixed1(m.packetLossPercent) + "%", m.packetLossPercent, t.maxPacketLossPercent) }

  function BandwidthDraft(m: ConnectionMetrics, t: AlertThresholds): (d: Draft)
    ensures d.alertType == LowBandwidth && d.severity == Medium
  { Draft(LowBandwidth, Medium, "Low bandwidth: " + Fixed1(m.bandwidthMbps) + " Mbps", m.bandwidthMbps, t.minBandwidthMbps) }

  function QualityDraft(m: ConnectionMetrics, t: AlertThresholds): (d: Draft)
    ensures d.alertType == LowQualityScore && d.severity == Medium
  { Draft(LowQualityScore, Medium, "Low connection quality: " + Fixed1(m.qualityScore), m.qualityScore, t.minQualityScore) }

  /** The connection alerts come in check order: latency, packet loss, bandwidth, quality. */
  lemma ConnectionDraftsOrdered(m: ConnectionMetrics, t: AlertThresholds)
    ensures Ranked(ConnectionDrafts(m, t))
  {
    var a := Checked(m.latencyMs > t.maxLatencyMs, LatencyDraft(m, t));
    var b := Checked(m.packetLossPercent > t.maxPacketLossPercent, LossDraft(m, t));
    var c := Checked(m.bandwidthMbps < t.minBandwidthMbps, BandwidthDraft(m, t));
    var e := Checked(m.qualityScore < t.minQualityScore, QualityDraft(m, t));
    assert ConnectionDrafts(m, t) == a + b + c + e;
    RankedInOrder(a, b, c, e);
  }

  /** Four checks of at most one draft each, of ranks 0, 1, 2 and 3, come out ranked. */
  lemma RankedInOrder(a: seq<Draft>, b: seq<Draft>, c: seq<Draft>, e: seq<Draft>)
    requires |a| <= 1 && |b| <= 1 && |c| <= 1 && |e| <= 1
    requires forall i :: 0 <= i < |a| ==> Rank(a[i].alertType) == 0
    requires forall i :: 0 <= i < |b| ==> Rank(b[i].alertType) == 1
    requires forall i :: 0 <= i < |c| ==> Rank(c[i].alertType) == 2
    requires forall i :: 0 <= i < |e| ==> Rank(e[i].alertType) == 3
    ensures Ranked(a + b + c + e)
  {
    RankedConcat(a, b, 1);
    RankedConcat(a + b, c, 2);
    RankedConcat(a + b + c, e, 3);
  }

  /** One threshold check: the draft when the threshold is breached, nothing otherwise. */
  function Checked(breached: bool, d: Draft): (r: seq<Draft>)
    ensures |r| <= 1 && (forall x :: x in r ==> x == d)
    ensures breached <==> d in r
  { if breached then [d] else [] }

  /** Drafts in strictly increasing check order. */
  predicate Ranked(r: seq<Draft>)
  { forall i, j :: 0 <= i < j < |r| ==> Rank(r[i].alertType) < Rank(r[j].alertType) }

  lemma RankedConcat(p: seq<Draft>, q: seq<Draft>, k: nat)
    requires Ranked(p) && Ranked(q)
    requires forall i :: 0 <= i < |p| ==> Rank(p[i].alertType) < k
    requires forall i :: 0 <= i < |q| ==> Rank(q[i].alertType) >= k
    ensures Ranked(p + q)
  {
    forall i, j | 0 <= i < j < |p + q| ensures Rank((p + q)[i].alertType) < Rank((p + q)[j].alertType) {
      if j < |p| {
      } else if i >= |p| {
        assert (p + q)[i] == q[i - |p|] && (p + q)[j] == q[j - |p|];
      } else {
        assert (p + q)[i] == p[i] && (p + q)[j] == q[j - |p|];
      }
    }
  }

  /** The position of an alert type in the order the checks are made. */
  function Rank(a: AlertType): nat
  {
    match a
    case HighLatency => 0
    case PacketLoss => 1
    case LowBandwidth => 2
    case LowQualityScore => 3
    case HighCpuUsage => 4
    case HighMemoryUsage => 5
    case FrameDrops => 6
    case ConnectionUnstable => 7
  }

  /** The system checks of one alert-monitoring tick: CPU, then memory, both High severity. */
  function SystemDrafts(s: SystemMetrics, t: AlertThresholds): (r: seq<Draft>)
    ensures |r| <= 2
    ensures (exists d :: d in r && d.alertType == HighCpuUsage) <==> s.cpuUsagePercent > t.maxCpuUsagePercent
    ensures (exists d :: d in r && d.alertType == HighMemoryUsage) <==> s.memoryUsagePercent > t.maxMemoryUsagePercent
    ensures forall d :: d in r ==> d.severity == High
  {
    (if s.cpuUsagePercent > t.maxCpuUsagePercent
     then [Draft(HighCpuUsage, High, "High CPU usage: " + Fixed1(s.cpuUsagePercent) + "%", s.cpuUsagePercent, t.maxCpuUsagePercent)]
     else [])
    + (if s.memoryUsagePercent > t.maxMemoryUsagePercent
       then [Draft(HighMemoryUsage, High, "High memory usage: " + Fixed1(s.memoryUsagePercent) + "%", s.memoryUsagePercent, t.maxMemoryUsagePercent)]
       else [])
  }

  /** The quality checks of one alert-monitoring tick: video quality, then frame drops, both Medium. */
  function QualityDrafts(q: QualityMetrics, t: AlertThresholds): (r: seq<Draft>)
    ensures |r| <= 2
    ensures (exists d :: d in r && d.alertType == LowQualityScore) <==> q.videoQualityScore < t.minQualityScore
    ensures (exists d :: d in r && d.alertType == FrameDrops) <==> q.frameDropsPerSecond > t.maxFrameDropsPerSecond
    ensures forall d :: d in r ==> d.severity == Medium
  {
    (if q.videoQualityScore < t.minQualityScore
     then [Draft(LowQualityScore, Medium, "Low video quality: " + Fixed1(q.videoQualityScore), q.videoQualityScore, t.minQualityScore)]
     else [])
    + (if q.frameDropsPerSecond > t.maxFrameDropsPerSecond
       then [Draft(FrameDrops, Medium, "High frame drops: " + Fixed1(q.frameDropsPerSecond) + "/sec", q.frameDropsPerSecond, t.maxFrameDropsPerSecond)]
       else [])
  }

  /** create_alert applied to each draft in turn; ids[i] is the UUID drawn for the i-th alert. */
  function CreateAlerts(ds: seq<Draft>, ids: seq<string>, conn: Option<string>, now: nat): (r: seq<PerformanceAlert>)
    requires |ids| >= |ds|
    ensures |r| == |ds|
    ensures forall i :: 0 <= i < |r| ==>
      r[i].id == ids[i] && r[i].alertType == ds[i].alertType && r[i].severity == ds[i].severity
      && r[i].message == ds[i].message && r[i].metricValue == ds[i].metricValue
      && r[i].threshold == ds[i].threshold && r[i].connectionId == conn
      && r[i].createdAt == now && !r[i].acknowledged
  {
    seq(|ds|, i requires 0 <= i < |ds| =>
      PerformanceAlert(ids[i], ds[i].alertType, ds[i].severity, ds[i].message,
                       ds[i].metricValue, ds[i].threshold, conn, now, false))
  }

  /** acknowledge_alert: the first alert with the id is marked; every other alert is untouched. */
  function Acknowledged(alerts: seq<PerformanceAlert>, id: string): (r: seq<PerformanceAlert>)
    ensures |r| == |alerts|
    ensures forall i :: 0 <= i < |alerts| ==>
      r[i] == if alerts[i].id == id && FirstWithId(alerts, id, i) then alerts[i].(acknowledged := true) else alerts[i]
  {
    if alerts == [] then []
    else if alerts[0].id == id then [alerts[0].(acknowledged := true)] + alerts[1..]
    else
      var rest := Acknowledged(alerts[1..], id);
      assert forall i :: 1 <= i < |alerts| ==> FirstWithId(alerts, id, i) == FirstWithId(alerts[1..], id, i - 1);
      [alerts[0]] + rest
  }

  /** No alert before position i carries the id. */
  predicate FirstWithId(alerts: seq<PerformanceAlert>, id: string, i: nat)
    requires i <= |alerts|
  { forall j :: 0 <= j < i ==> alerts[j].id != id }

  /** clear_acknowledged_alerts: the unacknowledged alerts, in their order. */
  function Unacknowledged(alerts: seq<PerformanceAlert>): (r: seq<PerformanceAlert>)
    ensures |r| <= |alerts|
    ensures forall a :: a in r <==> a in alerts && !a.acknowledged
  {
    if alerts == [] then []
    else (if alerts[0].acknowledged then [] else [alerts[0]]) + Unacknowledged(alerts[1..])
  }

  // ------------------------------------------------------------- alert properties

  /** An unknown id leaves the alert list as it was. */
  lemma AcknowledgeUnknown(alerts: seq<PerformanceAlert>, id: string)
    requires forall i :: 0 <= i < |alerts| ==> alerts[i].id != id
    ensures Acknowledged(alerts, id) == alerts
  {
  }

  /** Clearing distributes over concatenation, so the relative order of the kept alerts is preserved. */
  lemma {:induction false} UnacknowledgedAppend(a: seq<PerformanceAlert>, b: seq<PerformanceAlert>)
    ensures Unacknowledged(a + b) == Unacknowledged(a) + Unacknowledged(b)
  {
    if a == [] {
      assert a + b == b;
    } else {
      assert (a + b)[0] == a[0] && (a + b)[1..] == a[1..] + b;
      UnacknowledgedAppend(a[1..], b);
      var head := if a[0].acknowledged then [] else [a[0]];
      ConcatAssoc(head, Unacknowledged(a[1..]), Unacknowledged(b));
    }
  }

  /** Clearing twice is clearing once. */
  lemma {:induction false} UnacknowledgedIdempotent(alerts: seq<PerformanceAlert>)
    ensures Unacknowledged(Unacknowledged(alerts)) == Unacknowledged(alerts)
  {
    if alerts != [] {
      UnacknowledgedIdempotent(alerts[1..]);
      var head := if alerts[0].acknowledged then [] else [alerts[0]];
      UnacknowledgedAppend(head, Unacknowledged(alerts[1..]));
    }
  }

  /** Newly created alerts are never acknowledged, so a clear right after a check keeps all of them. */
  lemma {:induction false} NewAlertsSurviveClear(ds: seq<Draft>, ids: seq<string>, conn: Option<string>, now: nat)
    requires |ids| >= |ds|
    ensures Unacknowledged(CreateAlerts(ds, ids, conn, now)) == CreateAlerts(ds, ids, conn, now)
  {
    AllUnacknowledgedKept(CreateAlerts(ds, ids, conn, now));
  }

  lemma {:induction false} AllUnacknowledgedKept(alerts: seq<PerformanceAlert>)
    requires forall i :: 0 <= i < |alerts| ==> !alerts[i].acknowledged
    ensures Unacknowledged(alerts) == alerts
  {
    if alerts != [] {
      AllUnacknowledgedKept(alerts[1..]);
    }
  }

  /** Default thresholds: 150 ms latency and 4% loss at 10 Mbps and quality 90 raise exactly one alert. */
  lemma DefaultLatencyAlertOnly(m: ConnectionMetrics)
    requires m.latencyMs == 150 && m.packetLossPercent == 4 && m.bandwidthMbps == 10 && m.qualityScore == 90
    ensures |ConnectionDrafts(m, DefaultThresholds)| == 1
    ensures ConnectionDrafts(m, DefaultThresholds)[0].alertType == HighLatency
  {
  }

  // ------------------------------------------------------------- loop

  /** The retain loop of clear_acknowledged_alerts. */
  method RetainUnacknowledged(alerts: seq<PerformanceAlert>) returns (r: seq<PerformanceAlert>)
    ensures r == Unacknowledged(alerts)
  {
    r := [];
    var i := 0;
    while i < |alerts|
      invariant 0 <= i <= |alerts|
      invariant r == UnacknowledgedUpTo(alerts, i)
    {
      UnacknowledgedStep(alerts, i);
      if !alerts[i].acknowledged {
        r := r + [alerts[i]];
      }
      i := i + 1;
    }
    assert alerts[..i] == alerts;
  }

  ghost function UnacknowledgedUpTo(alerts: seq<PerformanceAlert>, n: nat): seq<PerformanceAlert>
    requires n <= |alerts|
  {
    Unacknowledged(alerts[..n])
  }

  lemma UnacknowledgedStep(alerts: seq<PerformanceAlert>, i: nat)
    requires i < |alerts|
    ensures UnacknowledgedUpTo(alerts, i + 1) ==
      UnacknowledgedUpTo(alerts, i) + if alerts[i].acknowledged then [] else [alerts[i]]
  {
    UnacknowledgedAppend(alerts[..i], [alerts[i]]);
    assert alerts[..i + 1] == alerts[..i] + [alerts[i]];
  }

  /** get_all_connection_metrics: the latest reading of each connection whose history is non-empty. */
  function AllLatest(hs: map<string, MetricHistory<ConnectionMetrics>>): (r: map<string, ConnectionMetrics>)
    ensures forall id :: id in r <==> id in hs && hs[id].values != []
    ensures forall id :: id in r ==> Latest(hs[id]) == Some(r[id])
  {
    map id | id in hs && hs[id].values != [] :: hs[id].values[|hs[id].values| - 1].value
  }

  // ------------------------------------------------------------- collector

  class MetricsCollector {
    var connectionMetrics: map<string, MetricHistory<ConnectionMetrics>>
    var systemMetrics: MetricHistory<SystemMetrics>
    var qualityMetrics: MetricHistory<QualityMetrics>
    var alerts: seq<PerformanceAlert>
    var alertThresholds: AlertThresholds

    /** Every history has the collector's capacity and is within it. */
    ghost predicate Valid()
      reads this
    {
      systemMetrics.maxSize == HistorySize && |systemMetrics.values| <= HistorySize
      && qualityMetrics.maxSize == HistorySize && |qualityMetrics.values| <= HistorySize
      && forall id :: id in connectionMetrics ==>
        connectionMetrics[id].maxSize == HistorySize && |connectionMetrics[id].values| <= HistorySize
    }

    constructor ()
      ensures Valid()
      ensures connectionMetrics == map[] && systemMetrics == NewHistory(HistorySize)
      ensures qualityMetrics == NewHistory(HistorySize)
      ensures alerts == [] && alertThresholds == DefaultThresholds
    {
      connectionMetrics := map[];
      systemMetrics := NewHistory(HistorySize);
      qualityMetrics := NewHistory(HistorySize);
      alerts := [];
      alertThresholds := DefaultThresholds;
    }

    /** One tick of the collection loop storing a system reading. */
    method RecordSystemMetrics(s: SystemMetrics, now: nat)
      requires Valid()
      modifies this
      ensures Valid()
      ensures systemMetrics == Add(old(systemMetrics), now, s)
      ensures Latest(systemMetrics) == Some(s)
      ensures connectionMetrics == old(connectionMetrics) && qualityMetrics == old(qualityMetrics)
      ensures alerts == old(alerts) && alertThresholds == old(alertThresholds)
    {
      systemMetrics := Add(systemMetrics, now, s);
    }

    /** One tick of the collection loop storing a quality reading. */
    method RecordQualityMetrics(q: QualityMetrics, now: nat)
      requires Valid()
      modifies this
      ensures Valid()
      ensures qualityMetrics == Add(old(qualityMetrics), now, q)
      ensures Latest(qualityMetrics) == Some(q)
      ensures connectionMetrics == old(connectionMetrics) && systemMetrics == old(systemMetrics)
      ensures alerts == old(alerts) && alertThresholds == old(alertThresholds)
    {
      qualityMetrics := Add(qualityMetrics, now, q);
    }

    /**
     * record_connection_metrics: append to the connection's history (created
     * with capacity 300 on first sight), then run check_connection_alerts.
     */
    method RecordConnectionMetrics(m: ConnectionMetrics, ids: seq<string>, now: nat)
      requires Valid()
      requires |ids| >= 4
      modifies this
      ensures Valid()
      ensures m.connectionId in connectionMetrics
      ensures old(m.connectionId in connectionMetrics) ==>
        connectionMetrics == old(connectionMetrics)[m.connectionId := Add(old(connectionMetrics)[m.connectionId], now, m)]
      ensures old(m.connectionId !in connectionMetrics) ==>
        connectionMetrics == old(connectionMetrics)[m.connectionId := Add(NewHistory(HistorySize), now, m)]
      ensures Latest(connectionMetrics[m.connectionId]) == Some(m)
      ensures alerts == old(alerts) + CreateAlerts(ConnectionDrafts(m, alertThresholds), ids, Some(m.connectionId), now)
      ensures systemMetrics == old(systemMetrics) && qualityMetrics == old(qualityMetrics)
      ensures alertThresholds == old(alertThresholds)
    {
      var history := if m.connectionId in connectionMetrics then connectionMetrics[m.connectionId] else NewHistory(HistorySize);
      connectionMetrics := connectionMetrics[m.connectionId := Add(history, now, m)];
      CheckConnectionAlerts(m, ids, now);
    }

    /** check_connection_alerts: one new alert per breached threshold, appended in check order. */
    method CheckConnectionAlerts(m: ConnectionMetrics, ids: seq<string>, now: nat)
      requires |ids| >= 4
      modifies this
      ensures alerts == old(alerts) + CreateAlerts(ConnectionDrafts(m, alertThresholds), ids, Some(m.connectionId), now)
      ensures connectionMetrics == old(connectionMetrics) && systemMetrics == old(systemMetrics)
      ensures qualityMetrics == old(qualityMetrics) && alertThresholds == old(alertThresholds)
    {
      var created := CreateAlerts(ConnectionDrafts(m, alertThresholds), ids, Some(m.connectionId), now);
      alerts := alerts + created;
    }

    /**
     * One tick of start_alert_monitoring: the latest system reading, then the
     * latest quality reading, is checked; system alerts take the first ids.
     */
    method MonitorAlerts(ids: seq<string>, now: nat)
      requires |ids| >= 4
      modifies this
      ensures alerts == old(alerts) + MonitorTick(old(systemMetrics), old(qualityMetrics), alertThresholds, ids, now)
      ensures connectionMetrics == old(connectionMetrics) && systemMetrics == old(systemMetrics)
      ensures qualityMetrics == old(qualityMetrics) && alertThresholds == old(alertThresholds)
    {
      alerts := alerts + MonitorTick(systemMetrics, qualityMetrics, alertThresholds, ids, now);
    }

    method GetConnectionMetrics(connectionId: string) returns (r: Option<ConnectionMetrics>)
      ensures connectionId !in connectionMetrics ==> r.None?
      ensures connectionId in connectionMetrics ==> r == Latest(connectionMetrics[connectionId])
    {
      r := if connectionId in connectionMetrics then Latest(connectionMetrics[connectionId]) else None;
    }

    method GetAllConnectionMetrics() returns (r: map<string, ConnectionMetrics>)
      ensures r == AllLatest(connectionMetrics)
    {
      r := AllLatest(connectionMetrics);
    }

    method GetSystemMetrics() returns (r: Option<SystemMetrics>)
      ensures r == Latest(systemMetrics)
    {
      r := Latest(systemMetrics);
    }

    method GetQualityMetrics() returns (r: Option<QualityMetrics>)
      ensures r == Latest(qualityMetrics)
    {
      r := Latest(qualityMetrics);
    }

    /** get_connection_history: the window now − duration .. now, or nothing for an unknown connection. */
    method GetConnectionHistory(connectionId: string, durationMs: nat, now: nat) returns (r: seq<ConnectionMetrics>)
      ensures connectionId !in connectionMetrics ==> r == []
      ensures connectionId in connectionMetrics ==> r == Recent(connectionMetrics[connectionId].values, now - durationMs)
    {
      r := if connectionId in connectionMetrics then Recent(connectionMetrics[connectionId].values, now - durationMs) else [];
    }

    method GetSystemHistory(durationMs: nat, now: nat) returns (r: seq<SystemMetrics>)
      ensures r == Recent(systemMetrics.values, now - durationMs)
    {
      r := Recent(systemMetrics.values, now - durationMs);
    }

    method GetQualityHistory(durationMs: nat, now: nat) returns (r: seq<QualityMetrics>)
      ensures r == Recent(qualityMetrics.values, now - durationMs)
    {
      r := Recent(qualityMetrics.values, now - durationMs);
    }

    method GetAlerts() returns (r: seq<PerformanceAlert>)
      ensures r == alerts
    {
      r := alerts;
    }

    /** acknowledge_alert: marks the first alert with the id; an unknown id is still Ok. */
    method AcknowledgeAlert(alertId: string) returns (r: Result<()>)
      modifies this
      ensures r.Ok? && alerts == Acknowledged(old(alerts), alertId)
      ensures connectionMetrics == old(connectionMetrics) && systemMetrics == old(systemMetrics)
      ensures qualityMetrics == old(qualityMetrics) && alertThresholds == old(alertThresholds)
    {
      alerts := Acknowledged(alerts, alertId);
      r := Ok(());
    }

    method ClearAcknowledgedAlerts()
      modifies this
      ensures alerts == Unacknowledged(old(alerts))
      ensures connectionMetrics == old(connectionMetrics) && systemMetrics == old(systemMetrics)
      ensures qualityMetrics == old(qualityMetrics) && alertThresholds == old(alertThresholds)
    {
      alerts := RetainUnacknowledged(alerts);
    }

    method UpdateAlertThresholds(t: AlertThresholds)
      modifies this
      ensures alertThresholds == t
      ensures connectionMetrics == old(connectionMetrics) && systemMetrics == old(systemMetrics)
      ensures qualityMetrics == old(qualityMetrics) && alerts == old(alerts)
    {
      alertThresholds := t;
    }
  }

  /** The alerts of one monitoring tick: nothing is checked for a history that is still empty. */
  function MonitorTick(s: MetricHistory<SystemMetrics>, q: MetricHistory<QualityMetrics>, t: AlertThresholds,
                       ids: seq<string>, now: nat): (r: seq<PerformanceAlert>)
    requires |ids| >= 4
    ensures s.values == [] && q.values == [] ==> r == []
    ensures forall i :: 0 <= i < |r| ==> r[i].connectionId.None? && !r[i].acknowledged && r[i].createdAt == now
  {
    var sys := if s.values == [] then [] else SystemDrafts(s.values[|s.values| - 1].value, t);
    var qual := if q.values == [] then [] else QualityDrafts(q.values[|q.values| - 1].value, t);
    CreateAlerts(sys, ids, None, now) + CreateAlerts(qual, ids[|sys|..], None, now)
  }
}
