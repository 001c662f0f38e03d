/**
 * The true-reset-point start-time adjuster: for every point of a cumulative
 * stream it keeps per-series state (epoch start and the last observed value,
 * or last count and sum) and either opens an epoch (first point of a series,
 * or a reset), carries the epoch start onto a stale marker, or rewrites a
 * continuation point's start timestamp to the epoch start.
 *
 * The per-resource table is a plain map; one locked resource group of the
 * source is one fold of the step functions below over that group.
 */
module TrueReset {
  import opened Pdata

  /** Identity of one series inside a resource's table: metric name plus point attributes. */
  datatype SeriesKey = SeriesKey(metric: string, attrs: Attributes)

  /** Tracked state of a sum series. */
  datatype NumberInfo = NumberInfo(startTime: Timestamp, previousValue: real)

  /** Tracked state of a histogram or summary series. */
  datatype DistInfo = DistInfo(startTime: Timestamp, previousCount: nat, previousSum: real)

  /** One table entry; each metric kind reads and writes only its own slot. */
  datatype SeriesInfo = SeriesInfo(number: NumberInfo, histogram: DistInfo, summary: DistInfo)

  /** The zero-valued entry a lookup of an unseen key creates. */
  const FreshInfo := SeriesInfo(NumberInfo(0, 0.0), DistInfo(0, 0, 0.0), DistInfo(0, 0, 0.0))

  /** The series table of one resource. */
  type Table = map<SeriesKey, SeriesInfo>

  /** The resource identity the tables are registered under: job and instance. */
  datatype ResourceKey = ResourceKey(job: string, instance: string)

  /** All resource tables. */
  type Registry = map<ResourceKey, Table>

  /** The entry for `key`, or the zero-valued one for an unseen key. */
  function Lookup(t: Table, key: SeriesKey): SeriesInfo {
    if key in t then t[key] else FreshInfo
  }

  // ---------------------------------------------------------------- sums

  /** A sum point opens an epoch when its series is unseen, or on a recorded decrease. */
  predicate OpensSumEpoch(t: Table, key: SeriesKey, p: NumberPoint) {
    key !in t || (!p.noRecordedValue && DoubleValue(p) < t[key].number.previousValue)
  }

  /** One sum point against the table. */
  function StepSum(t: Table, key: SeriesKey, p: NumberPoint): (r: (Table, NumberPoint))
    ensures r.0.Keys == t.Keys + {key}
    ensures forall k :: k in t && k != key ==> r.0[k] == t[k]
    ensures SameNumberExceptStart(r.1, p)
    ensures r.0[key].histogram == Lookup(t, key).histogram && r.0[key].summary == Lookup(t, key).summary
    // a new epoch starts at the point's own start, which is left alone
    ensures OpensSumEpoch(t, key, p) ==> r.1 == p && r.0[key].number == NumberInfo(p.startTime, DoubleValue(p))
    // otherwise the epoch carries on and the point inherits its start
    ensures !OpensSumEpoch(t, key, p) ==>
              r.1.startTime == t[key].number.startTime && r.0[key].number.startTime == t[key].number.startTime
    // a stale marker on a tracked series changes no state
    ensures key in t && p.noRecordedValue ==> r.0 == t
    // a recorded point always becomes the value later points are compared with
    ensures !p.noRecordedValue || key !in t ==> r.0[key].number.previousValue == DoubleValue(p)
  {
    if key !in t then
      (t[key := FreshInfo.(number := NumberInfo(p.startTime, DoubleValue(p)))], p)
    else
      var info := t[key];
      if p.noRecordedValue then
        (t, p.(startTime := info.number.startTime))
      else if DoubleValue(p) < info.number.previousValue then
        (t[key := info.(number := NumberInfo(p.startTime, DoubleValue(p)))], p)
      else
        (t[key := info.(number := info.number.(previousValue := DoubleValue(p)))],
         p.(startTime := info.number.startTime))
  }

  /** The series keys a run of number points of metric `name` addresses. */
  function NumberKeys(name: string, ps: seq<NumberPoint>): set<SeriesKey>
    decreases |ps|
  {
    if |ps| == 0 then {} else {SeriesKey(name, ps[0].attrs)} + NumberKeys(name, ps[1..])
  }

  /** `adjustMetricSum`: the points of one sum metric, in order. */
  function AdjustSumPoints(t: Table, name: string, ps: seq<NumberPoint>): (r: (Table, seq<NumberPoint>))
    ensures SameNumbersExceptStart(r.1, ps)
    ensures r.0.Keys == t.Keys + NumberKeys(name, ps)
    ensures forall k :: k in t && k !in NumberKeys(name, ps) ==> r.0[k] == t[k]
    decreases |ps|
  {
    if |ps| == 0 then (t, [])
    else
      var (t1, p1) := StepSum(t, SeriesKey(name, ps[0].attrs), ps[0]);
      var (t2, rest) := AdjustSumPoints(t1, name, ps[1..]);
      (t2, [p1] + rest)
  }

  // -------------------------------------------------- histograms and summaries

  /** Which slot of a table entry a distribution metric uses. */
  datatype DistSlot = HistogramSlot | SummarySlot

  function SlotOf(info: SeriesInfo, slot: DistSlot): DistInfo {
    match slot
    case HistogramSlot => info.histogram
    case SummarySlot => info.summary
  }

  function WithSlot(info: SeriesInfo, slot: DistSlot, d: DistInfo): SeriesInfo {
    match slot
    case HistogramSlot => info.(histogram := d)
    case SummarySlot => info.(summary := d)
  }

  /** Histogram reset test: any decrease in count or in sum. */
  predicate HistogramReset(prev: DistInfo, p: DistPoint) {
    p.count < prev.previousCount || p.sum < prev.previousSum
  }

  /** Summary reset test: a decrease in count or in sum where neither side of that field is zero. */
  function SummaryReset(prev: DistInfo, p: DistPoint): (reset: bool)
    // every summary reset is a histogram reset ...
    ensures reset ==> HistogramReset(prev, p)
    // ... and the two agree once all four fields are populated
    ensures (HistogramReset(prev, p) && p.count != 0 && p.sum != 0.0 &&
             prev.previousCount != 0 && prev.previousSum != 0.0) ==> reset
    // zero guard: an all-zero point or an all-zero tracked state never resets
    ensures (p.count == 0 && p.sum == 0.0) || (prev.previousCount == 0 && prev.previousSum == 0.0) ==> !reset
    // per field: a zero count on either side leaves only the sum test, and a zero sum only the count test
    ensures p.count == 0 || prev.previousCount == 0 ==>
              (reset <==> p.sum != 0.0 && prev.previousSum != 0.0 && p.sum < prev.previousSum)
    ensures p.sum == 0.0 || prev.previousSum == 0.0 ==>
              (reset <==> p.count != 0 && prev.previousCount != 0 && p.count < prev.previousCount)
  {
    (p.count != 0 && prev.previousCount != 0 && p.count < prev.previousCount) ||
    (p.sum != 0.0 && prev.previousSum != 0.0 && p.sum < prev.previousSum)
  }

  predicate IsReset(slot: DistSlot, prev: DistInfo, p: DistPoint) {
    match slot
    case HistogramSlot => HistogramReset(prev, p)
    case SummarySlot => SummaryReset(prev, p)
  }

  predicate OpensDistEpoch(slot: DistSlot, t: Table, key: SeriesKey, p: DistPoint) {
    key !in t || (!p.noRecordedValue && IsReset(slot, SlotOf(t[key], slot), p))
  }

  /** One histogram, exponential-histogram or summary point against the table. */
  function StepDist(slot: DistSlot, t: Table, key: SeriesKey, p: DistPoint): (r: (Table, DistPoint))
    ensures r.0.Keys == t.Keys + {key}
    ensures forall k :: k in t && k != key ==> r.0[k] == t[k]
    ensures SameDistExceptStart(r.1, p)
    ensures r.0[key].number == Lookup(t, key).number
    ensures forall other: DistSlot :: other != slot ==> SlotOf(r.0[key], other) == SlotOf(Lookup(t, key), other)
    ensures OpensDistEpoch(slot, t, key, p) ==>
              r.1 == p && SlotOf(r.0[key], slot) == DistInfo(p.startTime, p.count, p.sum)
    ensures !OpensDistEpoch(slot, t, key, p) ==>
              r.1.startTime == SlotOf(t[key], slot).startTime &&
              SlotOf(r.0[key], slot).startTime == SlotOf(t[key], slot).startTime
    ensures key in t && p.noRecordedValue ==> r.0 == t
    ensures !p.noRecordedValue || key !in t ==>
              SlotOf(r.0[key], slot).previousCount == p.count && SlotOf(r.0[key], slot).previousSum == p.sum
  {
    if key !in t then
      (t[key := WithSlot(FreshInfo, slot, DistInfo(p.startTime, p.count, p.sum))], p)
    else
      var info := t[key];
      var prev := SlotOf(info, slot);
      if p.noRecordedValue then
        (t, p.(startTime := prev.startTime))
      else if IsReset(slot, prev, p) then
        (t[key := WithSlot(info, slot, DistInfo(p.startTime, p.count, p.sum))], p)
      else
        (t[key := WithSlot(info, slot, prev.(previousCount := p.count, previousSum := p.sum))],
         p.(startTime := prev.startTime))
  }

  function DistKeys(name: string, ps: seq<DistPoint>): set<SeriesKey>
    decreases |ps|
  {
    if |ps| == 0 then {} else {SeriesKey(name, ps[0].attrs)} + DistKeys(name, ps[1..])
  }

  /**
   * The point loop shared by `adjustMetricHistogram`,
   * `adjustMetricExponentialHistogram` (both on the histogram slot) and
   * `adjustMetricSummary` (on the summary slot).
   */
  function AdjustDistPoints(slot: DistSlot, t: Table, name: string, ps: seq<DistPoint>): (r: (Table, seq<DistPoint>))
    ensures SameDistsExceptStart(r.1, ps)
    ensures r.0.Keys == t.Keys + DistKeys(name, ps)
    ensures forall k :: k in t && k !in DistKeys(name, ps) ==> r.0[k] == t[k]
    decreases |ps|
  {
    if |ps| == 0 then (t, [])
    else
      var (t1, p1) := StepDist(slot, t, SeriesKey(name, ps[0].attrs), ps[0]);
      var (t2, rest) := AdjustDistPoints(slot, t1, name, ps[1..]);
      (t2, [p1] + rest)
  }

  // ---------------------------------------------------------------- dispatch

  /** The series a metric's adjustment may create or update: none for gauges, empty and non-cumulative histograms. */
  function MetricKeys(m: Metric): set<SeriesKey> {
    match m.data
    case Empty => {}
    case Gauge(_) => {}
    case Sum(_, _, ps) => NumberKeys(m.name, ps)
    case Histogram(tmp, ps) => if tmp == Cumulative then DistKeys(m.name, ps) else {}
    case ExponentialHistogram(tmp, ps) => if tmp == Cumulative then DistKeys(m.name, ps) else {}
    case Summary(ps) => DistKeys(m.name, ps)
  }

  /** The per-kind dispatch of `AdjustMetrics` for one metric. */
  function AdjustMetric(t: Table, m: Metric): (r: (Table, Metric))
    ensures SameMetricExceptStart(m, r.1)
    ensures r.0.Keys == t.Keys + MetricKeys(m)
    ensures forall k :: k in t && k !in MetricKeys(m) ==> r.0[k] == t[k]
    ensures MetricKeys(m) == {} ==> r == (t, m)
  {
    match m.data
    case Empty => (t, m)
    case Gauge(_) => (t, m)
    case Sum(tmp, mono, ps) =>
      var (t', ps') := AdjustSumPoints(t, m.name, ps);
      (t', m.(data := Sum(tmp, mono, ps')))
    case Histogram(tmp, ps) =>
      if tmp != Cumulative then (t, m)
      else
        var (t', ps') := AdjustDistPoints(HistogramSlot, t, m.name, ps);
        (t', m.(data := Histogram(tmp, ps')))
    case ExponentialHistogram(tmp, ps) =>
      if tmp != Cumulative then (t, m)
      else
        var (t', ps') := AdjustDistPoints(HistogramSlot, t, m.name, ps);
        (t', m.(data := ExponentialHistogram(tmp, ps')))
    case Summary(ps) =>
      var (t', ps') := AdjustDistPoints(SummarySlot, t, m.name, ps);
      (t', m.(data := Summary(ps')))
  }

  function MetricsKeys(ms: seq<Metric>): set<SeriesKey>
    decreases |ms|
  {
    if |ms| == 0 then {} else MetricKeys(ms[0]) + MetricsKeys(ms[1..])
  }

  /** The metrics of one scope, in order, against one table. */
  function AdjustMetricList(t: Table, ms: seq<Metric>): (r: (Table, seq<Metric>))
    ensures SameMetricsExceptStart(ms, r.1)
    ensures r.0.Keys == t.Keys + MetricsKeys(ms)
    ensures forall k :: k in t && k !in MetricsKeys(ms) ==> r.0[k] == t[k]
    decreases |ms|
  {
    if |ms| == 0 then (t, [])
    else
      var (t1, m1) := AdjustMetric(t, ms[0]);
      var (t2, rest) := AdjustMetricList(t1, ms[1..]);
      (t2, [m1] + rest)
  }

  function ScopesKeys(ss: seq<ScopeMetrics>): set<SeriesKey>
    decreases |ss|
  {
    if |ss| == 0 then {} else MetricsKeys(ss[0].metrics) + ScopesKeys(ss[1..])
  }

  /** All scopes of one resource group against that resource's table (the locked section). */
  function AdjustScopes(t: Table, ss: seq<ScopeMetrics>): (r: (Table, seq<ScopeMetrics>))
    ensures SameScopesExceptStart(ss, r.1)
    ensures r.0.Keys == t.Keys + ScopesKeys(ss)
    ensures forall k :: k in t && k !in ScopesKeys(ss) ==> r.0[k] == t[k]
    decreases |ss|
  {
    if |ss| == 0 then (t, [])
    else
      var (t1, ms) := AdjustMetricList(t, ss[0].metrics);
      var (t2, rest) := AdjustScopes(t1, ss[1..]);
      (t2, [ss[0].(metrics := ms)] + rest)
  }

  /** `Value.Str()` of an attribute lookup: the empty string when absent. */
  function AttrStr(attrs: Attributes, key: string): string {
    if key in attrs then attrs[key] else ""
  }

  /** The resource identity: service name as job and service instance id as instance. */
  function ResourceKeyOf(rm: ResourceMetrics): (r: ResourceKey)
    ensures ServiceName in rm.resource ==> r.job == rm.resource[ServiceName]
    ensures ServiceInstanceId in rm.resource ==> r.instance == rm.resource[ServiceInstanceId]
    ensures ServiceName !in rm.resource ==> r.job == ""
    ensures ServiceInstanceId !in rm.resource ==> r.instance == ""
  {
    ResourceKey(AttrStr(rm.resource, ServiceName), AttrStr(rm.resource, ServiceInstanceId))
  }

  /**
   * Only the service name and instance id identify a resource: groups that
   * agree on those two attributes share a table, whatever else they carry.
   */
  lemma SameIdentitySameTable(a: ResourceMetrics, b: ResourceMetrics)
    requires forall k :: k == ServiceName || k == ServiceInstanceId ==>
               (k in a.resource <==> k in b.resource) && (k in a.resource ==> a.resource[k] == b.resource[k])
    ensures ResourceKeyOf(a) == ResourceKeyOf(b)
  {
    assert ServiceName in a.resource <==> ServiceName in b.resource;
    assert ServiceInstanceId in a.resource <==> ServiceInstanceId in b.resource;
  }

  function ResourceKeys(batch: Metrics): set<ResourceKey>
    decreases |batch|
  {
    if |batch| == 0 then {} else {ResourceKeyOf(batch[0])} + ResourceKeys(batch[1..])
  }

  /** The table registered for `rk`, or a new empty one on first contact. */
  function TableOf(reg: Registry, rk: ResourceKey): Table {
    if rk in reg then reg[rk] else map[]
  }

  /**
   * `AdjustMetrics`: each resource group against its resource's table, which
   * is created empty on first contact. It cannot fail (the source always
   * returns a nil error) and changes nothing but start timestamps.
   */
  function AdjustMetrics(reg: Registry, batch: Metrics): (r: (Registry, Metrics))
    ensures SameBatchExceptStart(batch, r.1)
    ensures r.0.Keys == reg.Keys + ResourceKeys(batch)
    ensures forall rk :: rk in reg && rk !in ResourceKeys(batch) ==> r.0[rk] == reg[rk]
    decreases |batch|
  {
    if |batch| == 0 then (reg, [])
    else
      var rm := batch[0];
      var rk := ResourceKeyOf(rm);
      var (t', scopes) := AdjustScopes(TableOf(reg, rk), rm.scopes);
      var (reg', rest) := AdjustMetrics(reg[rk := t'], batch[1..]);
      (reg', [rm.(scopes := scopes)] + rest)
  }
}
