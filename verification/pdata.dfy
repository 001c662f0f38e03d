/**
 * The slice of the collector's metric data model (`pmetric`) that the
 * true-reset-point adjuster reads and writes. Values are unbounded: a
 * timestamp is nanoseconds since the epoch, a float64 value is a `real`
 * (NaN is not modelled) and a uint64 count is a `nat`.
 */
module Pdata {

  type Timestamp = nat

  /** An attribute map, compared by full key/value equality. */
  type Attributes = map<string, string>

  datatype Temporality = Unspecified | Delta | Cumulative

  /** The value of a number point: unset, an int64 or a float64. */
  datatype NumberValue = NoValue | AsInt(i: int) | AsDouble(d: real)

  /** A number point of a gauge or a sum. */
  datatype NumberPoint = NumberPoint(
    attrs: Attributes,
    startTime: Timestamp,
    time: Timestamp,
    value: NumberValue,
    noRecordedValue: bool)

  /**
   * `NumberDataPoint.DoubleValue()`: the float64 value, or 0 when the point
   * holds an int64 or no value at all.
   */
  function DoubleValue(p: NumberPoint): real {
    if p.value.AsDouble? then p.value.d else 0.0
  }

  /**
   * A histogram, exponential-histogram or summary point. The adjuster only
   * reads `count` and `sum`; `detail` stands for the buckets or quantiles it
   * never reads.
   */
  datatype DistPoint = DistPoint(
    attrs: Attributes,
    startTime: Timestamp,
    time: Timestamp,
    count: nat,
    sum: real,
    detail: seq<real>,
    noRecordedValue: bool)

  /** The metric kinds of `pmetric.MetricType`. */
  datatype MetricData =
    | Empty
    | Gauge(gaugePoints: seq<NumberPoint>)
    | Sum(sumTemporality: Temporality, monotonic: bool, sumPoints: seq<NumberPoint>)
    | Histogram(histTemporality: Temporality, histPoints: seq<DistPoint>)
    | ExponentialHistogram(expTemporality: Temporality, expPoints: seq<DistPoint>)
    | Summary(summaryPoints: seq<DistPoint>)

  datatype Metric = Metric(name: string, data: MetricData)

  datatype ScopeMetrics = ScopeMetrics(scope: string, metrics: seq<Metric>)

  datatype ResourceMetrics = ResourceMetrics(resource: Attributes, scopes: seq<ScopeMetrics>)

  /** A batch (`pmetric.Metrics`): a sequence of resource groups. */
  type Metrics = seq<ResourceMetrics>

  /** The attribute keys the adjuster reads off a resource (semantic conventions 1.27). */
  const ServiceName := "service.name"
  const ServiceInstanceId := "service.instance.id"

  // ---- "same except start timestamps" at every level of the batch ----

  predicate SameNumberExceptStart(a: NumberPoint, b: NumberPoint) {
    a.attrs == b.attrs && a.time == b.time && a.value == b.value && a.noRecordedValue == b.noRecordedValue
  }

  predicate SameDistExceptStart(a: DistPoint, b: DistPoint) {
    a.attrs == b.attrs && a.time == b.time && a.count == b.count && a.sum == b.sum &&
    a.detail == b.detail && a.noRecordedValue == b.noRecordedValue
  }

  // The sequence-level relations are stated element by element from the
  // front, which keeps the folds that establish them cheap to verify.

  predicate SameNumbersExceptStart(a: seq<NumberPoint>, b: seq<NumberPoint>)
    decreases |a|
  {
    |a| == |b| && (|a| == 0 || (SameNumberExceptStart(a[0], b[0]) && SameNumbersExceptStart(a[1..], b[1..])))
  }

  predicate SameDistsExceptStart(a: seq<DistPoint>, b: seq<DistPoint>)
    decreases |a|
  {
    |a| == |b| && (|a| == 0 || (SameDistExceptStart(a[0], b[0]) && SameDistsExceptStart(a[1..], b[1..])))
  }

  /**
   * `b` is `a` with at most the start timestamps of adjustable points
   * rewritten: gauges, empty metrics and non-cumulative (exponential)
   * histograms are identical; everything else keeps its name, kind,
   * temporality and points except for their start timestamps.
   */
  predicate SameMetricExceptStart(a: Metric, b: Metric) {
    a.name == b.name &&
    match a.data
    case Empty => b == a
    case Gauge(_) => b == a
    case Sum(t, m, ps) =>
      b.data.Sum? && b.data.sumTemporality == t && b.data.monotonic == m &&
      SameNumbersExceptStart(b.data.sumPoints, ps)
    case Histogram(t, ps) =>
      if t != Cumulative then b == a
      else b.data.Histogram? && b.data.histTemporality == t && SameDistsExceptStart(b.data.histPoints, ps)
    case ExponentialHistogram(t, ps) =>
      if t != Cumulative then b == a
      else b.data.ExponentialHistogram? && b.data.expTemporality == t && SameDistsExceptStart(b.data.expPoints, ps)
    case Summary(ps) =>
      b.data.Summary? && SameDistsExceptStart(b.data.summaryPoints, ps)
  }

  predicate SameMetricsExceptStart(a: seq<Metric>, b: seq<Metric>)
    decreases |a|
  {
    |a| == |b| && (|a| == 0 || (SameMetricExceptStart(a[0], b[0]) && SameMetricsExceptStart(a[1..], b[1..])))
  }

  predicate SameScopeExceptStart(a: ScopeMetrics, b: ScopeMetrics) {
    a.scope == b.scope && SameMetricsExceptStart(a.metrics, b.metrics)
  }

  predicate SameScopesExceptStart(a: seq<ScopeMetrics>, b: seq<ScopeMetrics>)
    decreases |a|
  {
    |a| == |b| && (|a| == 0 || (SameScopeExceptStart(a[0], b[0]) && SameScopesExceptStart(a[1..], b[1..])))
  }

  predicate SameResourceExceptStart(a: ResourceMetrics, b: ResourceMetrics) {
    a.resource == b.resource && SameScopesExceptStart(a.scopes, b.scopes)
  }

  predicate SameBatchExceptStart(a: Metrics, b: Metrics)
    decreases |a|
  {
    |a| == |b| && (|a| == 0 || (SameResourceExceptStart(a[0], b[0]) && SameBatchExceptStart(a[1..], b[1..])))
  }
}
