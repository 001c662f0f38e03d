/**
 * How the adjuster threads its state. Each metric kind goes through its
 * own reset test. Metrics, scopes and resource groups are adjusted in order,
 * each against the table the earlier ones left. A resource's table outlives
 * the call that created it, so a later scrape continues the epochs of an
 * earlier one.
 */
module TrueResetOrder {
  import opened Pdata
  import opened TrueReset
  import opened TrueResetEpochs

  // ---------------------------------------------------------------- dispatch

  /** Cumulative histograms and exponential histograms are adjusted alike, on the same slot. */
  lemma HistogramKindsAgree(t: Table, name: string, tmp: Temporality, ps: seq<DistPoint>)
    ensures AdjustMetric(t, Metric(name, Histogram(tmp, ps))).0 ==
            AdjustMetric(t, Metric(name, ExponentialHistogram(tmp, ps))).0
    ensures AdjustMetric(t, Metric(name, Histogram(tmp, ps))).1.data.histPoints ==
            AdjustMetric(t, Metric(name, ExponentialHistogram(tmp, ps))).1.data.expPoints
  {
  }

  /** A sum metric continues its series' epoch while no recorded value drops. */
  lemma SumMetricContinues(t: Table, name: string, tmp: Temporality, mono: bool, key: SeriesKey, ps: seq<NumberPoint>)
    requires OneSeries(name, key, ps) && key in t
    requires NoDrop(t[key].number.previousValue, ps)
    ensures AllStartAt(AdjustMetric(t, Metric(name, Sum(tmp, mono, ps))).1.data.sumPoints, t[key].number.startTime)
    ensures AdjustMetric(t, Metric(name, Sum(tmp, mono, ps))).0[key].number.startTime == t[key].number.startTime
  {
    SumEpochContinues(t, name, key, ps);
  }

  /** A cumulative histogram continues its series' histogram epoch while count and sum never decrease. */
  lemma HistogramMetricContinues(t: Table, name: string, key: SeriesKey, ps: seq<DistPoint>)
    requires OneDistSeries(name, key, ps) && key in t
    requires CountAndSumNeverDrop(t[key].histogram.previousCount, t[key].histogram.previousSum, ps)
    ensures AllDistStartAt(AdjustMetric(t, Metric(name, Histogram(Cumulative, ps))).1.data.histPoints,
                           t[key].histogram.startTime)
    ensures AdjustMetric(t, Metric(name, Histogram(Cumulative, ps))).0[key].histogram.startTime ==
            t[key].histogram.startTime
  {
    HistogramNoResetIffMonotone(t[key].histogram, ps);
    DistEpochContinues(HistogramSlot, t, name, key, ps);
  }

  /** A summary continues its series' summary epoch while the zero-guarded summary test never fires. */
  lemma SummaryMetricContinues(t: Table, name: string, key: SeriesKey, ps: seq<DistPoint>)
    requires OneDistSeries(name, key, ps) && key in t
    requires NoDistReset(SummarySlot, t[key].summary, ps)
    ensures AllDistStartAt(AdjustMetric(t, Metric(name, Summary(ps))).1.data.summaryPoints, t[key].summary.startTime)
    ensures AdjustMetric(t, Metric(name, Summary(ps))).0[key].summary.startTime == t[key].summary.startTime
  {
    DistEpochContinues(SummarySlot, t, name, key, ps);
  }

  /**
   * The same drop of the count to zero (count 3, sum 10 to count 0, sum 15)
   * resets a histogram but continues a summary, whose test ignores a zero
   * count.
   */
  lemma ZeroCountResetsOnlyHistograms()
    ensures var attrs: Attributes := map["quantile_set" := "a"];
            var key := SeriesKey("latency", attrs);
            var tracked := DistInfo(1, 3, 10.0);
            var t: Table := map[key := SeriesInfo(NumberInfo(0, 0.0), tracked, tracked)];
            var p := DistPoint(attrs, 5, 6, 0, 15.0, [], false);
            && AdjustMetric(t, Metric("latency", Histogram(Cumulative, [p]))).1.data.histPoints == [p]
            && AdjustMetric(t, Metric("latency", Summary([p]))).1.data.summaryPoints == [p.(startTime := 1)]
  {
    var attrs: Attributes := map["quantile_set" := "a"];
    var key := SeriesKey("latency", attrs);
    var tracked := DistInfo(1, 3, 10.0);
    var t: Table := map[key := SeriesInfo(NumberInfo(0, 0.0), tracked, tracked)];
    var p := DistPoint(attrs, 5, 6, 0, 15.0, [], false);
    assert HistogramReset(tracked, p);
    assert !SummaryReset(tracked, p);
    DistPointsSingle(HistogramSlot, t, "latency", p);
    DistPointsSingle(SummarySlot, t, "latency", p);
  }

  // ---------------------------------------------------------------- one-element folds

  lemma SumPointsSingle(t: Table, name: string, p: NumberPoint)
    ensures var step := StepSum(t, SeriesKey(name, p.attrs), p);
            AdjustSumPoints(t, name, [p]) == (step.0, [step.1])
  {
    var step := StepSum(t, SeriesKey(name, p.attrs), p);
    assert [p][1..] == [];
    assert AdjustSumPoints(step.0, name, []) == (step.0, []);
    assert [step.1] + [] == [step.1];
  }

  lemma DistPointsSingle(slot: DistSlot, t: Table, name: string, p: DistPoint)
    ensures var step := StepDist(slot, t, SeriesKey(name, p.attrs), p);
            AdjustDistPoints(slot, t, name, [p]) == (step.0, [step.1])
  {
    var step := StepDist(slot, t, SeriesKey(name, p.attrs), p);
    assert [p][1..] == [];
    assert AdjustDistPoints(slot, step.0, name, []) == (step.0, []);
    assert [step.1] + [] == [step.1];
  }

  lemma MetricListSingle(t: Table, m: Metric)
    ensures AdjustMetricList(t, [m]) == (AdjustMetric(t, m).0, [AdjustMetric(t, m).1])
  {
    var step := AdjustMetric(t, m);
    assert [m][1..] == [];
    assert AdjustMetricList(step.0, []) == (step.0, []);
    assert [step.1] + [] == [step.1];
  }

  lemma ScopesSingle(t: Table, sc: ScopeMetrics)
    ensures var r := AdjustMetricList(t, sc.metrics);
            AdjustScopes(t, [sc]) == (r.0, [sc.(metrics := r.1)])
  {
    var r := AdjustMetricList(t, sc.metrics);
    assert [sc][1..] == [];
    assert AdjustScopes(r.0, []) == (r.0, []);
    assert [sc.(metrics := r.1)] + [] == [sc.(metrics := r.1)];
  }

  lemma MetricsSingle(reg: Registry, rm: ResourceMetrics)
    ensures var rk := ResourceKeyOf(rm);
            var r := AdjustScopes(TableOf(reg, rk), rm.scopes);
            AdjustMetrics(reg, [rm]) == (reg[rk := r.0], [rm.(scopes := r.1)])
  {
    var rk := ResourceKeyOf(rm);
    var r := AdjustScopes(TableOf(reg, rk), rm.scopes);
    assert [rm][1..] == [];
    assert AdjustMetrics(reg[rk := r.0], []) == (reg[rk := r.0], []);
    assert [rm.(scopes := r.1)] + [] == [rm.(scopes := r.1)];
  }

  // ---------------------------------------------------------------- order

  /** The metrics of a scope in two parts: the second part sees the table the first left. */
  lemma {:induction false} AdjustMetricListAppend(t: Table, a: seq<Metric>, b: seq<Metric>)
    ensures var ra := AdjustMetricList(t, a);
            var rb := AdjustMetricList(ra.0, b);
            AdjustMetricList(t, a + b) == (rb.0, ra.1 + rb.1)
    decreases |a|
  {
    if |a| == 0 {
      assert a + b == b;
      assert [] + AdjustMetricList(t, b).1 == AdjustMetricList(t, b).1;
    } else {
      TailOfAppend(a, b);
      var first := AdjustMetric(t, a[0]);
      var ra := AdjustMetricList(first.0, a[1..]);
      var rb := AdjustMetricList(ra.0, b);
      AdjustMetricListAppend(first.0, a[1..], b);
      assert AdjustMetricList(t, a) == (ra.0, [first.1] + ra.1);
      assert AdjustMetricList(t, a + b) == (rb.0, [first.1] + (ra.1 + rb.1));
      ConsAppend(first.1, ra.1, rb.1);
    }
  }

  /** The i-th metric of a scope is adjusted against the table the metrics before it leave. */
  lemma AdjustMetricListNth(t: Table, ms: seq<Metric>, i: nat)
    requires i < |ms|
    ensures |AdjustMetricList(t, ms).1| == |ms|
    ensures AdjustMetricList(t, ms).1[i] == AdjustMetric(AdjustMetricList(t, ms[..i]).0, ms[i]).1
    ensures AdjustMetricList(t, ms[..i + 1]).0 == AdjustMetric(AdjustMetricList(t, ms[..i]).0, ms[i]).0
  {
    MetricListNthOutput(t, ms, i);
    MetricListNthTable(t, ms, i);
  }

  lemma MetricListNthOutput(t: Table, ms: seq<Metric>, i: nat)
    requires i < |ms|
    ensures |AdjustMetricList(t, ms).1| == |ms|
    ensures AdjustMetricList(t, ms).1[i] == AdjustMetricList(AdjustMetricList(t, ms[..i]).0, ms[i..]).1[0]
  {
    var before := AdjustMetricList(t, ms[..i]);
    AdjustMetricListAppend(t, ms[..i], ms[i..]);
    assert ms[..i] + ms[i..] == ms;
    assert |before.1| == i;
  }

  lemma MetricListNthTable(t: Table, ms: seq<Metric>, i: nat)
    requires i < |ms|
    ensures var before := AdjustMetricList(t, ms[..i]).0;
            && AdjustMetricList(before, ms[i..]).1[0] == AdjustMetric(before, ms[i]).1
            && AdjustMetricList(t, ms[..i + 1]).0 == AdjustMetric(before, ms[i]).0
  {
    var before := AdjustMetricList(t, ms[..i]).0;
    assert ms[i..][0] == ms[i];
    AdjustMetricListAppend(t, ms[..i], [ms[i]]);
    assert ms[..i] + [ms[i]] == ms[..i + 1];
    MetricListSingle(before, ms[i]);
  }

  /** The scopes of a group in two parts: the second part sees the table the first left. */
  lemma {:induction false} AdjustScopesAppend(t: Table, a: seq<ScopeMetrics>, b: seq<ScopeMetrics>)
    ensures var ra := AdjustScopes(t, a);
            var rb := AdjustScopes(ra.0, b);
            AdjustScopes(t, a + b) == (rb.0, ra.1 + rb.1)
    decreases |a|
  {
    if |a| == 0 {
      assert a + b == b;
      assert [] + AdjustScopes(t, b).1 == AdjustScopes(t, b).1;
    } else {
      TailOfAppend(a, b);
      var first := AdjustMetricList(t, a[0].metrics);
      var head := a[0].(metrics := first.1);
      var ra := AdjustScopes(first.0, a[1..]);
      var rb := AdjustScopes(ra.0, b);
      AdjustScopesAppend(first.0, a[1..], b);
      assert AdjustScopes(t, a) == (ra.0, [head] + ra.1);
      assert AdjustScopes(t, a + b) == (rb.0, [head] + (ra.1 + rb.1));
      ConsAppend(head, ra.1, rb.1);
    }
  }

  /** The i-th scope of a group is adjusted against the table the scopes before it leave. */
  lemma AdjustScopesNth(t: Table, ss: seq<ScopeMetrics>, i: nat)
    requires i < |ss|
    ensures |AdjustScopes(t, ss).1| == |ss|
    ensures AdjustScopes(t, ss).1[i] ==
            ss[i].(metrics := AdjustMetricList(AdjustScopes(t, ss[..i]).0, ss[i].metrics).1)
    ensures AdjustScopes(t, ss[..i + 1]).0 == AdjustMetricList(AdjustScopes(t, ss[..i]).0, ss[i].metrics).0
  {
    ScopesNthOutput(t, ss, i);
    ScopesNthTable(t, ss, i);
  }

  lemma ScopesNthOutput(t: Table, ss: seq<ScopeMetrics>, i: nat)
    requires i < |ss|
    ensures |AdjustScopes(t, ss).1| == |ss|
    ensures AdjustScopes(t, ss).1[i] == AdjustScopes(AdjustScopes(t, ss[..i]).0, ss[i..]).1[0]
  {
    var before := AdjustScopes(t, ss[..i]);
    AdjustScopesAppend(t, ss[..i], ss[i..]);
    assert ss[..i] + ss[i..] == ss;
    assert |before.1| == i;
  }

  lemma ScopesNthTable(t: Table, ss: seq<ScopeMetrics>, i: nat)
    requires i < |ss|
    ensures var before := AdjustScopes(t, ss[..i]).0;
            var r := AdjustMetricList(before, ss[i].metrics);
            && AdjustScopes(before, ss[i..]).1[0] == ss[i].(metrics := r.1)
            && AdjustScopes(t, ss[..i + 1]).0 == r.0
  {
    var before := AdjustScopes(t, ss[..i]).0;
    assert ss[i..][0] == ss[i];
    AdjustScopesAppend(t, ss[..i], [ss[i]]);
    assert ss[..i] + [ss[i]] == ss[..i + 1];
    ScopesSingle(before, ss[i]);
  }

  /**
   * The i-th resource group of a batch is adjusted against its resource's
   * table as the groups before it left it (empty if none of them, and no
   * earlier call, had that resource), and the adjusted table replaces it.
   */
  lemma AdjustMetricsNth(reg: Registry, batch: Metrics, i: nat)
    requires i < |batch|
    ensures |AdjustMetrics(reg, batch).1| == |batch|
    ensures var before := AdjustMetrics(reg, batch[..i]).0;
            var rk := ResourceKeyOf(batch[i]);
            var adjusted := AdjustScopes(TableOf(before, rk), batch[i].scopes);
            && AdjustMetrics(reg, batch).1[i] == batch[i].(scopes := adjusted.1)
            && AdjustMetrics(reg, batch[..i + 1]).0 == before[rk := adjusted.0]
  {
    MetricsNthOutput(reg, batch, i);
    MetricsNthTable(reg, batch, i);
  }

  lemma MetricsNthOutput(reg: Registry, batch: Metrics, i: nat)
    requires i < |batch|
    ensures |AdjustMetrics(reg, batch).1| == |batch|
    ensures AdjustMetrics(reg, batch).1[i] == AdjustMetrics(AdjustMetrics(reg, batch[..i]).0, batch[i..]).1[0]
  {
    var before := AdjustMetrics(reg, batch[..i]);
    AdjustMetricsAppend(reg, batch[..i], batch[i..]);
    assert batch[..i] + batch[i..] == batch;
    assert |before.1| == i;
  }

  lemma MetricsNthTable(reg: Registry, batch: Metrics, i: nat)
    requires i < |batch|
    ensures var before := AdjustMetrics(reg, batch[..i]).0;
            var rk := ResourceKeyOf(batch[i]);
            var adjusted := AdjustScopes(TableOf(before, rk), batch[i].scopes);
            && AdjustMetrics(before, batch[i..]).1[0] == batch[i].(scopes := adjusted.1)
            && AdjustMetrics(reg, batch[..i + 1]).0 == before[rk := adjusted.0]
  {
    var before := AdjustMetrics(reg, batch[..i]).0;
    assert batch[i..][0] == batch[i];
    AdjustMetricsAppend(reg, batch[..i], [batch[i]]);
    assert batch[..i] + [batch[i]] == batch[..i + 1];
    MetricsSingle(before, batch[i]);
  }

  // ---------------------------------------------------------------- across calls

  /** A batch of one resource group holding one cumulative sum with a single point. */
  function SumBatch(resource: Attributes, name: string, p: NumberPoint): Metrics {
    [ResourceMetrics(resource, [ScopeMetrics("", [Metric(name, Sum(Cumulative, true, [p]))])])]
  }

  /** How a single-point sum batch is adjusted: one step of its series against the resource's table. */
  lemma SumBatchStep(reg: Registry, resource: Attributes, name: string, p: NumberPoint)
    ensures var rk := ResourceKeyOf(SumBatch(resource, name, p)[0]);
            var step := StepSum(TableOf(reg, rk), SeriesKey(name, p.attrs), p);
            AdjustMetrics(reg, SumBatch(resource, name, p)) == (reg[rk := step.0], SumBatch(resource, name, step.1))
  {
    var rm := SumBatch(resource, name, p)[0];
    var t := TableOf(reg, ResourceKeyOf(rm));
    var m := Metric(name, Sum(Cumulative, true, [p]));
    SumPointsSingle(t, name, p);
    MetricListSingle(t, m);
    ScopesSingle(t, ScopeMetrics("", [m]));
    MetricsSingle(reg, rm);
  }

  /**
   * Continuation across calls: a resource first seen with a recorded sum
   * point, then scraped again in a later call under the same service name
   * and instance id (its other attributes may differ). The later point keeps
   * the first point's start while the value does not drop, comes out as it
   * is when the value drops, and takes the first point's start when it is a
   * stale marker.
   */
  lemma ScrapeContinuation(reg: Registry, first: Attributes, second: Attributes, name: string,
                           p1: NumberPoint, p2: NumberPoint)
    requires ResourceKey(AttrStr(first, ServiceName), AttrStr(first, ServiceInstanceId)) !in reg
    requires AttrStr(first, ServiceName) == AttrStr(second, ServiceName)
    requires AttrStr(first, ServiceInstanceId) == AttrStr(second, ServiceInstanceId)
    requires p1.attrs == p2.attrs && !p1.noRecordedValue
    ensures var call1 := AdjustMetrics(reg, SumBatch(first, name, p1));
            var call2 := AdjustMetrics(call1.0, SumBatch(second, name, p2));
            && call1.1 == SumBatch(first, name, p1)
            && (p2.noRecordedValue || DoubleValue(p1) <= DoubleValue(p2) ==>
                  call2.1 == SumBatch(second, name, p2.(startTime := p1.startTime)))
            && (!p2.noRecordedValue && DoubleValue(p2) < DoubleValue(p1) ==> call2.1 == SumBatch(second, name, p2))
  {
    var rk := ResourceKey(AttrStr(first, ServiceName), AttrStr(first, ServiceInstanceId));
    var key := SeriesKey(name, p1.attrs);
    SumBatchStep(reg, first, name, p1);
    var s1 := StepSum(TableOf(reg, rk), key, p1);
    var reg1 := reg[rk := s1.0];
    assert TableOf(reg, rk) == map[];
    assert s1.0[key].number == NumberInfo(p1.startTime, DoubleValue(p1));
    SumBatchStep(reg1, second, name, p2);
    assert ResourceKeyOf(SumBatch(second, name, p2)[0]) == rk;
    assert TableOf(reg1, rk) == s1.0;
    ContinueFrom(s1.0, key, p1, p2);
  }

  /** The step of a point against a series whose state the recorded point `p1` opened. */
  lemma ContinueFrom(t: Table, key: SeriesKey, p1: NumberPoint, p2: NumberPoint)
    requires key in t && t[key].number == NumberInfo(p1.startTime, DoubleValue(p1))
    ensures p2.noRecordedValue || DoubleValue(p1) <= DoubleValue(p2) ==>
              StepSum(t, key, p2).1 == p2.(startTime := p1.startTime)
    ensures !p2.noRecordedValue && DoubleValue(p2) < DoubleValue(p1) ==> StepSum(t, key, p2).1 == p2
  {
  }
}
