/**
 * Properties of the adjuster over whole runs of points: epoch continuity,
 * epochs opened by a first point or a reset, stale markers, the independence
 * of series from one another, and batch composition.
 */
module TrueResetEpochs {
  import opened Pdata
  import opened TrueReset

  /** Every point of `ps` belongs to the series `key` of metric `name`. */
  predicate OneSeries(name: string, key: SeriesKey, ps: seq<NumberPoint>) {
    key.metric == name && forall i :: 0 <= i < |ps| ==> ps[i].attrs == key.attrs
  }

  predicate OneDistSeries(name: string, key: SeriesKey, ps: seq<DistPoint>) {
    key.metric == name && forall i :: 0 <= i < |ps| ==> ps[i].attrs == key.attrs
  }

  /** Starting from `prev`, no recorded value of `ps` is below the last recorded value before it. */
  predicate NoDrop(prev: real, ps: seq<NumberPoint>)
    decreases |ps|
  {
    |ps| == 0 ||
    if ps[0].noRecordedValue then NoDrop(prev, ps[1..])
    else prev <= DoubleValue(ps[0]) && NoDrop(DoubleValue(ps[0]), ps[1..])
  }

  /** Every point of `ps` carries the start timestamp `start`. */
  predicate AllStartAt(ps: seq<NumberPoint>, start: Timestamp) {
    forall i :: 0 <= i < |ps| ==> ps[i].startTime == start
  }

  predicate AllDistStartAt(ps: seq<DistPoint>, start: Timestamp) {
    forall i :: 0 <= i < |ps| ==> ps[i].startTime == start
  }

  /** Epoch continuity for sums: while nothing drops, every point inherits the tracked epoch start. */
  lemma {:induction false} SumEpochContinues(t: Table, name: string, key: SeriesKey, ps: seq<NumberPoint>)
    requires OneSeries(name, key, ps)
    requires key in t
    requires NoDrop(t[key].number.previousValue, ps)
    ensures AllStartAt(AdjustSumPoints(t, name, ps).1, t[key].number.startTime)
    ensures key in AdjustSumPoints(t, name, ps).0
    ensures AdjustSumPoints(t, name, ps).0[key].number.startTime == t[key].number.startTime
    decreases |ps|
  {
    if |ps| > 0 {
      var (t1, p1) := StepSum(t, key, ps[0]);
      assert SeriesKey(name, ps[0].attrs) == key;
      assert !OpensSumEpoch(t, key, ps[0]);
      assert OneSeries(name, key, ps[1..]) by {
        forall i | 0 <= i < |ps[1..]| ensures ps[1..][i].attrs == key.attrs {
          assert ps[1..][i] == ps[i + 1];
        }
      }
      SumEpochContinues(t1, name, key, ps[1..]);
    }
  }

  /**
   * Reset and first-point rule for sums: a point that opens an epoch keeps its
   * own start timestamp, and while nothing drops every later point of the
   * series carries that timestamp.
   */
  lemma {:induction false} SumEpochOpens(t: Table, name: string, key: SeriesKey, ps: seq<NumberPoint>)
    requires OneSeries(name, key, ps)
    requires |ps| >= 1 && OpensSumEpoch(t, key, ps[0])
    requires NoDrop(DoubleValue(ps[0]), ps[1..])
    ensures AdjustSumPoints(t, name, ps).1[0] == ps[0]
    ensures AllStartAt(AdjustSumPoints(t, name, ps).1[1..], ps[0].startTime)
    ensures AdjustSumPoints(t, name, ps).0[key].number.startTime == ps[0].startTime
  {
    var (t1, p1) := StepSum(t, key, ps[0]);
    assert SeriesKey(name, ps[0].attrs) == key;
    assert OneSeries(name, key, ps[1..]) by {
      forall i | 0 <= i < |ps[1..]| ensures ps[1..][i].attrs == key.attrs {
        assert ps[1..][i] == ps[i + 1];
      }
    }
    SumEpochContinues(t1, name, key, ps[1..]);
    assert AdjustSumPoints(t, name, ps).1[1..] == AdjustSumPoints(t1, name, ps[1..]).1;
  }

  /** Points that hold no float64 value all read as 0, so none of them is a drop below 0. */
  lemma {:induction false} NoDoublesNeverDrop(ps: seq<NumberPoint>)
    requires forall i :: 0 <= i < |ps| ==> !ps[i].value.AsDouble?
    ensures NoDrop(0.0, ps)
    decreases |ps|
  {
    if |ps| > 0 {
      assert forall i :: 0 <= i < |ps[1..]| ==> !ps[1..][i].value.AsDouble? by {
        forall i | 0 <= i < |ps[1..]| ensures !ps[1..][i].value.AsDouble? {
          assert ps[1..][i] == ps[i + 1];
        }
      }
      NoDoublesNeverDrop(ps[1..]);
    }
  }

  /**
   * Int-valued sums never reset: the adjuster compares `DoubleValue()`,
   * which is 0 for int64 points, so every point of a new int series carries
   * the first point's start, however its values move.
   */
  lemma IntSumsNeverReset(t: Table, name: string, key: SeriesKey, ps: seq<NumberPoint>)
    requires OneSeries(name, key, ps)
    requires |ps| >= 1 && key !in t
    requires forall i :: 0 <= i < |ps| ==> ps[i].value.AsInt?
    ensures AllStartAt(AdjustSumPoints(t, name, ps).1, ps[0].startTime)
  {
    NoDoublesNeverDrop(ps[1..]);
    SumEpochOpens(t, name, key, ps);
    var out := AdjustSumPoints(t, name, ps).1;
    forall i | 0 <= i < |out| ensures out[i].startTime == ps[0].startTime {
      if i > 0 {
        assert out[i] == out[1..][i - 1];
      }
    }
  }

  /** Stale markers on a tracked series all get the epoch start and leave the table as it was. */
  lemma {:induction false} SumStaleMarkersKeepState(t: Table, name: string, key: SeriesKey, ps: seq<NumberPoint>)
    requires OneSeries(name, key, ps)
    requires key in t
    requires forall i :: 0 <= i < |ps| ==> ps[i].noRecordedValue
    ensures AdjustSumPoints(t, name, ps).0 == t
    ensures AllStartAt(AdjustSumPoints(t, name, ps).1, t[key].number.startTime)
    decreases |ps|
  {
    if |ps| > 0 {
      assert SeriesKey(name, ps[0].attrs) == key;
      assert OneSeries(name, key, ps[1..]) by {
        forall i | 0 <= i < |ps[1..]| ensures ps[1..][i].attrs == key.attrs {
          assert ps[1..][i] == ps[i + 1];
        }
      }
      SumStaleMarkersKeepState(t, name, key, ps[1..]);
    }
  }

  // ------------------------------------------------ histograms and summaries

  /** Starting from the tracked `prev`, no recorded point of `ps` passes the reset test of `slot`. */
  predicate NoDistReset(slot: DistSlot, prev: DistInfo, ps: seq<DistPoint>)
    decreases |ps|
  {
    |ps| == 0 ||
    if ps[0].noRecordedValue then NoDistReset(slot, prev, ps[1..])
    else !IsReset(slot, prev, ps[0]) &&
         NoDistReset(slot, prev.(previousCount := ps[0].count, previousSum := ps[0].sum), ps[1..])
  }

  /** Epoch continuity for histograms and summaries. */
  lemma {:induction false} DistEpochContinues(slot: DistSlot, t: Table, name: string, key: SeriesKey, ps: seq<DistPoint>)
    requires OneDistSeries(name, key, ps)
    requires key in t
    requires NoDistReset(slot, SlotOf(t[key], slot), ps)
    ensures AllDistStartAt(AdjustDistPoints(slot, t, name, ps).1, SlotOf(t[key], slot).startTime)
    ensures key in AdjustDistPoints(slot, t, name, ps).0
    ensures SlotOf(AdjustDistPoints(slot, t, name, ps).0[key], slot).startTime == SlotOf(t[key], slot).startTime
    decreases |ps|
  {
    if |ps| > 0 {
      var (t1, p1) := StepDist(slot, t, key, ps[0]);
      assert SeriesKey(name, ps[0].attrs) == key;
      assert !OpensDistEpoch(slot, t, key, ps[0]);
      assert OneDistSeries(name, key, ps[1..]) by {
        forall i | 0 <= i < |ps[1..]| ensures ps[1..][i].attrs == key.attrs {
          assert ps[1..][i] == ps[i + 1];
        }
      }
      if !ps[0].noRecordedValue {
        assert SlotOf(t1[key], slot) ==
               SlotOf(t[key], slot).(previousCount := ps[0].count, previousSum := ps[0].sum);
      }
      DistEpochContinues(slot, t1, name, key, ps[1..]);
    }
  }

  /** Reset and first-point rule for histograms and summaries. */
  lemma {:induction false} DistEpochOpens(slot: DistSlot, t: Table, name: string, key: SeriesKey, ps: seq<DistPoint>)
    requires OneDistSeries(name, key, ps)
    requires |ps| >= 1 && OpensDistEpoch(slot, t, key, ps[0])
    requires NoDistReset(slot, DistInfo(ps[0].startTime, ps[0].count, ps[0].sum), ps[1..])
    ensures AdjustDistPoints(slot, t, name, ps).1[0] == ps[0]
    ensures AllDistStartAt(AdjustDistPoints(slot, t, name, ps).1[1..], ps[0].startTime)
    ensures SlotOf(AdjustDistPoints(slot, t, name, ps).0[key], slot).startTime == ps[0].startTime
  {
    var (t1, p1) := StepDist(slot, t, key, ps[0]);
    assert SeriesKey(name, ps[0].attrs) == key;
    assert OneDistSeries(name, key, ps[1..]) by {
      forall i | 0 <= i < |ps[1..]| ensures ps[1..][i].attrs == key.attrs {
        assert ps[1..][i] == ps[i + 1];
      }
    }
    DistEpochContinues(slot, t1, name, key, ps[1..]);
    assert AdjustDistPoints(slot, t, name, ps).1[1..] == AdjustDistPoints(slot, t1, name, ps[1..]).1;
  }

  /** For histograms the absence of resets is exactly: recorded counts and sums never decrease. */
  predicate CountAndSumNeverDrop(prevCount: nat, prevSum: real, ps: seq<DistPoint>)
    decreases |ps|
  {
    |ps| == 0 ||
    if ps[0].noRecordedValue then CountAndSumNeverDrop(prevCount, prevSum, ps[1..])
    else prevCount <= ps[0].count && prevSum <= ps[0].sum &&
         CountAndSumNeverDrop(ps[0].count, ps[0].sum, ps[1..])
  }

  lemma {:induction false} HistogramNoResetIffMonotone(prev: DistInfo, ps: seq<DistPoint>)
    ensures NoDistReset(HistogramSlot, prev, ps) <==>
            CountAndSumNeverDrop(prev.previousCount, prev.previousSum, ps)
    decreases |ps|
  {
    if |ps| > 0 {
      HistogramNoResetIffMonotone(prev, ps[1..]);
      HistogramNoResetIffMonotone(prev.(previousCount := ps[0].count, previousSum := ps[0].sum), ps[1..]);
    }
  }

  // ------------------------------------------------------ series isolation

  /** The points of `ps` that belong to the series with attributes `attrs`, in order. */
  function OfSeries(ps: seq<NumberPoint>, attrs: Attributes): (r: seq<NumberPoint>)
    ensures |r| <= |ps|
    ensures forall i :: 0 <= i < |r| ==> r[i].attrs == attrs
    decreases |ps|
  {
    if |ps| == 0 then []
    else if ps[0].attrs == attrs then [ps[0]] + OfSeries(ps[1..], attrs)
    else OfSeries(ps[1..], attrs)
  }

  predicate EqualOnKey(t1: Table, t2: Table, key: SeriesKey) {
    (key !in t1 && key !in t2) || (key in t1 && key in t2 && t1[key] == t2[key])
  }

  /**
   * Series are independent: what the adjuster does to one series depends only
   * on that series' tracked state and on its own points, not on the points of
   * other series interleaved with them.
   */
  lemma {:induction false} SumSeriesIsolation(t1: Table, t2: Table, name: string, attrs: Attributes, ps: seq<NumberPoint>)
    requires EqualOnKey(t1, t2, SeriesKey(name, attrs))
    ensures OfSeries(AdjustSumPoints(t1, name, ps).1, attrs) == AdjustSumPoints(t2, name, OfSeries(ps, attrs)).1
    ensures EqualOnKey(AdjustSumPoints(t1, name, ps).0, AdjustSumPoints(t2, name, OfSeries(ps, attrs)).0, SeriesKey(name, attrs))
    decreases |ps|
  {
    var key := SeriesKey(name, attrs);
    if |ps| > 0 {
      var (u1, p1) := StepSum(t1, SeriesKey(name, ps[0].attrs), ps[0]);
      var out := AdjustSumPoints(t1, name, ps).1;
      assert out == [p1] + AdjustSumPoints(u1, name, ps[1..]).1;
      assert out[1..] == AdjustSumPoints(u1, name, ps[1..]).1;
      if ps[0].attrs == attrs {
        var (u2, p2) := StepSum(t2, key, ps[0]);
        assert p1 == p2;
        assert EqualOnKey(u1, u2, key);
        SumSeriesIsolation(u1, u2, name, attrs, ps[1..]);
        assert OfSeries(ps, attrs) == [ps[0]] + OfSeries(ps[1..], attrs);
        assert OfSeries(ps, attrs)[1..] == OfSeries(ps[1..], attrs);
      } else {
        assert EqualOnKey(u1, t2, key);
        SumSeriesIsolation(u1, t2, name, attrs, ps[1..]);
      }
    }
  }

  // ---------------------------------------------------------- composition

  /**
   * Adjusting a batch in one call, or its two halves in two successive calls,
   * gives the same registry and the same points: the result of calls for one
   * resource is that of their serial order.
   */
  lemma {:induction false} AdjustMetricsAppend(reg: Registry, a: Metrics, b: Metrics)
    ensures var ra := AdjustMetrics(reg, a);
            var rb := AdjustMetrics(ra.0, b);
            AdjustMetrics(reg, a + b) == (rb.0, ra.1 + rb.1)
    decreases |a|
  {
    if |a| == 0 {
      assert a + b == b;
      var rb := AdjustMetrics(reg, b);
      assert AdjustMetrics(reg, a) == (reg, []);
      assert [] + rb.1 == rb.1;
    } else {
      TailOfAppend(a, b);
      var rk := ResourceKeyOf(a[0]);
      var first := AdjustScopes(TableOf(reg, rk), a[0].scopes);
      var reg1 := reg[rk := first.0];
      var head := a[0].(scopes := first.1);
      var ra := AdjustMetrics(reg1, a[1..]);
      var rb := AdjustMetrics(ra.0, b);
      AdjustMetricsAppend(reg1, a[1..], b);
      assert AdjustMetrics(reg, a) == (ra.0, [head] + ra.1);
      assert AdjustMetrics(reg, a + b) == (rb.0, [head] + (ra.1 + rb.1));
      ConsAppend(head, ra.1, rb.1);
    }
  }

  // ---------------------------------------------------------------- example

  /**
   * The counter scenario: values 10, 15, 5, 8 with own starts 1, 2, 3, 4
   * come out with starts 1, 1, 3, 3 (the drop to 5 opens a new epoch).
   */
  lemma CounterScenario()
    ensures var attrs: Attributes := map["job" := "A"];
            var ps := [NumberPoint(attrs, 1, 1, AsDouble(10.0), false), NumberPoint(attrs, 2, 2, AsDouble(15.0), false),
                       NumberPoint(attrs, 3, 3, AsDouble(5.0), false), NumberPoint(attrs, 4, 4, AsDouble(8.0), false)];
            var out := AdjustSumPoints(map[], "requests_total", ps).1;
            out[0].startTime == 1 && out[1].startTime == 1 && out[2].startTime == 3 && out[3].startTime == 3
  {
    var attrs: Attributes := map["job" := "A"];
    var ps := [NumberPoint(attrs, 1, 1, AsDouble(10.0), false), NumberPoint(attrs, 2, 2, AsDouble(15.0), false),
               NumberPoint(attrs, 3, 3, AsDouble(5.0), false), NumberPoint(attrs, 4, 4, AsDouble(8.0), false)];
    var key := SeriesKey("requests_total", attrs);
    assert ps[1..][1..] == ps[2..];
    assert NoDrop(10.0, ps[1..2]);
    assert OneSeries("requests_total", key, ps[..2]);
    SumEpochOpens(map[], "requests_total", key, ps[..2]);
    var (t2, out2) := AdjustSumPoints(map[], "requests_total", ps[..2]);
    assert OneSeries("requests_total", key, ps[2..]);
    assert NoDrop(5.0, ps[3..]);
    assert ps[2..][1..] == ps[3..];
    SumEpochOpens(t2, "requests_total", key, ps[2..]);
    AdjustSumPointsAppend(map[], "requests_total", ps[..2], ps[2..]);
    assert ps[..2] + ps[2..] == ps;
  }

  /** Splitting a run of sum points in two does not change the result. */
  lemma {:induction false} AdjustSumPointsAppend(t: Table, name: string, a: seq<NumberPoint>, b: seq<NumberPoint>)
    ensures var ra := AdjustSumPoints(t, name, a);
            var rb := AdjustSumPoints(ra.0, name, b);
            AdjustSumPoints(t, name, a + b) == (rb.0, ra.1 + rb.1)
    decreases |a|
  {
    if |a| == 0 {
      assert a + b == b;
      assert [] + AdjustSumPoints(t, name, b).1 == AdjustSumPoints(t, name, b).1;
    } else {
      var first := StepSum(t, SeriesKey(name, a[0].attrs), a[0]);
      AdjustSumPointsAppend(first.0, name, a[1..], b);
      SumAppendStep(t, name, a, b);
    }
  }

  /** The inductive step of `AdjustSumPointsAppend`. */
  lemma SumAppendStep(t: Table, name: string, a: seq<NumberPoint>, b: seq<NumberPoint>)
    requires |a| > 0
    requires var t1 := StepSum(t, SeriesKey(name, a[0].attrs), a[0]).0;
             var ra := AdjustSumPoints(t1, name, a[1..]);
             var rb := AdjustSumPoints(ra.0, name, b);
             AdjustSumPoints(t1, name, a[1..] + b) == (rb.0, ra.1 + rb.1)
    ensures var ra := AdjustSumPoints(t, name, a);
            var rb := AdjustSumPoints(ra.0, name, b);
            AdjustSumPoints(t, name, a + b) == (rb.0, ra.1 + rb.1)
  {
    var first := StepSum(t, SeriesKey(name, a[0].attrs), a[0]);
    var ra := AdjustSumPoints(first.0, name, a[1..]);
    var rb := AdjustSumPoints(ra.0, name, b);
    var whole := AdjustSumPoints(t, name, a);
    assert whole == (ra.0, [first.1] + ra.1);
    TailOfAppend(a, b);
    var both := AdjustSumPoints(t, name, a + b);
    assert both == (rb.0, [first.1] + (ra.1 + rb.1));
    ConsAppend(first.1, ra.1, rb.1);
    assert both == (rb.0, whole.1 + rb.1);
  }

  /** Dropping the head of a concatenation with a non-empty left part. */
  lemma TailOfAppend<T>(a: seq<T>, b: seq<T>)
    requires |a| > 0
    ensures (a + b)[0] == a[0]
    ensures (a + b)[1..] == a[1..] + b
  {
  }

  lemma ConsAppend<T>(x: T, a: seq<T>, b: seq<T>)
    ensures [x] + (a + b) == ([x] + a) + b
  {
  }
}
