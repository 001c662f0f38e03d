/**
 * The metric builder of the Fiddler receiver: it turns query result rows
 * into gauge points, one gauge per full metric name, all under one resource
 * and one scope per `AddDataPoints` call. Parsing of RFC 3339 timestamps and
 * of numeric strings is supplied by the caller as `Parsers`.
 */
module FiddlerMetadata {
  import opened Wrappers
  import opened Strs
  import opened FiddlerClient

  datatype GaugePoint = GaugePoint(timestamp: int, value: real, attrs: map<string, string>)

  datatype GaugeMetric = GaugeMetric(name: string, description: string, unit: string, points: seq<GaugePoint>)

  datatype Scope = Scope(name: string, metrics: seq<GaugeMetric>)

  datatype Resource = Resource(attrs: map<string, string>, scopes: seq<Scope>)

  /** The builder: the resources emitted so far and the metric-id to metric-type map. */
  datatype MetricBuilder = MetricBuilder(resources: seq<Resource>, typeMap: map<string, string>)

  const NewMetricBuilder := MetricBuilder([], map[])

  /** `time.Parse(time.RFC3339, _)` (nanoseconds since the epoch) and `strconv.ParseFloat(_, 64)`. */
  datatype Parsers = Parsers(parseTime: string -> Option<int>, parseFloat: string -> Option<real>)

  const TimestampColumnName := "timestamp"

  // ------------------------------------------------------------ metric types

  /** `AddMetricType`: records (or overwrites) the type of a metric id. */
  function AddMetricType(b: MetricBuilder, metricID: string, metricType: string): (r: MetricBuilder)
    ensures r.resources == b.resources
    ensures r.typeMap.Keys == b.typeMap.Keys + {metricID}
    ensures r.typeMap[metricID] == metricType
    ensures forall k :: k in b.typeMap && k != metricID ==> r.typeMap[k] == b.typeMap[k]
  {
    b.(typeMap := b.typeMap[metricID := metricType])
  }

  /** Registering types is last-write-wins per id. */
  lemma AddMetricTypeLastWins(b: MetricBuilder, metricID: string, t1: string, t2: string)
    ensures AddMetricType(AddMetricType(b, metricID, t1), metricID, t2) == AddMetricType(b, metricID, t2)
  {
  }

  // ------------------------------------------------------------ row helpers

  /** The search loop of `extractTimestamp`: the first column named "timestamp". */
  function TimestampColumn(colNames: seq<string>): (r: Option<nat>)
    ensures r.Some? ==> r.value < |colNames| && colNames[r.value] == TimestampColumnName &&
                        forall j :: 0 <= j < r.value ==> colNames[j] != TimestampColumnName
    ensures r.None? ==> TimestampColumnName !in colNames
    decreases |colNames|
  {
    if |colNames| == 0 then None
    else if colNames[0] == TimestampColumnName then Some(0)
    else match TimestampColumn(colNames[1..])
      case None => None
      case Some(k) => Some(k + 1)
  }

  /** `extractTimestamp`: the parsed text of the first "timestamp" column, if it is a parseable string. */
  function ExtractTimestamp(row: seq<Cell>, colNames: seq<string>, parsers: Parsers): (r: Option<int>)
    ensures r.Some? <==> TimestampColumn(colNames).Some? && TimestampColumn(colNames).value < |row| &&
                         row[TimestampColumn(colNames).value].Text? &&
                         parsers.parseTime(row[TimestampColumn(colNames).value].s).Some?
    ensures r.Some? ==> r == parsers.parseTime(row[TimestampColumn(colNames).value].s)
  {
    match TimestampColumn(colNames)
    case None => None
    case Some(idx) =>
      if idx < |row| then
        match row[idx]
        case Text(s) => parsers.parseTime(s)
        case _ => None
      else None
  }

  /** `extractValue`: floats and ints as they are, strings through the float parser, anything else rejected. */
  function ExtractValue(cell: Cell, parsers: Parsers): (r: Option<real>)
    ensures r.Some? <==> cell.Float? || cell.Int? || (cell.Text? && parsers.parseFloat(cell.s).Some?)
    ensures cell.Float? ==> r == Some(cell.f)
    ensures cell.Int? ==> r == Some(cell.i as real)
    ensures cell.Text? ==> r == parsers.parseFloat(cell.s)
  {
    match cell
    case Float(f) => Some(f)
    case Int(i) => Some(i as real)
    case Text(s) => parsers.parseFloat(s)
    case OtherValue => None
  }

  /** `splitColumnName`: no pieces for "", otherwise the comma-separated pieces. */
  function SplitColumnName(name: string): (parts: seq<string>)
    ensures name == "" ==> parts == []
    ensures name != "" ==> |parts| >= 1 && Join(parts, ',') == name
    ensures forall i :: 0 <= i < |parts| ==> ',' !in parts[i]
  {
    if name == "" then []
    else
      JoinSplit(name, ',');
      Split(name, ',')
  }

  /** A column named "metric,feature" yields the feature piece. */
  lemma SplitColumnNameTwoPieces(metric: string, feature: string)
    requires ',' !in metric && ',' !in feature
    ensures SplitColumnName(metric + [','] + feature) == [metric, feature]
  {
    assert Join([metric, feature], ',') == metric + [','] + Join([feature], ',');
    SplitJoin([metric, feature], ',');
  }

  // ------------------------------------------------------------ one data point

  /** The full metric name: "fiddler.<type>.<metric>" when the type is known, else "fiddler.<metric>". */
  function FullMetricName(typeMap: map<string, string>, metric: string): (r: string)
    ensures |r| >= 8 && r[..8] == "fiddler."
    ensures HasSuffix(r, metric)
    ensures metric in typeMap ==> r[8..] == typeMap[metric] + "." + metric
    ensures metric !in typeMap ==> r[8..] == metric
  {
    if metric in typeMap then "fiddler." + typeMap[metric] + "." + metric
    else "fiddler." + metric
  }

  /** The attributes of a point: always model, project and model version; metric type and feature when known. */
  function PointAttributes(typeMap: map<string, string>, projectName: string, result: QueryResult, colName: string)
    : (r: map<string, string>)
    ensures r.Keys <= {"model", "project", "model_version", "metric_type", "feature"}
    ensures "model" in r && r["model"] == result.model.name
    ensures "project" in r && r["project"] == projectName
    ensures "model_version" in r && r["model_version"] == result.model.version
    ensures "metric_type" in r <==> result.metric in typeMap && typeMap[result.metric] != ""
    ensures "metric_type" in r ==> r["metric_type"] == typeMap[result.metric]
    ensures "feature" in r <==> |SplitColumnName(colName)| > 1 && SplitColumnName(colName)[1] != ""
    ensures "feature" in r ==> r["feature"] == SplitColumnName(colName)[1]
  {
    var base := map["model" := result.model.name, "project" := projectName, "model_version" := result.model.version];
    var typed := if result.metric in typeMap && typeMap[result.metric] != "" then base["metric_type" := typeMap[result.metric]] else base;
    var parts := SplitColumnName(colName);
    if |parts| > 1 && parts[1] != "" then typed["feature" := parts[1]] else typed
  }

  /** The index of the first metric called `name`. */
  function FindMetric(ms: seq<GaugeMetric>, name: string): (r: Option<nat>)
    ensures r.Some? ==> r.value < |ms| && ms[r.value].name == name
    ensures r.Some? ==> forall j :: 0 <= j < r.value ==> ms[j].name != name
    ensures r.None? ==> forall i :: 0 <= i < |ms| ==> ms[i].name != name
    decreases |ms|
  {
    if |ms| == 0 then None
    else if ms[0].name == name then Some(0)
    else match FindMetric(ms[1..], name)
      case None => None
      case Some(k) => Some(k + 1)
  }

  /** At most one metric per name. */
  predicate NamesUnique(ms: seq<GaugeMetric>) {
    forall i, j :: 0 <= i < j < |ms| ==> ms[i].name != ms[j].name
  }

  /** Every metric is a gauge with unit "1". */
  predicate AllUnitOne(ms: seq<GaugeMetric>) {
    forall i :: 0 <= i < |ms| ==> ms[i].unit == "1"
  }

  predicate HasRequiredAttrs(attrs: map<string, string>, projectName: string) {
    "model" in attrs && "model_version" in attrs && "project" in attrs && attrs["project"] == projectName
  }

  /** Every point carries the model, project and model_version attributes. */
  predicate Tagged(ms: seq<GaugeMetric>, projectName: string) {
    forall i :: 0 <= i < |ms| ==> forall k :: 0 <= k < |ms[i].points| ==> HasRequiredAttrs(ms[i].points[k].attrs, projectName)
  }

  // ------------------------------------------------------------ scope contents

  /** A data point together with the name of the gauge that holds it. */
  datatype Placed = Placed(metric: string, point: GaugePoint)

  /** The points of one gauge, each placed under the gauge's name. */
  function PlacedPoints(m: GaugeMetric): multiset<Placed> {
    PlacedUnder(m.name, m.points)
  }

  function PlacedUnder(name: string, ps: seq<GaugePoint>): multiset<Placed>
    decreases |ps|
  {
    if |ps| == 0 then multiset{} else PlacedUnder(name, ps[..|ps| - 1]) + multiset{Placed(name, ps[|ps| - 1])}
  }

  /** Every point of a scope with its gauge's name, counted with multiplicity. */
  function Contents(ms: seq<GaugeMetric>): multiset<Placed>
    decreases |ms|
  {
    if |ms| == 0 then multiset{} else Contents(ms[..|ms| - 1]) + PlacedPoints(ms[|ms| - 1])
  }

  lemma {:induction false} ContentsAppend(ms: seq<GaugeMetric>, m: GaugeMetric)
    ensures Contents(ms + [m]) == Contents(ms) + PlacedPoints(m)
  {
    assert (ms + [m])[..|ms|] == ms;
  }

  /** Replacing one gauge swaps its placed points for the new gauge's. */
  lemma {:induction false} ContentsUpdate(ms: seq<GaugeMetric>, i: nat, m: GaugeMetric)
    requires i < |ms|
    ensures Contents(ms[i := m]) + PlacedPoints(ms[i]) == Contents(ms) + PlacedPoints(m)
    decreases |ms|
  {
    var n := |ms| - 1;
    var ms' := ms[i := m];
    if i < n {
      assert ms'[..n] == ms[..n][i := m] && ms'[n] == ms[n] && ms[..n][i] == ms[i];
      ContentsUpdate(ms[..n], i, m);
      calc {
        Contents(ms') + PlacedPoints(ms[i]);
        Contents(ms[..n][i := m]) + PlacedPoints(ms[n]) + PlacedPoints(ms[i]);
        (Contents(ms[..n][i := m]) + PlacedPoints(ms[i])) + PlacedPoints(ms[n]);
        Contents(ms[..n]) + PlacedPoints(m) + PlacedPoints(ms[n]);
        Contents(ms) + PlacedPoints(m);
      }
    } else {
      assert ms'[..n] == ms[..n];
    }
  }

  /** Appending a gauge whose name is new keeps the scope's invariants and adds its points. */
  lemma AppendNewMetric(ms: seq<GaugeMetric>, m: GaugeMetric, projectName: string)
    requires forall i :: 0 <= i < |ms| ==> ms[i].name != m.name
    ensures NamesUnique(ms) ==> NamesUnique(ms + [m])
    ensures Tagged(ms, projectName) && (forall k :: 0 <= k < |m.points| ==> HasRequiredAttrs(m.points[k].attrs, projectName))
            ==> Tagged(ms + [m], projectName)
    ensures AllUnitOne(ms) && m.unit == "1" ==> AllUnitOne(ms + [m])
  {
    if Tagged(ms, projectName) && (forall k :: 0 <= k < |m.points| ==> HasRequiredAttrs(m.points[k].attrs, projectName)) {
      forall i | 0 <= i < |ms + [m]|
        ensures forall k :: 0 <= k < |(ms + [m])[i].points| ==> HasRequiredAttrs((ms + [m])[i].points[k].attrs, projectName)
      {
        if i < |ms| {
          assert (ms + [m])[i] == ms[i];
        }
      }
    }
  }

  /** Appending a point to an existing gauge adds exactly that point, under the gauge's name. */
  lemma ExtendContents(ms: seq<GaugeMetric>, i: nat, dp: GaugePoint)
    requires i < |ms|
    ensures Contents(ms[i := ms[i].(points := ms[i].points + [dp])]) == Contents(ms) + multiset{Placed(ms[i].name, dp)}
  {
    var m' := ms[i].(points := ms[i].points + [dp]);
    assert (ms[i].points + [dp])[..|ms[i].points|] == ms[i].points;
    assert PlacedPoints(m') == PlacedPoints(ms[i]) + multiset{Placed(ms[i].name, dp)};
    ContentsUpdate(ms, i, m');
    var lhs := Contents(ms[i := m']);
    var rhs := Contents(ms) + multiset{Placed(ms[i].name, dp)};
    assert lhs + PlacedPoints(ms[i]) == rhs + PlacedPoints(ms[i]);
    assert forall e :: lhs[e] == rhs[e] by {
      forall e ensures lhs[e] == rhs[e] {
        assert (lhs + PlacedPoints(ms[i]))[e] == (rhs + PlacedPoints(ms[i]))[e];
      }
    }
  }

  /** Appending a point to an existing gauge keeps the scope's invariants. */
  lemma ExtendMetric(ms: seq<GaugeMetric>, i: nat, dp: GaugePoint, projectName: string)
    requires i < |ms|
    ensures NamesUnique(ms) ==> NamesUnique(ms[i := ms[i].(points := ms[i].points + [dp])])
    ensures Tagged(ms, projectName) && HasRequiredAttrs(dp.attrs, projectName)
            ==> Tagged(ms[i := ms[i].(points := ms[i].points + [dp])], projectName)
    ensures AllUnitOne(ms) ==> AllUnitOne(ms[i := ms[i].(points := ms[i].points + [dp])])
  {
    var m' := ms[i].(points := ms[i].points + [dp]);
    var ms' := ms[i := m'];
    if Tagged(ms, projectName) && HasRequiredAttrs(dp.attrs, projectName) {
      forall j | 0 <= j < |ms'|
        ensures forall k :: 0 <= k < |ms'[j].points| ==> HasRequiredAttrs(ms'[j].points[k].attrs, projectName)
      {
        if j == i {
          forall k | 0 <= k < |m'.points|
            ensures HasRequiredAttrs(m'.points[k].attrs, projectName)
          {
            if k < |ms[i].points| {
              assert m'.points[k] == ms[i].points[k];
            }
          }
        }
      }
    }
  }

  /**
   * `addMetricFromColumn`: append one point to the gauge with the full
   * metric name, creating that gauge (unit "1") only if the scope has none.
   */
  function AddMetricFromColumn(ms: seq<GaugeMetric>, typeMap: map<string, string>, projectName: string,
                               result: QueryResult, timestamp: int, colName: string, value: real): (r: seq<GaugeMetric>)
    ensures Contents(r) == Contents(ms) +
              multiset{Placed(FullMetricName(typeMap, result.metric),
                              GaugePoint(timestamp, value, PointAttributes(typeMap, projectName, result, colName)))}
    ensures NamesUnique(ms) ==> NamesUnique(r)
    ensures Tagged(ms, projectName) ==> Tagged(r, projectName)
    ensures AllUnitOne(ms) ==> AllUnitOne(r)
    ensures var full := FullMetricName(typeMap, result.metric);
            var dp := GaugePoint(timestamp, value, PointAttributes(typeMap, projectName, result, colName));
            && (FindMetric(ms, full).None? ==>
                  r == ms + [GaugeMetric(full, "Fiddler metric: " + result.metric, "1", [dp])])
            && (FindMetric(ms, full).Some? ==>
                  var i := FindMetric(ms, full).value;
                  |r| == |ms| && r == ms[i := ms[i].(points := ms[i].points + [dp])])
  {
    var full := FullMetricName(typeMap, result.metric);
    var dp := GaugePoint(timestamp, value, PointAttributes(typeMap, projectName, result, colName));
    match FindMetric(ms, full)
    case None =>
      var m := GaugeMetric(full, "Fiddler metric: " + result.metric, "1", [dp]);
      assert [dp][..0] == [];
      assert PlacedUnder(full, [dp]) == PlacedUnder(full, []) + multiset{Placed(full, dp)};
      AppendNewMetric(ms, m, projectName);
      ContentsAppend(ms, m);
      ms + [m]
    case Some(i) =>
      ExtendMetric(ms, i, dp, projectName);
      ExtendContents(ms, i, dp);
      ms[i := ms[i].(points := ms[i].points + [dp])]
  }

  // ------------------------------------------------------------ AddDataPoints

  /** A row is used when it is non-empty, as long as the column names, and has a parseable timestamp. */
  predicate RowUsable(row: seq<Cell>, colNames: seq<string>, parsers: Parsers) {
    |row| != 0 && |row| == |colNames| && ExtractTimestamp(row, colNames, parsers).Some?
  }

  /** Column `c` of a row yields a point: not a "timestamp" column, present in the row, and numeric. */
  predicate ColumnEmits(row: seq<Cell>, colNames: seq<string>, c: nat, parsers: Parsers) {
    c < |colNames| && colNames[c] != TimestampColumnName && c < |row| && ExtractValue(row[c], parsers).Some?
  }

  /** The columns below `upTo` that yield a point. */
  ghost function EmittingColumns(row: seq<Cell>, colNames: seq<string>, parsers: Parsers, upTo: nat): set<nat> {
    set c: nat | c < upTo && ColumnEmits(row, colNames, c, parsers)
  }

  /** The point an emitting column yields, placed under the gauge of the result's metric. */
  function ColumnPoint(typeMap: map<string, string>, projectName: string, result: QueryResult,
                       row: seq<Cell>, timestamp: int, parsers: Parsers, c: nat): Placed
    requires ColumnEmits(row, result.colNames, c, parsers)
  {
    Placed(FullMetricName(typeMap, result.metric),
           GaugePoint(timestamp, ExtractValue(row[c], parsers).value,
                      PointAttributes(typeMap, projectName, result, result.colNames[c])))
  }

  /** The points the columns below `upTo` of a row yield at the given timestamp. */
  function RowEmits(typeMap: map<string, string>, projectName: string, result: QueryResult,
                    row: seq<Cell>, timestamp: int, parsers: Parsers, upTo: nat): multiset<Placed>
    decreases upTo
  {
    if upTo == 0 then multiset{}
    else RowEmits(typeMap, projectName, result, row, timestamp, parsers, upTo - 1) +
         ColumnEmitted(typeMap, projectName, result, row, timestamp, parsers, upTo - 1)
  }

  /** The point column `c` yields, if any. */
  function ColumnEmitted(typeMap: map<string, string>, projectName: string, result: QueryResult,
                         row: seq<Cell>, timestamp: int, parsers: Parsers, c: nat): multiset<Placed>
  {
    if ColumnEmits(row, result.colNames, c, parsers)
    then multiset{ColumnPoint(typeMap, projectName, result, row, timestamp, parsers, c)} else multiset{}
  }

  /** The points of a result's rows: each usable row's points at that row's own timestamp. */
  function RowsEmits(typeMap: map<string, string>, projectName: string, result: QueryResult,
                     rows: seq<seq<Cell>>, parsers: Parsers): multiset<Placed>
    decreases |rows|
  {
    if |rows| == 0 then multiset{}
    else
      var row := rows[|rows| - 1];
      RowsEmits(typeMap, projectName, result, rows[..|rows| - 1], parsers) +
      (if RowUsable(row, result.colNames, parsers)
       then RowEmits(typeMap, projectName, result, row, ExtractTimestamp(row, result.colNames, parsers).value,
                     parsers, |result.colNames|)
       else multiset{})
  }

  /** The points of one result: none without data or without column names. */
  function ResultEmits(typeMap: map<string, string>, projectName: string, result: QueryResult, parsers: Parsers)
    : multiset<Placed>
  {
    if |result.data| == 0 || |result.colNames| == 0 then multiset{}
    else RowsEmits(typeMap, projectName, result, result.data, parsers)
  }

  function ResultsEmits(typeMap: map<string, string>, projectName: string, results: seq<QueryResult>, parsers: Parsers)
    : multiset<Placed>
    decreases |results|
  {
    if |results| == 0 then multiset{}
    else ResultsEmits(typeMap, projectName, results[..|results| - 1], parsers) +
         ResultEmits(typeMap, projectName, results[|results| - 1], parsers)
  }

  lemma EmittingColumnsStep(row: seq<Cell>, colNames: seq<string>, parsers: Parsers, c: nat)
    ensures c !in EmittingColumns(row, colNames, parsers, c)
    ensures EmittingColumns(row, colNames, parsers, c + 1) ==
            EmittingColumns(row, colNames, parsers, c) + (if ColumnEmits(row, colNames, c, parsers) then {c} else {})
  {
  }

  /** Every point a row yields is the point of one of its emitting columns. */
  lemma {:induction false} RowEmitsSound(typeMap: map<string, string>, projectName: string, result: QueryResult,
                                         row: seq<Cell>, timestamp: int, parsers: Parsers, upTo: nat, e: Placed)
    requires e in RowEmits(typeMap, projectName, result, row, timestamp, parsers, upTo)
    ensures exists c: nat :: c < upTo && ColumnEmits(row, result.colNames, c, parsers) &&
                             e == ColumnPoint(typeMap, projectName, result, row, timestamp, parsers, c)
    decreases upTo
  {
    var c := upTo - 1;
    if e in RowEmits(typeMap, projectName, result, row, timestamp, parsers, c) {
      RowEmitsSound(typeMap, projectName, result, row, timestamp, parsers, c, e);
    } else {
      assert ColumnEmits(row, result.colNames, c, parsers);
      assert e == ColumnPoint(typeMap, projectName, result, row, timestamp, parsers, c);
    }
  }

  /** Every emitting column's point is among the points the row yields. */
  lemma {:induction false} RowEmitsComplete(typeMap: map<string, string>, projectName: string, result: QueryResult,
                                            row: seq<Cell>, timestamp: int, parsers: Parsers, upTo: nat, c: nat)
    requires c < upTo && ColumnEmits(row, result.colNames, c, parsers)
    ensures ColumnPoint(typeMap, projectName, result, row, timestamp, parsers, c) in
            RowEmits(typeMap, projectName, result, row, timestamp, parsers, upTo)
    decreases upTo
  {
    if c < upTo - 1 {
      RowEmitsComplete(typeMap, projectName, result, row, timestamp, parsers, upTo - 1, c);
      RowEmitsGrows(typeMap, projectName, result, row, timestamp, parsers, upTo,
                    ColumnPoint(typeMap, projectName, result, row, timestamp, parsers, c));
    } else {
      RowEmitsLast(typeMap, projectName, result, row, timestamp, parsers, c);
    }
  }

  /** Visiting one more column keeps every point already yielded. */
  lemma RowEmitsGrows(typeMap: map<string, string>, projectName: string, result: QueryResult,
                      row: seq<Cell>, timestamp: int, parsers: Parsers, upTo: nat, e: Placed)
    requires upTo > 0 && e in RowEmits(typeMap, projectName, result, row, timestamp, parsers, upTo - 1)
    ensures e in RowEmits(typeMap, projectName, result, row, timestamp, parsers, upTo)
  {
    InUnion(e, RowEmits(typeMap, projectName, result, row, timestamp, parsers, upTo - 1),
            ColumnEmitted(typeMap, projectName, result, row, timestamp, parsers, upTo - 1));
  }

  /** An emitting column's point is yielded once the loop has visited it. */
  lemma RowEmitsLast(typeMap: map<string, string>, projectName: string, result: QueryResult,
                     row: seq<Cell>, timestamp: int, parsers: Parsers, c: nat)
    requires ColumnEmits(row, result.colNames, c, parsers)
    ensures ColumnPoint(typeMap, projectName, result, row, timestamp, parsers, c) in
            RowEmits(typeMap, projectName, result, row, timestamp, parsers, c + 1)
  {
    InUnion(ColumnPoint(typeMap, projectName, result, row, timestamp, parsers, c),
            RowEmits(typeMap, projectName, result, row, timestamp, parsers, c),
            ColumnEmitted(typeMap, projectName, result, row, timestamp, parsers, c));
  }

  lemma InUnion<T>(x: T, a: multiset<T>, b: multiset<T>)
    requires x in a || x in b
    ensures x in a + b
  {
  }

  /** A row yields exactly the points of its emitting columns. */
  lemma RowEmitsMembers(typeMap: map<string, string>, projectName: string, result: QueryResult,
                        row: seq<Cell>, timestamp: int, parsers: Parsers, upTo: nat)
    ensures forall e :: e in RowEmits(typeMap, projectName, result, row, timestamp, parsers, upTo) <==>
              exists c: nat :: c < upTo && ColumnEmits(row, result.colNames, c, parsers) &&
                               e == ColumnPoint(typeMap, projectName, result, row, timestamp, parsers, c)
  {
    forall e | e in RowEmits(typeMap, projectName, result, row, timestamp, parsers, upTo)
      ensures exists c: nat :: c < upTo && ColumnEmits(row, result.colNames, c, parsers) &&
                               e == ColumnPoint(typeMap, projectName, result, row, timestamp, parsers, c)
    {
      RowEmitsSound(typeMap, projectName, result, row, timestamp, parsers, upTo, e);
    }
    forall c: nat | c < upTo && ColumnEmits(row, result.colNames, c, parsers)
      ensures ColumnPoint(typeMap, projectName, result, row, timestamp, parsers, c) in
              RowEmits(typeMap, projectName, result, row, timestamp, parsers, upTo)
    {
      RowEmitsComplete(typeMap, projectName, result, row, timestamp, parsers, upTo, c);
    }
  }

  /** A row yields one point per emitting column. */
  lemma {:induction false} RowEmitsCount(typeMap: map<string, string>, projectName: string, result: QueryResult,
                                         row: seq<Cell>, timestamp: int, parsers: Parsers, upTo: nat)
    ensures |RowEmits(typeMap, projectName, result, row, timestamp, parsers, upTo)| ==
            |EmittingColumns(row, result.colNames, parsers, upTo)|
    decreases upTo
  {
    if upTo > 0 {
      var c := upTo - 1;
      var before := EmittingColumns(row, result.colNames, parsers, c);
      RowEmitsCount(typeMap, projectName, result, row, timestamp, parsers, c);
      EmittingColumnsStep(row, result.colNames, parsers, c);
      if ColumnEmits(row, result.colNames, c, parsers) {
        assert |before + {c}| == |before| + 1;
      } else {
        assert EmittingColumns(row, result.colNames, parsers, upTo) == before;
      }
    }
  }

  /** The resource attributes of every `AddDataPoints` call. */
  function FiddlerResourceAttrs(projectName: string): map<string, string> {
    map["service.name" := "fiddler", "fiddler.project" := projectName]
  }

  const ScopeName := "fiddlerreceiver"

  /** The invariants of the builder's scope: unique names, unit "1" and the required point attributes. */
  predicate ScopeInvariant(ms: seq<GaugeMetric>, projectName: string) {
    NamesUnique(ms) && AllUnitOne(ms) && Tagged(ms, projectName)
  }

  // ------------------------------------------------------------ the loops as folds

  /** The scope after the column loop has visited the columns below `upTo` of one row. */
  function RowFold(ms: seq<GaugeMetric>, typeMap: map<string, string>, projectName: string, result: QueryResult,
                   row: seq<Cell>, timestamp: int, parsers: Parsers, upTo: nat): seq<GaugeMetric>
    requires upTo <= |result.colNames|
    decreases upTo
  {
    if upTo == 0 then ms
    else
      var prev := RowFold(ms, typeMap, projectName, result, row, timestamp, parsers, upTo - 1);
      if ColumnEmits(row, result.colNames, upTo - 1, parsers)
      then AddMetricFromColumn(prev, typeMap, projectName, result, timestamp, result.colNames[upTo - 1],
                               ExtractValue(row[upTo - 1], parsers).value)
      else prev
  }

  /** The scope after the row loop has visited `rows`, each usable row at its own timestamp. */
  function RowsFold(ms: seq<GaugeMetric>, typeMap: map<string, string>, projectName: string, result: QueryResult,
                    rows: seq<seq<Cell>>, parsers: Parsers): seq<GaugeMetric>
    decreases |rows|
  {
    if |rows| == 0 then ms
    else
      var prev := RowsFold(ms, typeMap, projectName, result, rows[..|rows| - 1], parsers);
      var row := rows[|rows| - 1];
      if RowUsable(row, result.colNames, parsers)
      then RowFold(prev, typeMap, projectName, result, row, ExtractTimestamp(row, result.colNames, parsers).value,
                   parsers, |result.colNames|)
      else prev
  }

  /** The scope after one result: unchanged without data or without column names. */
  function ResultFold(ms: seq<GaugeMetric>, typeMap: map<string, string>, projectName: string, result: QueryResult,
                      parsers: Parsers): seq<GaugeMetric>
  {
    if |result.data| == 0 || |result.colNames| == 0 then ms
    else RowsFold(ms, typeMap, projectName, result, result.data, parsers)
  }

  /** The scope after the result loop has visited `results`. */
  function ResultsFold(ms: seq<GaugeMetric>, typeMap: map<string, string>, projectName: string,
                       results: seq<QueryResult>, parsers: Parsers): seq<GaugeMetric>
    decreases |results|
  {
    if |results| == 0 then ms
    else ResultFold(ResultsFold(ms, typeMap, projectName, results[..|results| - 1], parsers),
                    typeMap, projectName, results[|results| - 1], parsers)
  }

  /** The column loop keeps the scope's invariants. */
  lemma {:induction false} RowFoldKeeps(ms: seq<GaugeMetric>, typeMap: map<string, string>, projectName: string,
                                        result: QueryResult, row: seq<Cell>, timestamp: int, parsers: Parsers, upTo: nat)
    requires upTo <= |result.colNames|
    requires ScopeInvariant(ms, projectName)
    ensures ScopeInvariant(RowFold(ms, typeMap, projectName, result, row, timestamp, parsers, upTo), projectName)
    decreases upTo
  {
    if upTo > 0 {
      RowFoldKeeps(ms, typeMap, projectName, result, row, timestamp, parsers, upTo - 1);
    }
  }

  /** The column loop adds exactly the row's points. */
  lemma {:induction false} RowFoldContents(ms: seq<GaugeMetric>, typeMap: map<string, string>, projectName: string,
                                           result: QueryResult, row: seq<Cell>, timestamp: int, parsers: Parsers, upTo: nat)
    requires upTo <= |result.colNames|
    ensures Contents(RowFold(ms, typeMap, projectName, result, row, timestamp, parsers, upTo)) ==
            Contents(ms) + RowEmits(typeMap, projectName, result, row, timestamp, parsers, upTo)
    decreases upTo
  {
    if upTo > 0 {
      RowFoldContents(ms, typeMap, projectName, result, row, timestamp, parsers, upTo - 1);
      RowFoldStep(ms, typeMap, projectName, result, row, timestamp, parsers, upTo);
    }
  }

  /** One step of the column loop adds exactly the point of the column it visits. */
  lemma RowFoldStep(ms: seq<GaugeMetric>, typeMap: map<string, string>, projectName: string,
                    result: QueryResult, row: seq<Cell>, timestamp: int, parsers: Parsers, upTo: nat)
    requires 0 < upTo <= |result.colNames|
    ensures Contents(RowFold(ms, typeMap, projectName, result, row, timestamp, parsers, upTo)) ==
            Contents(RowFold(ms, typeMap, projectName, result, row, timestamp, parsers, upTo - 1)) +
            ColumnEmitted(typeMap, projectName, result, row, timestamp, parsers, upTo - 1)
  {
  }

  /** The column loop adds exactly the row's points and keeps the scope's invariants. */
  lemma RowFoldAdds(ms: seq<GaugeMetric>, typeMap: map<string, string>, projectName: string,
                    result: QueryResult, row: seq<Cell>, timestamp: int, parsers: Parsers, upTo: nat)
    requires upTo <= |result.colNames|
    ensures ScopeInvariant(ms, projectName) ==>
              ScopeInvariant(RowFold(ms, typeMap, projectName, result, row, timestamp, parsers, upTo), projectName)
    ensures Contents(RowFold(ms, typeMap, projectName, result, row, timestamp, parsers, upTo)) ==
            Contents(ms) + RowEmits(typeMap, projectName, result, row, timestamp, parsers, upTo)
  {
    if ScopeInvariant(ms, projectName) {
      RowFoldKeeps(ms, typeMap, projectName, result, row, timestamp, parsers, upTo);
    }
    RowFoldContents(ms, typeMap, projectName, result, row, timestamp, parsers, upTo);
  }

  /** The row loop adds exactly the usable rows' points and keeps the scope's invariants. */
  lemma {:induction false} RowsFoldAdds(ms: seq<GaugeMetric>, typeMap: map<string, string>, projectName: string,
                                        result: QueryResult, rows: seq<seq<Cell>>, parsers: Parsers)
    ensures ScopeInvariant(ms, projectName) ==>
              ScopeInvariant(RowsFold(ms, typeMap, projectName, result, rows, parsers), projectName)
    ensures Contents(RowsFold(ms, typeMap, projectName, result, rows, parsers)) ==
            Contents(ms) + RowsEmits(typeMap, projectName, result, rows, parsers)
    decreases |rows|
  {
    if |rows| > 0 {
      var prev := RowsFold(ms, typeMap, projectName, result, rows[..|rows| - 1], parsers);
      var row := rows[|rows| - 1];
      RowsFoldAdds(ms, typeMap, projectName, result, rows[..|rows| - 1], parsers);
      if RowUsable(row, result.colNames, parsers) {
        RowFoldAdds(prev, typeMap, projectName, result, row, ExtractTimestamp(row, result.colNames, parsers).value,
                    parsers, |result.colNames|);
      }
    }
  }

  /** The result loop adds exactly the results' points and keeps the scope's invariants. */
  lemma {:induction false} ResultsFoldAdds(ms: seq<GaugeMetric>, typeMap: map<string, string>, projectName: string,
                                           results: seq<QueryResult>, parsers: Parsers)
    ensures ScopeInvariant(ms, projectName) ==>
              ScopeInvariant(ResultsFold(ms, typeMap, projectName, results, parsers), projectName)
    ensures Contents(ResultsFold(ms, typeMap, projectName, results, parsers)) ==
            Contents(ms) + ResultsEmits(typeMap, projectName, results, parsers)
    decreases |results|
  {
    if |results| > 0 {
      var prev := ResultsFold(ms, typeMap, projectName, results[..|results| - 1], parsers);
      var last := results[|results| - 1];
      ResultsFoldAdds(ms, typeMap, projectName, results[..|results| - 1], parsers);
      if |last.data| != 0 && |last.colNames| != 0 {
        RowsFoldAdds(prev, typeMap, projectName, last, last.data, parsers);
      }
    }
  }

  // ------------------------------------------------------------ the loops

  /** The column loop of `AddDataPoints` for one row whose timestamp was found. */
  method AddRowPoints(ms: seq<GaugeMetric>, typeMap: map<string, string>, projectName: string,
                      result: QueryResult, row: seq<Cell>, timestamp: int, parsers: Parsers)
    returns (r: seq<GaugeMetric>)
    ensures r == RowFold(ms, typeMap, projectName, result, row, timestamp, parsers, |result.colNames|)
    ensures ScopeInvariant(ms, projectName) ==> ScopeInvariant(r, projectName)
    ensures Contents(r) == Contents(ms) +
              RowEmits(typeMap, projectName, result, row, timestamp, parsers, |result.colNames|)
  {
    r := VisitColumns(ms, typeMap, projectName, result, row, timestamp, parsers);
    RowFoldAdds(ms, typeMap, projectName, result, row, timestamp, parsers, |result.colNames|);
  }

  /** The column loop itself: each numeric, non-timestamp column present in the row adds its point. */
  method VisitColumns(ms: seq<GaugeMetric>, typeMap: map<string, string>, projectName: string,
                      result: QueryResult, row: seq<Cell>, timestamp: int, parsers: Parsers)
    returns (r: seq<GaugeMetric>)
    ensures r == RowFold(ms, typeMap, projectName, result, row, timestamp, parsers, |result.colNames|)
  {
    r := ms;
    var c := 0;
    while c < |result.colNames|
      invariant 0 <= c <= |result.colNames|
      invariant r == RowFold(ms, typeMap, projectName, result, row, timestamp, parsers, c)
    {
      var colName := result.colNames[c];
      if colName != TimestampColumnName && c < |row| {
        var value := ExtractValue(row[c], parsers);
        if value.Some? {
          r := AddMetricFromColumn(r, typeMap, projectName, result, timestamp, colName, value.value);
        }
      }
      c := c + 1;
    }
  }

  /** The row loop of `AddDataPoints` for one query result. */
  method AddResultPoints(ms: seq<GaugeMetric>, typeMap: map<string, string>, projectName: string,
                         result: QueryResult, parsers: Parsers)
    returns (r: seq<GaugeMetric>)
    ensures r == ResultFold(ms, typeMap, projectName, result, parsers)
    ensures ScopeInvariant(ms, projectName) ==> ScopeInvariant(r, projectName)
    ensures Contents(r) == Contents(ms) + ResultEmits(typeMap, projectName, result, parsers)
  {
    r := ms;
    if |result.data| == 0 || |result.colNames| == 0 {
      return;
    }
    var w := 0;
    while w < |result.data|
      invariant 0 <= w <= |result.data|
      invariant r == RowsFold(ms, typeMap, projectName, result, result.data[..w], parsers)
    {
      var row := result.data[w];
      assert result.data[..w + 1][..w] == result.data[..w];
      if |row| != 0 && |row| == |result.colNames| {
        var timestamp := ExtractTimestamp(row, result.colNames, parsers);
        if timestamp.Some? {
          r := AddRowPoints(r, typeMap, projectName, result, row, timestamp.value, parsers);
        }
      }
      w := w + 1;
    }
    assert result.data[..w] == result.data;
    RowsFoldAdds(ms, typeMap, projectName, result, result.data, parsers);
  }

  /**
   * `AddDataPoints`: one new resource with one scope, holding a point for
   * every numeric non-timestamp cell of every usable row of every result that
   * has data and column names. The results come from a Go map, so their
   * order is arbitrary.
   */
  method AddDataPoints(b: MetricBuilder, projectName: string, results: seq<QueryResult>, parsers: Parsers)
    returns (r: MetricBuilder)
    ensures r.typeMap == b.typeMap
    ensures |r.resources| == |b.resources| + 1 && r.resources[..|b.resources|] == b.resources
    ensures var res := r.resources[|b.resources|];
            && res.attrs == FiddlerResourceAttrs(projectName)
            && |res.scopes| == 1 && res.scopes[0].name == ScopeName
            && res.scopes[0].metrics == ResultsFold([], b.typeMap, projectName, results, parsers)
            && ScopeInvariant(res.scopes[0].metrics, projectName)
            && Contents(res.scopes[0].metrics) == ResultsEmits(b.typeMap, projectName, results, parsers)
  {
    var ms: seq<GaugeMetric> := [];
    var i := 0;
    while i < |results|
      invariant 0 <= i <= |results|
      invariant ms == ResultsFold([], b.typeMap, projectName, results[..i], parsers)
    {
      assert results[..i + 1][..i] == results[..i];
      ms := AddResultPoints(ms, b.typeMap, projectName, results[i], parsers);
      i := i + 1;
    }
    assert results[..i] == results;
    ResultsFoldAdds([], b.typeMap, projectName, results, parsers);
    var resource := Resource(FiddlerResourceAttrs(projectName), [Scope(ScopeName, ms)]);
    r := MetricBuilder(b.resources + [resource], b.typeMap);
    assert r.resources[..|b.resources|] == b.resources;
  }
}
