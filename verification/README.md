# True reset points and the Fiddler receiver, in Dafny

This project models two parts of the OpenTelemetry Collector contrib repository.

**The true-reset-point start-time adjuster** of the metric start-time processor.
It implements the "Cumulative streams: inserting true reset points" rule of the
OpenTelemetry Metrics Data Model. For every point of a cumulative stream it keeps
per-series state (epoch start, previous value or previous count and sum) and does
one of four things:
- the first point of a series opens an epoch and keeps its own start timestamp;
- a stale marker (no recorded value) gets the tracked start and leaves the state alone;
- a decrease re-opens the epoch at the point's own start;
- any other point gets the tracked start, and the state remembers its value.

Sums compare a single value: the point's `DoubleValue()`, which is the float64
value of a double point and 0 for an int64 point. So an int-valued counter never
resets: its points always keep the start of the series' first point. Histograms and exponential histograms compare
count and sum, and share one state slot. Summaries compare count and sum with a
zero-guard, in their own slot. The adjuster is a pure step function over a
`map<SeriesKey, SeriesInfo>`, folded over points, metrics, scopes and resource
groups. Each resource (job, instance) has its own table in a registry.

**The pure core of the Fiddler receiver:**
- configuration validation;
- client construction from options;
- request composition and the non-200 error;
- baseline selection and output-column selection;
- bin-size bucketing and the enabled-metric filter;
- query construction;
- the metric builder: metric names, point attributes, timestamp-column search, column-name splitting and the row/column filtering of `AddDataPoints`;
- one collection cycle, with the remote API and the consumer as parameters.

Modules:
- `Pdata`: the metric data model (points, metrics, scopes, resource groups) and the "same except start timestamps" relations.
- `TrueReset`: the adjuster.
- `TrueResetEpochs`: properties of runs of points and of whole batches.
- `TrueResetOrder`: which reset test each metric kind gets, the order in which metrics, scopes and resource groups see the tables, and continuation across calls.
- `FiddlerConfig`, `FiddlerClient`, `FiddlerMetadata`, `FiddlerReceiver`: the receiver.
- `Wrappers`, `Strs`, `Seqs`: `Option`/`Result`, string split/join/trim, and order-preserving filter and map.

Where the code and its documentation disagree, the model follows the code:
- The doc comment of the adjuster says the initial point's start becomes that point's end time. The code keeps the point's own start timestamp (adjuster.go:99-105). `StepSum`, `StepDist` and `SumEpochOpens` state the code's behaviour.
- The metric builder reads `result.Model.Version`, but the `Model` record in models.go has no version field. The model gives `Model` a `version` field.
- `collect` reads `config.EnabledMetricTypes`, but `Config` only has `EnabledMetrics`. The enabled list is a parameter of `Collect`.

## Model

| member | source | states |
|---|---|---|
| `TrueReset.StepSum` | processor/metricstarttimeprocessor/internal/truereset/adjuster.go:172-197 | Only the point's own series entry is created or touched, and only its number slot. The point changes at most in its start timestamp. Values compare as `DoubleValue()`: the float64 value, or 0 for an int64 point. A first point or a recorded decrease is emitted unchanged and opens the epoch at its own start and value. Otherwise the point gets the tracked start. A stale marker on a tracked series leaves the table exactly as it was. |
| `TrueReset.AdjustSumPoints` | processor/metricstarttimeprocessor/internal/truereset/adjuster.go:169-199 | A sum's points come back in order, changed only in start timestamps. No temporality check is made. The table gains exactly the series of those points, and every other series is unchanged. |
| `TrueReset.SummaryReset` | processor/metricstarttimeprocessor/internal/truereset/adjuster.go:222-233 | The summary reset test implies the histogram test. It agrees with the histogram test when all four counts and sums are nonzero. It never fires when the current pair or the previous pair is zero. Each field is guarded on its own: a zero count on either side leaves exactly the sum test, and a zero sum leaves exactly the count test. |
| `TrueReset.StepDist` | processor/metricstarttimeprocessor/internal/truereset/adjuster.go:96-124 | Same four-branch contract as for sums, on the (count, sum) pair of the slot used (histogram or summary). The number slot and the other distribution slot are untouched. |
| `TrueReset.AdjustDistPoints` | processor/metricstarttimeprocessor/internal/truereset/adjuster.go:128-167 | A histogram, exponential-histogram or summary run is changed only in start timestamps. The table gains exactly the run's series; all others are unchanged. |
| `TrueReset.AdjustMetric` | processor/metricstarttimeprocessor/internal/truereset/adjuster.go:57-79 | Dispatch by kind keeps name, kind, temporality and all points except start timestamps. Gauges, empty metrics and non-cumulative (exponential) histograms come back identical and add no series. |
| `TrueReset.AdjustMetricList` | processor/metricstarttimeprocessor/internal/truereset/adjuster.go:55-80 | A scope's metrics are adjusted in order against one table. Only their series are created or updated. |
| `TrueReset.AdjustScopes` | processor/metricstarttimeprocessor/internal/truereset/adjuster.go:52-82 | All scopes of one resource group are adjusted against that resource's table. Only their series are created or updated. |
| `TrueReset.ResourceKeyOf` | processor/metricstarttimeprocessor/internal/truereset/adjuster.go:46-48 | The table key is the service.name and service.instance.id attributes, each "" when absent. |
| `TrueReset.SameIdentitySameTable` | processor/metricstarttimeprocessor/internal/truereset/adjuster.go:45-48 | Resource groups that agree on service.name and service.instance.id share one table, whatever other attributes they carry. |
| `TrueReset.AdjustMetrics` | processor/metricstarttimeprocessor/internal/truereset/adjuster.go:42-85 | The batch comes back with the same resources, scopes, metrics and points, changed only in start timestamps; it cannot fail. The registry gains a table for every (service.name, service.instance.id) in the batch. Tables of other resources are unchanged. |
| `TrueResetEpochs.SumEpochContinues` | processor/metricstarttimeprocessor/internal/truereset/adjuster.go:195-197 | While no recorded value drops below the last one, every point of a tracked sum series carries the tracked epoch start. The epoch start is kept. |
| `TrueResetEpochs.SumEpochOpens` | processor/metricstarttimeprocessor/internal/truereset/adjuster.go:174-193 | A point that opens an epoch (unseen series or a decrease) is emitted unchanged. Every following point of a non-decreasing run carries that point's start. |
| `TrueResetEpochs.IntSumsNeverReset` | processor/metricstarttimeprocessor/internal/truereset/adjuster.go:176-197 | Every point of a new series of int64 sum points carries the first point's start, whatever the int values do, because they all compare as 0. |
| `TrueResetEpochs.SumStaleMarkersKeepState` | processor/metricstarttimeprocessor/internal/truereset/adjuster.go:182-186 | A run of stale markers on a tracked series leaves the table unchanged and gives every marker the epoch start. |
| `TrueResetEpochs.DistEpochContinues` | processor/metricstarttimeprocessor/internal/truereset/adjuster.go:121-124 | While the slot's reset test never fires, every histogram or summary point carries the tracked epoch start. |
| `TrueResetEpochs.DistEpochOpens` | processor/metricstarttimeprocessor/internal/truereset/adjuster.go:98-119 | A distribution point that opens an epoch is emitted unchanged. Every following point without a reset carries its start. |
| `TrueResetEpochs.HistogramNoResetIffMonotone` | processor/metricstarttimeprocessor/internal/truereset/adjuster.go:113-119 | For histograms, "no reset over a run" holds exactly when the recorded counts and sums never decrease. |
| `TrueResetEpochs.SumSeriesIsolation` | processor/metricstarttimeprocessor/internal/truereset/adjuster.go:171-198 | A series' adjusted points and state depend only on its own tracked state and its own points. Interleaved points of other series make no difference. |
| `TrueResetEpochs.AdjustMetricsAppend` | processor/metricstarttimeprocessor/internal/truereset/adjuster.go:42-85 | Adjusting a batch in one call equals adjusting its two halves in successive calls, so calls compose serially. |
| `TrueResetEpochs.AdjustSumPointsAppend` | processor/metricstarttimeprocessor/internal/truereset/adjuster.go:171-198 | Splitting a sum's points over two calls gives the same points and table as one call. |
| `TrueResetEpochs.CounterScenario` | processor/metricstarttimeprocessor/internal/truereset/adjuster.go:169-199 | Counter values 10, 15, 5, 8 with own starts 1, 2, 3, 4 come out with starts 1, 1, 3, 3. |
| `TrueResetOrder.HistogramKindsAgree` | processor/metricstarttimeprocessor/internal/truereset/adjuster.go:128-167 | A histogram and an exponential histogram with the same temporality and points leave the same table and come out with the same points. Both use the histogram slot. |
| `TrueResetOrder.SumMetricContinues` | processor/metricstarttimeprocessor/internal/truereset/adjuster.go:67-68 | A sum metric of any temporality goes through the sum test. While no recorded value of a tracked series drops, every point carries the tracked start, and the epoch start is kept. |
| `TrueResetOrder.HistogramMetricContinues` | processor/metricstarttimeprocessor/internal/truereset/adjuster.go:61-62 | A cumulative histogram goes through the histogram test on the histogram slot. While count and sum never decrease, every point carries that slot's start, and the start is kept. |
| `TrueResetOrder.SummaryMetricContinues` | processor/metricstarttimeprocessor/internal/truereset/adjuster.go:64-65 | A summary goes through the zero-guarded summary test on the summary slot. While that test never fires, every point carries that slot's start, and the start is kept. |
| `TrueResetOrder.ZeroCountResetsOnlyHistograms` | processor/metricstarttimeprocessor/internal/truereset/adjuster.go:222-227 | Tracked count 3, sum 10, start 1; new point count 0, sum 15, start 5. As a histogram the point resets and comes out unchanged. As a summary it continues and gets start 1. |
| `TrueResetOrder.AdjustMetricListAppend` | processor/metricstarttimeprocessor/internal/truereset/adjuster.go:55-80 | Adjusting a scope's metrics in two parts, the second against the table the first left, gives the same metrics and table as one pass. |
| `TrueResetOrder.AdjustMetricListNth` | processor/metricstarttimeprocessor/internal/truereset/adjuster.go:55-80 | The k-th metric of a scope is adjusted against the table that metrics 0..k-1 left. The table after metric k is that metric's adjusted table. The output keeps the order and count. |
| `TrueResetOrder.AdjustScopesAppend` | processor/metricstarttimeprocessor/internal/truereset/adjuster.go:53-81 | Adjusting a group's scopes in two parts, the second against the table the first left, gives the same scopes and table as one pass. |
| `TrueResetOrder.AdjustScopesNth` | processor/metricstarttimeprocessor/internal/truereset/adjuster.go:53-81 | The k-th scope keeps its fields. Its metrics are adjusted against the table that scopes 0..k-1 left. The table after it is the one its metrics leave. |
| `TrueResetOrder.AdjustMetricsNth` | processor/metricstarttimeprocessor/internal/truereset/adjuster.go:42-85 | The k-th resource group keeps its resource. Its scopes are adjusted against the stored table of its (service.name, service.instance.id), as the earlier groups and calls left it, or an empty table for a new key. The adjusted table then replaces that one entry of the registry. |
| `TrueResetOrder.ScrapeContinuation` | processor/metricstarttimeprocessor/internal/truereset/adjuster.go:169-197 | A recorded sum point comes out unchanged in a first call. A point of the same series comes in a later call, from a resource with the same service name and instance id. It gets the first point's start when it does not drop or is a stale marker, and comes out unchanged when it drops. |
| `FiddlerConfig.Validate` | receiver/fiddlerreceiver/config.go:34-57 | Error precedence is endpoint, then token, then interval, then timeout, each as an if-and-only-if. A zero interval becomes 30 minutes with no error and no timeout check. Nothing else is changed. Accepted configs have an interval of at least 5 minutes. |
| `FiddlerConfig.ValidateIdempotent` | receiver/fiddlerreceiver/config.go:43-56 | With a positive timeout, validating twice equals validating once. |
| `FiddlerConfig.RevalidationAfterDefaultFails` | receiver/fiddlerreceiver/config.go:43-54 | A config accepted through the zero-interval path with a non-positive timeout is rejected when validated again. |
| `FiddlerConfig.ZeroIntervalAcceptsZeroTimeout` | receiver/fiddlerreceiver/config.go:43-46 | A concrete config with interval 0 and timeout 0 is accepted. |
| `FiddlerConfig.ValidateChecked` | receiver/fiddlerreceiver/config.go:34-57 | Corrected validation: same precedence and defaulting, but the timeout check also runs after defaulting. Accepted configs have a positive timeout. |
| `FiddlerConfig.ValidateCheckedIdempotent` | receiver/fiddlerreceiver/config.go:43-56 | The corrected validation gives the same verdict and config when run on its own output, for every config. |
| `FiddlerConfig.ValidateCheckedAgrees` | receiver/fiddlerreceiver/config.go:43-54 | The corrected and as-written validations differ exactly on zero-interval configs with a non-positive timeout. They are identical whenever the timeout is positive. |
| `FiddlerClient.ApplyOptions` | receiver/fiddlerreceiver/internal/client/client.go:71-77 | Each setting ends either at its starting value or at the value of some option of its kind. A setting that no option names keeps its starting value. |
| `FiddlerClient.ApplyOptionsSnoc` | receiver/fiddlerreceiver/internal/client/client.go:75-77 | Options are applied from first to last: one more option acts on the config the earlier ones produced. |
| `FiddlerClient.LastOptionWins` | receiver/fiddlerreceiver/internal/client/client.go:41-77 | Each setting ends as the value of the last option that sets it. The timeout defaults to 30 seconds and the endpoint and token to "". |
| `FiddlerClient.NewClient` | receiver/fiddlerreceiver/internal/client/client.go:70-99 | Construction fails with the endpoint error first, then the token error, and succeeds exactly when both are non-empty. The stored endpoint is the configured one with at most one trailing "/" removed. |
| `FiddlerClient.NewClientUsesLastOptions` | receiver/fiddlerreceiver/internal/client/client.go:71-97 | The client carries the last token and timeout given among the options. Its endpoint is the last endpoint given, with one trailing "/" removed. |
| `FiddlerClient.BuildRequest` | receiver/fiddlerreceiver/internal/client/client.go:112-119 | The URL is endpoint, "/", path. Exactly two headers are set: "Bearer " plus the token, and the JSON content type. |
| `FiddlerClient.UrlKeepsOneSlash` | receiver/fiddlerreceiver/internal/client/client.go:88-112 | For an endpoint configured with a trailing "/", the request URL is that configured endpoint followed directly by the path, with no doubled "/". |
| `FiddlerClient.Call` | receiver/fiddlerreceiver/internal/client/client.go:102-139 | A transport failure is reported as such. A non-200 status becomes an API error with that status, the body text and the path, and no response. A 200 response is returned as it is. |
| `FiddlerClient.FirstNamed` | receiver/fiddlerreceiver/internal/client/client.go:217-221 | Returns the first index whose baseline has the requested name, or none if no baseline has it. |
| `FiddlerClient.SelectBaseline` | receiver/fiddlerreceiver/internal/client/client.go:216-228 | Returns the id of the first baseline with the requested name; otherwise the first baseline's id; otherwise "". |
| `FiddlerClient.GetBaseline` | receiver/fiddlerreceiver/internal/client/client.go:197-229 | A failed fetch passes its error through. A successful fetch gives the selected id, never an error. |
| `FiddlerClient.OutputColumns` | receiver/fiddlerreceiver/internal/client/client.go:185-191 | The result holds exactly the ids of the columns in the "Outputs" group. |
| `FiddlerClient.OutputColumnsAppend` | receiver/fiddlerreceiver/internal/client/client.go:186-191 | Output selection distributes over concatenation, so it keeps the column order. |
| `Strs.TrimSuffix` | receiver/fiddlerreceiver/internal/client/client.go:88 | With the suffix present, the result plus the suffix is the input. Otherwise the input is unchanged. |
| `Strs.JoinSplit` | receiver/fiddlerreceiver/internal/metadata/metrics.go:200 | Joining the pieces of a split with the separator gives back the string. |
| `Strs.SplitJoin` | receiver/fiddlerreceiver/internal/metadata/metrics.go:200 | Splitting the join of a non-empty list of separator-free pieces gives back the pieces. |
| `FiddlerMetadata.AddMetricType` | receiver/fiddlerreceiver/internal/metadata/metrics.go:44-46 | The type map gains the id with the given type; other ids and the emitted resources are unchanged. |
| `FiddlerMetadata.AddMetricTypeLastWins` | receiver/fiddlerreceiver/internal/metadata/metrics.go:44-46 | Registering a type twice for one id keeps the second. |
| `FiddlerMetadata.TimestampColumn` | receiver/fiddlerreceiver/internal/metadata/metrics.go:160-166 | The timestamp column is the first column named "timestamp". There is none exactly when no column has that name. |
| `FiddlerMetadata.ExtractTimestamp` | receiver/fiddlerreceiver/internal/metadata/metrics.go:159-177 | A timestamp is found exactly when the first "timestamp" column exists in the row, holds text, and that text parses. The result is the parse of that cell. |
| `FiddlerMetadata.ExtractValue` | receiver/fiddlerreceiver/internal/metadata/metrics.go:180-192 | A cell has a value exactly when it is a float, an int, or text that parses as a float. Floats and ints give their own value, and text gives its parse. |
| `FiddlerMetadata.SplitColumnName` | receiver/fiddlerreceiver/internal/metadata/metrics.go:195-201 | "" gives no pieces. Any other name gives at least one comma-free piece, and joining the pieces with "," gives the name back. |
| `FiddlerMetadata.SplitColumnNameTwoPieces` | receiver/fiddlerreceiver/internal/metadata/metrics.go:149-155 | A column named "metric,feature" splits into exactly those two pieces. |
| `FiddlerMetadata.FullMetricName` | receiver/fiddlerreceiver/internal/metadata/metrics.go:107-115 | Every name starts with "fiddler." and ends with the metric id. The type sits in between exactly when the id is in the type map. |
| `FiddlerMetadata.PointAttributes` | receiver/fiddlerreceiver/internal/metadata/metrics.go:141-155 | model, project and model_version are always set. metric_type is set iff the metric maps to a non-empty type. feature is set iff the column splits into two or more pieces with a non-empty second piece; it holds that piece. No other key is set. |
| `FiddlerMetadata.FindMetric` | receiver/fiddlerreceiver/internal/metadata/metrics.go:121-127 | Returns an index whose metric has the name and before which no metric has it, or none if no metric has it. |
| `FiddlerMetadata.AddMetricFromColumn` | receiver/fiddlerreceiver/internal/metadata/metrics.go:102-156 | Exactly one point is added: the scope's contents gain that point under the full metric name. A new gauge (unit "1", "Fiddler metric: " description) is appended only when no metric has the full name; otherwise the point goes to the existing one. Unique names, unit "1" and the required attributes are preserved. |
| `FiddlerMetadata.RowEmitsMembers` | receiver/fiddlerreceiver/internal/metadata/metrics.go:81-96 | The points a row yields are exactly those of its emitting columns. An emitting column is not named "timestamp", lies within the row and holds a numeric value. Each point sits in the gauge of the result's metric, at the row's timestamp, with that cell's value and the column's attributes. |
| `FiddlerMetadata.RowEmitsCount` | receiver/fiddlerreceiver/internal/metadata/metrics.go:81-96 | A row yields one point per emitting column. |
| `FiddlerMetadata.RowFoldAdds` | receiver/fiddlerreceiver/internal/metadata/metrics.go:81-96 | The column loop adds exactly the row's points to the scope's contents. It keeps unique names, unit "1" and the required attributes. |
| `FiddlerMetadata.RowsFoldAdds` | receiver/fiddlerreceiver/internal/metadata/metrics.go:69-97 | The row loop adds exactly the points of the usable rows, each at its own timestamp, and keeps the scope's invariants. A row is usable when it is non-empty, as long as the column names, and has a parseable timestamp. |
| `FiddlerMetadata.ResultsFoldAdds` | receiver/fiddlerreceiver/internal/metadata/metrics.go:62-98 | The result loop adds exactly the points of the results that have data and column names, and keeps the scope's invariants. |
| `FiddlerMetadata.AddRowPoints` | receiver/fiddlerreceiver/internal/metadata/metrics.go:81-96 | The loop computes the column fold. One row adds exactly its emitting columns' points and keeps the scope's invariants. |
| `FiddlerMetadata.AddResultPoints` | receiver/fiddlerreceiver/internal/metadata/metrics.go:62-97 | The loop computes the row fold. A result without data or without column names adds nothing. Otherwise exactly the usable rows' points are added, and the scope's invariants are kept. |
| `FiddlerMetadata.AddDataPoints` | receiver/fiddlerreceiver/internal/metadata/metrics.go:49-99 | Appends exactly one resource (service.name "fiddler", fiddler.project), even when every result is skipped. It holds one scope "fiddlerreceiver" whose gauges are the result fold from an empty scope. The gauges are uniquely named and have unit "1", and their points carry the required attributes. Every point of every usable row of every result with data and column names is there, with its multiplicity, under its full metric name. There are no others. |
| `FiddlerReceiver.BinSizeString` | receiver/fiddlerreceiver/receiver.go:252-264 | The bin is one of Hour, Day, Week, Month. Its width covers the duration, and every finer bin is too narrow. |
| `FiddlerReceiver.BinSizeMonotone` | receiver/fiddlerreceiver/receiver.go:252-264 | A longer duration never gets a finer bin. |
| `FiddlerReceiver.Contains` | receiver/fiddlerreceiver/receiver.go:272-277 | The search loop finds the type iff it is an element of the list. |
| `FiddlerReceiver.IsMetricEnabled` | receiver/fiddlerreceiver/receiver.go:267-278 | A type is enabled iff the list is empty or contains it. |
| `Seqs.Filter` | receiver/fiddlerreceiver/receiver.go:132-138 | Every kept element passes the test. Each element that passes keeps its multiplicity, and each element that fails is dropped. |
| `FiddlerReceiver.EnabledMetrics` | receiver/fiddlerreceiver/receiver.go:132-138 | Keeps exactly the enabled metrics, with their multiplicity, as a subsequence in their original order. |
| `FiddlerReceiver.EnabledMetricsAllWhenUnset` | receiver/fiddlerreceiver/receiver.go:268-270 | With no enabled types configured, every metric is kept. |
| `FiddlerReceiver.Queryable` | receiver/fiddlerreceiver/receiver.go:205-221 | A metric that needs categories gets no query. Neither does one that needs a baseline when the lookup failed or found nothing. Every other metric gets one. |
| `FiddlerReceiver.QueryFor` | receiver/fiddlerreceiver/receiver.go:209-232 | A "line" query keyed by the metric id, with its columns and type, empty categories and the model's id. A non-empty baseline id is the looked-up one. A queryable metric's query carries a baseline exactly when the metric needs one. |
| `FiddlerReceiver.CreateQueries` | receiver/fiddlerreceiver/receiver.go:197-244 | There are no more queries than metrics. Every query is a "line" query keyed by its metric id, with empty categories and the model's id. Its baseline id is "" or the looked-up baseline. |
| `FiddlerReceiver.CreateQueriesIsFilterMap` | receiver/fiddlerreceiver/receiver.go:201-234 | Query building equals: keep the metrics without categories whose baseline need is met, then build each one's query, in metric order. |
| `FiddlerReceiver.NoBaselineSkipsBaselineMetrics` | receiver/fiddlerreceiver/receiver.go:206-221 | When the baseline lookup fails or finds nothing, no query carries a baseline id. |
| `FiddlerReceiver.LastTypeOf` | receiver/fiddlerreceiver/receiver.go:127-130 | An id has a last type exactly when some listed metric has that id. It is the type of the last listed metric with the id. |
| `FiddlerReceiver.RegisteredLastWins` | receiver/fiddlerreceiver/receiver.go:127-130 | Registration gains exactly the listed ids. Each listed id maps to the type of its last listing, and every other key keeps its type. |
| `FiddlerReceiver.RegisterTypes` | receiver/fiddlerreceiver/receiver.go:127-130 | The loop computes the registration fold. The type map gains exactly the listed ids, each mapped to the type of the last listed metric with that id. Other keys keep their types, and nothing is emitted. |
| `FiddlerReceiver.RequestFor` | receiver/fiddlerreceiver/receiver.go:164-171 | The request asks for hourly bins in UTC, with query type "MONITORING", for the model's project, carrying exactly the built queries. |
| `FiddlerReceiver.ProcessModel` | receiver/fiddlerreceiver/receiver.go:112-184 | A model adds exactly one resource, for its project, when all of these hold: its metrics were listed, a query was built, and the query ran. Otherwise it adds none. The added resource is exactly `ModelResource`: one "fiddlerreceiver" scope whose gauges are the query results folded with the types just registered. Its contents are exactly the points those results yield, and it keeps the scope invariants. The type map becomes that of registering all the model's listed metrics, enabled or not, or stays unchanged when the listing failed. |
| `FiddlerReceiver.Collect` | receiver/fiddlerreceiver/receiver.go:93-195 | A listing failure is returned and nothing is consumed. An empty model list returns "no models available". Otherwise the built resources are consumed, and a consumer error is returned. The resources are exactly `EmittedResources`: one per emitting model, in listing order, each built with the types registered up to that model. So the k-th resource carries the project of the k-th emitting model. The type map is the registration of every listed model's metrics, in model order, so every listed metric's type is registered. |
| `FiddlerReceiver.EmittedResourcesFollowModels` | receiver/fiddlerreceiver/receiver.go:112-184 | The model loop yields as many resources as there are emitting models, and the k-th resource is tagged with the project of the k-th emitting model. |

## Left out

- JobsMap, timeseriesMap, the garbage-collection sweeper and the table locks are not part of this model. Each resource's table is a plain map, and one locked resource group is one atomic fold. Eviction only makes a series unseen again, and the first-point branch covers that.
- The series key: `tsm.get` is not part of this model. A series is identified by metric name plus point attributes.
- The resource key: only service.name and service.instance.id are read, as in the code. An absent attribute reads as "".
- Floating point: values and sums are reals and counts are naturals. NaN, float64 rounding and uint64 wrap-around are not modelled. `getBinSizeString`'s `Duration.Hours()` is compared on integer nanoseconds.
- Bucket and quantile contents of distribution points are carried as opaque data the adjuster never reads.
- HTTP and JSON: transport, request marshalling, response decoding, `ListModels` and `RunQuery` are parameters of `Collect`. `Call` takes the transport as a function and returns the raw response. JSON numbers decode as float64 in Go, so the `int` case of `extractValue` is kept but never reached there.
- Time: `time.Parse` (RFC 3339) and `strconv.ParseFloat` are caller-supplied parsers. The clock, `formatTime` and the query time range are not modelled.
- FiddlerReceiver.CreateQueries: the baseline lookup is one fixed answer per model and cycle, not a fresh remote call per metric.
- `AddDataPoints` iterates over a Go map, so the results are a sequence in arbitrary order. No property depends on that order except which gauge is created first and the order of points within a gauge.
- `createQueries` always returns a nil error, so `collect`'s check of that error is dead code and is not modelled.
- The start/stop goroutine and ticker, `Start`, `Shutdown`, the factory wiring and logging are out of scope.
- `APIError.Error()` string formatting: the error keeps its status, message and path fields only.

## Findings

| source | as written | input that shows it | evidently intended | confidence | as-written member | corrected member |
|---|---|---|---|---|---|---|
| receiver/fiddlerreceiver/config.go:43-54 | A zero interval is defaulted and validation returns at once, skipping the timeout check | endpoint "https://app.fiddler.ai", token "test-token", interval 0, timeout 0 is accepted; validating the result again rejects it | Default the interval and keep checking, so an accepted config always has a positive timeout | medium, not executed | `FiddlerConfig.ZeroIntervalAcceptsZeroTimeout` | `FiddlerConfig.ValidateChecked` |
