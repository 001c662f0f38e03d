/**
 * The collection cycle of the Fiddler receiver: list the models, register
 * every metric's type, keep the enabled metrics, build one monitoring query
 * per usable metric, run it, and turn the results into gauge points. The
 * remote API, the consumer and the parsers are parameters.
 */
module FiddlerReceiver {
  import opened Wrappers
  import Seqs
  import opened FiddlerConfig
  import opened FiddlerClient
  import opened FiddlerMetadata

  // ------------------------------------------------------------ bin size

  /** The width of the query window: one hour. */
  const DefaultBinSize: Duration := Hour

  /** The width of a named bin; "Month" is open-ended. */
  function BinSpan(bin: string): Option<Duration> {
    if bin == "Hour" then Some(Hour)
    else if bin == "Day" then Some(24 * Hour)
    else if bin == "Week" then Some(168 * Hour)
    else None
  }

  /** Bins from finest to coarsest. */
  const Bins := ["Hour", "Day", "Week", "Month"]

  function BinRank(bin: string): nat {
    if bin == "Hour" then 0 else if bin == "Day" then 1 else if bin == "Week" then 2 else 3
  }

  /** `getBinSizeString`: the finest bin whose width covers the duration. */
  function BinSizeString(d: Duration): (bin: string)
    ensures bin in Bins
    ensures BinSpan(bin).Some? ==> d <= BinSpan(bin).value
    ensures forall k :: 0 <= k < BinRank(bin) ==> BinSpan(Bins[k]).Some? && d > BinSpan(Bins[k]).value
  {
    if d <= Hour then "Hour"
    else if d <= 24 * Hour then "Day"
    else if d <= 168 * Hour then "Week"
    else "Month"
  }

  /** A longer window never gets a finer bin. */
  lemma BinSizeMonotone(d1: Duration, d2: Duration)
    requires d1 <= d2
    ensures BinRank(BinSizeString(d1)) <= BinRank(BinSizeString(d2))
  {
  }

  // ------------------------------------------------------------ enabled metrics

  /** The linear search of `isMetricEnabled`'s loop. */
  function Contains(list: seq<string>, x: string): (found: bool)
    ensures found <==> x in list
    decreases |list|
  {
    if |list| == 0 then false else list[0] == x || Contains(list[1..], x)
  }

  /** `isMetricEnabled`: an empty list enables every type. */
  function IsMetricEnabled(metricType: string, enabled: seq<string>): (r: bool)
    ensures r <==> |enabled| == 0 || metricType in enabled
  {
    if |enabled| == 0 then true else Contains(enabled, metricType)
  }

  /** The filtering loop of `collect`: the enabled metrics, in their listed order. */
  function EnabledMetrics(metrics: seq<Metric>, enabled: seq<string>): (r: seq<Metric>)
    ensures Seqs.IsSubsequence(r, metrics)
    ensures forall i :: 0 <= i < |r| ==> r[i] in metrics && (|enabled| == 0 || r[i].metricType in enabled)
    ensures forall i :: 0 <= i < |metrics| && (|enabled| == 0 || metrics[i].metricType in enabled) ==> metrics[i] in r
    ensures forall m :: multiset(r)[m] == if |enabled| == 0 || m.metricType in enabled then multiset(metrics)[m] else 0
  {
    Seqs.FilterIsSubsequence((m: Metric) => IsMetricEnabled(m.metricType, enabled), metrics);
    Seqs.Filter((m: Metric) => IsMetricEnabled(m.metricType, enabled), metrics)
  }

  /** With no enabled types configured, nothing is filtered out. */
  lemma EnabledMetricsAllWhenUnset(metrics: seq<Metric>)
    ensures EnabledMetrics(metrics, []) == metrics
  {
    var r := EnabledMetrics(metrics, []);
    assert multiset(r) == multiset(metrics);
    Seqs.SubsequenceSameLength(r, metrics);
  }

  // ------------------------------------------------------------ queries

  const DefaultBaselineName := "default_static_baseline"

  /** A metric gets a query unless it needs categories, or needs a baseline and none was found. */
  function Queryable(m: Metric, baseline: Result<string, ClientError>): (r: bool)
    ensures m.requiresCategories ==> !r
    ensures m.requiresBaseline && (baseline.Failure? || baseline.value == "") ==> !r
    ensures !m.requiresCategories && !m.requiresBaseline ==> r
    ensures !m.requiresCategories && baseline.Success? && baseline.value != "" ==> r
  {
    !m.requiresCategories && (!m.requiresBaseline || (baseline.Success? && baseline.value != ""))
  }

  /**
   * The query for one metric: a line chart keyed by the metric id, which
   * carries the found baseline exactly when the metric needs one.
   */
  function QueryFor(modelID: string, m: Metric, baseline: Result<string, ClientError>): (q: Query)
    ensures q.queryKey == m.id && q.metric == m.id && q.metricType == m.metricType && q.columns == m.columns
    ensures q.vizType == "line" && q.categories == [] && q.modelID == modelID
    ensures q.baselineID != "" ==> m.requiresBaseline && baseline.Success? && q.baselineID == baseline.value
    ensures Queryable(m, baseline) ==> (q.baselineID != "" <==> m.requiresBaseline)
  {
    var baselineID := if m.requiresBaseline && baseline.Success? then baseline.value else "";
    Query(m.id, [], m.columns, "line", m.id, m.metricType, modelID, baselineID)
  }

  /**
   * `createQueries`, with `baseline` the answer of the baseline lookup for
   * this model and the default baseline name.
   */
  function CreateQueries(modelID: string, metrics: seq<Metric>, baseline: Result<string, ClientError>): (qs: seq<Query>)
    ensures |qs| <= |metrics|
    ensures forall i :: 0 <= i < |qs| ==>
              && qs[i].vizType == "line"
              && qs[i].queryKey == qs[i].metric
              && qs[i].categories == []
              && qs[i].modelID == modelID
    ensures forall i :: 0 <= i < |qs| ==> (qs[i].baselineID == "" || (baseline.Success? && qs[i].baselineID == baseline.value))
    decreases |metrics|
  {
    if |metrics| == 0 then []
    else
      var rest := CreateQueries(modelID, metrics[1..], baseline);
      if Queryable(metrics[0], baseline) then [QueryFor(modelID, metrics[0], baseline)] + rest else rest
  }

  /** Query building is the filter by `Queryable` followed by `QueryFor`, in metric order. */
  lemma {:induction false} CreateQueriesIsFilterMap(modelID: string, metrics: seq<Metric>, baseline: Result<string, ClientError>,
                                                    keep: Metric -> bool, toQuery: Metric -> Query)
    requires forall m :: keep(m) == Queryable(m, baseline)
    requires forall m :: toQuery(m) == QueryFor(modelID, m, baseline)
    ensures CreateQueries(modelID, metrics, baseline) == Seqs.Map(toQuery, Seqs.Filter(keep, metrics))
    decreases |metrics|
  {
    if |metrics| > 0 {
      CreateQueriesIsFilterMap(modelID, metrics[1..], baseline, keep, toQuery);
      if keep(metrics[0]) {
        Seqs.MapCons(toQuery, metrics[0], Seqs.Filter(keep, metrics[1..]));
      }
    }
  }

  /** When the baseline lookup fails or finds nothing, every baseline metric is skipped. */
  lemma NoBaselineSkipsBaselineMetrics(modelID: string, metrics: seq<Metric>, baseline: Result<string, ClientError>)
    requires baseline.Failure? || baseline.value == ""
    ensures forall i :: 0 <= i < |CreateQueries(modelID, metrics, baseline)| ==>
              CreateQueries(modelID, metrics, baseline)[i].baselineID == ""
  {
  }

  // ------------------------------------------------------------ collect

  /** The remote calls of one collection cycle, and the consumer. */
  datatype Api = Api(
    listModels: Result<seq<Model>, ClientError>,
    getMetrics: string -> Result<seq<Metric>, ClientError>,
    getBaseline: (string, string) -> Result<string, ClientError>,
    runQuery: QueryRequest -> Result<seq<QueryResult>, ClientError>,
    consume: seq<Resource> -> Option<string>)

  /**
   * What `collect` returns: the listing error itself, the "no models
   * available in Fiddler API" sentinel, or the consumer's error.
   */
  datatype CollectError = ListFailed(cause: ClientError) | NoModelsAvailable | ConsumeFailed(reason: string)

  /** The monitoring request for one model's queries. */
  function RequestFor(model: Model, queries: seq<Query>): (r: QueryRequest)
    ensures r.binSize == "Hour" && r.timeZone == "UTC" && r.queryType == "MONITORING"
    ensures r.projectID == model.project.id && r.queries == queries
  {
    QueryRequest(BinSizeString(DefaultBinSize), "UTC", model.project.id, "MONITORING", queries)
  }

  /** The queries `collect` builds for a model whose metrics were listed. */
  function ModelQueries(model: Model, metrics: seq<Metric>, enabled: seq<string>, api: Api): seq<Query> {
    CreateQueries(model.id, EnabledMetrics(metrics, enabled), api.getBaseline(model.id, DefaultBaselineName))
  }

  /** A model contributes a resource: its metrics were listed, some query was built, and the query ran. */
  predicate ModelEmits(model: Model, enabled: seq<string>, api: Api) {
    && api.getMetrics(model.id).Success?
    && |ModelQueries(model, api.getMetrics(model.id).value, enabled, api)| > 0
    && api.runQuery(RequestFor(model, ModelQueries(model, api.getMetrics(model.id).value, enabled, api))).Success?
  }

  /** The models that contribute a resource, in listing order. */
  function EmittingModels(models: seq<Model>, enabled: seq<string>, api: Api): seq<Model>
    decreases |models|
  {
    if |models| == 0 then []
    else EmittingModels(models[..|models| - 1], enabled, api) +
         (if ModelEmits(models[|models| - 1], enabled, api) then [models[|models| - 1]] else [])
  }

  /** The query results of an emitting model. */
  function ModelResults(model: Model, enabled: seq<string>, api: Api): seq<QueryResult>
    requires ModelEmits(model, enabled, api)
  {
    api.runQuery(RequestFor(model, ModelQueries(model, api.getMetrics(model.id).value, enabled, api))).value
  }

  /**
   * The resource an emitting model contributes when the builder's type map
   * was `typeMap` before it: the model's listed types are registered first,
   * then its query results become the gauges of one scope.
   */
  function ModelResource(typeMap: map<string, string>, model: Model, enabled: seq<string>, api: Api, parsers: Parsers): Resource
    requires ModelEmits(model, enabled, api)
  {
    Resource(FiddlerResourceAttrs(model.project.name),
             [Scope(ScopeName, ResultsFold([], ModelTypes(typeMap, model, api), model.project.name,
                                           ModelResults(model, enabled, api), parsers))])
  }

  /** The resources of the model loop: one per emitting model, in order, each built with the types registered so far. */
  function EmittedResources(models: seq<Model>, enabled: seq<string>, api: Api, parsers: Parsers): seq<Resource>
    decreases |models|
  {
    if |models| == 0 then []
    else
      var init := models[..|models| - 1];
      var last := models[|models| - 1];
      EmittedResources(init, enabled, api, parsers) +
      (if ModelEmits(last, enabled, api) then [ModelResource(ModelsTypes(map[], init, api), last, enabled, api, parsers)] else [])
  }

  /** The k-th emitted resource carries the project of the k-th emitting model. */
  lemma {:induction false} EmittedResourcesFollowModels(models: seq<Model>, enabled: seq<string>, api: Api, parsers: Parsers)
    ensures |EmittedResources(models, enabled, api, parsers)| == |EmittingModels(models, enabled, api)|
    ensures forall k :: 0 <= k < |EmittedResources(models, enabled, api, parsers)| ==>
              EmittedResources(models, enabled, api, parsers)[k].attrs ==
              FiddlerResourceAttrs(EmittingModels(models, enabled, api)[k].project.name)
    decreases |models|
  {
    if |models| > 0 {
      EmittedResourcesFollowModels(models[..|models| - 1], enabled, api, parsers);
    }
  }

  /** The type map after one model: its listed metrics registered, or unchanged when the listing failed. */
  function ModelTypes(typeMap: map<string, string>, model: Model, api: Api): map<string, string> {
    if api.getMetrics(model.id).Success? then Registered(typeMap, api.getMetrics(model.id).value) else typeMap
  }

  /** The type map after the models, in order. */
  function ModelsTypes(typeMap: map<string, string>, models: seq<Model>, api: Api): map<string, string>
    decreases |models|
  {
    if |models| == 0 then typeMap
    else ModelTypes(ModelsTypes(typeMap, models[..|models| - 1], api), models[|models| - 1], api)
  }

  /** Every metric listed for the model has its type registered. */
  predicate TypesRegistered(typeMap: map<string, string>, metrics: seq<Metric>) {
    forall k :: 0 <= k < |metrics| ==> metrics[k].id in typeMap
  }

  /** The resource is the fiddler resource of one of the models' projects. */
  predicate FromSomeModel(resource: Resource, models: seq<Model>) {
    exists j :: 0 <= j < |models| && resource.attrs == FiddlerResourceAttrs(models[j].project.name)
  }

  predicate ResourcesFromModels(resources: seq<Resource>, models: seq<Model>) {
    forall k :: 0 <= k < |resources| ==> FromSomeModel(resources[k], models)
  }

  /** Registered types stay registered when the type map only gains keys. */
  lemma TypesRegisteredGrow(small: map<string, string>, large: map<string, string>, metrics: seq<Metric>)
    requires small.Keys <= large.Keys
    ensures TypesRegistered(small, metrics) ==> TypesRegistered(large, metrics)
  {
  }

  /** The type of the last listed metric with the given id. */
  function LastTypeOf(metrics: seq<Metric>, id: string): (r: Option<string>)
    ensures r.Some? <==> exists k :: 0 <= k < |metrics| && metrics[k].id == id
    ensures r.Some? ==> exists k :: 0 <= k < |metrics| && metrics[k].id == id && metrics[k].metricType == r.value &&
                                    forall j :: k < j < |metrics| ==> metrics[j].id != id
    decreases |metrics|
  {
    if |metrics| == 0 then None
    else if metrics[|metrics| - 1].id == id then Some(metrics[|metrics| - 1].metricType)
    else
      assert forall k :: 0 <= k < |metrics| - 1 ==> metrics[..|metrics| - 1][k] == metrics[k];
      LastTypeOf(metrics[..|metrics| - 1], id)
  }

  /** The type map after registering `metrics` one by one, as the types loop of `collect` does. */
  function Registered(typeMap: map<string, string>, metrics: seq<Metric>): map<string, string>
    decreases |metrics|
  {
    if |metrics| == 0 then typeMap
    else Registered(typeMap, metrics[..|metrics| - 1])[metrics[|metrics| - 1].id := metrics[|metrics| - 1].metricType]
  }

  /**
   * Registration is last-write-wins: the keys grow by exactly the listed
   * ids, each listed id maps to the type of its last listing, and every
   * other key keeps its type.
   */
  lemma {:induction false} RegisteredLastWins(typeMap: map<string, string>, metrics: seq<Metric>)
    ensures Registered(typeMap, metrics).Keys == typeMap.Keys + set k | 0 <= k < |metrics| :: metrics[k].id
    ensures forall id :: LastTypeOf(metrics, id).Some? ==> Registered(typeMap, metrics)[id] == LastTypeOf(metrics, id).value
    ensures forall id :: id in typeMap && LastTypeOf(metrics, id).None? ==> Registered(typeMap, metrics)[id] == typeMap[id]
    decreases |metrics|
  {
    if |metrics| > 0 {
      var init := metrics[..|metrics| - 1];
      RegisteredLastWins(typeMap, init);
      assert forall k :: 0 <= k < |init| ==> init[k] == metrics[k];
      assert (set k | 0 <= k < |metrics| :: metrics[k].id) ==
             (set k | 0 <= k < |init| :: init[k].id) + {metrics[|metrics| - 1].id};
    }
  }

  /** The metric types loop of `collect`: every listed metric's type goes into the builder. */
  method RegisterTypes(b: MetricBuilder, metrics: seq<Metric>) returns (r: MetricBuilder)
    ensures r.resources == b.resources
    ensures r.typeMap == Registered(b.typeMap, metrics)
    ensures r.typeMap.Keys == b.typeMap.Keys + set k | 0 <= k < |metrics| :: metrics[k].id
    ensures forall id :: LastTypeOf(metrics, id).Some? ==> r.typeMap[id] == LastTypeOf(metrics, id).value
    ensures forall id :: id in b.typeMap && LastTypeOf(metrics, id).None? ==> r.typeMap[id] == b.typeMap[id]
    ensures TypesRegistered(r.typeMap, metrics)
  {
    r := b;
    var k := 0;
    while k < |metrics|
      invariant 0 <= k <= |metrics|
      invariant r.resources == b.resources
      invariant r.typeMap == Registered(b.typeMap, metrics[..k])
    {
      assert metrics[..k + 1][..k] == metrics[..k];
      r := AddMetricType(r, metrics[k].id, metrics[k].metricType);
      k := k + 1;
    }
    assert metrics[..k] == metrics;
    RegisteredLastWins(b.typeMap, metrics);
  }

  /**
   * One iteration of `collect`'s model loop: a model adds exactly one
   * resource, for its project, when it emits, and none otherwise.
   */
  method ProcessModel(b: MetricBuilder, model: Model, enabled: seq<string>, api: Api, parsers: Parsers)
    returns (r: MetricBuilder)
    ensures r.typeMap == ModelTypes(b.typeMap, model, api)
    ensures b.typeMap.Keys <= r.typeMap.Keys
    ensures api.getMetrics(model.id).Success? ==> TypesRegistered(r.typeMap, api.getMetrics(model.id).value)
    ensures |r.resources| == |b.resources| + (if ModelEmits(model, enabled, api) then 1 else 0)
    ensures r.resources[..|b.resources|] == b.resources
    ensures ModelEmits(model, enabled, api) ==> r.resources[|b.resources|].attrs == FiddlerResourceAttrs(model.project.name)
    ensures r.resources == b.resources + (if ModelEmits(model, enabled, api)
                                          then [ModelResource(b.typeMap, model, enabled, api, parsers)] else [])
    ensures ModelEmits(model, enabled, api) ==>
              var metrics := r.resources[|b.resources|].scopes[0].metrics;
              && ScopeInvariant(metrics, model.project.name)
              && Contents(metrics) == ResultsEmits(r.typeMap, model.project.name, ModelResults(model, enabled, api), parsers)
  {
    r := b;
    var listed := api.getMetrics(model.id);
    if listed.Failure? {
      return;
    }
    var metrics := listed.value;
    r := RegisterTypes(r, metrics);
    assert r.typeMap == ModelTypes(b.typeMap, model, api);
    var enabledMetrics := EnabledMetrics(metrics, enabled);
    if |enabledMetrics| == 0 {
      assert ModelQueries(model, metrics, enabled, api) == [];
      return;
    }
    var queries := CreateQueries(model.id, enabledMetrics, api.getBaseline(model.id, DefaultBaselineName));
    if |queries| == 0 {
      return;
    }
    assert queries == ModelQueries(model, metrics, enabled, api);
    var response := api.runQuery(RequestFor(model, queries));
    if response.Failure? {
      return;
    }
    assert ModelEmits(model, enabled, api) && response.value == ModelResults(model, enabled, api);
    r := AddDataPoints(r, model.project.name, response.value, parsers);
    assert r.resources[|b.resources|] == ModelResource(b.typeMap, model, enabled, api, parsers);
    assert r.resources == b.resources + [r.resources[|b.resources|]];
  }

  /** Growing the type map keeps the earlier models' types registered. */
  lemma TypesStayRegistered(small: map<string, string>, large: map<string, string>, models: seq<Model>, api: Api)
    requires small.Keys <= large.Keys
    requires forall j :: 0 <= j < |models| && api.getMetrics(models[j].id).Success? ==>
               TypesRegistered(small, api.getMetrics(models[j].id).value)
    ensures forall j :: 0 <= j < |models| && api.getMetrics(models[j].id).Success? ==>
              TypesRegistered(large, api.getMetrics(models[j].id).value)
  {
    forall j | 0 <= j < |models| && api.getMetrics(models[j].id).Success?
      ensures TypesRegistered(large, api.getMetrics(models[j].id).value)
    {
      TypesRegisteredGrow(small, large, api.getMetrics(models[j].id).value);
    }
  }

  /** Appending at most one resource for model `i`'s project keeps every resource traceable to a model. */
  lemma ResourcesStayFromModels(before: seq<Resource>, after: seq<Resource>, models: seq<Model>, i: nat)
    requires i < |models|
    requires ResourcesFromModels(before, models)
    requires |before| <= |after| <= |before| + 1 && after[..|before|] == before
    requires |after| > |before| ==> after[|before|].attrs == FiddlerResourceAttrs(models[i].project.name)
    ensures ResourcesFromModels(after, models)
  {
    forall k | 0 <= k < |after|
      ensures FromSomeModel(after[k], models)
    {
      if k < |before| {
        assert after[k] == after[..|before|][k] == before[k];
      } else {
        assert after[k].attrs == FiddlerResourceAttrs(models[i].project.name);
      }
    }
  }

  /**
   * `collect`: returns the builder it filled, what it handed to the consumer
   * (nothing when it stopped early) and the error it reports. A model whose
   * metrics cannot be listed, that has no enabled metric, no buildable query
   * or a failing query is skipped.
   */
  method Collect(api: Api, enabled: seq<string>, parsers: Parsers)
    returns (b: MetricBuilder, emitted: Option<seq<Resource>>, err: Option<CollectError>)
    ensures api.listModels.Failure? ==> emitted.None? && err == Some(ListFailed(api.listModels.error))
    ensures api.listModels == Success([]) ==> emitted.None? && err == Some(NoModelsAvailable)
    ensures api.listModels.Success? && |api.listModels.value| > 0 ==>
              var models := api.listModels.value;
              && emitted == Some(b.resources)
              && (api.consume(b.resources).None? ==> err.None?)
              && (api.consume(b.resources).Some? ==> err == Some(ConsumeFailed(api.consume(b.resources).value)))
              && b.typeMap == ModelsTypes(map[], models, api)
              && b.resources == EmittedResources(models, enabled, api, parsers)
              && |b.resources| == |EmittingModels(models, enabled, api)|
              && (forall k :: 0 <= k < |b.resources| ==>
                    b.resources[k].attrs == FiddlerResourceAttrs(EmittingModels(models, enabled, api)[k].project.name))
              && ResourcesFromModels(b.resources, models)
              && (forall j :: 0 <= j < |models| && api.getMetrics(models[j].id).Success? ==>
                    TypesRegistered(b.typeMap, api.getMetrics(models[j].id).value))
  {
    b := NewMetricBuilder;
    if api.listModels.Failure? {
      return b, None, Some(ListFailed(api.listModels.error));
    }
    var models := api.listModels.value;
    if |models| == 0 {
      return b, None, Some(NoModelsAvailable);
    }
    var i := 0;
    while i < |models|
      invariant 0 <= i <= |models|
      invariant b.typeMap == ModelsTypes(map[], models[..i], api)
      invariant b.resources == EmittedResources(models[..i], enabled, api, parsers)
      invariant ResourcesFromModels(b.resources, models)
      invariant forall j :: 0 <= j < i && api.getMetrics(models[j].id).Success? ==>
                  TypesRegistered(b.typeMap, api.getMetrics(models[j].id).value)
    {
      var next := ProcessModel(b, models[i], enabled, api, parsers);
      TypesStayRegistered(b.typeMap, next.typeMap, models[..i], api);
      ResourcesStayFromModels(b.resources, next.resources, models, i);
      assert models[..i + 1][..i] == models[..i];
      b := next;
      i := i + 1;
    }
    assert models[..i] == models;
    EmittedResourcesFollowModels(models, enabled, api, parsers);
    emitted := Some(b.resources);
    err := match api.consume(b.resources)
      case None => None
      case Some(reason) => Some(ConsumeFailed(reason));
  }
}
