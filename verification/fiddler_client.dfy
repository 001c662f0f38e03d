/**
 * The Fiddler API client: the record shapes it exchanges, option handling
 * and validation in `NewClient`, request composition and status handling in
 * `call`, and the pure selections inside `GetBaseline` and `GetMetrics`.
 * The transport and JSON decoding are parameters or left out.
 */
module FiddlerClient {
  import opened Wrappers
  import opened Strs
  import FiddlerConfig

  // ------------------------------------------------------------ record shapes

  datatype Project = Project(id: string, name: string)

  /** A model; `version` is the field the metric builder reads as the model version. */
  datatype Model = Model(id: string, name: string, version: string, project: Project)

  datatype Metric = Metric(
    id: string,
    metricType: string,
    columns: seq<string>,
    requiresCategories: bool,
    requiresBaseline: bool)

  datatype Column = Column(id: string, group: string)

  datatype Baseline = Baseline(id: string, name: string)

  datatype Query = Query(
    queryKey: string,
    categories: seq<string>,
    columns: seq<string>,
    vizType: string,
    metric: string,
    metricType: string,
    modelID: string,
    baselineID: string)

  /** A monitoring query request; the time range is formatted from the clock and is not modelled. */
  datatype QueryRequest = QueryRequest(
    binSize: string,
    timeZone: string,
    projectID: string,
    queryType: string,
    queries: seq<Query>)

  /** A decoded JSON value in a result row. */
  datatype Cell = Float(f: real) | Int(i: int) | Text(s: string) | OtherValue

  datatype QueryResult = QueryResult(
    model: Model,
    metric: string,
    columns: seq<string>,
    colNames: seq<string>,
    data: seq<seq<Cell>>)

  datatype ApiError = ApiError(statusCode: int, message: string, endpoint: string)

  datatype ClientError =
    | EndpointMissing
    | TokenMissing
    | Api(api: ApiError)
    | Transport(reason: string)

  // ------------------------------------------------------------ NewClient

  datatype ClientOption = WithEndpoint(endpoint: string) | WithToken(token: string) | WithTimeout(timeout: FiddlerConfig.Duration)

  datatype ClientConfig = ClientConfig(endpoint: string, token: string, timeout: FiddlerConfig.Duration)

  const DefaultClientTimeout: FiddlerConfig.Duration := 30 * FiddlerConfig.Second

  /** The configuration options start from: only the timeout has a default. */
  const InitialConfig := ClientConfig("", "", DefaultClientTimeout)

  function ApplyOption(c: ClientConfig, o: ClientOption): ClientConfig {
    match o
    case WithEndpoint(e) => c.(endpoint := e)
    case WithToken(t) => c.(token := t)
    case WithTimeout(d) => c.(timeout := d)
  }

  /** The options, applied in order. */
  function ApplyOptions(c: ClientConfig, opts: seq<ClientOption>): (r: ClientConfig)
    ensures r.endpoint == c.endpoint || WithEndpoint(r.endpoint) in opts
    ensures r.token == c.token || WithToken(r.token) in opts
    ensures r.timeout == c.timeout || WithTimeout(r.timeout) in opts
    ensures (forall i :: 0 <= i < |opts| ==> !opts[i].WithEndpoint?) ==> r.endpoint == c.endpoint
    ensures (forall i :: 0 <= i < |opts| ==> !opts[i].WithToken?) ==> r.token == c.token
    ensures (forall i :: 0 <= i < |opts| ==> !opts[i].WithTimeout?) ==> r.timeout == c.timeout
    decreases |opts|
  {
    if |opts| == 0 then c
    else
      assert opts == [opts[0]] + opts[1..];
      ApplyOptions(ApplyOption(c, opts[0]), opts[1..])
  }

  /** The value of the last `WithEndpoint` option, if any. */
  function LastEndpoint(opts: seq<ClientOption>): Option<string>
    decreases |opts|
  {
    if |opts| == 0 then None
    else if opts[|opts| - 1].WithEndpoint? then Some(opts[|opts| - 1].endpoint)
    else LastEndpoint(opts[..|opts| - 1])
  }

  function LastToken(opts: seq<ClientOption>): Option<string>
    decreases |opts|
  {
    if |opts| == 0 then None
    else if opts[|opts| - 1].WithToken? then Some(opts[|opts| - 1].token)
    else LastToken(opts[..|opts| - 1])
  }

  function LastTimeout(opts: seq<ClientOption>): Option<FiddlerConfig.Duration>
    decreases |opts|
  {
    if |opts| == 0 then None
    else if opts[|opts| - 1].WithTimeout? then Some(opts[|opts| - 1].timeout)
    else LastTimeout(opts[..|opts| - 1])
  }

  /** Applying options one at a time from the back agrees with applying them from the front. */
  lemma {:induction false} ApplyOptionsSnoc(c: ClientConfig, opts: seq<ClientOption>, o: ClientOption)
    ensures ApplyOptions(c, opts + [o]) == ApplyOption(ApplyOptions(c, opts), o)
    decreases |opts|
  {
    if |opts| == 0 {
      assert opts + [o] == [o];
      assert [o][1..] == [];
    } else {
      assert (opts + [o])[0] == opts[0];
      assert (opts + [o])[1..] == opts[1..] + [o];
      ApplyOptionsSnoc(ApplyOption(c, opts[0]), opts[1..], o);
    }
  }

  /** Options are applied in order, so each field holds the last value given for it. */
  lemma {:induction false} LastOptionWins(c: ClientConfig, opts: seq<ClientOption>)
    ensures ApplyOptions(c, opts).endpoint == LastEndpoint(opts).GetOr(c.endpoint)
    ensures ApplyOptions(c, opts).token == LastToken(opts).GetOr(c.token)
    ensures ApplyOptions(c, opts).timeout == LastTimeout(opts).GetOr(c.timeout)
    decreases |opts|
  {
    if |opts| > 0 {
      var init := opts[..|opts| - 1];
      var o := opts[|opts| - 1];
      assert opts == init + [o];
      ApplyOptionsSnoc(c, init, o);
      LastOptionWins(c, init);
    }
  }

  /** The client `NewClient` builds. */
  datatype HttpClient = HttpClient(endpoint: string, token: string, timeout: FiddlerConfig.Duration)

  /** `NewClient`: apply the options, require an endpoint and then a token, drop one trailing slash. */
  function NewClient(opts: seq<ClientOption>): (r: Result<HttpClient, ClientError>)
    ensures var cfg := ApplyOptions(InitialConfig, opts);
            && (r == Failure(EndpointMissing) <==> cfg.endpoint == "")
            && (r == Failure(TokenMissing) <==> cfg.endpoint != "" && cfg.token == "")
            && (r.Success? <==> cfg.endpoint != "" && cfg.token != "")
            && (r.Success? ==>
                  && r.value.token == cfg.token
                  && r.value.timeout == cfg.timeout
                  && (r.value.endpoint + "/" == cfg.endpoint ||
                      (r.value.endpoint == cfg.endpoint && !HasSuffix(cfg.endpoint, "/"))))
  {
    var cfg := ApplyOptions(InitialConfig, opts);
    if cfg.endpoint == "" then Failure(EndpointMissing)
    else if cfg.token == "" then Failure(TokenMissing)
    else Success(HttpClient(TrimSuffix(cfg.endpoint, "/"), cfg.token, cfg.timeout))
  }

  /** The client's fields follow the last option given for each, the timeout defaulting to 30 seconds. */
  lemma NewClientUsesLastOptions(opts: seq<ClientOption>)
    requires NewClient(opts).Success?
    ensures LastToken(opts) == Some(NewClient(opts).value.token)
    ensures NewClient(opts).value.timeout == LastTimeout(opts).GetOr(DefaultClientTimeout)
    ensures LastEndpoint(opts).Some?
    ensures NewClient(opts).value.endpoint == TrimSuffix(LastEndpoint(opts).value, "/")
  {
    LastOptionWins(InitialConfig, opts);
  }

  // ------------------------------------------------------------ call

  datatype HttpRequest = HttpRequest(httpMethod: string, url: string, headers: map<string, string>, body: Option<string>)

  datatype HttpResponse = HttpResponse(statusCode: int, body: string)

  const StatusOK := 200

  /** The request `call` sends for `path` with an already-marshalled body. */
  function BuildRequest(c: HttpClient, httpMethod: string, path: string, body: Option<string>): (r: HttpRequest)
    ensures r.headers.Keys == {"Authorization", "Content-Type"}
    ensures r.headers["Authorization"] == "Bearer " + c.token
    ensures r.headers["Content-Type"] == "application/json"
    ensures |r.url| == |c.endpoint| + 1 + |path| && r.url[..|c.endpoint|] == c.endpoint && r.url[|c.endpoint|..] == "/" + path
    ensures r.httpMethod == httpMethod && r.body == body
  {
    HttpRequest(httpMethod, c.endpoint + "/" + path,
                map["Authorization" := "Bearer " + c.token, "Content-Type" := "application/json"], body)
  }

  /** An endpoint given with one trailing slash does not produce a double slash in request URLs. */
  lemma UrlKeepsOneSlash(opts: seq<ClientOption>, httpMethod: string, path: string)
    requires NewClient(opts).Success?
    requires HasSuffix(ApplyOptions(InitialConfig, opts).endpoint, "/")
    ensures BuildRequest(NewClient(opts).value, httpMethod, path, None).url ==
            ApplyOptions(InitialConfig, opts).endpoint + path
  {
    var e := ApplyOptions(InitialConfig, opts).endpoint;
    var c := NewClient(opts).value;
    assert c.endpoint + "/" == e;
    assert c.endpoint + "/" + path == (c.endpoint + "/") + path;
  }

  /**
   * `call`: send the request through `send` (the HTTP transport); any status
   * other than 200 becomes an `APIError` carrying status, body and path.
   */
  function Call(c: HttpClient, httpMethod: string, path: string, body: Option<string>,
                send: HttpRequest -> Result<HttpResponse, string>): (r: Result<HttpResponse, ClientError>)
    ensures r.Success? ==> r.value.statusCode == StatusOK
    ensures send(BuildRequest(c, httpMethod, path, body)).Failure? ==> r.Failure? && r.error.Transport?
    ensures send(BuildRequest(c, httpMethod, path, body)).Success? ==>
              var resp := send(BuildRequest(c, httpMethod, path, body)).value;
              if resp.statusCode == StatusOK then r == Success(resp)
              else r == Failure(Api(ApiError(resp.statusCode, resp.body, path)))
  {
    match send(BuildRequest(c, httpMethod, path, body))
    case Failure(reason) => Failure(Transport(reason))
    case Success(resp) =>
      if resp.statusCode != StatusOK then Failure(Api(ApiError(resp.statusCode, resp.body, path)))
      else Success(resp)
  }

  // ------------------------------------------------------------ GetBaseline

  /** Index of the first baseline called `name`. */
  function FirstNamed(items: seq<Baseline>, name: string): (r: Option<nat>)
    ensures r.Some? ==> r.value < |items| && items[r.value].name == name &&
                        forall j :: 0 <= j < r.value ==> items[j].name != name
    ensures r.None? ==> forall j :: 0 <= j < |items| ==> items[j].name != name
    decreases |items|
  {
    if |items| == 0 then None
    else if items[0].name == name then Some(0)
    else match FirstNamed(items[1..], name)
      case None => None
      case Some(k) => Some(k + 1)
  }

  /**
   * The selection in `GetBaseline` over the decoded baseline list: the first
   * baseline with the requested name, else the first baseline, else "".
   */
  method SelectBaseline(items: seq<Baseline>, name: string) returns (id: string)
    ensures FirstNamed(items, name).Some? ==> id == items[FirstNamed(items, name).value].id
    ensures FirstNamed(items, name).None? && |items| > 0 ==> id == items[0].id
    ensures |items| == 0 ==> id == ""
  {
    var i := 0;
    while i < |items|
      invariant 0 <= i <= |items|
      invariant forall j :: 0 <= j < i ==> items[j].name != name
    {
      if items[i].name == name {
        return items[i].id;
      }
      i := i + 1;
    }
    if |items| > 0 {
      return items[0].id;
    }
    return "";
  }

  /** `GetBaseline` once the call and decoding have produced the baseline list or an error. */
  method GetBaseline(fetched: Result<seq<Baseline>, ClientError>, name: string) returns (r: Result<string, ClientError>)
    ensures fetched.Failure? ==> r == Failure(fetched.error)
    ensures fetched.Success? && |fetched.value| == 0 ==> r == Success("")
    ensures fetched.Success? && FirstNamed(fetched.value, name).Some? ==>
              r == Success(fetched.value[FirstNamed(fetched.value, name).value].id)
    ensures fetched.Success? && FirstNamed(fetched.value, name).None? && |fetched.value| > 0 ==>
              r == Success(fetched.value[0].id)
  {
    if fetched.Failure? {
      return Failure(fetched.error);
    }
    var id := SelectBaseline(fetched.value, name);
    return Success(id);
  }

  // ------------------------------------------------------------ GetMetrics

  /** The ids of the columns in the "Outputs" group, in order. */
  function OutputColumns(cols: seq<Column>): (ids: seq<string>)
    ensures |ids| <= |cols|
    ensures forall i :: 0 <= i < |ids| ==> exists j :: 0 <= j < |cols| && cols[j].group == "Outputs" && cols[j].id == ids[i]
    ensures forall j :: 0 <= j < |cols| && cols[j].group == "Outputs" ==> cols[j].id in ids
    decreases |cols|
  {
    if |cols| == 0 then []
    else
      var rest := OutputColumns(cols[1..]);
      if cols[0].group == "Outputs" then [cols[0].id] + rest else rest
  }

  /** Output selection distributes over concatenation, so it keeps the input order. */
  lemma {:induction false} OutputColumnsAppend(a: seq<Column>, b: seq<Column>)
    ensures OutputColumns(a + b) == OutputColumns(a) + OutputColumns(b)
    decreases |a|
  {
    if |a| == 0 {
      assert a + b == b;
    } else {
      assert (a + b)[0] == a[0];
      assert (a + b)[1..] == a[1..] + b;
      OutputColumnsAppend(a[1..], b);
    }
  }
}
