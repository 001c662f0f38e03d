/**
 * Configuration of the Fiddler receiver and its validation. Durations are
 * Go `time.Duration` values: signed nanosecond counts (int64 overflow is not
 * modelled).
 */
module FiddlerConfig {
  import opened Wrappers

  type Duration = int

  const Second: Duration := 1_000_000_000
  const Minute: Duration := 60 * Second
  const Hour: Duration := 60 * Minute

  const DefaultEndpoint := "localhost:8080"
  const DefaultAuthToken := ""
  const DefaultTimeout: Duration := 5 * Minute
  const DefaultInterval: Duration := 30 * Minute
  const MinimumInterval: Duration := 5 * Minute

  datatype Config = Config(
    endpoint: string,
    token: string,
    timeout: Duration,
    interval: Duration,
    enabledMetrics: seq<string>)

  datatype ConfigError = EndpointMissing | TokenMissing | IntervalTooShort | TimeoutNotPositive {
    function Message(): string {
      match this
      case EndpointMissing => "endpoint must be specified"
      case TokenMissing => "token must be specified"
      case IntervalTooShort => "interval must be at least 5 minutes"
      case TimeoutNotPositive => "timeout must be greater than 0"
    }
  }

  /** What `Validate` leaves behind: the (possibly defaulted) config and the error it returned. */
  datatype Validated = Validated(config: Config, error: Option<ConfigError>)

  /**
   * `Config.Validate`. The only mutation it makes is to default a zero
   * interval to 30 minutes, and it returns straight after doing so, without
   * looking at the timeout.
   */
  function Validate(c: Config): (r: Validated)
    // only the interval may change, and only from 0 to the default
    ensures r.config == c || (c.interval == 0 && r.config == c.(interval := DefaultInterval))
    ensures r.config != c ==> r.error == None
    // error precedence: endpoint, then token, then interval, then timeout
    ensures r.error == Some(EndpointMissing) <==> c.endpoint == ""
    ensures r.error == Some(TokenMissing) <==> c.endpoint != "" && c.token == ""
    ensures r.error == Some(IntervalTooShort) <==>
              c.endpoint != "" && c.token != "" && c.interval != 0 && c.interval < MinimumInterval
    ensures r.error == Some(TimeoutNotPositive) <==>
              c.endpoint != "" && c.token != "" && c.interval >= MinimumInterval && c.timeout <= 0
    // an accepted config always ends up with a usable collection interval
    ensures r.error == None ==> r.config.interval >= MinimumInterval && r.config.endpoint != "" && r.config.token != ""
  {
    if c.endpoint == "" then Validated(c, Some(EndpointMissing))
    else if c.token == "" then Validated(c, Some(TokenMissing))
    else if c.interval == 0 then Validated(c.(interval := DefaultInterval), None)
    else if c.interval < MinimumInterval then Validated(c, Some(IntervalTooShort))
    else if c.timeout <= 0 then Validated(c, Some(TimeoutNotPositive))
    else Validated(c, None)
  }

  /** With a positive timeout, validating twice is validating once. */
  lemma ValidateIdempotent(c: Config)
    requires c.timeout > 0
    ensures Validate(Validate(c).config) == Validate(c)
  {
  }

  /**
   * The defaulting path skips the timeout check, so a config it accepts with
   * a non-positive timeout is rejected when validated again.
   */
  lemma RevalidationAfterDefaultFails(c: Config)
    requires c.endpoint != "" && c.token != "" && c.interval == 0 && c.timeout <= 0
    ensures Validate(c).error == None
    ensures Validate(Validate(c).config).error == Some(TimeoutNotPositive)
  {
  }
  /** A concrete config the as-written validation accepts although its timeout is zero. */
  lemma ZeroIntervalAcceptsZeroTimeout()
    ensures var c := Config("https://app.fiddler.ai", "test-token", 0, 0, []);
            Validate(c).error == None && Validate(c).config.timeout == 0
  {
  }

  /**
   * Validation as evidently intended: a zero interval is
   * defaulted and the remaining checks, the timeout among them, still run.
   */
  function ValidateChecked(c: Config): (r: Validated)
    ensures r.config == c || (c.interval == 0 && r.config == c.(interval := DefaultInterval))
    ensures r.error == Some(EndpointMissing) <==> c.endpoint == ""
    ensures r.error == Some(TokenMissing) <==> c.endpoint != "" && c.token == ""
    ensures r.error == Some(IntervalTooShort) <==>
              c.endpoint != "" && c.token != "" && c.interval != 0 && c.interval < MinimumInterval
    ensures r.error == Some(TimeoutNotPositive) <==>
              c.endpoint != "" && c.token != "" && (c.interval == 0 || c.interval >= MinimumInterval) && c.timeout <= 0
    ensures r.error == None ==> r.config.interval >= MinimumInterval && r.config.timeout > 0
  {
    var d := if c.interval == 0 then c.(interval := DefaultInterval) else c;
    if d.endpoint == "" then Validated(c, Some(EndpointMissing))
    else if d.token == "" then Validated(c, Some(TokenMissing))
    else if d.interval < MinimumInterval then Validated(c, Some(IntervalTooShort))
    else if d.timeout <= 0 then Validated(d, Some(TimeoutNotPositive))
    else Validated(d, None)
  }

  /** The corrected validation is stable: validating its result again gives the same verdict. */
  lemma ValidateCheckedIdempotent(c: Config)
    ensures ValidateChecked(ValidateChecked(c).config).error == ValidateChecked(c).error
    ensures ValidateChecked(ValidateChecked(c).config).config == ValidateChecked(c).config
  {
  }

  /** The two validations differ only on zero-interval configs with a non-positive timeout. */
  lemma ValidateCheckedAgrees(c: Config)
    ensures ValidateChecked(c).error == Validate(c).error <==>
              !(c.endpoint != "" && c.token != "" && c.interval == 0 && c.timeout <= 0)
    ensures c.timeout > 0 ==> ValidateChecked(c) == Validate(c)
  {
  }
}
