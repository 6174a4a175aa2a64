/** The `Configuration` class: a string-keyed dictionary of settings merged
    from a caller's dictionary, a default endpoint argument and `ATEL_*`
    environment variables, the parsed endpoints kept beside it, the setters
    that write single keys, and the getters that fall back from a signal's
    own key to the default one (config.py:22-642). */
module Config {
  import opened Wrappers
  import opened Text
  import Endpoint

  /** A value in the configuration dictionary. Environment variables and
      normalised endpoints are strings; a caller's dictionary may hold
      anything, and `VOther` stands for every other Python type. */
  datatype CValue = VStr(s: string) | VInt(i: int) | VBool(b: bool) | VNone | VOther

  const DefaultEndpointName := "default_endpoint"
  const LoggingEndpointName := "logging_endpoint"
  const TracingEndpointName := "tracing_endpoint"
  const MetricsEndpointName := "metrics_endpoint"
  const UseConsoleExporterName := "use_console_exporter"
  const DefaultAuthTokenName := "default_auth_token"
  const LoggingAuthTokenName := "logging_auth_token"
  const TracingAuthTokenName := "tracing_auth_token"
  const MetricsAuthTokenName := "metrics_auth_token"
  const MetricsExportIntervalName := "metrics_export_interval_ms"
  const LoggingLevelName := "logging_level"
  const SessionEntropyName := "session_entropy_value"
  const DefaultCaCertName := "default_credentials"
  const LoggingCaCertName := "logging_credentials"
  const TracingCaCertName := "tracing_credentials"
  const MetricsCaCertName := "metrics_credentials"
  const SkipInternetCheckName := "skip_internet_check"

  /** Every key an environment variable can set. */
  const BaseNames: seq<string> := [
    DefaultEndpointName, LoggingEndpointName, TracingEndpointName, MetricsEndpointName,
    UseConsoleExporterName,
    DefaultAuthTokenName, LoggingAuthTokenName, TracingAuthTokenName, MetricsAuthTokenName,
    MetricsExportIntervalName, LoggingLevelName, SessionEntropyName,
    DefaultCaCertName, LoggingCaCertName, TracingCaCertName, MetricsCaCertName,
    SkipInternetCheckName]

  const EndpointNames: seq<string> := [DefaultEndpointName, LoggingEndpointName, TracingEndpointName, MetricsEndpointName]

  /** The spellings a string setting must have, after lower-casing and
      stripping, to count as true. */
  const TruthyWords: seq<string> := ["true", "yes", "1", "on"]

  /** The level names `set_logging_level` accepts. */
  const LoggingLevels: seq<string> := ["debug", "info", "warn", "warning", "error", "fatal", "critical"]

  const DefaultLoggingLevel := "warning"
  const DefaultExportIntervalMs := 60000

  /** The three signals a per-signal key exists for. */
  datatype Signal = Logging | Tracing | Metrics

  function EndpointKey(sig: Signal): string {
    match sig
    case Logging => LoggingEndpointName
    case Tracing => TracingEndpointName
    case Metrics => MetricsEndpointName
  }

  function AuthTokenKey(sig: Signal): string {
    match sig
    case Logging => LoggingAuthTokenName
    case Tracing => TracingAuthTokenName
    case Metrics => MetricsAuthTokenName
  }

  function CaCertKey(sig: Signal): string {
    match sig
    case Logging => LoggingCaCertName
    case Tracing => TracingCaCertName
    case Metrics => MetricsCaCertName
  }

  /** Each signal has keys of its own, apart from the default keys. */
  lemma SignalKeysDistinct()
    ensures forall a: Signal, b: Signal :: a != b ==> AuthTokenKey(a) != AuthTokenKey(b) && CaCertKey(a) != CaCertKey(b)
    ensures forall a: Signal :: AuthTokenKey(a) != DefaultAuthTokenName && CaCertKey(a) != DefaultCaCertName
  {
    forall a: Signal, b: Signal | a != b
      ensures AuthTokenKey(a) != AuthTokenKey(b) && CaCertKey(a) != CaCertKey(b)
    {
      assert AuthTokenKey(a)[0] != AuthTokenKey(b)[0];
      assert CaCertKey(a)[0] != CaCertKey(b)[0];
    }
    forall a: Signal
      ensures AuthTokenKey(a) != DefaultAuthTokenName && CaCertKey(a) != DefaultCaCertName
    {
      assert AuthTokenKey(a)[0] != DefaultAuthTokenName[0];
      assert CaCertKey(a)[0] != DefaultCaCertName[0];
    }
  }

  /** The OTLP/HTTP request path segment after `v1/`. */
  function PathName(sig: Signal): string {
    match sig
    case Logging => "logs"
    case Tracing => "traces"
    case Metrics => "metrics"
  }

  /** The exceptions the class raises. */
  datatype ConfigError =
    | InvalidEndpoint(endpoint: string)         // ValueError from the endpoint class
    | EndpointNotAString(name: string)          // TypeError: the pattern is applied to a non-string
    | MissingDefaultEndpoint                    // ValueError: no default endpoint anywhere
    | InvalidIntValue(name: string, value: string)  // ValueError: `int()` refused the string
    | MissingKey(name: string)                  // KeyError
    | EmptyEndpoint                             // IndexError: `endpoint[-1]` on ""
    | NotAString                                // AttributeError: `endswith` on a non-string
    | FileNotFound(path: string)                // OSError from `open`
    | NotAPath                                  // TypeError: `open` on something that is not a path

  /** The object's state: `_config` and `_endpoints`. */
  datatype Configuration = Configuration(values: map<string, CValue>, endpoints: map<string, Endpoint.ValidEndpoint>)
  {
    /** What construction establishes and every setter keeps: the default
        endpoint exists, every endpoint key present in the dictionary holds
        the normalised URL of a parsed endpoint, and nothing else is parsed. */
    predicate Wellformed() {
      && DefaultEndpointName in endpoints
      && (forall n :: n in endpoints ==>
            && n in EndpointNames
            && n in values
            && values[n] == VStr(endpoints[n].url))
      && (forall n :: n in EndpointNames && n in values ==> n in endpoints)
    }
  }

  /** `b` holds the same endpoints and settings as `a`, except perhaps
      under `name`. */
  ghost predicate AgreesBut(a: Configuration, b: Configuration, name: string) {
    && a.endpoints == b.endpoints
    && (forall k :: k != name ==> (k in a.values <==> k in b.values))
    && (forall k :: k != name && k in a.values ==> a.values[k] == b.values[k])
  }

  /** Python's `bool(v)`: `None`, `False`, `0` and `""` are false; a value
      of another type counts as true. */
  predicate Truth(v: CValue) {
    match v
    case VStr(s) => s != ""
    case VInt(i) => i != 0
    case VBool(b) => b
    case VNone => false
    case VOther => true
  }

  /** `d.get(k, default)` */
  function Lookup(m: map<string, CValue>, k: string, default: CValue): CValue {
    if k in m then m[k] else default
  }

  // ---------------------------------------------------------------------
  // Construction
  // ---------------------------------------------------------------------

  /** The environment variable that overrides a key: `ATEL_` and the key in
      upper case. */
  function EnvName(name: string): string { "ATEL_" + Upper(name) }

  /** The string counts as true: lower-cased and stripped, it is one of the
      truthy words. Stripping first is the same (`Text.StripLower`). */
  predicate IsTruthy(s: string) { Lower(Strip(s)) in TruthyWords }

  /** Each listed key whose environment variable is set takes the variable's
      stripped value; everything else is kept. */
  function MergeEnv(values: map<string, CValue>, env: map<string, string>, names: seq<string>): (r: map<string, CValue>)
    ensures forall k :: k in r <==> k in values || (k in names && EnvName(k) in env)
    ensures forall k :: k in r ==>
              r[k] == if k in names && EnvName(k) in env then VStr(Strip(env[EnvName(k)])) else values[k]
    decreases |names|
  {
    if |names| == 0 then values
    else
      var n := names[0];
      var next := if EnvName(n) in env then values[n := VStr(Strip(env[EnvName(n)]))] else values;
      MergeEnv(next, env, names[1..])
  }

  /** The dictionary as it stands before normalisation: the caller's
      dictionary, then the default endpoint argument (normalised), then the
      environment. */
  function Merged(defaultEndpoint: Option<string>, dict: map<string, CValue>, env: map<string, string>): (r: Result<map<string, CValue>, ConfigError>)
    ensures defaultEndpoint.Some? && Endpoint.Parse(defaultEndpoint.value).Failure? ==>
              r == Failure(InvalidEndpoint(defaultEndpoint.value))
    ensures r.Success? ==> forall k :: k in r.value <==>
              k in dict || (k in BaseNames && EnvName(k) in env) || (k == DefaultEndpointName && defaultEndpoint.Some?)
  {
    match defaultEndpoint
    case None => Success(MergeEnv(dict, env, BaseNames))
    case Some(d) =>
      match Endpoint.Parse(d)
      case Failure(_) => Failure(InvalidEndpoint(d))
      case Success(e) => Success(MergeEnv(dict[DefaultEndpointName := VStr(e.url)], env, BaseNames))
  }

  /** An endpoint value the loop over endpoint names can parse. */
  predicate Parses(v: CValue) { v.VStr? && Endpoint.Parse(v.s).Success? }

  /** The loop over endpoint names keeps the dictionary's keys and records
      an endpoint for each listed key present. */
  ghost predicate NormalisedKeys(values: map<string, CValue>, endpoints: map<string, Endpoint.ValidEndpoint>, names: seq<string>,
                                 values': map<string, CValue>, endpoints': map<string, Endpoint.ValidEndpoint>) {
    && (forall k :: k in values' <==> k in values)
    && (forall k :: k in endpoints' <==> k in endpoints || (k in names && k in values))
  }

  /** The loop leaves every key it does not list as it was. */
  ghost predicate NormalisedFrame(values: map<string, CValue>, endpoints: map<string, Endpoint.ValidEndpoint>, names: seq<string>,
                                  values': map<string, CValue>, endpoints': map<string, Endpoint.ValidEndpoint>) {
    && (forall k :: k in values && k in values' && k !in names ==> values'[k] == values[k])
    && (forall k :: k in endpoints && k in endpoints' && k !in names ==> endpoints'[k] == endpoints[k])
  }

  /** Each listed key present ends holding the URL of its endpoint. */
  ghost predicate NormalisedUrls(values: map<string, CValue>, names: seq<string>,
                                 values': map<string, CValue>, endpoints': map<string, Endpoint.ValidEndpoint>) {
    forall k :: k in names && k in values && k in values' && k in endpoints' ==> values'[k] == VStr(endpoints'[k].url)
  }

  /** One round of the loop, for each of the three facts: storing the
      first name's endpoint and normalising the rest normalises the whole
      list. */
  lemma KeysStep(values: map<string, CValue>, endpoints: map<string, Endpoint.ValidEndpoint>, names: seq<string>,
                 e: Endpoint.ValidEndpoint, values': map<string, CValue>, endpoints': map<string, Endpoint.ValidEndpoint>)
    requires |names| > 0 && names[0] in values
    requires NormalisedKeys(values[names[0] := VStr(e.url)], endpoints[names[0] := e], names[1..], values', endpoints')
    ensures NormalisedKeys(values, endpoints, names, values', endpoints')
  {
  }

  lemma FrameStep(values: map<string, CValue>, endpoints: map<string, Endpoint.ValidEndpoint>, names: seq<string>,
                  e: Endpoint.ValidEndpoint, values': map<string, CValue>, endpoints': map<string, Endpoint.ValidEndpoint>)
    requires |names| > 0 && names[0] in values
    requires NormalisedFrame(values[names[0] := VStr(e.url)], endpoints[names[0] := e], names[1..], values', endpoints')
    ensures NormalisedFrame(values, endpoints, names, values', endpoints')
  {
  }

  lemma UrlsStep(values: map<string, CValue>, endpoints: map<string, Endpoint.ValidEndpoint>, names: seq<string>,
                 e: Endpoint.ValidEndpoint, values': map<string, CValue>, endpoints': map<string, Endpoint.ValidEndpoint>)
    requires |names| > 0 && names[0] in values
    requires NormalisedFrame(values[names[0] := VStr(e.url)], endpoints[names[0] := e], names[1..], values', endpoints')
    requires NormalisedUrls(values[names[0] := VStr(e.url)], names[1..], values', endpoints')
    ensures NormalisedUrls(values, names, values', endpoints')
  {
  }

  /** The loop over endpoint names: parse each one present and store the
      normalised URL back; the first value that is not a string, or does not
      parse, raises. */
  function NormaliseEndpoints(values: map<string, CValue>, endpoints: map<string, Endpoint.ValidEndpoint>, names: seq<string>)
    : (r: Result<(map<string, CValue>, map<string, Endpoint.ValidEndpoint>), ConfigError>)
    ensures r.Success? ==> NormalisedKeys(values, endpoints, names, r.value.0, r.value.1)
    ensures r.Success? ==> NormalisedFrame(values, endpoints, names, r.value.0, r.value.1)
    ensures r.Success? ==> NormalisedUrls(values, names, r.value.0, r.value.1)
    ensures r.Failure? ==> r.error.InvalidEndpoint? || r.error.EndpointNotAString?
    decreases |names|
  {
    if |names| == 0 then Success((values, endpoints))
    else
      var n := names[0];
      if n !in values then
        var r := NormaliseEndpoints(values, endpoints, names[1..]);
        r
      else
        match values[n]
        case VStr(s) =>
          (match Endpoint.Parse(s)
           case Failure(_) => Failure(InvalidEndpoint(s))
           case Success(e) =>
             var r := NormaliseEndpoints(values[n := VStr(e.url)], endpoints[n := e], names[1..]);
             if r.Success? then
               KeysStep(values, endpoints, names, e, r.value.0, r.value.1);
               FrameStep(values, endpoints, names, e, r.value.0, r.value.1);
               UrlsStep(values, endpoints, names, e, r.value.0, r.value.1);
               r
             else r)
        case _ => Failure(EndpointNotAString(n))
  }

  /** A string-valued boolean setting becomes `True` or `False`. */
  function NormaliseBool(values: map<string, CValue>, name: string): (r: map<string, CValue>)
    ensures forall k :: k in r <==> k in values
    ensures forall k :: k in values && k != name ==> r[k] == values[k]
    ensures name in values && values[name].VStr? ==> r[name] == VBool(IsTruthy(values[name].s))
    ensures name in values && !values[name].VStr? ==> r[name] == values[name]
  {
    if name in values && values[name].VStr? then values[name := VBool(IsTruthy(values[name].s))] else values
  }

  /** `OTEL_SDK_DISABLED` is set to a truthy word and the environment
      variable named `guard` is not set. */
  predicate SkipForced(env: map<string, string>, guard: string) {
    var disabled := if "OTEL_SDK_DISABLED" in env then env["OTEL_SDK_DISABLED"] else "";
    IsTruthy(disabled) && guard !in env
  }

  /** When `SkipForced`, the internet check is switched off (skipped). */
  function SdkDisabledOverride(values: map<string, CValue>, env: map<string, string>, guard: string): (r: map<string, CValue>)
    ensures forall k :: k in r <==> k in values || (k == SkipInternetCheckName && SkipForced(env, guard))
    ensures forall k :: k in values && k != SkipInternetCheckName ==> r[k] == values[k]
  {
    if SkipForced(env, guard) then values[SkipInternetCheckName := VBool(true)] else values
  }

  /** `a` has the keys of `b` and agrees with it except under `name`. */
  ghost predicate SameBut(a: map<string, CValue>, b: map<string, CValue>, name: string) {
    forall k :: (k in a <==> k in b) && (k in b && k != name ==> a[k] == b[k])
  }

  /** `values` with the value under `name` replaced by `v`. */
  function Replace(values: map<string, CValue>, name: string, v: CValue): (r: map<string, CValue>)
    requires name in values
    ensures SameBut(r, values, name) && name in r && r[name] == v
  {
    values[name := v]
  }

  /** A string-valued interval becomes an integer, or raises. */
  function NormaliseInt(values: map<string, CValue>, name: string): (r: Result<map<string, CValue>, ConfigError>)
    ensures r.Success? ==> SameBut(r.value, values, name)
    ensures name in values && values[name].VStr? ==>
              (r.Success? <==> PyInt(Strip(values[name].s)).Some?)
              && (r.Success? ==> r.value[name] == VInt(PyInt(Strip(values[name].s)).value))
              && (r.Failure? ==> r.error == InvalidIntValue(name, values[name].s))
    ensures !(name in values && values[name].VStr?) ==> r == Success(values)
  {
    if name in values && values[name].VStr? then
      var s := values[name].s;
      var n := PyInt(Strip(s));
      if n.Some? then Success(Replace(values, name, VInt(n.value))) else Failure(InvalidIntValue(name, s))
    else Success(values)
  }

  /** The keys normalised after the endpoints are not endpoint keys. */
  lemma EndpointNamesDistinct()
    ensures forall k :: k in EndpointNames ==>
              k != UseConsoleExporterName && k != SkipInternetCheckName && k != MetricsExportIntervalName
  {
  }

  /** The environment variable whose presence stops `OTEL_SDK_DISABLED` from
      forcing the internet check off, as the source spells it: the bare key
      `skip_internet_check`, which is never the name of an `ATEL_` variable. */
  const SdkGuardAsWritten := SkipInternetCheckName

  /** The guard evidently intended: the key's own `ATEL_` variable. */
  const SdkGuard := EnvName(SkipInternetCheckName)

  /** The two boolean settings and the `OTEL_SDK_DISABLED` override, which
      applies unless the environment variable `guard` is set. */
  function Flags(values: map<string, CValue>, env: map<string, string>, guard: string): (r: map<string, CValue>)
    ensures forall k :: k in r <==> k in values || (k == SkipInternetCheckName && SkipForced(env, guard))
    ensures forall k :: (k in values && k != UseConsoleExporterName && k != SkipInternetCheckName) ==>
              r[k] == values[k]
    ensures var u := UseConsoleExporterName;
            u in values && values[u].VStr? ==> r[u] == VBool(IsTruthy(values[u].s))
    ensures var k := SkipInternetCheckName;
            SkipForced(env, guard) ==> r[k] == VBool(true)
    ensures var k := SkipInternetCheckName;
            !SkipForced(env, guard) && k in values && values[k].VStr? ==> r[k] == VBool(IsTruthy(values[k].s))
  {
    SdkDisabledOverride(NormaliseBool(NormaliseBool(values, UseConsoleExporterName), SkipInternetCheckName), env, guard)
  }

  /** The conversions after the endpoints: the flags, then the interval. */
  function Settings(values: map<string, CValue>, env: map<string, string>, guard: string): (r: Result<map<string, CValue>, ConfigError>)
    ensures r.Success? ==> forall k :: k in r.value <==> k in values || (k == SkipInternetCheckName && SkipForced(env, guard))
    ensures r.Success? ==> forall k ::
              (k in values && k != UseConsoleExporterName && k != SkipInternetCheckName && k != MetricsExportIntervalName) ==>
              r.value[k] == values[k]
    ensures var i := MetricsExportIntervalName;
            r.Success? <==> (i in values && values[i].VStr? ==> PyInt(Strip(values[i].s)).Some?)
    ensures var i := MetricsExportIntervalName;
            r.Failure? ==> r.error == InvalidIntValue(i, values[i].s)
    ensures var i := MetricsExportIntervalName;
            r.Success? && i in values && values[i].VStr? ==> r.value[i] == VInt(PyInt(Strip(values[i].s)).value)
    ensures var u := UseConsoleExporterName;
            r.Success? && u in values && values[u].VStr? ==> r.value[u] == VBool(IsTruthy(values[u].s))
    ensures var k := SkipInternetCheckName;
            r.Success? && SkipForced(env, guard) ==> r.value[k] == VBool(true)
    ensures var k := SkipInternetCheckName;
            r.Success? && !SkipForced(env, guard) && k in values && values[k].VStr? ==>
              r.value[k] == VBool(IsTruthy(values[k].s))
  {
    var flags := Flags(values, env, guard);
    assert MetricsExportIntervalName in values ==> flags[MetricsExportIntervalName] == values[MetricsExportIntervalName];
    NormaliseInt(flags, MetricsExportIntervalName)
  }

  /** The constructor's checks and conversions on the merged dictionary,
      with the `OTEL_SDK_DISABLED` guard as a parameter: the default endpoint
      must be present, endpoints are parsed and normalised, then the other
      settings are converted. */
  function NormaliseWith(raw: map<string, CValue>, env: map<string, string>, guard: string): (r: Result<Configuration, ConfigError>)
    ensures r.Success? ==> r.value.Wellformed()
    ensures r == Failure(MissingDefaultEndpoint) <==> DefaultEndpointName !in raw
    ensures var pair := NormaliseEndpoints(raw, map[], EndpointNames);
            r.Success? <==> DefaultEndpointName in raw && pair.Success? && Settings(pair.value.0, env, guard).Success?
    ensures var pair := NormaliseEndpoints(raw, map[], EndpointNames);
            r.Success? ==> r.value == Configuration(Settings(pair.value.0, env, guard).value, pair.value.1)
  {
    if DefaultEndpointName !in raw then Failure(MissingDefaultEndpoint)
    else
      var pair :- NormaliseEndpoints(raw, map[], EndpointNames);
      EndpointNamesDistinct();
      var final :- Settings(pair.0, env, guard);
      Success(Configuration(final, pair.1))
  }

  /** The normalisation the constructor performs, with the corrected guard. */
  function Normalise(raw: map<string, CValue>, env: map<string, string>): (r: Result<Configuration, ConfigError>)
    ensures r.Success? ==> r.value.Wellformed()
    ensures r == Failure(MissingDefaultEndpoint) <==> DefaultEndpointName !in raw
  {
    NormaliseWith(raw, env, SdkGuard)
  }

  /** `Configuration(default_endpoint, config_dict)` with the process
      environment `env`. */
  function Construct(defaultEndpoint: Option<string>, dict: map<string, CValue>, env: map<string, string>): (r: Result<Configuration, ConfigError>)
    ensures r.Success? ==> r.value.Wellformed()
  {
    var raw :- Merged(defaultEndpoint, dict, env);
    Normalise(raw, env)
  }

  /** Construction fails for want of a default endpoint exactly when none
      of the three sources provides one. */
  lemma ConstructNeedsDefault(defaultEndpoint: Option<string>, dict: map<string, CValue>, env: map<string, string>)
    ensures Construct(defaultEndpoint, dict, env) == Failure(MissingDefaultEndpoint)
            <==> defaultEndpoint.None? && DefaultEndpointName !in dict && EnvName(DefaultEndpointName) !in env
  {
    assert DefaultEndpointName in BaseNames;
  }

  /** Where a merged value comes from: an `ATEL_` variable wins over the
      default endpoint argument, which wins over the caller's dictionary. */
  lemma MergedPrecedence(defaultEndpoint: Option<string>, dict: map<string, CValue>, env: map<string, string>, k: string)
    requires Merged(defaultEndpoint, dict, env).Success?
    requires k in Merged(defaultEndpoint, dict, env).value
    ensures var raw := Merged(defaultEndpoint, dict, env).value;
            if k in BaseNames && EnvName(k) in env then raw[k] == VStr(Strip(env[EnvName(k)]))
            else if k == DefaultEndpointName && defaultEndpoint.Some? then
              raw[k] == VStr(Endpoint.Parse(defaultEndpoint.value).value.url)
            else raw[k] == dict[k]
  {
  }

  /** Every endpoint the loop stores is the parse of the value it found. */
  lemma {:induction false} NormaliseEndpointsParsed(values: map<string, CValue>, endpoints: map<string, Endpoint.ValidEndpoint>, names: seq<string>, k: string)
    requires NormaliseEndpoints(values, endpoints, names).Success?
    requires k in names && k in values
    ensures values[k].VStr?
    ensures Endpoint.Parse(values[k].s) == Success(NormaliseEndpoints(values, endpoints, names).value.1[k])
    decreases |names|
  {
    var n := names[0];
    if n !in values {
      NormaliseEndpointsParsed(values, endpoints, names[1..], k);
    } else {
      var e := Endpoint.Parse(values[n].s).value;
      var values' := values[n := VStr(e.url)];
      if k == n {
        if k in names[1..] {
          NormaliseEndpointsParsed(values', endpoints[n := e], names[1..], k);
          Endpoint.ParseIdempotent(e);
        }
      } else {
        NormaliseEndpointsParsed(values', endpoints[n := e], names[1..], k);
      }
    }
  }

  /** The loop succeeds when every endpoint value it meets parses. */
  lemma {:induction false} NormaliseEndpointsAccepts(values: map<string, CValue>, endpoints: map<string, Endpoint.ValidEndpoint>, names: seq<string>)
    requires forall k :: k in names && k in values ==> Parses(values[k])
    ensures NormaliseEndpoints(values, endpoints, names).Success?
    decreases |names|
  {
    if |names| > 0 {
      var n := names[0];
      if n !in values {
        NormaliseEndpointsAccepts(values, endpoints, names[1..]);
      } else {
        assert Parses(values[n]);
        var e := Endpoint.Parse(values[n].s).value;
        Endpoint.ParseIdempotent(e);
        NormaliseEndpointsAccepts(values[n := VStr(e.url)], endpoints[n := e], names[1..]);
      }
    }
  }

  /** The loop fails when some endpoint value it meets does not parse. */
  lemma {:induction false} NormaliseEndpointsRejects(values: map<string, CValue>, endpoints: map<string, Endpoint.ValidEndpoint>, names: seq<string>, k: string)
    requires k in names && k in values && !Parses(values[k])
    ensures NormaliseEndpoints(values, endpoints, names).Failure?
    decreases |names|
  {
    var n := names[0];
    if n != k && n in values && Parses(values[n]) {
      var e := Endpoint.Parse(values[n].s).value;
      NormaliseEndpointsRejects(values[n := VStr(e.url)], endpoints[n := e], names[1..], k);
    } else if n != k {
      NormaliseEndpointsRejects(values, endpoints, names[1..], k);
    }
  }

  /** The stored endpoints are exactly the parses of the endpoint values
      present in the merged dictionary. */
  lemma NormaliseEndpointsOf(raw: map<string, CValue>, env: map<string, string>, guard: string)
    requires NormaliseWith(raw, env, guard).Success?
    ensures var c := NormaliseWith(raw, env, guard).value;
            forall k :: k in c.endpoints <==> k in EndpointNames && k in raw
    ensures var c := NormaliseWith(raw, env, guard).value;
            forall k :: k in c.endpoints ==> raw[k].VStr? && Endpoint.Parse(raw[k].s) == Success(c.endpoints[k])
  {
    var c := NormaliseWith(raw, env, guard).value;
    forall k | k in c.endpoints
      ensures raw[k].VStr? && Endpoint.Parse(raw[k].s) == Success(c.endpoints[k])
    {
      NormaliseEndpointsParsed(raw, map[], EndpointNames, k);
    }
  }

  /** Normalisation succeeds exactly when the default endpoint is present,
      every endpoint value parses, and a string interval is one `int()`
      accepts. */
  lemma NormaliseSucceeds(raw: map<string, CValue>, env: map<string, string>, guard: string)
    ensures NormaliseWith(raw, env, guard).Success? <==>
              && DefaultEndpointName in raw
              && (forall k :: k in EndpointNames && k in raw ==> Parses(raw[k]))
              && (MetricsExportIntervalName in raw && raw[MetricsExportIntervalName].VStr? ==>
                    PyInt(Strip(raw[MetricsExportIntervalName].s)).Some?)
  {
    EndpointNamesDistinct();
    if forall k :: k in EndpointNames && k in raw ==> Parses(raw[k]) {
      NormaliseEndpointsAccepts(raw, map[], EndpointNames);
    } else {
      var k :| k in EndpointNames && k in raw && !Parses(raw[k]);
      NormaliseEndpointsRejects(raw, map[], EndpointNames, k);
    }
  }

  /** A string console-exporter setting becomes whether it is a truthy
      word. */
  lemma NormaliseConsole(raw: map<string, CValue>, env: map<string, string>, guard: string)
    requires NormaliseWith(raw, env, guard).Success?
    requires UseConsoleExporterName in raw && raw[UseConsoleExporterName].VStr?
    ensures NormaliseWith(raw, env, guard).value.values[UseConsoleExporterName]
              == VBool(IsTruthy(raw[UseConsoleExporterName].s))
  {
    var u := UseConsoleExporterName;
    var pair := NormaliseEndpoints(raw, map[], EndpointNames);
    assert u !in EndpointNames;
    assert pair.value.0[u] == raw[u];
    var st := Settings(pair.value.0, env, guard);
    assert st.value[u] == VBool(IsTruthy(raw[u].s));
  }

  /** The skip setting: when the `OTEL_SDK_DISABLED` override fires it is
      forced on; otherwise a string becomes whether it is a truthy word. */
  lemma NormaliseSkip(raw: map<string, CValue>, env: map<string, string>, guard: string)
    requires NormaliseWith(raw, env, guard).Success?
    ensures var v := NormaliseWith(raw, env, guard).value.values;
            SkipForced(env, guard) ==> v[SkipInternetCheckName] == VBool(true)
    ensures var v := NormaliseWith(raw, env, guard).value.values;
            !SkipForced(env, guard) && SkipInternetCheckName in raw && raw[SkipInternetCheckName].VStr? ==>
              v[SkipInternetCheckName] == VBool(IsTruthy(raw[SkipInternetCheckName].s))
  {
    var k := SkipInternetCheckName;
    var pair := NormaliseEndpoints(raw, map[], EndpointNames);
    assert k !in EndpointNames;
    assert k in raw ==> pair.value.0[k] == raw[k];
    var st := Settings(pair.value.0, env, guard);
    assert NormaliseWith(raw, env, guard).value.values == st.value;
  }

  /** A string interval becomes the integer `int()` reads from it. */
  lemma NormaliseInterval(raw: map<string, CValue>, env: map<string, string>, guard: string)
    requires NormaliseWith(raw, env, guard).Success?
    requires MetricsExportIntervalName in raw && raw[MetricsExportIntervalName].VStr?
    ensures NormaliseWith(raw, env, guard).value.values[MetricsExportIntervalName]
              == VInt(PyInt(Strip(raw[MetricsExportIntervalName].s)).value)
  {
    var i := MetricsExportIntervalName;
    var pair := NormaliseEndpoints(raw, map[], EndpointNames);
    assert i !in EndpointNames;
    assert pair.value.0[i] == raw[i];
    var st := Settings(pair.value.0, env, guard);
    assert st.value[i] == VInt(PyInt(Strip(raw[i].s)).value);
  }

  /** An interval written as the decimal text of `i` reads back as `i`. */
  lemma IntervalRoundTrip(raw: map<string, CValue>, env: map<string, string>, i: int)
    requires MetricsExportIntervalName in raw && raw[MetricsExportIntervalName] == VStr(IntToDecimal(i))
    requires Normalise(raw, env).Success?
    ensures MetricsExportIntervalMs(Normalise(raw, env).value) == VInt(i)
  {
    NormaliseInterval(raw, env, SdkGuard);
    PyIntRoundTrip(i);
    var n: nat := if i < 0 then -i else i;
    DecimalRoundTrip(n);
    if i < 0 {
      SignedDigitsHaveNoSpace(NatToDecimal(n));
    } else {
      DigitsHaveNoSpace(NatToDecimal(n));
    }
  }

  /** The environment of the `OTEL_SDK_DISABLED` example: the skip setting
      explicitly off, the SDK switched off. */
  function SdkExampleEnv(): map<string, string> {
    map[SdkGuard := "false", "OTEL_SDK_DISABLED" := "true"]
  }

  /** In the example environment the override fires under the guard as
      written and not under the intended one, and `"false"` is not truthy. */
  lemma SdkExampleForces()
    ensures SkipForced(SdkExampleEnv(), SdkGuardAsWritten)
    ensures !SkipForced(SdkExampleEnv(), SdkGuard)
    ensures !IsTruthy("false")
  {
    var env := SdkExampleEnv();
    assert SdkGuard[0] == 'A';
    assert SdkGuardAsWritten !in env;
    StripClean("true");
    StripClean("false");
    var t := Lower("true");
    assert t[0] == 't' && t[1] == 'r' && t[2] == 'u' && t[3] == 'e';
    assert t == "true" == TruthyWords[0];
    var f := Lower("false");
    assert f[0] == 'f';
  }

  /** As written, an explicit `ATEL_SKIP_INTERNET_CHECK=false` does not stop
      `OTEL_SDK_DISABLED=true` from switching the check off, because the
      guard looks for a variable named `skip_internet_check`. */
  lemma SdkGuardAsWrittenOverrides(raw: map<string, CValue>)
    requires SkipInternetCheckName in raw && raw[SkipInternetCheckName] == VStr("false")
    requires NormaliseWith(raw, SdkExampleEnv(), SdkGuardAsWritten).Success?
    ensures NormaliseWith(raw, SdkExampleEnv(), SdkGuardAsWritten).value.values[SkipInternetCheckName] == VBool(true)
  {
    SdkExampleForces();
    NormaliseSkip(raw, SdkExampleEnv(), SdkGuardAsWritten);
  }

  /** With the intended guard the same input keeps the explicit setting;
      the guard does not change whether normalisation succeeds. */
  lemma SdkGuardKeepsSetting(raw: map<string, CValue>)
    requires SkipInternetCheckName in raw && raw[SkipInternetCheckName] == VStr("false")
    requires NormaliseWith(raw, SdkExampleEnv(), SdkGuardAsWritten).Success?
    ensures Normalise(raw, SdkExampleEnv()).Success?
    ensures Normalise(raw, SdkExampleEnv()).value.values[SkipInternetCheckName] == VBool(false)
  {
    var env := SdkExampleEnv();
    SdkExampleForces();
    NormaliseSucceeds(raw, env, SdkGuardAsWritten);
    NormaliseSucceeds(raw, env, SdkGuard);
    NormaliseSkip(raw, env, SdkGuard);
  }

  /** With the intended guard an `ATEL_SKIP_INTERNET_CHECK` variable always
      decides the skip setting, whatever `OTEL_SDK_DISABLED` says. */
  lemma ConstructRespectsSkipSetting(defaultEndpoint: Option<string>, dict: map<string, CValue>, env: map<string, string>)
    requires SdkGuard in env
    requires Construct(defaultEndpoint, dict, env).Success?
    ensures SkipInternetCheck(Construct(defaultEndpoint, dict, env).value) == VBool(IsTruthy(env[SdkGuard]))
  {
    var raw := Merged(defaultEndpoint, dict, env).value;
    assert SkipInternetCheckName in BaseNames;
    MergedPrecedence(defaultEndpoint, dict, env, SkipInternetCheckName);
    NormaliseSkip(raw, env, SdkGuard);
    StripIdempotent(env[SdkGuard]);
  }

  /** `Configuration(default_endpoint, config_dict)` as written: the
      `OTEL_SDK_DISABLED` override is guarded by `SdkGuardAsWritten`. */
  function ConstructAsWritten(defaultEndpoint: Option<string>, dict: map<string, CValue>, env: map<string, string>): (r: Result<Configuration, ConfigError>)
    ensures r.Success? ==> r.value.Wellformed()
  {
    var raw :- Merged(defaultEndpoint, dict, env);
    NormaliseWith(raw, env, SdkGuardAsWritten)
  }

  /** Two guards that force the skip on the same environments normalise
      alike. */
  lemma NormaliseGuardsAlike(raw: map<string, CValue>, env: map<string, string>, g1: string, g2: string)
    requires SkipForced(env, g1) == SkipForced(env, g2)
    ensures NormaliseWith(raw, env, g1) == NormaliseWith(raw, env, g2)
  {
    var pair := NormaliseEndpoints(raw, map[], EndpointNames);
    if DefaultEndpointName in raw && pair.Success? {
      var v := pair.value.0;
      assert Flags(v, env, g1) == Flags(v, env, g2);
      assert Settings(v, env, g1) == Settings(v, env, g2);
    }
  }

  /** The guard decides nothing but the skip setting: construction as
      written and as intended succeed on the same inputs, and they give the
      same configuration unless `OTEL_SDK_DISABLED` is truthy and exactly one
      of `skip_internet_check` and `ATEL_SKIP_INTERNET_CHECK` is set. */
  lemma ConstructGuardsAgree(defaultEndpoint: Option<string>, dict: map<string, CValue>, env: map<string, string>)
    ensures ConstructAsWritten(defaultEndpoint, dict, env).Success? <==> Construct(defaultEndpoint, dict, env).Success?
    ensures SkipForced(env, SdkGuardAsWritten) == SkipForced(env, SdkGuard) ==>
              ConstructAsWritten(defaultEndpoint, dict, env) == Construct(defaultEndpoint, dict, env)
  {
    var m := Merged(defaultEndpoint, dict, env);
    if m.Success? {
      NormaliseSucceeds(m.value, env, SdkGuardAsWritten);
      NormaliseSucceeds(m.value, env, SdkGuard);
      if SkipForced(env, SdkGuardAsWritten) == SkipForced(env, SdkGuard) {
        NormaliseGuardsAlike(m.value, env, SdkGuardAsWritten, SdkGuard);
      }
    }
  }

  // ---------------------------------------------------------------------
  // Setters
  // ---------------------------------------------------------------------

  /** Writes one key that is not an endpoint key; nothing else changes. */
  function SetValue(c: Configuration, key: string, v: CValue): (r: Configuration)
    requires key !in EndpointNames
    ensures c.Wellformed() ==> r.Wellformed()
    ensures r.endpoints == c.endpoints
    ensures key in r.values && r.values[key] == v
    ensures forall k :: k != key ==> (k in r.values <==> k in c.values)
    ensures forall k :: k != key && k in c.values ==> r.values[k] == c.values[k]
  {
    c.(values := c.values[key := v])
  }

  /** Python's `None` or a string. */
  function OptStr(s: Option<string>): CValue {
    match s
    case Some(t) => VStr(t)
    case None => VNone
  }

  /** Stores a parsed endpoint under an endpoint key, with its URL. */
  function WithEndpoint(c: Configuration, key: string, e: Endpoint.ValidEndpoint): (r: Configuration)
    requires key in EndpointNames
    ensures c.Wellformed() ==> r.Wellformed()
    ensures r.endpoints == c.endpoints[key := e]
  {
    Configuration(c.values[key := VStr(e.url)], c.endpoints[key := e])
  }

  /** `set_logging_endpoint` and its tracing and metrics twins: the endpoint
      is parsed, and both the normalised URL and the parsed object are
      stored. */
  function SetEndpoint(c: Configuration, sig: Signal, endpoint: string): (r: Result<Configuration, ConfigError>)
    ensures r.Failure? <==> Endpoint.Parse(endpoint).Failure?
    ensures r.Failure? ==> r.error == InvalidEndpoint(endpoint)
    ensures c.Wellformed() && r.Success? ==> r.value.Wellformed()
    ensures r.Success? ==> r.value.endpoints == c.endpoints[EndpointKey(sig) := Endpoint.Parse(endpoint).value]
  {
    match Endpoint.Parse(endpoint)
    case Failure(_) => Failure(InvalidEndpoint(endpoint))
    case Success(e) => Success(WithEndpoint(c, EndpointKey(sig), e))
  }

  /** `set_console_exporter` */
  function SetConsoleExporter(c: Configuration, useConsole: bool): (r: Configuration)
    ensures c.Wellformed() ==> r.Wellformed()
    ensures ConsoleExporter(r) == VBool(useConsole)
    ensures r.endpoints == c.endpoints
  {
    SetValue(c, UseConsoleExporterName, VBool(useConsole))
  }

  /** `set_auth_token`: the default token, the fallback for every signal. */
  function SetAuthToken(c: Configuration, token: Option<string>): (r: Configuration)
    ensures c.Wellformed() ==> r.Wellformed()
    ensures AuthTokenDefault(r) == OptStr(token)
    ensures forall sig :: AuthToken(r, sig) == if AuthTokenKey(sig) in c.values then AuthToken(c, sig) else OptStr(token)
    ensures r.endpoints == c.endpoints
  {
    SignalKeysDistinct();
    SetValue(c, DefaultAuthTokenName, OptStr(token))
  }

  /** `set_auth_token_logging` and its twins. */
  function SetAuthTokenFor(c: Configuration, sig: Signal, token: Option<string>): (r: Configuration)
    ensures c.Wellformed() ==> r.Wellformed()
    ensures AuthToken(r, sig) == OptStr(token)
    ensures forall other :: other != sig ==> AuthToken(r, other) == AuthToken(c, other)
    ensures r.endpoints == c.endpoints
  {
    SignalKeysDistinct();
    SetValue(c, AuthTokenKey(sig), OptStr(token))
  }

  /** `set_tls_private_ca_cert`: a certificate file path, or `None`. */
  function SetTlsPrivateCaCert(c: Configuration, certFile: Option<string>): (r: Configuration)
    ensures c.Wellformed() ==> r.Wellformed()
    ensures forall sig :: CaCertValue(r, sig) == if CaCertKey(sig) in c.values then CaCertValue(c, sig) else OptStr(certFile)
    ensures r.endpoints == c.endpoints
  {
    SignalKeysDistinct();
    SetValue(c, DefaultCaCertName, OptStr(certFile))
  }

  /** `set_tls_private_ca_cert_logging` and its twins. */
  function SetTlsPrivateCaCertFor(c: Configuration, sig: Signal, certFile: Option<string>): (r: Configuration)
    ensures c.Wellformed() ==> r.Wellformed()
    ensures CaCertValue(r, sig) == OptStr(certFile)
    ensures forall other :: other != sig ==> CaCertValue(r, other) == CaCertValue(c, other)
    ensures r.endpoints == c.endpoints
  {
    SignalKeysDistinct();
    SetValue(c, CaCertKey(sig), OptStr(certFile))
  }

  /** `set_logging_level`: a name outside the seven accepted ones is
      ignored. */
  function SetLoggingLevel(c: Configuration, level: string): (r: Configuration)
    ensures c.Wellformed() ==> r.Wellformed()
    ensures level !in LoggingLevels ==> r == c
  {
    if level !in LoggingLevels then c else SetValue(c, LoggingLevelName, VStr(level))
  }

  /** `set_metrics_export_interval_ms`: zero or a negative interval is
      ignored. */
  function SetMetricsExportIntervalMs(c: Configuration, intervalMs: int): (r: Configuration)
    ensures c.Wellformed() ==> r.Wellformed()
    ensures intervalMs <= 0 ==> r == c
  {
    if intervalMs <= 0 then c else SetValue(c, MetricsExportIntervalName, VInt(intervalMs))
  }

  /** `set_tracing_session_entropy`: any value; `None` makes the getter
      draw a fresh one. */
  function SetTracingSessionEntropy(c: Configuration, entropy: CValue): (r: Configuration)
    ensures c.Wellformed() ==> r.Wellformed()
    ensures forall nowNs :: TracingSessionEntropy(r, nowNs).0 == if entropy == VNone then VInt(nowNs) else entropy
    ensures r.endpoints == c.endpoints
  {
    SetValue(c, SessionEntropyName, entropy)
  }

  /** `set_skip_internet_check` */
  function SetSkipInternetCheck(c: Configuration, skip: bool): (r: Configuration)
    ensures c.Wellformed() ==> r.Wellformed()
    ensures SkipInternetCheck(r) == VBool(skip)
    ensures r.endpoints == c.endpoints
  {
    SetValue(c, SkipInternetCheckName, VBool(skip))
  }

  // ---------------------------------------------------------------------
  // Getters
  // ---------------------------------------------------------------------

  /** `_set_otel_signal_endpoint`: append `v1/<signal>` unless the endpoint
      already ends with it, with exactly one `/` in between. An empty
      endpoint raises `IndexError` at `endpoint[-1]`. */
  function WithSignalPath(endpoint: string, signal: string): (r: Result<string, ConfigError>)
    ensures r.Failure? <==> endpoint == [] && |"v1/" + signal| > 0
    ensures r.Success? ==> StartsWith(r.value, endpoint) && EndsWith(r.value, "v1/" + signal)
    ensures EndsWith(endpoint, "v1/" + signal) ==> r == Success(endpoint)
    ensures r.Success? && !EndsWith(endpoint, "v1/" + signal) ==>
              r.value == endpoint + (if endpoint[|endpoint| - 1] == '/' then "" else "/") + "v1/" + signal
  {
    var suffix := "v1/" + signal;
    if !EndsWith(endpoint, suffix) then
      if |endpoint| == 0 then Failure(EmptyEndpoint)
      else if endpoint[|endpoint| - 1] != '/' then Success(endpoint + "/" + suffix)
      else Success(endpoint + suffix)
    else Success(endpoint)
  }

  /** Suffixing twice is suffixing once. */
  lemma WithSignalPathIdempotent(endpoint: string, signal: string)
    requires WithSignalPath(endpoint, signal).Success?
    ensures WithSignalPath(WithSignalPath(endpoint, signal).value, signal) == WithSignalPath(endpoint, signal)
  {
  }

  /** `_get_default_endpoint` */
  function DefaultEndpoint(c: Configuration): CValue {
    Lookup(c.values, DefaultEndpointName, VStr(""))
  }

  /** `_get_logging_endpoint` and its twins: the signal's own endpoint, else
      the default one, with the signal's request path. */
  function SignalEndpoint(c: Configuration, sig: Signal): (r: Result<string, ConfigError>)
    ensures r.Success? ==> EndsWith(r.value, "v1/" + PathName(sig))
  {
    match Lookup(c.values, EndpointKey(sig), DefaultEndpoint(c))
    case VStr(e) => WithSignalPath(e, PathName(sig))
    case _ => Failure(NotAString)
  }

  /** On a well-formed configuration the endpoint getters never raise, and
      each one starts with its signal's own normalised URL if it has one,
      else with the default's. */
  lemma SignalEndpointFallback(c: Configuration, sig: Signal)
    requires c.Wellformed()
    ensures SignalEndpoint(c, sig).Success?
    ensures var own := EndpointKey(sig) in c.endpoints;
            var url := if own then c.endpoints[EndpointKey(sig)].url else c.endpoints[DefaultEndpointName].url;
            StartsWith(SignalEndpoint(c, sig).value, url)
    ensures var own := EndpointKey(sig) in c.endpoints;
            var url := if own then c.endpoints[EndpointKey(sig)].url else c.endpoints[DefaultEndpointName].url;
            SignalEndpoint(c, sig) == WithSignalPath(url, PathName(sig))
  {
    var key := EndpointKey(sig);
    assert key in EndpointNames;
    var e := if key in c.endpoints then c.endpoints[key] else c.endpoints[DefaultEndpointName];
    assert |e.url| > 0 by {
      assert e.url == e.protocol + "://" + e.host + Endpoint.PortText(e.port) + e.path;
    }
  }

  /** `_get_auth_token_default`: `None` when unset. */
  function AuthTokenDefault(c: Configuration): CValue {
    Lookup(c.values, DefaultAuthTokenName, VNone)
  }

  /** `_get_auth_token_logging` and its twins. */
  function AuthToken(c: Configuration, sig: Signal): CValue {
    Lookup(c.values, AuthTokenKey(sig), AuthTokenDefault(c))
  }

  /** The default token reaches exactly the signals without a token of
      their own. */
  lemma AuthTokenFallback(c: Configuration, sig: Signal, token: Option<string>)
    ensures AuthTokenKey(sig) !in c.values ==> AuthToken(SetAuthToken(c, token), sig) == OptStr(token)
    ensures AuthTokenKey(sig) in c.values ==> AuthToken(SetAuthToken(c, token), sig) == c.values[AuthTokenKey(sig)]
    ensures AuthToken(SetAuthTokenFor(c, sig, token), sig) == OptStr(token)
  {
    assert AuthTokenKey(sig) != DefaultAuthTokenName;
  }

  function ConsoleExporter(c: Configuration): CValue {
    Lookup(c.values, UseConsoleExporterName, VBool(false))
  }

  /** `_get_logging_level`: `'warning'` when unset. */
  function LoggingLevel(c: Configuration): CValue {
    Lookup(c.values, LoggingLevelName, VStr(DefaultLoggingLevel))
  }

  /** `_get_metrics_export_interval_ms`: 60000 when unset. */
  function MetricsExportIntervalMs(c: Configuration): CValue {
    Lookup(c.values, MetricsExportIntervalName, VInt(DefaultExportIntervalMs))
  }

  function SkipInternetCheck(c: Configuration): CValue {
    Lookup(c.values, SkipInternetCheckName, VBool(false))
  }

  /** A rejected level or interval leaves the old value (or the default) in
      place; an accepted one is what the getter reports next. */
  lemma SettersRejectOutOfDomain(c: Configuration, level: string, intervalMs: int)
    ensures LoggingLevel(SetLoggingLevel(c, level)) == if level in LoggingLevels then VStr(level) else LoggingLevel(c)
    ensures MetricsExportIntervalMs(SetMetricsExportIntervalMs(c, intervalMs))
              == if intervalMs > 0 then VInt(intervalMs) else MetricsExportIntervalMs(c)
  {
  }

  /** `_get_tracing_session_entropy`: an unset (or `None`) entropy is
      replaced by the clock reading `nowNs` (nanoseconds), stored, and
      returned. */
  function TracingSessionEntropy(c: Configuration, nowNs: int): (r: (CValue, Configuration))
    ensures r.0 != VNone
    ensures c.Wellformed() ==> r.1.Wellformed()
    ensures AgreesBut(c, r.1, SessionEntropyName)
    ensures SessionEntropyName in r.1.values && r.1.values[SessionEntropyName] == r.0
  {
    if Lookup(c.values, SessionEntropyName, VNone) == VNone then
      var c' := SetValue(c, SessionEntropyName, VInt(nowNs));
      (VInt(nowNs), c')
    else (c.values[SessionEntropyName], c)
  }

  /** Once read, the entropy is fixed: a later read at any other time gives
      the same value and changes nothing. */
  lemma EntropyStable(c: Configuration, now1: int, now2: int)
    ensures var (v, c') := TracingSessionEntropy(c, now1);
            TracingSessionEntropy(c', now2) == (v, c')
  {
  }

  /** `_get_TLS_default` and `_get_request_protocol_default`: both return the
      default endpoint object, and raise `KeyError` without one. */
  function DefaultEndpointObject(c: Configuration): (r: Result<Endpoint.ValidEndpoint, ConfigError>)
    ensures r.Failure? <==> DefaultEndpointName !in c.endpoints
  {
    if DefaultEndpointName in c.endpoints then Success(c.endpoints[DefaultEndpointName])
    else Failure(MissingKey(DefaultEndpointName))
  }

  /** The endpoint object a signal uses. The default is looked up first
      (Python evaluates `get`'s fallback argument eagerly), so a missing
      default raises even when the signal has its own. */
  function SignalEndpointObject(c: Configuration, sig: Signal): (r: Result<Endpoint.ValidEndpoint, ConfigError>)
    ensures r.Failure? <==> DefaultEndpointName !in c.endpoints
  {
    var default :- DefaultEndpointObject(c);
    Success(if EndpointKey(sig) in c.endpoints then c.endpoints[EndpointKey(sig)] else default)
  }

  /** `_get_TLS_logging` and its twins. */
  function Tls(c: Configuration, sig: Signal): (r: Result<bool, ConfigError>)
    ensures r.Failure? <==> DefaultEndpointName !in c.endpoints
  {
    var e :- SignalEndpointObject(c, sig);
    Success(e.tls)
  }

  /** `_get_request_protocol_logging` and its twins. */
  function RequestProtocol(c: Configuration, sig: Signal): (r: Result<string, ConfigError>)
    ensures r.Failure? <==> DefaultEndpointName !in c.endpoints
  {
    var e :- SignalEndpointObject(c, sig);
    Success(e.protocol)
  }

  /** On a well-formed configuration a signal's TLS flag is set exactly when
      its protocol is one of the two secure ones. */
  lemma TlsMatchesProtocol(c: Configuration, sig: Signal)
    requires c.Wellformed()
    ensures Tls(c, sig).Success? && RequestProtocol(c, sig).Success?
    ensures Tls(c, sig).value <==> RequestProtocol(c, sig).value in ["https", "grpcs"]
  {
  }

  /** Setting one signal's endpoint (the update `SetEndpoint` makes with the
      parsed endpoint) changes what that signal reports and leaves the other
      signals as they were. */
  lemma SetEndpointScoped(c: Configuration, sig: Signal, other: Signal, e: Endpoint.ValidEndpoint)
    requires DefaultEndpointName in c.endpoints
    ensures var c' := WithEndpoint(c, EndpointKey(sig), e);
            && RequestProtocol(c', sig) == Success(e.protocol)
            && Tls(c', sig) == Success(e.tls)
            && (other != sig ==> RequestProtocol(c', other) == RequestProtocol(c, other)
                                 && Tls(c', other) == Tls(c, other))
  {
    SignalEndpointAfterSet(c, sig, other, e);
  }

  /** Storing a signal's endpoint object changes what that signal reads
      and nothing another signal reads. */
  lemma SignalEndpointAfterSet(c: Configuration, sig: Signal, other: Signal, e: Endpoint.ValidEndpoint)
    requires DefaultEndpointName in c.endpoints
    ensures var c' := WithEndpoint(c, EndpointKey(sig), e);
            && SignalEndpointObject(c', sig) == Success(e)
            && (other != sig ==> SignalEndpointObject(c', other) == SignalEndpointObject(c, other))
  {
    var c' := WithEndpoint(c, EndpointKey(sig), e);
    assert EndpointKey(sig) != DefaultEndpointName;
    assert c'.endpoints[DefaultEndpointName] == c.endpoints[DefaultEndpointName];
    if other != sig {
      OtherSignalUnchanged(c, sig, other, e);
    }
  }

  /** Storing one signal's endpoint object leaves what another signal
      reads as it was. */
  lemma OtherSignalUnchanged(c: Configuration, sig: Signal, other: Signal, e: Endpoint.ValidEndpoint)
    requires DefaultEndpointName in c.endpoints && other != sig
    ensures SignalEndpointObject(WithEndpoint(c, EndpointKey(sig), e), other) == SignalEndpointObject(c, other)
  {
    var k := EndpointKey(other);
    assert k != EndpointKey(sig) && EndpointKey(sig) != DefaultEndpointName;
    var m := c.endpoints[EndpointKey(sig) := e];
    assert (k in m <==> k in c.endpoints) && (k in m ==> m[k] == c.endpoints[k]);
  }

  // ---------------------------------------------------------------------
  // CA certificates
  // ---------------------------------------------------------------------

  /** What a CA-certificate getter hands on: nothing, a file path (the
      HTTP exporters take the path), gRPC channel credentials holding the
      file's contents (`None`: the system trust store), a falsy value that
      is not a string (`False`, `0`), or a dictionary value of some other
      type. */
  datatype Cert = NoCert | CertPath(path: string) | Credentials(rootCertificates: Option<string>) | CertFalsy | CertOther

  function CertOf(v: CValue): (r: Cert)
    ensures r == NoCert <==> v == VNone
    ensures r.CertPath? <==> v.VStr?
    ensures r == CertFalsy <==> v == VBool(false) || v == VInt(0)
  {
    match v
    case VNone => NoCert
    case VStr(p) => CertPath(p)
    case _ => if Truth(v) then CertOther else CertFalsy
  }

  predicate IsHttp(protocol: string) { protocol == "http" || protocol == "https" }

  /** `_prepare_ca_cert`: HTTP exporters get the certificate as it is; gRPC
      exporters get channel credentials, read from the file when a path is
      given and from the system trust store when the value is falsy. `files`
      maps the readable paths to their contents. */
  function PrepareCaCert(protocol: string, cert: Cert, files: map<string, string>): (r: Result<Cert, ConfigError>)
    ensures cert == NoCert ==> r == Success(NoCert)
    ensures IsHttp(protocol) ==> r == Success(cert)
    ensures !IsHttp(protocol) && cert != NoCert && r.Success? ==> r.value.Credentials?
    ensures r.Failure? <==>
              && !IsHttp(protocol)
              && ((cert.CertPath? && cert.path != "" && cert.path !in files) || cert.Credentials? || cert.CertOther?)
    ensures r.Failure? && cert.CertPath? ==> r.error == FileNotFound(cert.path)
    ensures r.Failure? && !cert.CertPath? ==> r.error == NotAPath
    ensures !IsHttp(protocol) && (cert == CertPath("") || cert == CertFalsy) ==> r == Success(Credentials(None))
    ensures !IsHttp(protocol) && r.Success? && r.value.Credentials? && r.value.rootCertificates.Some? ==>
              cert.CertPath? && cert.path in files && files[cert.path] == r.value.rootCertificates.value
  {
    if cert == NoCert then Success(NoCert)
    else if IsHttp(protocol) then Success(cert)
    else
      match cert
      case CertPath(p) =>
        if p == "" then Success(Credentials(None))
        else if p in files then Success(Credentials(Some(files[p])))
        else Failure(FileNotFound(p))
      case CertFalsy => Success(Credentials(None))
      case _ => Failure(NotAPath)
  }

  /** `_get_ca_cert_default`: the default certificate, prepared for the
      default endpoint's protocol. */
  function CaCertDefault(c: Configuration, files: map<string, string>): (r: Result<Cert, ConfigError>)
    ensures DefaultEndpointName !in c.endpoints ==> r == Failure(MissingKey(DefaultEndpointName))
  {
    var e :- DefaultEndpointObject(c);
    PrepareCaCert(e.protocol, CertOf(Lookup(c.values, DefaultCaCertName, VNone)), files)
  }

  /** `_get_ca_cert_logging` and its twins as written: the fallback is the
      default certificate already prepared for the default protocol (and
      prepared eagerly, even when the signal has a certificate of its own),
      and it is prepared a second time for the signal's protocol. */
  function CaCertAsWritten(c: Configuration, sig: Signal, files: map<string, string>): (r: Result<Cert, ConfigError>)
    ensures CaCertDefault(c, files).Failure? ==> r == CaCertDefault(c, files).PropagateFailure()
  {
    var fallback :- CaCertDefault(c, files);
    var cert := if CaCertKey(sig) in c.values then CertOf(c.values[CaCertKey(sig)]) else fallback;
    var protocol :- RequestProtocol(c, sig);
    PrepareCaCert(protocol, cert, files)
  }

  /** As written, a gRPC default endpoint with a default certificate breaks
      every signal without a certificate of its own: a gRPC signal tries to
      open the credentials object as a file, and an HTTP signal is handed
      credentials where its exporter expects a path. */
  lemma CaCertAsWrittenReprepares(c: Configuration, sig: Signal, files: map<string, string>, path: string)
    requires DefaultEndpointName in c.endpoints && !IsHttp(c.endpoints[DefaultEndpointName].protocol)
    requires DefaultCaCertName in c.values && c.values[DefaultCaCertName] == VStr(path)
    requires path == "" || path in files
    requires CaCertKey(sig) !in c.values
    ensures !IsHttp(RequestProtocol(c, sig).value) ==> CaCertAsWritten(c, sig, files) == Failure(NotAPath)
    ensures IsHttp(RequestProtocol(c, sig).value) ==>
              CaCertAsWritten(c, sig, files).Success? && CaCertAsWritten(c, sig, files).value.Credentials?
  {
  }

  /** The certificate setting a signal uses: its own, else the default. */
  function CaCertValue(c: Configuration, sig: Signal): CValue {
    Lookup(c.values, CaCertKey(sig), Lookup(c.values, DefaultCaCertName, VNone))
  }

  /** The getters as evidently intended: the signal's own certificate, else
      the default one, taken from the dictionary and prepared once, for the
      signal's protocol. */
  function CaCert(c: Configuration, sig: Signal, files: map<string, string>): (r: Result<Cert, ConfigError>)
    ensures r.Failure? ==> r.error.MissingKey? || r.error.FileNotFound? || r.error == NotAPath
    ensures DefaultEndpointName !in c.endpoints ==> r == Failure(MissingKey(DefaultEndpointName))
  {
    var cert := CertOf(CaCertValue(c, sig));
    var protocol :- RequestProtocol(c, sig);
    PrepareCaCert(protocol, cert, files)
  }

  /** The intended getters never try to open something that is not a path
      when the certificates configured are strings, `None` or falsy: an HTTP
      signal gets the signal's own path, else the default one, unchanged,
      and a gRPC signal gets credentials built from that file. */
  lemma CaCertFallback(c: Configuration, sig: Signal, files: map<string, string>)
    requires DefaultEndpointName in c.endpoints
    requires var v := CaCertValue(c, sig);
             CertOf(v) != CertOther
    ensures CaCert(c, sig, files) != Failure(NotAPath)
    ensures var v := CaCertValue(c, sig);
            IsHttp(RequestProtocol(c, sig).value) ==> CaCert(c, sig, files) == Success(CertOf(v))
    ensures var v := CaCertValue(c, sig);
            !IsHttp(RequestProtocol(c, sig).value) && v.VStr? && v.s in files && v.s != "" ==>
              CaCert(c, sig, files) == Success(Credentials(Some(files[v.s])))
    ensures var v := CaCertValue(c, sig);
            !IsHttp(RequestProtocol(c, sig).value) && (v == VStr("") || CertOf(v) == CertFalsy) ==>
              CaCert(c, sig, files) == Success(Credentials(None))
  {
  }

  /** Where the source is not affected the two agree: when the signal has a
      certificate of its own, or the default endpoint speaks HTTP, and the
      default certificate can be prepared. */
  lemma CaCertAgrees(c: Configuration, sig: Signal, files: map<string, string>)
    requires DefaultEndpointName in c.endpoints
    requires CaCertDefault(c, files).Success?
    requires CaCertKey(sig) in c.values || IsHttp(c.endpoints[DefaultEndpointName].protocol)
    ensures CaCertAsWritten(c, sig, files) == CaCert(c, sig, files)
  {
  }
}
