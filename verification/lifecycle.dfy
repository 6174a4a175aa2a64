/** The module-level telemetry state of signals.py (signals.py:500-628):
    the initialised flag, the stored configuration and signal list, and
    the three signal singletons; and the public functions that read it
    (signals.py:630-779). Building a signal is modelled down to what the
    rest of the module reads back from it: its resource map, the logging
    handler's level, the metric registry, and whether the metrics instance
    keeps its reader. The SDK objects themselves are left out. */
module Lifecycle {
  import opened Wrappers
  import Config
  import Attributes
  import Resource
  import Metrics
  import Span

  type ResourceMap = map<string, Attributes.Field>

  const LoggingSignal := "logging"
  const MetricsSignal := "metrics"
  const TracingSignal := "tracing"

  /** `LoggingHandler(level=...)`: the level it was built with. */
  datatype Handler = Handler(level: int)

  datatype LoggerInst = LoggerInst(resource: ResourceMap, handler: Handler)
  /** `reader` is whether `metric_reader` still refers to the reader. */
  datatype MetricsInst = MetricsInst(resource: ResourceMap, meter: Metrics.Meter, reader: bool)
  datatype TraceInst = TraceInst(resource: ResourceMap)

  /** `__ANACONDA_TELEMETRY_INITIALIZED`, `__CONFIG`, `__SIGNALS` and the
      three classes' `_instance`. */
  datatype State = State(
    initialized: bool,
    config: Option<Config.Configuration>,
    signals: Option<seq<string>>,
    logger: Option<LoggerInst>,
    metrics: Option<MetricsInst>,
    trace: Option<TraceInst>)

  /** The state at import. */
  const Start := State(false, None, None, None, None, None)

  /** What the module does besides changing the state. */
  datatype Effect =
    | ReaderFlushed          // metric_reader.force_flush()
    | ReaderShutdown         // metric_reader.shutdown()
    | TornDown(signal: string)
    | NoSignalsWarning       // the "No signal types were initialized" warning

  datatype LifeError =
    | ValueError(message: string)
    | RuntimeError(message: string)
    | AttributeError(attribute: string)
    | KeyError(key: string)
    | ConfigFailure(error: Config.ConfigError)   // raised by a configuration getter
    | ProbeError(name: string)                   // raised by the connectivity probe, not an `OSError`

  /** What re-initialising reads from outside the package: Python's
      hashing and formatting for the resource, the readable files (path to
      contents) for the CA certificates, and, for a host name, the
      exception other than `OSError` that opening a connection to it raises,
      if any (CPython's IDNA encoding of the name raises `UnicodeError` for
      a label of 64 characters or more; an `OSError` is caught and only
      logged). */
  datatype Runtime = Runtime(py: Resource.Py, files: map<string, string>, connect: string -> Option<string>)

  /** A state change, the effects made on the way, and the exception that
      ended it, if any (changes made before it stay). */
  datatype Step = Step(state: State, effects: seq<Effect>, error: Option<LifeError>)

  /** The flag is only ever set after a configuration and a signal list
      were stored. */
  predicate Inv(s: State) {
    s.initialized ==> s.config.Some? && s.signals.Some?
  }

  /** `_is_first_time`. */
  predicate IsFirstTime(s: State) {
    !s.initialized && (s.config.None? || s.signals.None?)
  }

  // ---------------------------------------------------------------------
  // Tearing down
  // ---------------------------------------------------------------------

  /** `_AnacondaMetrics.tear_down` as written: the reader is flushed and
      shut down only when `metric_reader` is set. */
  function MetricsTearDown(m: MetricsInst): (effects: seq<Effect>)
    ensures |effects| > 0 && effects[|effects| - 1] == TornDown(MetricsSignal)
    ensures ReaderFlushed in effects <==> m.reader
  {
    (if m.reader then [ReaderFlushed, ReaderShutdown] else []) + [TornDown(MetricsSignal)]
  }

  /** `re_initialize_telemetry`'s tear-down of the live instances of the
      stored signals, metrics first, then tracing, then logging; the flag
      ends false. */
  function TearDown(s: State): (r: (State, seq<Effect>))
    requires s.signals.Some?
    ensures !r.0.initialized
    ensures r.0.config == s.config && r.0.signals == s.signals
    ensures r.0.logger == (if LoggingSignal in s.signals.value then None else s.logger)
    ensures r.0.metrics == (if MetricsSignal in s.signals.value then None else s.metrics)
    ensures r.0.trace == (if TracingSignal in s.signals.value then None else s.trace)
    ensures TornDown(MetricsSignal) in r.1 <==> MetricsSignal in s.signals.value && s.metrics.Some?
    ensures TornDown(TracingSignal) in r.1 <==> TracingSignal in s.signals.value && s.trace.Some?
    ensures TornDown(LoggingSignal) in r.1 <==> LoggingSignal in s.signals.value && s.logger.Some?
  {
    var signals := s.signals.value;
    var e1 := if MetricsSignal in signals && s.metrics.Some? then MetricsTearDown(s.metrics.value) else [];
    var e2 := if TracingSignal in signals && s.trace.Some? then [TornDown(TracingSignal)] else [];
    var e3 := if LoggingSignal in signals && s.logger.Some? then [TornDown(LoggingSignal)] else [];
    assert TornDown(TracingSignal) !in e1 && TornDown(LoggingSignal) !in e1;
    (s.(initialized := false,
        metrics := if MetricsSignal in signals then None else s.metrics,
        trace := if TracingSignal in signals then None else s.trace,
        logger := if LoggingSignal in signals then None else s.logger),
     e1 + e2 + e3)
  }

  // ---------------------------------------------------------------------
  // Building the signals
  // ---------------------------------------------------------------------

  /** The resource a signal is built with (through the corrected
      `make_otel_resource`), and the configuration after it, which differs
      from the one before at most in the session entropy. */
  function BuildResource(c: Config.Configuration, a: Attributes.Attrs, nowNs: int, rt: Runtime)
    : (r: (Result<ResourceMap, LifeError>, Config.Configuration))
    ensures r.0.Failure? ==> r.0.error.KeyError? && r.1 == c
    ensures Config.AgreesBut(c, r.1, Config.SessionEntropyName)
  {
    match Resource.MakeResource(c, a, nowNs, rt.py)
    case Failure(e) => (Failure(KeyError(e.key)), c)
    case Success((m, c')) => (Success(m), c')
  }

  /** The exporter a signal builds speaks gRPC. */
  predicate GrpcExporter(protocol: string) { protocol == "grpc" || protocol == "grpcs" }

  /** The exporter is handed a CA certificate: it speaks HTTP, or gRPC
      with TLS. */
  predicate TakesCertificate(c: Config.Configuration, sig: Config.Signal) {
    && Config.RequestProtocol(c, sig).Success?
    && (!GrpcExporter(Config.RequestProtocol(c, sig).value) || Config.Tls(c, sig) == Success(true))
  }

  /** The configuration getters a signal's construction calls that can
      raise, in the order it calls them: the signal's endpoint, then, unless
      the console exporters are used, the request protocol, the TLS flag
      for gRPC, and the CA certificate when the exporter takes one (through
      the corrected getter `Config.CaCert`). The first exception, if any. */
  function ExporterCheck(c: Config.Configuration, sig: Config.Signal, files: map<string, string>)
    : (r: Option<Config.ConfigError>)
    ensures Config.SignalEndpoint(c, sig).Failure? ==> r == Some(Config.SignalEndpoint(c, sig).error)
    ensures Config.SignalEndpoint(c, sig).Success? && Config.Truth(Config.ConsoleExporter(c)) ==> r.None?
    ensures r.Some? && r.value.FileNotFound? ==> TakesCertificate(c, sig) && !Config.Truth(Config.ConsoleExporter(c))
  {
    match Config.SignalEndpoint(c, sig)
    case Failure(e) => Some(e)
    case Success(_) =>
      if Config.Truth(Config.ConsoleExporter(c)) then None
      else
        match Config.RequestProtocol(c, sig)
        case Failure(e) => Some(e)
        case Success(protocol) =>
          if TakesCertificate(c, sig) then
            match Config.CaCert(c, sig, files)
            case Failure(e) => Some(e)
            case Success(_) => None
          else None
  }

  /** On a well-formed configuration only the certificate can stop a
      signal: with the console exporters nothing raises, and otherwise the
      certificate getter raises exactly when the exporter takes a
      certificate and it cannot be prepared. */
  lemma ExporterCheckWellformed(c: Config.Configuration, sig: Config.Signal, files: map<string, string>)
    requires c.Wellformed()
    ensures Config.Truth(Config.ConsoleExporter(c)) ==> ExporterCheck(c, sig, files).None?
    ensures !Config.Truth(Config.ConsoleExporter(c)) ==>
              ExporterCheck(c, sig, files) ==
                if TakesCertificate(c, sig) && Config.CaCert(c, sig, files).Failure?
                then Some(Config.CaCert(c, sig, files).error) else None
  {
    Config.SignalEndpointFallback(c, sig);
  }

  /** The keys a signal's construction reads are not the session
      entropy's. */
  lemma ReadKeysNotEntropy(sig: Config.Signal)
    ensures var e := Config.SessionEntropyName;
            && Config.LoggingLevelName != e && Config.EndpointKey(sig) != e && Config.DefaultEndpointName != e
            && Config.UseConsoleExporterName != e && Config.CaCertKey(sig) != e && Config.DefaultCaCertName != e
  {
    var e := Config.SessionEntropyName;
    assert e[0] == 's' && e[1] == 'e';
    assert Config.LoggingLevelName[0] != 's' && Config.DefaultEndpointName[0] != 's' && Config.DefaultCaCertName[0] != 's';
    assert Config.UseConsoleExporterName[0] != 's' && Config.EndpointKey(sig)[0] != 's' && Config.CaCertKey(sig)[0] != 's';
  }

  /** The session entropy, the only setting building the resource writes,
      is not one the signal's construction reads. */
  lemma EntropyIrrelevant(c: Config.Configuration, c': Config.Configuration, sig: Config.Signal, files: map<string, string>)
    requires Config.AgreesBut(c, c', Config.SessionEntropyName)
    ensures Config.LoggingLevel(c') == Config.LoggingLevel(c)
    ensures ExporterCheck(c', sig, files) == ExporterCheck(c, sig, files)
  {
    SettingsIgnoreEntropy(c, c', sig);
    CertificateIgnoresEntropy(c, c', sig, files);
  }

  /** Whether the exporter takes a certificate, and the certificate it
      gets, agree on two configurations that differ at most in the session
      entropy. */
  lemma CertificateIgnoresEntropy(c: Config.Configuration, c': Config.Configuration, sig: Config.Signal,
                                  files: map<string, string>)
    requires Config.AgreesBut(c, c', Config.SessionEntropyName)
    ensures Config.RequestProtocol(c', sig) == Config.RequestProtocol(c, sig)
    ensures TakesCertificate(c', sig) == TakesCertificate(c, sig)
    ensures Config.CaCert(c', sig, files) == Config.CaCert(c, sig, files)
  {
    SettingsIgnoreEntropy(c, c', sig);
    assert Config.Tls(c', sig) == Config.Tls(c, sig);
  }

  /** The settings a signal's construction reads agree on two
      configurations that differ at most in the session entropy. */
  lemma SettingsIgnoreEntropy(c: Config.Configuration, c': Config.Configuration, sig: Config.Signal)
    requires Config.AgreesBut(c, c', Config.SessionEntropyName)
    ensures Config.LoggingLevel(c') == Config.LoggingLevel(c)
    ensures Config.SignalEndpoint(c', sig) == Config.SignalEndpoint(c, sig)
    ensures Config.ConsoleExporter(c') == Config.ConsoleExporter(c)
    ensures Config.CaCertValue(c', sig) == Config.CaCertValue(c, sig)
  {
    ReadKeysNotEntropy(sig);
    assert Config.DefaultEndpoint(c') == Config.DefaultEndpoint(c);
  }

  /** `_AnacondaLogger(config, attributes)`: the resource, then the
      handler at the configured level (a level that is not text has no
      `lower()`), then the exporter's getters. */
  function NewLogger(c: Config.Configuration, a: Attributes.Attrs, nowNs: int, rt: Runtime)
    : (r: (Result<LoggerInst, LifeError>, Config.Configuration))
    ensures r.1 == BuildResource(c, a, nowNs, rt).1
    ensures r.0.Success? ==> BuildResource(c, a, nowNs, rt).0 == Success(r.0.value.resource)
    ensures r.0.Success? ==>
              Config.LoggingLevel(c).VStr? && r.0.value.handler.level == Metrics.GetLogLevel(Config.LoggingLevel(c).s)
    ensures BuildResource(c, a, nowNs, rt).0.Success? ==>
              (r.0.Success? <==> Config.LoggingLevel(c).VStr? && ExporterCheck(c, Config.Logging, rt.files).None?)
    ensures BuildResource(c, a, nowNs, rt).0.Success? && Config.LoggingLevel(c).VStr? &&
            ExporterCheck(c, Config.Logging, rt.files).Some? ==>
              r.0 == Failure(ConfigFailure(ExporterCheck(c, Config.Logging, rt.files).value))
  {
    var (m, c') := BuildResource(c, a, nowNs, rt);
    EntropyIrrelevant(c, c', Config.Logging, rt.files);
    match m
    case Failure(e) => (Failure(e), c')
    case Success(resource) =>
      match Config.LoggingLevel(c')
      case VStr(level) =>
        (match ExporterCheck(c', Config.Logging, rt.files)
         case Some(e) => (Failure(ConfigFailure(e)), c')
         case None => (Success(LoggerInst(resource, Handler(Metrics.GetLogLevel(level)))), c'))
      case _ => (Failure(AttributeError("lower")), c')
  }

  /** `_AnacondaMetrics(config, attributes)` as written: `__init__` sets
      `metric_reader` back to `None` after `_setup_metrics` stored the
      reader there. */
  function NewMetricsAsWritten(c: Config.Configuration, a: Attributes.Attrs, nowNs: int, rt: Runtime)
    : (r: (Result<MetricsInst, LifeError>, Config.Configuration))
    ensures r.0.Success? ==> !r.0.value.reader
  {
    var (m, c') := BuildResource(c, a, nowNs, rt);
    match m
    case Failure(e) => (Failure(e), c')
    case Success(resource) =>
      match ExporterCheck(c', Config.Metrics, rt.files)
      case Some(e) => (Failure(ConfigFailure(e)), c')
      case None => (Success(MetricsInst(resource, Metrics.Meter(Metrics.EmptyRegistry, []), false)), c')
  }

  /** `_AnacondaMetrics(config, attributes)` keeping the reader it set up,
      with an empty registry. */
  function NewMetrics(c: Config.Configuration, a: Attributes.Attrs, nowNs: int, rt: Runtime)
    : (r: (Result<MetricsInst, LifeError>, Config.Configuration))
    ensures r.0.Success? ==> r.0.value.reader && Metrics.WellFormed(r.0.value.meter.registry)
    ensures r.0.Success? ==> BuildResource(c, a, nowNs, rt).0 == Success(r.0.value.resource)
    ensures r.1 == BuildResource(c, a, nowNs, rt).1
    ensures BuildResource(c, a, nowNs, rt).0.Success? ==>
              r.0 == match ExporterCheck(c, Config.Metrics, rt.files)
                     case Some(e) => Failure(ConfigFailure(e))
                     case None => Success(MetricsInst(BuildResource(c, a, nowNs, rt).0.value, Metrics.Meter(Metrics.EmptyRegistry, []), true))
  {
    var (m, c') := BuildResource(c, a, nowNs, rt);
    EntropyIrrelevant(c, c', Config.Metrics, rt.files);
    match m
    case Failure(e) => (Failure(e), c')
    case Success(resource) =>
      match ExporterCheck(c', Config.Metrics, rt.files)
      case Some(e) => (Failure(ConfigFailure(e)), c')
      case None => (Success(MetricsInst(resource, Metrics.Meter(Metrics.EmptyRegistry, []), true)), c')
  }

  /** `_AnacondaTrace(config, attributes)`. */
  function NewTrace(c: Config.Configuration, a: Attributes.Attrs, nowNs: int, rt: Runtime)
    : (r: (Result<TraceInst, LifeError>, Config.Configuration))
    ensures r.0.Success? ==> BuildResource(c, a, nowNs, rt).0 == Success(r.0.value.resource)
    ensures r.1 == BuildResource(c, a, nowNs, rt).1
    ensures BuildResource(c, a, nowNs, rt).0.Success? ==>
              (r.0.Success? <==> ExporterCheck(c, Config.Tracing, rt.files).None?)
    ensures BuildResource(c, a, nowNs, rt).0.Success? && ExporterCheck(c, Config.Tracing, rt.files).Some? ==>
              r.0 == Failure(ConfigFailure(ExporterCheck(c, Config.Tracing, rt.files).value))
  {
    var (m, c') := BuildResource(c, a, nowNs, rt);
    EntropyIrrelevant(c, c', Config.Tracing, rt.files);
    match m
    case Failure(e) => (Failure(e), c')
    case Success(resource) =>
      match ExporterCheck(c', Config.Tracing, rt.files)
      case Some(e) => (Failure(ConfigFailure(e)), c')
      case None => (Success(TraceInst(resource)), c')
  }

  /** Builds the logger when it is listed; a failed build leaves the old
      singleton but keeps what the configuration learned. */
  function BuildLogging(s: State, a: Attributes.Attrs, nowNs: int, rt: Runtime): (r: (State, Option<LifeError>))
    requires s.config.Some? && s.signals.Some?
    ensures r.0.config.Some? && r.0.signals == s.signals && r.0.initialized == s.initialized
    ensures r.0.metrics == s.metrics && r.0.trace == s.trace
    ensures LoggingSignal !in s.signals.value ==> r == (s, None)
    ensures r.1.None? && LoggingSignal in s.signals.value ==> r.0.logger.Some?
    ensures r.1.Some? ==> r.0.logger == s.logger
  {
    if LoggingSignal !in s.signals.value then (s, None)
    else
      var (inst, c') := NewLogger(s.config.value, a, nowNs, rt);
      match inst
      case Failure(e) => (s.(config := Some(c')), Some(e))
      case Success(l) => (s.(config := Some(c'), logger := Some(l)), None)
  }

  /** Builds the metrics singleton when it is listed. */
  function BuildMetrics(s: State, a: Attributes.Attrs, nowNs: int, rt: Runtime): (r: (State, Option<LifeError>))
    requires s.config.Some? && s.signals.Some?
    ensures r.0.config.Some? && r.0.signals == s.signals && r.0.initialized == s.initialized
    ensures r.0.logger == s.logger && r.0.trace == s.trace
    ensures MetricsSignal !in s.signals.value ==> r == (s, None)
    ensures r.1.None? && MetricsSignal in s.signals.value ==> r.0.metrics.Some?
    ensures r.1.Some? ==> r.0.metrics == s.metrics
  {
    if MetricsSignal !in s.signals.value then (s, None)
    else
      var (inst, c') := NewMetrics(s.config.value, a, nowNs, rt);
      match inst
      case Failure(e) => (s.(config := Some(c')), Some(e))
      case Success(m) => (s.(config := Some(c'), metrics := Some(m)), None)
  }

  /** Builds the trace singleton when it is listed. */
  function BuildTracing(s: State, a: Attributes.Attrs, nowNs: int, rt: Runtime): (r: (State, Option<LifeError>))
    requires s.config.Some? && s.signals.Some?
    ensures r.0.config.Some? && r.0.signals == s.signals && r.0.initialized == s.initialized
    ensures r.0.logger == s.logger && r.0.metrics == s.metrics
    ensures TracingSignal !in s.signals.value ==> r == (s, None)
    ensures r.1.None? && TracingSignal in s.signals.value ==> r.0.trace.Some?
    ensures r.1.Some? ==> r.0.trace == s.trace
  {
    if TracingSignal !in s.signals.value then (s, None)
    else
      var (inst, c') := NewTrace(s.config.value, a, nowNs, rt);
      match inst
      case Failure(e) => (s.(config := Some(c')), Some(e))
      case Success(t) => (s.(config := Some(c'), trace := Some(t)), None)
  }

  /** The listed signals built in the order logging, metrics, tracing,
      each reading the clock once (`clock(0)`, `clock(1)`, `clock(2)`);
      the first failure stops the rest. */
  function BuildAll(s: State, a: Attributes.Attrs, clock: nat -> int, rt: Runtime): (r: (State, Option<LifeError>))
    requires s.config.Some? && s.signals.Some?
    ensures r.0.config.Some? && r.0.signals == s.signals && r.0.initialized == s.initialized
  {
    var (s1, e1) := BuildLogging(s, a, clock(0), rt);
    if e1.Some? then (s1, e1)
    else
      var (s2, e2) := BuildMetrics(s1, a, clock(1), rt);
      if e2.Some? then (s2, e2)
      else BuildTracing(s2, a, clock(2), rt)
  }

  /** `type(attributes.parameters) != dict` and the missing attribute. */
  function CheckParameters(a: Attributes.Attrs): (r: Option<LifeError>)
    ensures r.None? <==> Attributes.ParametersName in a.fields && a.fields[Attributes.ParametersName].FParams?
  {
    if Attributes.ParametersName !in a.fields then Some(AttributeError(Attributes.ParametersName))
    else if !a.fields[Attributes.ParametersName].FParams? then
      Some(ValueError("The parameters attribute in ResourceAttributes must be a dictionary"))
    else None
  }

  /** The first step of `re_initialize_telemetry`: tear down when the flag
      is set. */
  function Reset(s: State): (r: (State, seq<Effect>))
    requires s.signals.Some?
    ensures !r.0.initialized && r.0.config == s.config && r.0.signals == s.signals
  {
    if s.initialized then TearDown(s) else (s, [])
  }

  /** The warning given when no known signal is listed. */
  function NoSignalsNote(signals: seq<string>): (r: seq<Effect>)
    ensures forall e :: e in r ==> e == NoSignalsWarning
    ensures NoSignalsWarning in r <==> LoggingSignal !in signals && MetricsSignal !in signals && TracingSignal !in signals
  {
    if LoggingSignal !in signals && MetricsSignal !in signals && TracingSignal !in signals then [NoSignalsWarning] else []
  }

  /** `__check_internet_status(config)`: nothing when the internet check
      is skipped; otherwise the default endpoint object is looked up, which
      raises `KeyError` without one, and an exception the connection
      attempt raises other than `OSError` propagates. The probe's result
      itself is discarded by its caller. */
  function CheckInternet(c: Config.Configuration, rt: Runtime): (r: Option<LifeError>)
    ensures r.None? <==>
              || Config.Truth(Config.SkipInternetCheck(c))
              || (Config.DefaultEndpointName in c.endpoints && rt.connect(c.endpoints[Config.DefaultEndpointName].host).None?)
    ensures r.Some? ==> r.value.ProbeError? || r.value == ConfigFailure(Config.MissingKey(Config.DefaultEndpointName))
    ensures r.Some? && r.value.ProbeError? ==>
              Config.DefaultEndpointName in c.endpoints
              && rt.connect(c.endpoints[Config.DefaultEndpointName].host) == Some(r.value.name)
  {
    if Config.Truth(Config.SkipInternetCheck(c)) then None
    else
      match Config.DefaultEndpointObject(c)
      case Failure(e) => Some(ConfigFailure(e))
      case Success(ep) =>
        match rt.connect(ep.host)
        case Some(name) => Some(ProbeError(name))
        case None => None
  }

  /** `re_initialize_telemetry(attributes)`. */
  function ReInitialize(s: State, attrs: Option<Attributes.Attrs>, clock: nat -> int, rt: Runtime): (r: Step)
    requires Inv(s)
    ensures Inv(r.state)
    ensures IsFirstTime(s) ==> r == Step(s, [], Some(RuntimeError("re_initialize_telemetry called without first calling initialize_telemetry first!")))
    ensures !IsFirstTime(s) ==> r.state.config.Some? && r.state.signals == s.signals
    ensures r.state.initialized <==> r.error.None?
  {
    if IsFirstTime(s) then
      Step(s, [], Some(RuntimeError("re_initialize_telemetry called without first calling initialize_telemetry first!")))
    else
      var (s1, torn) := Reset(s);
      if attrs.None? then Step(s1, torn, Some(ValueError("The attributes argument is required but was None")))
      else
        match CheckParameters(attrs.value)
        case Some(e) => Step(s1, torn, Some(e))
        case None =>
          match CheckInternet(s.config.value, rt)
          case Some(e) => Step(s1, torn, Some(e))
          case None =>
            var (s2, err) := BuildAll(s1, attrs.value, clock, rt);
            if err.Some? then Step(s2, torn, err)
            else Step(s2.(initialized := true), torn + NoSignalsNote(s.signals.value), None)
  }

  /** `initialize_telemetry(config, attributes, signal_types)`. */
  function Initialize(s: State, config: Option<Config.Configuration>, attrs: Option<Attributes.Attrs>,
                      signals: seq<string>, clock: nat -> int, rt: Runtime): (r: Step)
    requires Inv(s)
    ensures Inv(r.state)
    ensures s.initialized ==> r == Step(s, [], None)
    ensures !s.initialized && config.None? ==> r == Step(s, [], Some(ValueError("The config argument is required but was None")))
    ensures !s.initialized && config.Some? && attrs.None? ==>
              r == Step(s, [], Some(ValueError("The attributes argument is required but was None")))
  {
    if s.initialized then Step(s, [], None)
    else if config.None? then Step(s, [], Some(ValueError("The config argument is required but was None")))
    else if attrs.None? then Step(s, [], Some(ValueError("The attributes argument is required but was None")))
    else ReInitialize(s.(config := config, signals := Some(signals)), attrs, clock, rt)
  }

  // ---------------------------------------------------------------------
  // What re-initialising guarantees
  // ---------------------------------------------------------------------

  /** Which signals the effects say were torn down, and whether the
      no-signal warning was given. */
  predicate TornDownExactly(s: State, effects: seq<Effect>)
    requires s.signals.Some?
  {
    && (TornDown(MetricsSignal) in effects <==> s.initialized && MetricsSignal in s.signals.value && s.metrics.Some?)
    && (TornDown(TracingSignal) in effects <==> s.initialized && TracingSignal in s.signals.value && s.trace.Some?)
    && (TornDown(LoggingSignal) in effects <==> s.initialized && LoggingSignal in s.signals.value && s.logger.Some?)
  }

  /** A successful `re_initialize_telemetry` tears down exactly the live
      instances of the stored signals (when the flag was set), builds
      exactly the listed signals, leaves the others' singletons alone, and
      warns exactly when no known signal is listed. */
  lemma ReInitializeBuildsListed(s: State, attrs: Option<Attributes.Attrs>, clock: nat -> int, rt: Runtime)
    requires Inv(s)
    requires ReInitialize(s, attrs, clock, rt).error.None?
    ensures s.signals.Some?
    ensures var r := ReInitialize(s, attrs, clock, rt);
            var signals := s.signals.value;
            && r.state.initialized
            && (LoggingSignal in signals ==> r.state.logger.Some?)
            && (MetricsSignal in signals ==> r.state.metrics.Some?)
            && (TracingSignal in signals ==> r.state.trace.Some?)
            && (LoggingSignal !in signals ==> r.state.logger == s.logger)
            && (MetricsSignal !in signals ==> r.state.metrics == s.metrics)
            && (TracingSignal !in signals ==> r.state.trace == s.trace)
            && TornDownExactly(s, r.effects)
            && (NoSignalsWarning in r.effects <==>
                  LoggingSignal !in signals && MetricsSignal !in signals && TracingSignal !in signals)
  {
    ReInitializeSucceeds(s, attrs, clock, rt);
    var (s1, torn) := Reset(s);
    ResetTearsDown(s);
    BuildAllListed(s1, attrs.value, clock, rt);
    var note := NoSignalsNote(s.signals.value);
    assert TornDownExactly(s, torn + note) by {
      forall x ensures TornDown(x) in torn + note <==> TornDown(x) in torn {
        assert TornDown(x) !in note;
      }
    }
  }

  /** A successful `re_initialize_telemetry` found a stored configuration,
      signal list and attributes, tore down, built every listed signal
      without error, and set the flag. */
  lemma ReInitializeSucceeds(s: State, attrs: Option<Attributes.Attrs>, clock: nat -> int, rt: Runtime)
    requires Inv(s)
    requires ReInitialize(s, attrs, clock, rt).error.None?
    ensures !IsFirstTime(s) && s.config.Some? && s.signals.Some? && attrs.Some?
    ensures CheckParameters(attrs.value).None? && CheckInternet(s.config.value, rt).None?
    ensures var t := Reset(s);
            var b := BuildAll(t.0, attrs.value, clock, rt);
            && b.1.None?
            && ReInitialize(s, attrs, clock, rt) == Step(b.0.(initialized := true), t.1 + NoSignalsNote(s.signals.value), None)
  {
  }

  /** An exception the connectivity probe raises ends `re_initialize_telemetry`
      after the tear-down and the parameter checks: no signal is built and
      the flag stays unset. */
  lemma ReInitializeProbeRaises(s: State, a: Attributes.Attrs, clock: nat -> int, rt: Runtime)
    requires Inv(s) && !IsFirstTime(s)
    requires CheckParameters(a).None?
    requires s.config.Some? && CheckInternet(s.config.value, rt).Some?
    ensures var r := ReInitialize(s, Some(a), clock, rt);
            && r.error == CheckInternet(s.config.value, rt)
            && r.state == Reset(s).0 && !r.state.initialized
            && r.effects == Reset(s).1
  {
  }

  /** Resetting tears down exactly the live instances of the stored
      signals when the flag is set, gives no warning, and keeps the
      singletons of the unlisted signals. */
  lemma ResetTearsDown(s: State)
    requires s.signals.Some?
    ensures TornDownExactly(s, Reset(s).1) && NoSignalsWarning !in Reset(s).1
    ensures LoggingSignal !in s.signals.value ==> Reset(s).0.logger == s.logger
    ensures MetricsSignal !in s.signals.value ==> Reset(s).0.metrics == s.metrics
    ensures TracingSignal !in s.signals.value ==> Reset(s).0.trace == s.trace
  {
    if s.initialized && MetricsSignal in s.signals.value && s.metrics.Some? {
      assert NoSignalsWarning !in MetricsTearDown(s.metrics.value);
    }
  }

  /** Building without error gives every listed signal an instance and
      leaves the others' singletons alone. */
  lemma BuildAllListed(s: State, a: Attributes.Attrs, clock: nat -> int, rt: Runtime)
    requires s.config.Some? && s.signals.Some?
    requires BuildAll(s, a, clock, rt).1.None?
    ensures var r := BuildAll(s, a, clock, rt).0;
            var signals := s.signals.value;
            && (LoggingSignal in signals ==> r.logger.Some?)
            && (MetricsSignal in signals ==> r.metrics.Some?)
            && (TracingSignal in signals ==> r.trace.Some?)
            && (LoggingSignal !in signals ==> r.logger == s.logger)
            && (MetricsSignal !in signals ==> r.metrics == s.metrics)
            && (TracingSignal !in signals ==> r.trace == s.trace)
  {
    var (t1, e1) := BuildLogging(s, a, clock(0), rt);
    var (t2, e2) := BuildMetrics(t1, a, clock(1), rt);
    var (t3, e3) := BuildTracing(t2, a, clock(2), rt);
  }

  /** Building twice, the second time with the configuration the first
      returned, gives the same resource: the session entropy is fixed by
      the first build. */
  lemma BuildResourceAgain(c: Config.Configuration, a: Attributes.Attrs, t1: int, t2: int, rt: Runtime)
    requires BuildResource(c, a, t1, rt).0.Success?
    ensures BuildResource(BuildResource(c, a, t1, rt).1, a, t2, rt) == BuildResource(c, a, t1, rt)
  {
    var fields := Resource.ClassDefaults(Attributes.GetAttributes(a));
    Resource.BuildResourceStable(c, fields, t1, t2, rt.py);
  }

  /** The stored configuration has fixed its session entropy, so every
      later build from it gives the resource `m` and changes nothing. */
  ghost predicate Settled(s: State, a: Attributes.Attrs, rt: Runtime, m: ResourceMap) {
    s.config.Some? && forall t :: BuildResource(s.config.value, a, t, rt) == (Success(m), s.config.value)
  }

  /** The first build that succeeds settles the configuration it returns. */
  lemma BuildSettles(c: Config.Configuration, a: Attributes.Attrs, t: int, rt: Runtime)
    requires BuildResource(c, a, t, rt).0.Success?
    ensures forall t2 :: BuildResource(BuildResource(c, a, t, rt).1, a, t2, rt) == BuildResource(c, a, t, rt)
  {
    forall t2 ensures BuildResource(BuildResource(c, a, t, rt).1, a, t2, rt) == BuildResource(c, a, t, rt) {
      BuildResourceAgain(c, a, t, t2, rt);
    }
  }

  lemma LoggingSettles(s: State, a: Attributes.Attrs, t: int, rt: Runtime)
    requires s.config.Some? && s.signals.Some? && LoggingSignal in s.signals.value
    requires BuildLogging(s, a, t, rt).1.None?
    ensures var r := BuildLogging(s, a, t, rt).0;
            Settled(r, a, rt, r.logger.value.resource)
  {
    BuildSettles(s.config.value, a, t, rt);
  }

  lemma MetricsSettles(s: State, a: Attributes.Attrs, t: int, rt: Runtime)
    requires s.config.Some? && s.signals.Some? && MetricsSignal in s.signals.value
    requires BuildMetrics(s, a, t, rt).1.None?
    ensures var r := BuildMetrics(s, a, t, rt).0;
            Settled(r, a, rt, r.metrics.value.resource)
  {
    BuildSettles(s.config.value, a, t, rt);
  }

  /** From a settled configuration, the next builds take its resource and
      leave the configuration as it is; they fail only where the exporter's
      getters raise. */
  lemma MetricsSettled(s: State, a: Attributes.Attrs, t: int, rt: Runtime, m: ResourceMap)
    requires s.signals.Some? && Settled(s, a, rt, m) && MetricsSignal in s.signals.value
    ensures var r := BuildMetrics(s, a, t, rt);
            (r.1.None? <==> ExporterCheck(s.config.value, Config.Metrics, rt.files).None?)
            && (r.1.None? ==> r.0.metrics.value.resource == m && Settled(r.0, a, rt, m))
  {
    assert BuildResource(s.config.value, a, t, rt) == (Success(m), s.config.value);
  }

  lemma TracingSettled(s: State, a: Attributes.Attrs, t: int, rt: Runtime, m: ResourceMap)
    requires s.signals.Some? && Settled(s, a, rt, m) && TracingSignal in s.signals.value
    ensures var r := BuildTracing(s, a, t, rt);
            (r.1.None? <==> ExporterCheck(s.config.value, Config.Tracing, rt.files).None?)
            && (r.1.None? ==> r.0.trace.value.resource == m)
  {
    assert BuildResource(s.config.value, a, t, rt) == (Success(m), s.config.value);
  }

  /** Every signal one successful `BuildAll` builds carries the same
      resource. */
  lemma BuildAllSharesResource(s: State, a: Attributes.Attrs, clock: nat -> int, rt: Runtime)
    requires s.config.Some? && s.signals.Some?
    requires BuildAll(s, a, clock, rt).1.None?
    ensures var r := BuildAll(s, a, clock, rt).0;
            var signals := s.signals.value;
            && (LoggingSignal in signals && MetricsSignal in signals ==> r.logger.value.resource == r.metrics.value.resource)
            && (MetricsSignal in signals && TracingSignal in signals ==> r.metrics.value.resource == r.trace.value.resource)
            && (LoggingSignal in signals && TracingSignal in signals ==> r.logger.value.resource == r.trace.value.resource)
  {
    var signals := s.signals.value;
    var (s1, e1) := BuildLogging(s, a, clock(0), rt);
    var (s2, e2) := BuildMetrics(s1, a, clock(1), rt);
    if LoggingSignal in signals {
      var m := s1.logger.value.resource;
      LoggingSettles(s, a, clock(0), rt);
      if MetricsSignal in signals {
        MetricsSettled(s1, a, clock(1), rt, m);
        if TracingSignal in signals {
          TracingSettled(s2, a, clock(2), rt, m);
        }
      } else if TracingSignal in signals {
        TracingSettled(s2, a, clock(2), rt, m);
      }
    } else if MetricsSignal in signals && TracingSignal in signals {
      MetricsSettles(s1, a, clock(1), rt);
      TracingSettled(s2, a, clock(2), rt, s2.metrics.value.resource);
    }
  }

  /** Every signal one successful `re_initialize_telemetry` builds carries
      the same resource, so the same `session.id`. */
  lemma ReInitializeSharesResource(s: State, attrs: Option<Attributes.Attrs>, clock: nat -> int, rt: Runtime)
    requires Inv(s)
    requires ReInitialize(s, attrs, clock, rt).error.None?
    ensures s.signals.Some?
    ensures var r := ReInitialize(s, attrs, clock, rt).state;
            && (LoggingSignal in s.signals.value ==> r.logger.Some?)
            && (MetricsSignal in s.signals.value ==> r.metrics.Some?)
            && (TracingSignal in s.signals.value ==> r.trace.Some?)
    ensures var r := ReInitialize(s, attrs, clock, rt).state;
            var signals := s.signals.value;
            && (LoggingSignal in signals && MetricsSignal in signals ==> r.logger.value.resource == r.metrics.value.resource)
            && (MetricsSignal in signals && TracingSignal in signals ==> r.metrics.value.resource == r.trace.value.resource)
            && (LoggingSignal in signals && TracingSignal in signals ==> r.logger.value.resource == r.trace.value.resource)
  {
    ReInitializeSucceeds(s, attrs, clock, rt);
    BuildAllListed(Reset(s).0, attrs.value, clock, rt);
    BuildAllSharesResource(Reset(s).0, attrs.value, clock, rt);
  }

  // ---------------------------------------------------------------------
  // The metrics reader at tear-down
  // ---------------------------------------------------------------------

  /** As written, tearing down a freshly built metrics instance never
      flushes or shuts down its reader: `metric_reader` is `None`. */
  lemma TearDownAsWrittenSkipsReader(c: Config.Configuration, a: Attributes.Attrs, nowNs: int, rt: Runtime)
    requires NewMetricsAsWritten(c, a, nowNs, rt).0.Success?
    ensures MetricsTearDown(NewMetricsAsWritten(c, a, nowNs, rt).0.value) == [TornDown(MetricsSignal)]
  {
  }

  /** Every live metrics instance keeps its reader and a well-formed
      registry. */
  predicate ReaderKept(s: State) {
    s.metrics.Some? ==> s.metrics.value.reader && Metrics.WellFormed(s.metrics.value.meter.registry)
  }

  /** Building keeps every live metrics instance's reader. */
  lemma BuildAllKeepsReader(s: State, a: Attributes.Attrs, clock: nat -> int, rt: Runtime)
    requires s.config.Some? && s.signals.Some? && ReaderKept(s)
    ensures ReaderKept(BuildAll(s, a, clock, rt).0)
  {
    var (s1, e1) := BuildLogging(s, a, clock(0), rt);
    assert ReaderKept(s1);
    var (s2, e2) := BuildMetrics(s1, a, clock(1), rt);
    assert ReaderKept(s2);
  }

  /** Tearing down a live metrics instance that kept its reader flushes,
      then shuts down, the reader. */
  lemma TearDownFlushesReader(s: State)
    requires s.signals.Some? && ReaderKept(s)
    ensures ReaderKept(TearDown(s).0)
    ensures MetricsSignal in s.signals.value && s.metrics.Some? ==>
              TearDown(s).1[..3] == [ReaderFlushed, ReaderShutdown, TornDown(MetricsSignal)]
  {
    if MetricsSignal in s.signals.value && s.metrics.Some? {
      var e1 := MetricsTearDown(s.metrics.value);
      assert e1 == [ReaderFlushed, ReaderShutdown, TornDown(MetricsSignal)];
    }
  }

  /** Re-initialising keeps every live metrics instance's reader, and
      tears a live one down by flushing, then shutting down, its reader. */
  lemma ReInitializeFlushesReader(s: State, attrs: Option<Attributes.Attrs>, clock: nat -> int, rt: Runtime)
    requires Inv(s) && ReaderKept(s)
    ensures ReaderKept(ReInitialize(s, attrs, clock, rt).state)
    ensures s.initialized && MetricsSignal in s.signals.value && s.metrics.Some? ==>
              ReInitialize(s, attrs, clock, rt).effects[..3] == [ReaderFlushed, ReaderShutdown, TornDown(MetricsSignal)]
  {
    ReInitializeKeepsReader(s, attrs, clock, rt);
    if s.initialized && MetricsSignal in s.signals.value && s.metrics.Some? {
      ReInitializeAfterReset(s, attrs, clock, rt);
      TearDownFlushesReader(s);
      var e := ReInitialize(s, attrs, clock, rt).effects;
      assert e[..3] == e[..|TearDown(s).1|][..3];
    }
  }

  /** Re-initialising keeps every live metrics instance's reader. */
  lemma ReInitializeKeepsReader(s: State, attrs: Option<Attributes.Attrs>, clock: nat -> int, rt: Runtime)
    requires Inv(s) && ReaderKept(s)
    ensures ReaderKept(ReInitialize(s, attrs, clock, rt).state)
  {
    if !IsFirstTime(s) {
      ReInitializeAfterReset(s, attrs, clock, rt);
      var (s1, torn) := Reset(s);
      if s.initialized {
        TearDownFlushesReader(s);
      }
      if attrs.Some? {
        BuildAllKeepsReader(s1, attrs.value, clock, rt);
      }
    }
  }

  /** Once past the first-time check, `re_initialize_telemetry` starts
      with the reset's effects and ends in the reset state or in the state
      building left, flag aside. */
  lemma ReInitializeAfterReset(s: State, attrs: Option<Attributes.Attrs>, clock: nat -> int, rt: Runtime)
    requires Inv(s) && !IsFirstTime(s)
    ensures s.config.Some? && s.signals.Some?
    ensures var r := ReInitialize(s, attrs, clock, rt);
            var t := Reset(s);
            && |t.1| <= |r.effects| && r.effects[..|t.1|] == t.1
            && (r.state == t.0 || (attrs.Some? && r.state.(initialized := false) == BuildAll(t.0, attrs.value, clock, rt).0))
  {
    var r := ReInitialize(s, attrs, clock, rt);
    var t := Reset(s);
    assert r.effects == t.1 || r.effects == t.1 + NoSignalsNote(s.signals.value);
  }

  // ---------------------------------------------------------------------
  // The public functions
  // ---------------------------------------------------------------------

  /** The metrics singleton with its meter replaced. */
  function WithMeter(s: State, m: Metrics.Meter): (r: State)
    requires s.metrics.Some?
    ensures r.metrics == Some(s.metrics.value.(meter := m))
  {
    s.(metrics := Some(s.metrics.value.(meter := m)))
  }

  /** `increment_counter(counter_name, by, attributes)`: `False` when not
      initialised or without a metrics singleton (its `AttributeError` is
      caught), else the singleton's answer. */
  function IncrementCounter(s: State, name: string, amount: int, attributes: map<string, string>): (r: (bool, State))
    ensures !s.initialized || s.metrics.None? ==> r == (false, s)
    ensures s.initialized && s.metrics.Some? ==>
              var (ok, m') := Metrics.IncrementCounter(s.metrics.value.meter, name, amount, attributes);
              r == (ok, WithMeter(s, m'))
  {
    if !s.initialized || s.metrics.None? then (false, s)
    else
      var (ok, m') := Metrics.IncrementCounter(s.metrics.value.meter, name, amount, attributes);
      (ok, WithMeter(s, m'))
  }

  /** `decrement_counter(counter_name, by, attributes)`. */
  function DecrementCounter(s: State, name: string, amount: int, attributes: map<string, string>): (r: (bool, State))
    ensures !s.initialized || s.metrics.None? ==> r == (false, s)
    ensures s.initialized && s.metrics.Some? ==>
              var (ok, m') := Metrics.DecrementCounter(s.metrics.value.meter, name, amount, attributes);
              r == (ok, WithMeter(s, m'))
  {
    if !s.initialized || s.metrics.None? then (false, s)
    else
      var (ok, m') := Metrics.DecrementCounter(s.metrics.value.meter, name, amount, attributes);
      (ok, WithMeter(s, m'))
  }

  /** `record_histogram(metric_name, value, attributes)`. */
  function RecordHistogram(s: State, name: string, value: int, attributes: map<string, string>): (r: (bool, State))
    ensures !s.initialized || s.metrics.None? ==> r == (false, s)
    ensures s.initialized && s.metrics.Some? ==>
              var (ok, m') := Metrics.RecordHistogram(s.metrics.value.meter, name, value, attributes);
              r == (ok, WithMeter(s, m'))
  {
    if !s.initialized || s.metrics.None? then (false, s)
    else
      var (ok, m') := Metrics.RecordHistogram(s.metrics.value.meter, name, value, attributes);
      (ok, WithMeter(s, m'))
  }

  /** The public metric functions never raise, change nothing but the
      metrics singleton's meter, and keep its reader and registry well
      formed. */
  lemma FacadesKeepState(s: State, name: string, v: int, attributes: map<string, string>)
    requires Inv(s) && ReaderKept(s)
    ensures var r := IncrementCounter(s, name, v, attributes).1;
            Inv(r) && ReaderKept(r) && r.(metrics := s.metrics) == s
    ensures var r := DecrementCounter(s, name, v, attributes).1;
            Inv(r) && ReaderKept(r) && r.(metrics := s.metrics) == s
    ensures var r := RecordHistogram(s, name, v, attributes).1;
            Inv(r) && ReaderKept(r) && r.(metrics := s.metrics) == s
  {
    if s.initialized && s.metrics.Some? {
      Metrics.RecordingKeepsWellFormed(s.metrics.value.meter, name, v, attributes);
    }
  }

  /** `get_trace(name, attributes)`: `None` for `attributes` stands for an
      omitted argument, which starts from a fresh empty dictionary;
      `startOk` is whether the tracer's `start_span` succeeds. */
  function GetTrace(s: State, name: string, attributes: Option<Span.AttrDict>, startOk: bool, body: seq<Span.Action>)
    : (r: Span.TraceResult)
    ensures !s.initialized ==> r.span.None? && r.raised == Some(Span.DidNotYield)
    ensures s.initialized && s.trace.None? ==> r.span == Some(Span.NoopSpan)
  {
    var env := Span.TraceEnv(s.initialized, s.trace.Some?, startOk);
    if attributes.None? then Span.GetTraceFresh(env, name, body)
    else Span.GetTrace(env, name, attributes.value, body)
  }

  /** `get_telemetry_logger_handler()`: `RuntimeError` when not
      initialised, else the logging singleton's handler, or `None`
      without one. */
  function GetTelemetryLoggerHandler(s: State): (r: Result<Option<Handler>, LifeError>)
    ensures r.Failure? <==> !s.initialized
    ensures r.Failure? ==> r.error.RuntimeError?
    ensures r.Success? ==> (r.value.None? <==> s.logger.None?)
    ensures r.Success? && r.value.Some? ==> r.value.value == s.logger.value.handler
  {
    if !s.initialized then Failure(RuntimeError("Anaconda telemetry system not initialized."))
    else if s.logger.Some? then Success(Some(s.logger.value.handler))
    else Success(None)
  }

  /** After a successful initialisation with logging listed, the handler is
      there and its level is the configured level's. */
  lemma HandlerAfterInitialize(config: Config.Configuration, a: Attributes.Attrs, signals: seq<string>,
                               clock: nat -> int, rt: Runtime)
    requires LoggingSignal in signals
    requires Initialize(Start, Some(config), Some(a), signals, clock, rt).error.None?
    ensures var r := Initialize(Start, Some(config), Some(a), signals, clock, rt).state;
            GetTelemetryLoggerHandler(r).Success? && GetTelemetryLoggerHandler(r).value.Some?
    ensures var r := Initialize(Start, Some(config), Some(a), signals, clock, rt).state;
            Config.LoggingLevel(config).VStr? &&
            GetTelemetryLoggerHandler(r).value.value.level == Metrics.GetLogLevel(Config.LoggingLevel(config).s)
  {
    var s0 := Start.(config := Some(config), signals := Some(signals));
    ReInitializeBuildsListed(s0, Some(a), clock, rt);
    ReInitializeSucceeds(s0, Some(a), clock, rt);
    assert Reset(s0) == (s0, []);
    var (s1, e1) := BuildLogging(s0, a, clock(0), rt);
    var (s2, e2) := BuildMetrics(s1, a, clock(1), rt);
    var (s3, e3) := BuildTracing(s2, a, clock(2), rt);
    assert s1.logger == Some(NewLogger(config, a, clock(0), rt).0.value);
  }

  /** A listed signal whose exporter takes a certificate that cannot be
      read stops initialisation: logging over gRPC with TLS, its certificate
      naming a file that does not exist, makes `initialize_telemetry` raise
      the certificate getter's error, and the flag stays unset. */
  lemma InitializeNeedsCertificate(config: Config.Configuration, a: Attributes.Attrs, signals: seq<string>,
                                   clock: nat -> int, rt: Runtime, path: string)
    requires config.Wellformed()
    requires LoggingSignal in signals && CheckParameters(a).None?
    requires BuildResource(config, a, clock(0), rt).0.Success? && Config.LoggingLevel(config).VStr?
    requires !Config.Truth(Config.ConsoleExporter(config))
    requires Config.Tls(config, Config.Logging) == Success(true)
    requires GrpcExporter(Config.RequestProtocol(config, Config.Logging).value)
    requires Config.CaCertValue(config, Config.Logging) == Config.VStr(path) && path != "" && path !in rt.files
    requires CheckInternet(config, rt).None?
    ensures var r := Initialize(Start, Some(config), Some(a), signals, clock, rt);
            r.error == Some(ConfigFailure(Config.FileNotFound(path))) && !r.state.initialized && r.state.logger.None?
  {
    ExporterCheckWellformed(config, Config.Logging, rt.files);
    assert Config.CaCert(config, Config.Logging, rt.files) == Failure(Config.FileNotFound(path));
    var s0 := Start.(config := Some(config), signals := Some(signals));
    assert Reset(s0) == (s0, []);
    assert BuildLogging(s0, a, clock(0), rt).1 == Some(ConfigFailure(Config.FileNotFound(path)));
  }
}
