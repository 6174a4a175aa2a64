# anaconda-opentelemetry, modelled in Dafny

A model of the core of the `anaconda_opentelemetry` package, with proofs about it. The package wraps the OpenTelemetry SDK: it
configures and starts the three telemetry signals (logging, metrics and tracing), and it keeps one shared resource that
describes the client. The model covers the following parts:

- **The `Configuration` class** (`config.py`):
  - merging the caller's dictionary, the default endpoint and the `ATEL_*` environment variables;
  - the endpoint parser `_Endpoint`, both its regular expression and its address and port checks;
  - the normalisation of booleans, integers and the `OTEL_SDK_DISABLED` override;
  - every setter and getter, including the per-signal fallbacks, the request paths, TLS, the protocols, and the
    CA-certificate preparation.
- **The `ResourceAttributes` record** (`attributes.py`):
  - the guarded `__setattr__` with its read-only fields and its service-name check;
  - the generated `__init__` and `__post_init__`;
  - `_get_attributes` and `set_attributes`.
- **The signal module** (`signals.py`):
  - `make_otel_resource` and `_hash_session_id`;
  - the log-level lookup;
  - the metric registry and its counters and histograms;
  - the `_ASpan` wrapper and the `get_trace` context manager;
  - the module-level lifecycle: `initialize_telemetry`, `re_initialize_telemetry`, the tear-downs, the public metric
    functions and `get_telemetry_logger_handler`.
- **The exporter shims** (`exporter_shim.py`): an exporter whose identity stays fixed while the OTLP exporter it wraps
  is replaced when a signal's endpoint changes.

The modules follow that structure:

| module | file | models |
|---|---|---|
| `Wrappers` | `wrappers.dfy` | `Option` and `Result` |
| `Text` | `text.dfy` | the Python `str` operations the package relies on: `strip`, `lower`, `upper`, `split`, `in`, `int()`, `str()` |
| `Endpoint` | `endpoint.dfy` | `Configuration._Endpoint` |
| `Config` | `config.dfy` | `Configuration` |
| `Attributes` | `attributes.dfy` | `ResourceAttributes` |
| `Resource` | `resource.dfy` | `make_otel_resource` and the session id |
| `Metrics` | `metrics.dfy` | `_get_log_level` and the metric registry of `_AnacondaMetrics` |
| `Span` | `span.dfy` | `_ASpan` and the body of `get_trace` |
| `Lifecycle` | `lifecycle.dfy` | the module-level state of `signals.py` and its public functions |
| `Shim` | `shim.dfy` | `_OTLPExporterMixin` and its three subclasses |

Python objects become immutable values: the object in, the object out. Anything outside the package becomes a
parameter. That covers:

- the process environment (`env`);
- the clock (`nowNs`, `clock`);
- the host's OS, Python version and host name (`Attributes.Host`);
- the readable files (`files`);
- whether opening a connection to a host name raises something other than `OSError` (`connect`; with the files and
  `Resource.Py`, `Lifecycle.Runtime`);
- the order in which Python iterates a set (`readonlyOrder`);
- the SHA-256 hash and the JSON encoder (`Resource.Py`);
- the SDK's exporters and whether `start_span` succeeds;
- `Configuration._change_signal_endpoint` as the shim sees it, and whether the batch flush or the old exporter's
  `shutdown` raises during a swap (`Shim.Teardown`).

An exception is an error value: `Result`, or an `error`/`raised` field. Effects that matter are an explicit list:
- the metric reader's flush and shutdown;
- the tear-downs;
- the no-signal warning;
- the shim's state changes.

## Model

| member | source | states |
|---|---|---|
| Text.Strip | anaconda_opentelemetry/config.py:134 | `strip()` leaves no white space at either end, never lengthens the string, and empties it only when it is all white space; `Text.StripSlice` says which part of the input it is |
| Text.StripSlice | anaconda_opentelemetry/config.py:134 | the input is white space, then the result of `strip()`, then white space; with the ends `Text.Strip` states, this is exactly Python's `strip()` |
| Text.StripIdempotent | anaconda_opentelemetry/config.py:134 | stripping twice is stripping once |
| Text.StripLower | anaconda_opentelemetry/config.py:149-152 | `s.lower().strip() == s.strip().lower()`, so the truthiness test may strip before lower-casing |
| Text.Split | anaconda_opentelemetry/config.py:522 | `split` always gives at least one piece; `Text.JoinSplit` and `Text.SplitJoin` pin the pieces |
| Text.SplitCovers | anaconda_opentelemetry/config.py:522 | every character of the input is a separator or lies in some piece |
| Text.SplitPiecesFree | anaconda_opentelemetry/config.py:522 | no piece contains the separator |
| Text.JoinSplit | anaconda_opentelemetry/config.py:522 | joining the pieces with the separator gives the input back, so the pieces are the input's text in order |
| Text.SplitJoin | anaconda_opentelemetry/config.py:522 | pieces free of the separator are exactly what splitting their join gives back, so `split` and `join` are inverse |
| Text.SplitCount | anaconda_opentelemetry/config.py:522-524 | there is one more piece than separators, so `len(quads) != 4` tests for three dots |
| Text.DecimalRoundTrip | anaconda_opentelemetry/config.py:158-164 | the digits `str(n)` prints read back as `n` |
| Text.PyIntRoundTrip | anaconda_opentelemetry/config.py:158-164 | `int(str(i)) == i` for every integer, negative ones included |
| Text.PyIntOfDigits | anaconda_opentelemetry/config.py:158-164 | `int()` of a plain run of digits is the number they denote |
| Text.PyInt | anaconda_opentelemetry/config.py:158-164 | `int()` of text that strips to nothing raises, and a negative result needs a leading minus sign |
| Endpoint.RunStopsAt | anaconda_opentelemetry/config.py:497-501 | a greedy run of host characters ends exactly where the class first fails |
| Endpoint.SchemeUnique | anaconda_opentelemetry/config.py:492 | no scheme of `https?://` and `grpcs?://` is a proper prefix of another, so at most one fits |
| Endpoint.Match | anaconda_opentelemetry/config.py:490-506 | when the recogniser reports groups, the pattern matches the string with those groups: scheme, host, optional port of one to five digits, optional path, with `$` admitting one final newline |
| Endpoint.MatchComplete | anaconda_opentelemetry/config.py:490-506 | whenever the pattern matches a string with some groups, the recogniser reports exactly those groups, so the reading is unique |
| Endpoint.DefaultOr | anaconda_opentelemetry/config.py:466-478 | the internet-check port is the explicit port, else 80 for `http` and 443 for the other protocols |
| Endpoint.ProtocolOf | anaconda_opentelemetry/config.py:515 | the protocol is the scheme without `://` and is one of `http`, `https`, `grpc`, `grpcs` |
| Endpoint.TlsOfProtocol | anaconda_opentelemetry/config.py:517 | the TLS flag (the last letter is `s`) holds exactly for `https` and `grpcs` |
| Endpoint.Accept | anaconda_opentelemetry/config.py:463-529 | after a match the parse succeeds exactly when the dotted-digit address is four quads within 0-255 with no 0 or 255 at either end and the port is 80, 443 or 1024-65535; the result keeps scheme, host and path, reads the port, and satisfies the endpoint invariant |
| Endpoint.Parse | anaconda_opentelemetry/config.py:451-529 | every failure is the one `ValueError` naming the input; a success satisfies the endpoint invariant: a known protocol, TLS exactly for the secure ones, a valid host, address and port, the internet-check port, and the URL rebuilt as `protocol://host[:port]path` |
| Endpoint.ParseOfGroups | anaconda_opentelemetry/config.py:504-512 | whichever way the pattern reads a string is the reading the parse checks |
| Endpoint.ParseAcceptsExactly | anaconda_opentelemetry/config.py:463-529 | a string is accepted if and only if the pattern reads it and the address and port checks pass on that reading |
| Endpoint.ParseIdempotent | anaconda_opentelemetry/config.py:480-487 | the rebuilt URL parses back to the same endpoint: normalising twice is normalising once |
| Config.MergeEnv | anaconda_opentelemetry/config.py:129-134 | exactly the listed keys whose `ATEL_` variable is set take its stripped value; every other key keeps its value |
| Config.Merged | anaconda_opentelemetry/config.py:121-134 | an invalid default endpoint raises the endpoint error; otherwise the merged keys are the caller's, the default endpoint's and the set variables' |
| Config.MergedPrecedence | anaconda_opentelemetry/config.py:121-134 | an `ATEL_` variable wins over the default endpoint argument, which wins over the caller's dictionary |
| Config.ConstructNeedsDefault | anaconda_opentelemetry/config.py:136-138 | construction fails for want of a default endpoint exactly when none of the argument, the dictionary and the environment gives one |
| Config.NormaliseEndpoints | anaconda_opentelemetry/config.py:140-147 | the endpoint loop keeps the keys, stores an endpoint for each listed key present, turns each value into its normalised URL, and leaves unlisted keys alone; it fails only with an endpoint error |
| Config.NormaliseEndpointsParsed | anaconda_opentelemetry/config.py:140-147 | every stored endpoint is the parse of the string value it was read from |
| Config.NormaliseEndpointsAccepts | anaconda_opentelemetry/config.py:140-147 | the loop succeeds when every endpoint value it meets parses |
| Config.NormaliseEndpointsRejects | anaconda_opentelemetry/config.py:140-147 | the loop fails when some endpoint value it meets does not parse |
| Config.NormaliseEndpointsOf | anaconda_opentelemetry/config.py:140-147 | after construction the stored endpoint objects are exactly the parses of the endpoint values present |
| Config.NormaliseBool | anaconda_opentelemetry/config.py:149-152 | a string boolean setting becomes whether it is one of `true`, `yes`, `1`, `on` after lower-casing and stripping; other values and keys are untouched |
| Config.SdkDisabledOverride | anaconda_opentelemetry/config.py:154-156 | only the skip setting changes, and only when the override fires |
| Config.NormaliseInt | anaconda_opentelemetry/config.py:158-164 | a string interval becomes `int()` of its stripped text, or raises the invalid-value error naming the key and the text; nothing else changes |
| Config.NormaliseWith | anaconda_opentelemetry/config.py:136-164 | a successful normalisation is well formed; it fails with the missing-default error exactly when the default endpoint key is absent |
| Config.NormaliseSucceeds | anaconda_opentelemetry/config.py:136-164 | normalisation succeeds if and only if the default endpoint is present, every endpoint value parses, and a string interval is one `int()` accepts |
| Config.NormaliseConsole | anaconda_opentelemetry/config.py:149-152 | a string console-exporter setting ends as whether it is a truthy word |
| Config.NormaliseSkip | anaconda_opentelemetry/config.py:149-156 | the skip setting is forced on when the override fires; otherwise a string setting becomes whether it is truthy |
| Config.NormaliseInterval | anaconda_opentelemetry/config.py:158-164 | a string interval ends as the integer `int()` reads from it |
| Config.IntervalRoundTrip | anaconda_opentelemetry/config.py:158-164 | an interval written as the decimal text of `i` is read back by the getter as `i` |
| Config.SdkExampleForces | anaconda_opentelemetry/config.py:154-156 | with `ATEL_SKIP_INTERNET_CHECK=false` and `OTEL_SDK_DISABLED=true`, the written guard lets the override fire and the intended guard does not |
| Config.SdkGuardAsWrittenOverrides | anaconda_opentelemetry/config.py:154-156 | as written, an explicit `ATEL_SKIP_INTERNET_CHECK=false` is overridden to `True` by `OTEL_SDK_DISABLED=true` |
| Config.SdkGuardKeepsSetting | anaconda_opentelemetry/config.py:154-156 | with the intended guard the same input keeps the explicit `False`, and normalisation still succeeds |
| Config.ConstructRespectsSkipSetting | anaconda_opentelemetry/config.py:129-156 | with the intended guard a set `ATEL_SKIP_INTERNET_CHECK` always decides the skip setting |
| Config.Normalise | anaconda_opentelemetry/config.py:136-164 | the constructor's normalisation, with the corrected guard, gives a well-formed configuration and fails for want of a default endpoint exactly when the key is absent |
| Config.Construct | anaconda_opentelemetry/config.py:121-164 | a constructed configuration, with the corrected guard, is well formed |
| Config.ConstructAsWritten | anaconda_opentelemetry/config.py:121-164 | the constructor with the guard as written gives a well-formed configuration |
| Config.NormaliseGuardsAlike | anaconda_opentelemetry/config.py:154-156 | two guards that let the override fire on the same environments normalise every dictionary alike |
| Config.ConstructGuardsAgree | anaconda_opentelemetry/config.py:121-164 | the written and the corrected constructor succeed on the same inputs, and give the same configuration unless `OTEL_SDK_DISABLED` is truthy and exactly one of `skip_internet_check` and `ATEL_SKIP_INTERNET_CHECK` is set |
| Config.SetValue | anaconda_opentelemetry/config.py:225-448 | a setter writes its one key and changes no other key and no endpoint object; well-formedness is kept |
| Config.SetEndpoint | anaconda_opentelemetry/config.py:168-223 | a signal's endpoint setter fails exactly when the endpoint does not parse, with the endpoint error; on success it stores the parsed object under that signal's key only |
| Config.SetConsoleExporter | anaconda_opentelemetry/config.py:225-241 | the console getter reports the value set; the endpoints and well-formedness are kept |
| Config.SetAuthToken | anaconda_opentelemetry/config.py:243-256 | the default token getter reports the token set, and every signal without a token of its own now reports it too, while the others keep theirs |
| Config.SetAuthTokenFor | anaconda_opentelemetry/config.py:258-298 | that signal's token getter reports the token set, and every other signal's token is unchanged |
| Config.SetTlsPrivateCaCert | anaconda_opentelemetry/config.py:300-319 | every signal without a certificate of its own now uses the path set, and the others keep theirs |
| Config.SetTlsPrivateCaCertFor | anaconda_opentelemetry/config.py:321-382 | that signal uses the path set, and every other signal's certificate is unchanged |
| Config.SetTracingSessionEntropy | anaconda_opentelemetry/config.py:421-434 | the entropy getter then returns the value set, or draws the clock reading when `None` was set |
| Config.SetSkipInternetCheck | anaconda_opentelemetry/config.py:436-448 | the skip getter reports the value set; the endpoints and well-formedness are kept |
| Config.SetLoggingLevel | anaconda_opentelemetry/config.py:384-400 | a level outside the seven accepted names leaves the configuration unchanged |
| Config.SetMetricsExportIntervalMs | anaconda_opentelemetry/config.py:402-419 | an interval of zero or less leaves the configuration unchanged |
| Config.SettersRejectOutOfDomain | anaconda_opentelemetry/config.py:384-419 | after the level or interval setter the getter reports the new value when it was accepted, and otherwise the old value (or the default) |
| Config.WithSignalPath | anaconda_opentelemetry/config.py:531-537 | the result starts with the endpoint and ends with `v1/<signal>`, with exactly one `/` added; it is the endpoint itself when that already ends so; an empty endpoint raises |
| Config.WithSignalPathIdempotent | anaconda_opentelemetry/config.py:531-537 | adding the signal path twice is adding it once |
| Config.SignalEndpoint | anaconda_opentelemetry/config.py:539-552 | a signal's endpoint ends with its own request path; its exact value is stated by `Config.SignalEndpointFallback` |
| Config.SignalEndpointFallback | anaconda_opentelemetry/config.py:539-552 | on a well-formed configuration the getter never raises, and its value is the signal's own URL when there is one, else the default URL, with the signal path added as `_set_otel_signal_endpoint` adds it |
| Config.AuthTokenFallback | anaconda_opentelemetry/config.py:243-298 | the default token reaches exactly the signals without a token of their own; a signal's own token is what its getter reports |
| Config.TracingSessionEntropy | anaconda_opentelemetry/config.py:609-613 | the entropy read is never `None` and is what the configuration holds afterwards; nothing else changes, and well-formedness is kept |
| Config.EntropyStable | anaconda_opentelemetry/config.py:609-613 | once read, the entropy is fixed: a later read at any other time gives the same value and changes nothing |
| Config.DefaultEndpointObject | anaconda_opentelemetry/config.py:618-642 | the TLS and protocol defaults raise exactly when there is no default endpoint object |
| Config.SignalEndpointObject | anaconda_opentelemetry/config.py:618-642 | a signal's endpoint object raises exactly when the default is missing, because `get` evaluates its fallback first |
| Config.Tls | anaconda_opentelemetry/config.py:618-629 | a signal's TLS getter raises exactly when the default endpoint object is missing |
| Config.RequestProtocol | anaconda_opentelemetry/config.py:631-642 | a signal's protocol getter raises exactly when the default endpoint object is missing |
| Config.TlsMatchesProtocol | anaconda_opentelemetry/config.py:618-642 | on a well-formed configuration a signal's TLS flag holds if and only if its protocol is `https` or `grpcs` |
| Config.SetEndpointScoped | anaconda_opentelemetry/config.py:168-223 | setting one signal's endpoint changes that signal's protocol and TLS to the new endpoint's and leaves every other signal's as they were |
| Config.SignalEndpointAfterSet | anaconda_opentelemetry/config.py:168-223 | after storing a signal's endpoint object, that signal reads it back |
| Config.OtherSignalUnchanged | anaconda_opentelemetry/config.py:168-223 | storing one signal's endpoint object leaves what another signal reads unchanged |
| Config.PrepareCaCert | anaconda_opentelemetry/config.py:554-570 | `None` is returned as it is; HTTP gets the certificate unchanged; gRPC gets channel credentials, from the file's contents, or from the system store for `""`, `False` or `0`; it fails exactly for a missing file or a value that is not a path |
| Config.CertOf | anaconda_opentelemetry/config.py:554-570 | `None` is no certificate, a string is a path, and `False` and `0` are the falsy values that select the system store |
| Config.CaCertDefault | anaconda_opentelemetry/config.py:572-574 | without a default endpoint the default certificate getter raises `KeyError` |
| Config.CaCertAsWritten | anaconda_opentelemetry/config.py:576-586 | as written, a failing default preparation fails every signal's getter, even one with a certificate of its own |
| Config.CaCertAsWrittenReprepares | anaconda_opentelemetry/config.py:576-586 | as written, with a gRPC default endpoint and a default certificate, a signal without its own certificate fails when it is gRPC and is handed credentials instead of a path when it is HTTP |
| Config.CaCert | anaconda_opentelemetry/config.py:576-586 | the corrected getter fails only with a missing key, a missing file or a non-path |
| Config.CaCertFallback | anaconda_opentelemetry/config.py:576-586 | the corrected getter prepares the signal's own certificate, else the default one, once, for the signal's own protocol: HTTP gets the value, and gRPC credentials from the file or, for a falsy value, from the system store |
| Config.CaCertAgrees | anaconda_opentelemetry/config.py:576-586 | where the defect does not bite, the written and corrected getters give the same answer |
| Attributes.CheckValidStringMatches | anaconda_opentelemetry/attributes.py:126-130 | the check holds exactly when `str(value)` is 1 to 30 characters of `[a-zA-Z0-9._-]`, optionally followed by one final newline |
| Attributes.Assign | anaconda_opentelemetry/attributes.py:79-90 | a `None` key or value and a read-only key are refused with nothing changed; an invalid service name or version raises; otherwise only that key changes, holding the value's text (`parameters` holds the value itself) |
| Attributes.ReadonlyKept | anaconda_opentelemetry/attributes.py:79-90 | once `_readonly_fields` holds the read-only set's text, no assignment changes a read-only field |
| Attributes.WriteAssigns | anaconda_opentelemetry/attributes.py:79-90 | before `_readonly_fields` exists, an unchecked key is stored as text, or left out for `None` |
| Attributes.ParametersField | anaconda_opentelemetry/attributes.py:73-77 | the generated `__init__` assigns `parameters` a fresh empty dictionary and no other read-only field |
| Attributes.Init | anaconda_opentelemetry/attributes.py:33-90 | the generated `__init__` raises exactly for an invalid service name or version, naming the first; otherwise `parameters` is empty, and neither version field nor `_readonly_fields` is set, because fields declared `init=False` with a plain default are not assigned |
| Attributes.InitServiceFields | anaconda_opentelemetry/attributes.py:33-90 | after `__init__`, each service field holds its argument's text |
| Attributes.InitMachineFields | anaconda_opentelemetry/attributes.py:33-90 | after `__init__`, each machine field holds its argument's text, or is absent for `None` |
| Attributes.InitApplicationFields | anaconda_opentelemetry/attributes.py:33-90 | after `__init__`, each application field holds its argument's text, or is absent for `None` |
| Attributes.PostInitKeysWritable | anaconda_opentelemetry/attributes.py:96-115 | the keys `__post_init__` writes after marking the read-only set are not read-only, whatever order the set prints in |
| Attributes.CheckEnvironment | anaconda_opentelemetry/attributes.py:108-115 | `environment` ends as its stripped, lower-cased text when that is one of the five valid names, else `""` |
| Attributes.HostDefaultsReads | anaconda_opentelemetry/attributes.py:100-106 | the OS pair comes from the host when either reads empty, else both are kept; the Python version and the host name come from the host when each reads empty |
| Attributes.PostInitKeepsKeys | anaconda_opentelemetry/attributes.py:92-115 | `__post_init__` removes no field |
| Attributes.PostInitKeepsParameters | anaconda_opentelemetry/attributes.py:92-115 | `__post_init__` leaves `parameters` unchanged |
| Attributes.PostInitKeepsOthers | anaconda_opentelemetry/attributes.py:92-115 | `__post_init__` touches no field besides the ones it marks, fills or normalises |
| Attributes.PostInitOs | anaconda_opentelemetry/attributes.py:101-102 | the OS pair is filled from the host when either reads empty and otherwise kept |
| Attributes.PostInitHostFields | anaconda_opentelemetry/attributes.py:103-106 | the Python version and the host name are filled from the host when they read empty |
| Attributes.PostInit | anaconda_opentelemetry/attributes.py:92-115 | `__post_init__` writes both versions and the read-only set's text, and normalises `environment` |
| Attributes.ConstructReadonly | anaconda_opentelemetry/attributes.py:92-99 | a constructed record refuses every later write to a read-only field, and its `parameters` starts empty |
| Attributes.Construct | anaconda_opentelemetry/attributes.py:33-115 | construction raises exactly for an invalid service name or version; otherwise the record carries the read-only set's text and both versions |
| Attributes.ConstructOsDefaults | anaconda_opentelemetry/attributes.py:101-102 | a constructed record's OS pair comes from the host when either argument was empty or `None`, else from the arguments |
| Attributes.ConstructPythonVersion | anaconda_opentelemetry/attributes.py:103-104 | the Python version comes from the host when the argument was empty or `None`, else from the argument |
| Attributes.ConstructHostname | anaconda_opentelemetry/attributes.py:105-106 | the host name comes from the host when the argument was empty or `None`, else from the argument |
| Attributes.ConstructEnvironment | anaconda_opentelemetry/attributes.py:108-115 | the environment is the argument stripped and lower-cased when valid, else `""` |
| Attributes.ConstructKeys | anaconda_opentelemetry/attributes.py:79-115 | the service fields and `platform` are present exactly when their arguments were not `None`; `parameters` is always present |
| Attributes.GetAttributes | anaconda_opentelemetry/attributes.py:132-134 | the attributes are every field except `_readonly_fields`, with the same values |
| Attributes.SetAttributesExtras | anaconda_opentelemetry/attributes.py:136-160 | keyword arguments that name no field all land in `parameters` as text, over what it held; nothing else changes |
| Attributes.SetAttributesKeepsReadonly | anaconda_opentelemetry/attributes.py:136-160 | `set_attributes` changes neither version field nor the read-only text, unless an argument names `_readonly_fields` itself |
| Attributes.SetAttributes | anaconda_opentelemetry/attributes.py:136-160 | `set_attributes` adds and removes no field, and an invalid-string exception it raises names a `service_name` or `service_version` argument that fails the check |
| Resource.RenameAllKeys | anaconda_opentelemetry/signals.py:80-84 | renames that apply cleanly remove the old names, add the new names and keep every other key |
| Resource.RenameAllValues | anaconda_opentelemetry/signals.py:80-84 | each new name holds its old name's value, and every other key keeps its own |
| Resource.RenameFailure | anaconda_opentelemetry/signals.py:80-84 | renaming fails exactly when an old name is missing, and names the first one missing |
| Resource.RenamesUnchained | anaconda_opentelemetry/attributes.py:33-77 | the declared `otel_name` renames do not chain, and their new names are distinct |
| Resource.SessionId | anaconda_opentelemetry/signals.py:92-102 | `_hash_session_id` raises the entropy-removed `KeyError` exactly when the entropy is `None` |
| Resource.AssembleFails | anaconda_opentelemetry/signals.py:67-89 | the resource cannot be built exactly when a service field or a field with an `otel_name` is missing, and then with `KeyError` |
| Resource.AssembleKeys | anaconda_opentelemetry/signals.py:67-89 | the resource holds the service fields under their OpenTelemetry names, renamed fields under their new names, and every other field under its own |
| Resource.AssembleValues | anaconda_opentelemetry/signals.py:67-89 | the service values, each renamed field's exported value (`parameters` as JSON) and every other field's own value |
| Resource.Assemble | anaconda_opentelemetry/signals.py:67-89 | the map fails only with `KeyError`, and the name handed to the session hash is the record's `service_name` |
| Resource.BuildResourceFails | anaconda_opentelemetry/signals.py:67-102 | `make_otel_resource` fails exactly when a needed field is missing, always with `KeyError`; the entropy handed to the hash is never `None` |
| Resource.BuildResource | anaconda_opentelemetry/signals.py:67-102 | the resource holds a text `session.id`, fails only with `KeyError`, and the configuration changes at most in its session entropy |
| Resource.MakeResourceAsWritten | anaconda_opentelemetry/signals.py:67-89 | as written, building fails only for a key the instance dictionary lacks |
| Resource.MakeResource | anaconda_opentelemetry/signals.py:67-89 | with the correction, building fails only with `KeyError`; which records build is stated by `Resource.MakeResourceConstructed` |
| Resource.AssembleNoUser | anaconda_opentelemetry/signals.py:67-102 | `user.id` is never a key of the assembled map, since `user_id` carries no `otel_name` |
| Resource.BuildResourceSession | anaconda_opentelemetry/signals.py:67-102 | `session.id` is the hash of `entropy\|\|service_name`, and the configuration comes back with its entropy fixed |
| Resource.BuildResourceStable | anaconda_opentelemetry/signals.py:67-102 | building twice, the second time with the configuration the first returned, gives the same resource whatever the clock reads |
| Resource.AsWrittenNeedsPlatform | anaconda_opentelemetry/signals.py:80-84 | as written, a record without a `platform` entry raises `KeyError` |
| Resource.AsWrittenPlatformNone | anaconda_opentelemetry/attributes.py:80-81 | as written, a record constructed with `platform=None` has no `platform` entry, so `make_otel_resource` raises on it |
| Resource.MakeResourceDefaults | anaconda_opentelemetry/signals.py:67-89 | reading fields through the object, a record with the service fields, `parameters` and the versions builds a resource |
| Resource.MakeResourceConstructed | anaconda_opentelemetry/signals.py:67-89 | with the correction, every constructed record whose service fields were given builds a resource |
| Metrics.GetLogLevel | anaconda_opentelemetry/signals.py:146-157 | the level of the lower-cased name; any other name gives DEBUG |
| Metrics.LogLevelIgnoresCase | anaconda_opentelemetry/signals.py:146-157 | a name and its upper-cased and lower-cased spellings give one level |
| Metrics.AcceptedLevelsKnown | anaconda_opentelemetry/signals.py:146-157 | every level `set_logging_level` accepts is known to the lookup, so none of them falls back to DEBUG by mistake |
| Metrics.CheckForMetric | anaconda_opentelemetry/signals.py:270-274 | the check holds exactly when the metric type is known and the name is registered in its bucket |
| Metrics.GetOrCreate | anaconda_opentelemetry/signals.py:276-297 | a registered name gives its instrument unchanged; otherwise a valid name registers and returns a new instrument of that kind, and an invalid one returns `None` with nothing changed |
| Metrics.GetOrCreateWellFormed | anaconda_opentelemetry/signals.py:276-297 | a well-formed registry stays well formed, and the returned instrument is the name's, of the requested kind |
| Metrics.GetOrCreateIdempotent | anaconda_opentelemetry/signals.py:276-297 | asking again gives the same instrument and changes nothing, whatever units and description the second call passes |
| Metrics.CheckedMetricReturned | anaconda_opentelemetry/signals.py:270-297 | a name the check finds is returned as registered |
| Metrics.IncrementCounter | anaconda_opentelemetry/signals.py:308-319 | `abs(by)` goes to the simple counter of that name when one exists, else to the up/down counter; success holds exactly when such a counter exists or the name is valid; on failure nothing changes |
| Metrics.DecrementCounter | anaconda_opentelemetry/signals.py:321-328 | `-abs(by)` goes to the up/down counter of that name, even when a simple counter has it; the recorded value is never positive |
| Metrics.RecordHistogram | anaconda_opentelemetry/signals.py:299-306 | the value goes unchanged to the histogram of that name; success holds exactly when it exists or the name is valid |
| Metrics.RecordingKeepsWellFormed | anaconda_opentelemetry/signals.py:276-328 | every recording operation keeps the registry well formed |
| Metrics.DecrementUndoesIncrement | anaconda_opentelemetry/signals.py:308-328 | for a name that is no simple counter, decrementing by an amount after incrementing by it hits the same up/down counter with the opposite value |
| Span.AddEvent | anaconda_opentelemetry/signals.py:382-386 | an event named `<span name>.<name>` is added, and a no-op span makes no call |
| Span.AddException | anaconda_opentelemetry/signals.py:388-397 | the exception is recorded with its type name and message as attributes, or a generic exception for `None` |
| Span.SetErrorStatus | anaconda_opentelemetry/signals.py:399-401 | the status is ERROR with the message itself when it is non-empty, else with the default message |
| Span.AddAttributes | anaconda_opentelemetry/signals.py:403-408 | a no-op span ignores even a non-dictionary; otherwise a non-dictionary raises `TypeError`, and a dictionary is merged (its keys win) and the whole dictionary is set on the span |
| Span.Close | anaconda_opentelemetry/signals.py:410-412 | a real span is ended, and a no-op span makes no call |
| Span.RunBody | anaconda_opentelemetry/signals.py:741-753 | the body only adds calls and attribute keys; a no-op span is unchanged; a body without raises or bad attributes ends without an exception |
| Span.GetTrace | anaconda_opentelemetry/signals.py:710-753 | the block yields nothing exactly when the module is not initialised, and then raises that the generator did not yield |
| Span.YieldedSpan | anaconda_opentelemetry/signals.py:741-745 | the yielded span is real when there is a trace instance and `start_span` succeeds, else the no-op span |
| Span.GetTraceEndsOnce | anaconda_opentelemetry/signals.py:746-753 | a real span is ended exactly once, by the block, as its last call |
| Span.GetTraceSwallows | anaconda_opentelemetry/signals.py:746-753 | with a trace instance, an `Exception` from the body does not leave the block; a real span records it, is marked as errored, then is ended |
| Span.GetTraceWithoutInstance | anaconda_opentelemetry/signals.py:746-753 | without a trace instance, the body's exception is replaced by the `AttributeError` of reading the missing instance's logger |
| Span.GetTracePropagates | anaconda_opentelemetry/signals.py:746-753 | an exception that does not derive from `Exception` leaves the block unchanged, after the span is ended |
| Span.GetTraceCompletes | anaconda_opentelemetry/signals.py:746-753 | a body that completes leaves the block without an exception |
| Span.GetTraceNoop | anaconda_opentelemetry/signals.py:741-745 | when the span cannot be started, the no-op span makes no call whatever the body does |
| Span.GetTraceBadAttributes | anaconda_opentelemetry/signals.py:403-408 | a non-dictionary given to `add_attributes` on a real span ends the body with `TypeError`, which the block swallows |
| Span.RunBodyKeys | anaconda_opentelemetry/signals.py:403-408 | the body adds no attribute keys besides the ones it hands in |
| Span.SharedDefaultLeaks | anaconda_opentelemetry/signals.py:711 | as written, a key one block adds to a span started without attributes shows up in the next such span |
| Span.FreshDefaultKeys | anaconda_opentelemetry/signals.py:711 | with a fresh dictionary per call, a span started without attributes ends with only the keys its own body added |
| Lifecycle.MetricsTearDown | anaconda_opentelemetry/signals.py:214-220 | the reader is flushed exactly when the instance holds it, and the tear-down is the last effect |
| Lifecycle.TearDown | anaconda_opentelemetry/signals.py:581-589 | exactly the stored signals' singletons are cleared, and a tear-down is recorded exactly for the listed signals that had an instance; the flag ends false |
| Lifecycle.NewMetricsAsWritten | anaconda_opentelemetry/signals.py:192-212 | as written, a freshly built metrics instance has no reader |
| Lifecycle.TearDownAsWrittenSkipsReader | anaconda_opentelemetry/signals.py:212-220 | as written, tearing down a freshly built metrics instance neither flushes nor shuts down its reader |
| Lifecycle.TearDownFlushesReader | anaconda_opentelemetry/signals.py:214-220 | with the correction, tearing down a live metrics instance flushes, then shuts down, its reader |
| Lifecycle.CheckParameters | anaconda_opentelemetry/signals.py:594-598 | the attributes are accepted exactly when `parameters` exists and is a dictionary |
| Lifecycle.BuildResource | anaconda_opentelemetry/signals.py:57-102 | a signal's resource fails only with `KeyError`, leaving the configuration alone, and otherwise changes the configuration at most in its session entropy |
| Lifecycle.ExporterCheck | anaconda_opentelemetry/signals.py:109-136 | the getters a signal's exporter set-up calls raise when the signal's endpoint does; the console exporters stop every later getter; a missing certificate file can stop only an exporter that takes a certificate |
| Lifecycle.ExporterCheckWellformed | anaconda_opentelemetry/signals.py:118-136 | on a well-formed configuration, with the console exporters nothing raises; otherwise the set-up raises exactly when the exporter takes a certificate (HTTP, or gRPC with TLS) and the certificate getter raises, with its error |
| Lifecycle.EntropyIrrelevant | anaconda_opentelemetry/signals.py:57-65 | the session entropy the resource build writes changes neither the logging level nor what the exporter's getters do |
| Lifecycle.NewLogger | anaconda_opentelemetry/signals.py:109-141 | the logger gets the resource; a level that is not text raises; then the exporter getters' first exception is raised; otherwise the handler's level is the configured level's |
| Lifecycle.NewMetrics | anaconda_opentelemetry/signals.py:192-263 | with the correction, the metrics instance gets the resource, an empty registry and keeps its reader, or raises the exporter getters' first exception |
| Lifecycle.NewTrace | anaconda_opentelemetry/signals.py:419-465 | the trace instance gets the resource, or raises the exporter getters' first exception |
| Lifecycle.Reset | anaconda_opentelemetry/signals.py:580-589 | the reset leaves the flag unset and keeps the configuration and the signal list |
| Lifecycle.BuildAll | anaconda_opentelemetry/signals.py:606-620 | building keeps the configuration present, the signal list and the flag |
| Lifecycle.BuildAllListed | anaconda_opentelemetry/signals.py:606-620 | a build without error gives every listed signal an instance and leaves the others' singletons alone |
| Lifecycle.ReInitialize | anaconda_opentelemetry/signals.py:561-628 | a first-time call raises the `RuntimeError` and changes nothing; otherwise the configuration and the signal list are kept; the flag ends set exactly when no error occurred |
| Lifecycle.CheckInternet | anaconda_opentelemetry/signals.py:478-498 | the probe raises nothing when the check is skipped; otherwise it raises `KeyError` without a default endpoint object, or the non-`OSError` exception the connection to the default endpoint's host raises |
| Lifecycle.ReInitializeProbeRaises | anaconda_opentelemetry/signals.py:593-601 | an exception from the probe ends `re_initialize_telemetry` after the tear-down and the parameter checks, with no signal built and the flag unset |
| Lifecycle.ReInitializeBuildsListed | anaconda_opentelemetry/signals.py:561-628 | a successful re-initialisation tears down exactly the live instances of the stored signals when the flag was set, builds exactly the listed signals, leaves the rest alone, and warns exactly when no known signal is listed |
| Lifecycle.ReInitializeSharesResource | anaconda_opentelemetry/signals.py:606-620 | every signal one successful re-initialisation builds carries the same resource, and so the same `session.id` |
| Lifecycle.BuildResourceAgain | anaconda_opentelemetry/signals.py:67-102 | a second build with the configuration the first returned gives the same resource |
| Lifecycle.ReInitializeFlushesReader | anaconda_opentelemetry/signals.py:581-589 | with the correction, re-initialising keeps every live metrics instance's reader and tears a live one down by flushing, then shutting down, its reader |
| Lifecycle.Initialize | anaconda_opentelemetry/signals.py:512-545 | a second call does nothing; a missing configuration or missing attributes raise the `ValueError`s with the source's messages and change nothing |
| Lifecycle.IncrementCounter | anaconda_opentelemetry/signals.py:658-682 | `False` with nothing changed when not initialised or without a metrics instance; otherwise the instance's answer and its updated meter |
| Lifecycle.DecrementCounter | anaconda_opentelemetry/signals.py:684-708 | `False` with nothing changed when not initialised or without a metrics instance; otherwise the instance's answer and its updated meter |
| Lifecycle.RecordHistogram | anaconda_opentelemetry/signals.py:630-656 | `False` with nothing changed when not initialised or without a metrics instance; otherwise the instance's answer and its updated meter |
| Lifecycle.FacadesKeepState | anaconda_opentelemetry/signals.py:630-708 | the public metric functions never raise, change nothing but the metrics meter, and keep the reader and the registry well formed |
| Lifecycle.GetTrace | anaconda_opentelemetry/signals.py:710-753 | an uninitialised call yields nothing and raises that the generator did not yield; an initialised one without a trace instance yields the no-op span |
| Lifecycle.GetTelemetryLoggerHandler | anaconda_opentelemetry/signals.py:755-779 | raises `RuntimeError` exactly when not initialised; otherwise the logging singleton's handler, or `None` exactly when there is no logger |
| Lifecycle.HandlerAfterInitialize | anaconda_opentelemetry/signals.py:109-141 | after a successful initialisation with logging listed, the handler exists, and its level is the one `_get_log_level` gives for the configured level |
| Lifecycle.InitializeNeedsCertificate | anaconda_opentelemetry/signals.py:126-131 | when the connectivity probe raises nothing, a listed logging signal over gRPC with TLS whose certificate names a missing file makes `initialize_telemetry` raise the file error, with the flag unset and no logger |
| Shim.Tag | anaconda_opentelemetry/exporter_shim.py:62-78 | each subclass names its own signal: `metrics`, `tracing` or `logging` |
| Shim.NewShim | anaconda_opentelemetry/exporter_shim.py:16-21 | a shim exists exactly when the exporter can be built; it is READY and remembers the arguments and the exporter built from them |
| Shim.ChangeSignalEndpoint | anaconda_opentelemetry/exporter_shim.py:23-49 | the configuration is asked first, about the shim's own signal, and a raise there changes nothing; otherwise the arguments take the new endpoint; when the replacement builds and the flush and shutdown return it is swapped in and `True` returned; when the constructor raises the state is READY and the old exporter stays; when the flush or the shutdown raises the call raises, the state stays UPDATING and the old exporter stays |
| Shim.ChangeStates | anaconda_opentelemetry/exporter_shim.py:23-49 | a change sets no state when the configuration raises, UPDATING alone when the flush or shutdown raises (that call being the last one made), else UPDATING then READY; the old exporter is shut down only after the batch flush; the state the shim ends in is the last one set |
| Shim.ForwardAfterChange | anaconda_opentelemetry/exporter_shim.py:23-59 | after a successful change every forwarded call reaches the exporter built with the new endpoint; after one that returns `None` or raises, the old one |
| Shim.ChangeAllEndState | anaconda_opentelemetry/exporter_shim.py:23-49 | after any sequence of changes the shim is in the last state any of them set, or its starting state when none did, so a raising flush or shutdown leaves it UPDATING until a later change completes |
| Shim.ChangeAllStaysReady | anaconda_opentelemetry/exporter_shim.py:23-49 | a shim that starts READY is READY after any sequence of changes in which no flush or shutdown raises |
| Shim.ChangeAllAsksOnlyFor | anaconda_opentelemetry/exporter_shim.py:23-30 | over any sequence of changes a shim only ever asks the configuration about its own signal |

## Left out

- The SDK objects are left out: providers, exporters, processors, the metric reader and the tracer. Each signal instance
  is reduced to what the package reads back from it: its resource map, the logging handler's level, the metric
  registry, and whether the reader is still held. Of `_setup_metrics`, `_setup_tracing` and the logger setup, only the
  configuration getters they call, which can raise, are modelled (`Lifecycle.ExporterCheck`).
- The internet check `__check_internet_status` is modelled only for the exceptions it lets through
  (`Lifecycle.CheckInternet`). The connections themselves are a parameter. An `OSError` is caught and only logged,
  and the `(internet, access)` result is discarded by its caller.
- `update_endpoint` and `Configuration._change_signal_endpoint` are left out. The shim receives the latter as a
  parameter.
- The shim's lock is left out: only sequential behaviour is modelled.
- Trace-context propagation is left out: the `carrier` argument, the `get_span` context extraction and
  `Resource.create`. The resource is modelled as the map handed to it.
- Logging output and warnings are left out, except the no-signal warning of `re_initialize_telemetry`.
- The check in `get_trace` that attribute keys are valid only logs, so it is left out.
- `_get_temporality` and the metric definitions (`_metric_defs`, `_MetricInfo`) are left out, as are the metric
  exporters' temporality and aggregation preferences (`_preferred_temporality`, `_preferred_aggregation`). They
  configure the SDK only.
- `Attributes.Assign`: a key named `_readonly_fields` is accepted after construction and overwrites the read-only set.
  The model keeps this behaviour, and `Attributes.SetAttributesKeepsReadonly` states its guarantee only for other keys.
- Attributes.SetAttributes: `set_attributes` with explicit attribute dictionaries is not modelled across callers.
  Python shares a mutable dictionary between the caller and the record, and the model does not follow that aliasing.
- `Lifecycle.GetTrace` is modelled without the `carrier` argument. An explicit `attributes` dictionary is treated as a
  fresh copy, so aliasing with the caller's dictionary is not modelled. An omitted one starts from a fresh empty
  dictionary, the correction of the shared default; the written behaviour is `Span.SharedDefaultLeaks`.
- `Lifecycle.Initialize`, `Lifecycle.ReInitialize`, `Lifecycle.BuildAll` and `Lifecycle.BuildResource` run the
  corrected definitions listed under Findings: `Resource.MakeResource` instead of the written `make_otel_resource`
  (`Resource.MakeResourceAsWritten`), `Config.CaCert` instead of the written certificate getter
  (`Config.CaCertAsWritten`), and `Lifecycle.NewMetrics`, which keeps the metric reader, instead of
  `Lifecycle.NewMetricsAsWritten`. Their lemmas describe the corrected program; the written members are stated apart.
- `Lifecycle.ExporterCheck` calls the corrected `Config.CaCert`, so a default certificate reaches a signal unprepared.
- `Config.Construct` and `Config.Normalise` use the corrected `OTEL_SDK_DISABLED` guard. `Config.ConstructAsWritten`
  is the written constructor, and `Config.ConstructGuardsAgree` states where the two differ.
- `Config.PrepareCaCert` and `Config.CertOf`: a value that is neither `None`, a string, a boolean nor an integer (a
  list, a dictionary, a float) is taken as truthy, although an empty list or `0.0` would select the system store in
  the source. A truthy non-string (`True`, a non-zero integer, which `open` would take as a file descriptor) is
  modelled as not a path.
- `Text.PyInt` accepts ASCII digits only. Python's `int()` also accepts other Unicode decimal digits.
- Numbers are unbounded integers. Histogram values and the connection timeout are floats in the source and are left out
  as floats.
- `__SDK_VERSION__` and `__TELEMETRY_SCHEMA_VERSION__` are parameters, because `__version__.py` is not part of this
  model.
- SHA-256 and `json.dumps` are uninterpreted functions (`Resource.Py`). The order in which Python prints a set is an
  input.
- `Text.Lower` and `Text.Upper`: case mapping is modelled on ASCII letters only. `Text.IsSpace` lists the ASCII and
  common Unicode white space.
- Endpoint: `\d` is modelled as ASCII digits. Python's `re` also accepts other Unicode digits there.
- The package's tests refer to settings that this `config.py` does not define (`default_private_ca_cert_file`,
  `set_use_cumulative_metrics`). The model follows `config.py` rather than the tests.

## Findings

| source | as written | input that shows it | evidently intended | confidence | as-written member | corrected member |
|---|---|---|---|---|---|---|
| anaconda_opentelemetry/config.py:576-586 | a signal without its own certificate gets the default certificate after it was already prepared for the default protocol, and prepares it a second time | a `grpc://` default endpoint and a default certificate path; a gRPC signal then tries to open the credentials object as a file, and an HTTP signal receives credentials instead of a path | fall back to the default certificate's path and prepare it once, for the signal's protocol | high, not executed | Config.CaCertAsWrittenReprepares | Config.CaCertFallback |
| anaconda_opentelemetry/config.py:155 | the `OTEL_SDK_DISABLED` override is skipped only when an environment variable literally named `skip_internet_check` is set | `ATEL_SKIP_INTERNET_CHECK=false` and `OTEL_SDK_DISABLED=true`: the skip setting ends `True` | an explicit `ATEL_SKIP_INTERNET_CHECK` wins over `OTEL_SDK_DISABLED` | medium, not executed | Config.SdkGuardAsWrittenOverrides | Config.SdkGuardKeepsSetting |
| anaconda_opentelemetry/signals.py:80-84 | `make_otel_resource` pops `platform` from the instance dictionary, which lacks it when `platform=None` was passed, because `__setattr__` refuses `None` | `ResourceAttributes("svc", "1.0", platform=None)`, then `make_otel_resource` raises `KeyError: 'platform'` | a refused field reads as its class default `""` | medium, not executed | Resource.AsWrittenPlatformNone | Resource.MakeResourceConstructed |
| anaconda_opentelemetry/signals.py:711 | the default `attributes={}` is one dictionary shared by every call, and `add_attributes` updates it in place | `with get_trace("a") as s: s.add_attributes({"k": "v"})`, then `get_trace("b")`: the second span starts with `k` | a fresh empty dictionary per call | high, not executed | Span.SharedDefaultLeaks | Span.FreshDefaultKeys |
| anaconda_opentelemetry/signals.py:212 | `__init__` resets `metric_reader` to `None` after `_setup_metrics` stored the reader, so `tear_down` never flushes or shuts it down | initialise with metrics, then `re_initialize_telemetry`: buffered metrics are neither flushed nor exported | keep the reader so that tear-down flushes and shuts it down | high, not executed | Lifecycle.TearDownAsWrittenSkipsReader | Lifecycle.ReInitializeFlushesReader |
