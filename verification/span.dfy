/** `_ASpan` (signals.py:374-412) and the `get_trace` context manager
    (signals.py:710-753). The OpenTelemetry span behind an `_ASpan` is
    modelled by the calls made on it, in order; starting it is foreign and
    comes in as whether `start_span` succeeded. */
module Span {
  import opened Wrappers

  /** An attribute value: text, a flag, an integer, or anything else the
      SDK accepts (floats and sequences, passed through untouched). */
  datatype AttrValue = AStr(s: string) | ABool(b: bool) | AInt(i: int) | AOther

  type AttrDict = map<string, AttrValue>

  /** A raised Python exception: its class name, `str()` of it, and
      whether it derives from `Exception` (`KeyboardInterrupt` and
      `SystemExit` do not). */
  datatype Exc = Exc(typeName: string, message: string, isException: bool)

  const GenericException := Exc("Exception", "Generic exception because the exception passed was None.", true)
  const DefaultErrorMessage := "An error occurred during the span's execution."
  const AttributesTypeError := Exc("TypeError", "Attributes must be a dictionary of string key and string values.", true)
  /** What `with` raises when the generator returns before yielding. */
  const DidNotYield := Exc("RuntimeError", "generator didn't yield", true)
  /** What reading `logger` off a missing trace instance raises. */
  const NoTraceInstance := Exc("AttributeError", "'NoneType' object has no attribute 'logger'", true)

  /** A call made on the OpenTelemetry span. */
  datatype SpanOp =
    | Event(name: string, attributes: AttrDict)                          // add_event
    | ExceptionRecorded(exc: Exc, details: map<string, string>)          // record_exception
    | ErrorStatus(description: string)                                   // set_status(ERROR, ...)
    | AttributesSet(attributes: AttrDict)                                // set_attributes
    | End                                                                // end

  /** An `_ASpan`: its name, its attribute dictionary, the no-op flag, and
      the calls made so far on the span it wraps. */
  datatype ASpan = ASpan(name: string, attributes: AttrDict, noop: bool, ops: seq<SpanOp>)

  /** `_ASpan("UNKNOWN", span=None, noop=True)`. */
  const NoopSpan := ASpan("UNKNOWN", map[], true, [])

  /** No call on the span is `end`. */
  predicate Open(ops: seq<SpanOp>) {
    forall i :: 0 <= i < |ops| ==> !ops[i].End?
  }

  /** `s2` is `s1` with calls only appended, none of them `end`, and the
      name and mode kept. */
  predicate Grows(s1: ASpan, s2: ASpan) {
    && s2.name == s1.name && s2.noop == s1.noop
    && |s1.ops| <= |s2.ops| && s2.ops[..|s1.ops|] == s1.ops
    && Open(s2.ops[|s1.ops|..])
  }

  // ---------------------------------------------------------------------
  // The span's methods
  // ---------------------------------------------------------------------

  /** `add_event`: an event named `<span name>.<name>`. */
  function AddEvent(s: ASpan, name: string, attributes: Option<AttrDict>): (r: ASpan)
    ensures Grows(s, r)
    ensures s.noop ==> r == s
    ensures !s.noop ==> r.ops == s.ops + [Event(s.name + "." + name, attributes.GetOr(map[]))]
  {
    if s.noop then s
    else s.(ops := s.ops + [Event(s.name + "." + name, attributes.GetOr(map[]))])
  }

  /** `add_exception`: records the exception, a generic one for `None`,
      with its type name and message as attributes. */
  function AddException(s: ASpan, exception: Option<Exc>): (r: ASpan)
    ensures Grows(s, r)
    ensures s.noop ==> r == s
    ensures !s.noop ==>
              var e := exception.GetOr(GenericException);
              r.ops == s.ops + [ExceptionRecorded(e, map["exception.type" := e.typeName, "exception.message" := e.message])]
  {
    if s.noop then s
    else
      var e := if exception.None? then GenericException else exception.value;
      s.(ops := s.ops + [ExceptionRecorded(e, map["exception.type" := e.typeName, "exception.message" := e.message])])
  }

  /** `set_error_status`: status ERROR with the message when it is a
      non-empty string, else the default message. */
  function SetErrorStatus(s: ASpan, msg: Option<string>): (r: ASpan)
    ensures Grows(s, r)
    ensures s.noop ==> r == s
    ensures !s.noop ==> |r.ops| == |s.ops| + 1 && r.ops[|s.ops|].ErrorStatus?
    ensures !s.noop ==> (r.ops[|s.ops|].description == DefaultErrorMessage <==> msg.None? || msg.value in {"", DefaultErrorMessage})
    ensures !s.noop && msg.Some? && msg.value != "" ==> r.ops[|s.ops|].description == msg.value
  {
    if s.noop then s
    else s.(ops := s.ops + [ErrorStatus(if msg.Some? && msg.value != "" then msg.value else DefaultErrorMessage)])
  }

  /** What `add_attributes` is given: a dictionary or something else. */
  datatype AttrArg = DictArg(d: AttrDict) | NotDict

  /** `add_attributes`: a no-op span ignores even a non-dictionary;
      otherwise a non-dictionary raises `TypeError`, and a dictionary is
      merged into the span's attributes (its keys win) and the whole
      dictionary set on the span. */
  function AddAttributes(s: ASpan, arg: AttrArg): (r: Result<ASpan, Exc>)
    ensures r.Success? ==> Grows(s, r.value)
    ensures r.Failure? <==> !s.noop && arg.NotDict?
    ensures r.Failure? ==> r.error == AttributesTypeError
    ensures s.noop ==> r == Success(s)
    ensures r.Success? && !s.noop ==>
              && (forall k :: k in r.value.attributes <==> k in s.attributes || k in arg.d)
              && (forall k :: k in arg.d ==> r.value.attributes[k] == arg.d[k])
              && (forall k :: k in s.attributes && k !in arg.d ==> r.value.attributes[k] == s.attributes[k])
              && r.value.ops == s.ops + [AttributesSet(r.value.attributes)]
  {
    if s.noop then Success(s)
    else if arg.NotDict? then Failure(AttributesTypeError)
    else
      var merged := s.attributes + arg.d;
      Success(s.(attributes := merged, ops := s.ops + [AttributesSet(merged)]))
  }

  /** `_close`: ends the span unless it is a no-op. */
  function Close(s: ASpan): (r: ASpan)
    ensures s.noop ==> r == s
    ensures !s.noop ==> r.ops == s.ops + [End] && r.attributes == s.attributes
  {
    if s.noop then s else s.(ops := s.ops + [End])
  }

  // ---------------------------------------------------------------------
  // The with-block
  // ---------------------------------------------------------------------

  /** One step of the body of `with get_trace(...) as span:`. */
  datatype Action =
    | DoEvent(name: string, attributes: Option<AttrDict>)
    | DoException(exception: Option<Exc>)
    | DoErrorStatus(msg: Option<string>)
    | DoAttributes(arg: AttrArg)
    | Raise(exc: Exc)                  // the body raises; later steps do not run

  /** Runs the body's steps on the span; returns the span and the
      exception that ended the body, if one did. */
  function RunBody(s: ASpan, body: seq<Action>): (r: (ASpan, Option<Exc>))
    ensures Grows(s, r.0)
    ensures r.0.attributes.Keys >= s.attributes.Keys
    ensures s.noop ==> r.0 == s
    ensures (forall i :: 0 <= i < |body| ==> !body[i].Raise? && !body[i].DoAttributes?) ==> r.1.None?
    decreases |body|
  {
    if |body| == 0 then (s, None)
    else
      match body[0]
      case Raise(e) => (s, Some(e))
      case DoEvent(n, a) => RunBody(AddEvent(s, n, a), body[1..])
      case DoException(e) => RunBody(AddException(s, e), body[1..])
      case DoErrorStatus(m) => RunBody(SetErrorStatus(s, m), body[1..])
      case DoAttributes(arg) =>
        match AddAttributes(s, arg)
        case Failure(e) => (s, Some(e))
        case Success(s') => RunBody(s', body[1..])
  }

  /** What `get_trace` has to work with: whether telemetry was
      initialised, whether a trace instance exists, and whether its
      `start_span` succeeds. */
  datatype TraceEnv = TraceEnv(initialized: bool, hasInstance: bool, startOk: bool)

  /** The outcome of a with-block: the span as the body left it and the
      block closed it (none when nothing was yielded), the exception that
      leaves the `with` statement, if any, and the attribute dictionary the
      caller passed, as the block left it (the span shares it). */
  datatype TraceResult = TraceResult(span: Option<ASpan>, raised: Option<Exc>, attributesAfter: AttrDict)

  /** The span `get_trace` yields: a real one when there is a trace
      instance and `start_span` succeeds, else the no-op span. */
  function YieldedSpan(env: TraceEnv, name: string, attributes: AttrDict): (s: ASpan)
    ensures s.ops == []
    ensures !s.noop <==> env.hasInstance && env.startOk
    ensures !s.noop ==> s.name == name && s.attributes == attributes
  {
    if env.hasInstance && env.startOk then ASpan(name, attributes, false, []) else NoopSpan
  }

  /** `with get_trace(name, attributes) as span: <body>`. */
  function GetTrace(env: TraceEnv, name: string, attributes: AttrDict, body: seq<Action>): (r: TraceResult)
    ensures !env.initialized <==> r.span.None?
    ensures !env.initialized ==> r.raised == Some(DidNotYield) && r.attributesAfter == attributes
  {
    if !env.initialized then TraceResult(None, Some(DidNotYield), attributes)
    else
      var s0 := YieldedSpan(env, name, attributes);
      var (s1, exc) := RunBody(s0, body);
      var (s2, raised) :=
        match exc
        case None => (s1, None)
        case Some(e) =>
          if e.isException then
            (SetErrorStatus(AddException(s1, Some(e)), None), if env.hasInstance then None else Some(NoTraceInstance))
          else (s1, Some(e));
      var s3 := Close(s2);
      TraceResult(Some(s3), raised, if s0.noop then attributes else s3.attributes)
  }

  // ---------------------------------------------------------------------
  // What get_trace guarantees
  // ---------------------------------------------------------------------

  /** A real span is ended exactly once, by the block, as its last call. */
  lemma GetTraceEndsOnce(env: TraceEnv, name: string, attributes: AttrDict, body: seq<Action>)
    requires env.initialized && env.hasInstance && env.startOk
    ensures var ops := GetTrace(env, name, attributes, body).span.value.ops;
            && |ops| > 0 && ops[|ops| - 1] == End
            && Open(ops[..|ops| - 1])
  {
    var s0 := YieldedSpan(env, name, attributes);
    var (s1, exc) := RunBody(s0, body);
    assert Open(s1.ops) by {
      assert s1.ops == s1.ops[|s0.ops|..];
    }
    var s2 := if exc.Some? && exc.value.isException then SetErrorStatus(AddException(s1, exc), None) else s1;
    assert Open(s2.ops) by {
      if exc.Some? && exc.value.isException {
        var t := AddException(s1, exc);
        assert Open(t.ops) by { assert t.ops == s1.ops + t.ops[|s1.ops|..]; }
        assert s2.ops == t.ops + s2.ops[|t.ops|..];
      }
    }
    var ops := GetTrace(env, name, attributes, body).span.value.ops;
    assert ops == s2.ops + [End];
    assert ops[..|ops| - 1] == s2.ops;
  }

  /** An exception from the body that derives from `Exception` does not
      leave the block when a trace instance exists; a real span records it
      and is marked as errored, then ended. */
  lemma GetTraceSwallows(env: TraceEnv, name: string, attributes: AttrDict, body: seq<Action>, e: Exc)
    requires env.initialized && env.hasInstance
    requires RunBody(YieldedSpan(env, name, attributes), body).1 == Some(e) && e.isException
    ensures GetTrace(env, name, attributes, body).raised.None?
    ensures env.startOk ==>
              var ops := GetTrace(env, name, attributes, body).span.value.ops;
              && |ops| >= 3
              && ops[|ops| - 3] == ExceptionRecorded(e, map["exception.type" := e.typeName, "exception.message" := e.message])
              && ops[|ops| - 2] == ErrorStatus(DefaultErrorMessage)
              && ops[|ops| - 1] == End
  {
  }

  /** Without a trace instance, an exception from the body is replaced by
      the `AttributeError` of reading the missing instance's logger. */
  lemma GetTraceWithoutInstance(env: TraceEnv, name: string, attributes: AttrDict, body: seq<Action>, e: Exc)
    requires env.initialized && !env.hasInstance
    requires RunBody(NoopSpan, body).1 == Some(e) && e.isException
    ensures GetTrace(env, name, attributes, body).raised == Some(NoTraceInstance)
  {
  }

  /** An exception that does not derive from `Exception` leaves the block
      unchanged, after the span is ended. */
  lemma GetTracePropagates(env: TraceEnv, name: string, attributes: AttrDict, body: seq<Action>, e: Exc)
    requires env.initialized
    requires RunBody(YieldedSpan(env, name, attributes), body).1 == Some(e) && !e.isException
    ensures GetTrace(env, name, attributes, body).raised == Some(e)
  {
  }

  /** A body that completes leaves the block without an exception. */
  lemma GetTraceCompletes(env: TraceEnv, name: string, attributes: AttrDict, body: seq<Action>)
    requires env.initialized
    requires RunBody(YieldedSpan(env, name, attributes), body).1.None?
    ensures GetTrace(env, name, attributes, body).raised.None?
  {
  }

  /** When the span cannot be started, the block yields the no-op span,
      which makes no call whatever the body does. */
  lemma GetTraceNoop(env: TraceEnv, name: string, attributes: AttrDict, body: seq<Action>)
    requires env.initialized && !(env.hasInstance && env.startOk)
    ensures GetTrace(env, name, attributes, body).span == Some(NoopSpan)
    ensures GetTrace(env, name, attributes, body).attributesAfter == attributes
  {
  }

  /** A non-dictionary given to `add_attributes` in the body of a real
      span ends the body with `TypeError`, which the block then swallows. */
  lemma GetTraceBadAttributes(env: TraceEnv, name: string, attributes: AttrDict, rest: seq<Action>)
    requires env.initialized && env.hasInstance && env.startOk
    ensures RunBody(YieldedSpan(env, name, attributes), [DoAttributes(NotDict)] + rest).1 == Some(AttributesTypeError)
    ensures GetTrace(env, name, attributes, [DoAttributes(NotDict)] + rest).raised.None?
  {
    var body := [DoAttributes(NotDict)] + rest;
    assert body[0] == DoAttributes(NotDict);
  }

  // ---------------------------------------------------------------------
  // The default attribute dictionary
  // ---------------------------------------------------------------------

  /** The keys the body's `add_attributes` calls hand in. */
  function AddedKeys(body: seq<Action>): set<string>
    decreases |body|
  {
    if |body| == 0 then {}
    else (if body[0].DoAttributes? && body[0].arg.DictArg? then body[0].arg.d.Keys else {}) + AddedKeys(body[1..])
  }

  /** The body adds no attribute keys but the ones it hands in. */
  lemma {:induction false} RunBodyKeys(s: ASpan, body: seq<Action>)
    ensures RunBody(s, body).0.attributes.Keys <= s.attributes.Keys + AddedKeys(body)
    decreases |body|
  {
    if |body| > 0 {
      match body[0]
      case Raise(e) =>
      case DoEvent(n, a) => RunBodyKeys(AddEvent(s, n, a), body[1..]);
      case DoException(e) => RunBodyKeys(AddException(s, e), body[1..]);
      case DoErrorStatus(m) => RunBodyKeys(SetErrorStatus(s, m), body[1..]);
      case DoAttributes(arg) =>
        match AddAttributes(s, arg)
        case Failure(e) =>
        case Success(s') => RunBodyKeys(s', body[1..]);
    }
  }

  /** `get_trace(name)` as written: the default `{}` is one dictionary
      shared by every call that omits `attributes`, and the span updates it
      in place. Returns the result and that dictionary afterwards. */
  function GetTraceSharedDefault(env: TraceEnv, shared: AttrDict, name: string, body: seq<Action>)
    : (r: (TraceResult, AttrDict))
    ensures r.0 == GetTrace(env, name, shared, body)
    ensures r.1 == r.0.attributesAfter
  {
    var res := GetTrace(env, name, shared, body);
    (res, res.attributesAfter)
  }

  /** As written, attributes a span adds leak into the next trace started
      without attributes: after a block that adds `k`, the next such span
      holds `k` though its own body added nothing. */
  lemma SharedDefaultLeaks()
    ensures var env := TraceEnv(true, true, true);
            var first := [DoAttributes(DictArg(map["k" := AStr("v")]))];
            var (_, shared) := GetTraceSharedDefault(env, map[], "first", first);
            var (second, _) := GetTraceSharedDefault(env, shared, "second", []);
            && "k" in second.span.value.attributes
            && "k" !in AddedKeys([])
  {
    var env := TraceEnv(true, true, true);
    var first := [DoAttributes(DictArg(map["k" := AStr("v")]))];
    var s0 := YieldedSpan(env, "first", map[]);
    assert first[0] == DoAttributes(DictArg(map["k" := AStr("v")]));
    assert RunBody(s0, first).0.attributes == map["k" := AStr("v")];
  }

  /** `get_trace(name)` with a fresh empty dictionary for each call. */
  function GetTraceFresh(env: TraceEnv, name: string, body: seq<Action>): (r: TraceResult)
    ensures r == GetTrace(env, name, map[], body)
  {
    GetTrace(env, name, map[], body)
  }

  /** With a fresh dictionary per call, a span started without attributes
      ends up with only the keys its own body added. */
  lemma FreshDefaultKeys(env: TraceEnv, name: string, body: seq<Action>)
    requires env.initialized
    ensures GetTraceFresh(env, name, body).span.value.attributes.Keys <= AddedKeys(body)
    ensures GetTraceFresh(env, name, body).attributesAfter.Keys <= AddedKeys(body)
  {
    var s0 := YieldedSpan(env, name, map[]);
    RunBodyKeys(s0, body);
  }
}
