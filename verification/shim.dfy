/** The exporter shims of exporter_shim.py: an exporter object whose
    identity stays fixed while the OTLP exporter it wraps is replaced when
    a signal's endpoint changes. Only the sequential behaviour is modelled;
    the lock is left out. Exporters are opaque tokens, and building one
    (`exporter_class(**kwargs)`) and the configuration's endpoint change are
    parameters, `None` standing for a call that raises, and so is whether
    the batch flush or the old exporter's shutdown raises. */
module Shim {
  import opened Wrappers

  /** `ExporterState` (exporter_shim.py:8-10). */
  datatype ExporterState = Ready | Updating

  /** The keyword arguments an exporter is built from. */
  type Kwargs = map<string, string>

  /** An exporter object the shim wraps. */
  type Token = nat

  /** The three subclasses, each with its fixed `_signal`. */
  datatype ShimKind = MetricShim | SpanShim | LogShim

  /** `_signal` (exporter_shim.py:63, 75, 79). */
  function Tag(k: ShimKind): (t: string)
    ensures t == "metrics" <==> k.MetricShim?
    ensures t == "tracing" <==> k.SpanShim?
    ensures t == "logging" <==> k.LogShim?
  {
    match k
    case MetricShim => "metrics"
    case SpanShim => "tracing"
    case LogShim => "logging"
  }

  /** The key of the endpoint among the keyword arguments. */
  const EndpointKey := "endpoint"

  /** `_exporter_class` as a function: the exporter built from the keyword
      arguments, or `None` when the constructor raises. */
  type Maker = Kwargs -> Option<Token>

  /** `config._change_signal_endpoint(signal, new_endpoint, auth_token=...)`:
      the endpoint to build with, or `None` when it raises. */
  type EndpointChanger = (string, string, Option<string>) -> Option<string>

  datatype Shim = Shim(kind: ShimKind, make: Maker, kwargs: Kwargs, exporter: Token, state: ExporterState)

  /** `_OTLPExporterMixin.__init__`: builds the exporter from the keyword
      arguments and remembers both; a constructor that raises leaves no
      shim. */
  function NewShim(kind: ShimKind, make: Maker, kwargs: Kwargs): (r: Option<Shim>)
    ensures r.Some? <==> make(kwargs).Some?
    ensures r.Some? ==> && r.value.kind == kind && r.value.make == make
                        && r.value.kwargs == kwargs && r.value.exporter == make(kwargs).value
                        && r.value.state == Ready
  {
    match make(kwargs)
    case None => None
    case Some(e) => Some(Shim(kind, make, kwargs, e, Ready))
  }

  /** What `change_signal_endpoint` does besides changing the shim: the
      calls it makes, in order, whether or not they return. */
  datatype ShimEffect =
    | EndpointChangeAsked(signal: string, endpoint: string, authToken: Option<string>)
    | StateSet(state: ExporterState)
    | BatchFlushed                       // batch_access.force_flush()
    | ExporterShutDown(exporter: Token)  // old_exporter.shutdown()

  /** How the swap's two calls on the old pipeline go: both return, the
      batch flush raises, or the old exporter's `shutdown` raises. */
  datatype Teardown = Completes | FlushRaises | ShutdownRaises

  /** The shim after the call, the effects in order, what the call returned
      (`None` or `True`), and whether it raised. */
  datatype Change = Change(shim: Shim, effects: seq<ShimEffect>, returned: Option<bool>, raised: bool)

  /** The replacement exporter is built: the endpoint change returned and
      the constructor did not raise. */
  predicate Builds(sh: Shim, change: EndpointChanger, newEndpoint: string, authToken: Option<string>) {
    var endpoint := change(Tag(sh.kind), newEndpoint, authToken);
    endpoint.Some? && sh.make(sh.kwargs[EndpointKey := endpoint.value]).Some?
  }

  /** `change_signal_endpoint(batch_access, config, new_endpoint,
      auth_token)`. The remembered keyword arguments take the new endpoint
      before the replacement is built, so they keep it even when building
      fails. A flush or shutdown that raises inside the lock leaves the state
      UPDATING and the old exporter in place. */
  function ChangeSignalEndpoint(sh: Shim, change: EndpointChanger, newEndpoint: string, authToken: Option<string>,
                                teardown: Teardown)
    : (r: Change)
    ensures r.shim.kind == sh.kind && r.shim.make == sh.make
    ensures |r.effects| > 0 && r.effects[0] == EndpointChangeAsked(Tag(sh.kind), newEndpoint, authToken)
    ensures change(Tag(sh.kind), newEndpoint, authToken).None? ==> r.raised && r.shim == sh
    ensures change(Tag(sh.kind), newEndpoint, authToken).Some? ==>
              r.shim.kwargs == sh.kwargs[EndpointKey := change(Tag(sh.kind), newEndpoint, authToken).value]
    ensures r.raised <==>
              change(Tag(sh.kind), newEndpoint, authToken).None? ||
              (Builds(sh, change, newEndpoint, authToken) && teardown != Completes)
    ensures r.raised ==> r.returned.None?
    ensures change(Tag(sh.kind), newEndpoint, authToken).Some? ==>
              (r.shim.state == Updating <==> Builds(sh, change, newEndpoint, authToken) && teardown != Completes)
    ensures r.returned == Some(true) <==> Builds(sh, change, newEndpoint, authToken) && teardown == Completes
    ensures r.returned == Some(true) ==> r.shim.exporter == sh.make(r.shim.kwargs).value
    ensures r.returned.None? ==> r.shim.exporter == sh.exporter
    ensures !Builds(sh, change, newEndpoint, authToken) ==> BatchFlushed !in r.effects
  {
    var asked := EndpointChangeAsked(Tag(sh.kind), newEndpoint, authToken);
    match change(Tag(sh.kind), newEndpoint, authToken)
    case None => Change(sh, [asked], None, true)
    case Some(endpoint) =>
      var kwargs := sh.kwargs[EndpointKey := endpoint];
      match sh.make(kwargs)
      case None =>
        Change(sh.(kwargs := kwargs, state := Ready), [asked, StateSet(Updating), StateSet(Ready)], None, false)
      case Some(built) =>
        match teardown
        case FlushRaises =>
          Change(sh.(kwargs := kwargs, state := Updating), [asked, StateSet(Updating), BatchFlushed], None, true)
        case ShutdownRaises =>
          Change(sh.(kwargs := kwargs, state := Updating),
                 [asked, StateSet(Updating), BatchFlushed, ExporterShutDown(sh.exporter)], None, true)
        case Completes =>
          Change(sh.(kwargs := kwargs, exporter := built, state := Ready),
                 [asked, StateSet(Updating), BatchFlushed, ExporterShutDown(sh.exporter), StateSet(Ready)],
                 Some(true), false)
  }

  /** The states a sequence of effects sets, in order. */
  function StatesSet(effects: seq<ShimEffect>): (r: seq<ExporterState>)
    ensures |r| <= |effects|
  {
    if effects == [] then []
    else (if effects[0].StateSet? then [effects[0].state] else []) + StatesSet(effects[1..])
  }

  /** The states set by two runs of effects are those of the first, then
      those of the second. */
  lemma {:induction false} StatesSetAppend(a: seq<ShimEffect>, b: seq<ShimEffect>)
    ensures StatesSet(a + b) == StatesSet(a) + StatesSet(b)
    decreases |a|
  {
    if a != [] {
      assert (a + b)[0] == a[0] && (a + b)[1..] == a[1..] + b;
      var head := if a[0].StateSet? then [a[0].state] else [];
      assert StatesSet(a + b) == head + StatesSet(a[1..] + b);
      StatesSetAppend(a[1..], b);
    } else {
      assert a + b == b;
    }
  }

  /** One endpoint change either raises before touching the state, or sets
      UPDATING and then READY, or sets UPDATING and stays there because the
      flush or the shutdown raised, that call being the last one made; the
      old exporter is shut down only after the batch was flushed, and the
      state the shim ends in is the last state set, if any. */
  lemma ChangeStates(sh: Shim, change: EndpointChanger, newEndpoint: string, authToken: Option<string>, teardown: Teardown)
    ensures var r := ChangeSignalEndpoint(sh, change, newEndpoint, authToken, teardown);
            StatesSet(r.effects) ==
              if change(Tag(sh.kind), newEndpoint, authToken).None? then []
              else if r.shim.state == Updating then [Updating]
              else [Updating, Ready]
    ensures var r := ChangeSignalEndpoint(sh, change, newEndpoint, authToken, teardown);
            r.shim.state == if StatesSet(r.effects) == [] then sh.state else StatesSet(r.effects)[|StatesSet(r.effects)| - 1]
    ensures var r := ChangeSignalEndpoint(sh, change, newEndpoint, authToken, teardown);
            change(Tag(sh.kind), newEndpoint, authToken).Some? && r.shim.state == Updating ==>
              r.effects[|r.effects| - 1] == (if teardown == FlushRaises then BatchFlushed else ExporterShutDown(sh.exporter))
    ensures var r := ChangeSignalEndpoint(sh, change, newEndpoint, authToken, teardown);
            ExporterShutDown(sh.exporter) in r.effects ==> r.effects[2] == BatchFlushed && r.effects[3] == ExporterShutDown(sh.exporter)
    ensures var r := ChangeSignalEndpoint(sh, change, newEndpoint, authToken, teardown);
            r.returned == Some(true) ==>
              r.effects == [EndpointChangeAsked(Tag(sh.kind), newEndpoint, authToken), StateSet(Updating),
                            BatchFlushed, ExporterShutDown(sh.exporter), StateSet(Ready)]
  {
    var r := ChangeSignalEndpoint(sh, change, newEndpoint, authToken, teardown);
    var e := r.effects;
    if change(Tag(sh.kind), newEndpoint, authToken).Some? {
      assert StatesSet(e[|e| - 1..]) == if e[|e| - 1].StateSet? then [e[|e| - 1].state] else [];
      if r.returned.Some? {
        assert e[1..] == [StateSet(Updating), BatchFlushed, ExporterShutDown(sh.exporter), StateSet(Ready)];
        assert StatesSet(e[2..]) == StatesSet(e[3..]) == StatesSet(e[4..]);
      } else if r.shim.state == Updating {
        assert StatesSet(e[1..]) == [Updating] + StatesSet(e[2..]);
        if teardown == ShutdownRaises {
          assert StatesSet(e[2..]) == StatesSet(e[3..]);
        }
      } else {
        assert e[2..] == e[|e| - 1..];
      }
    }
  }

  /** The three calls `export`, `shutdown` and `force_flush` forward. */
  datatype Call = ExportCall | ShutdownCall | ForceFlushCall

  /** A forwarded call: the wrapped exporter's answer, given as
      `answer(exporter, call)`. */
  function Forward<A>(sh: Shim, call: Call, answer: (Token, Call) -> A): (r: A)
    ensures r == answer(sh.exporter, call)
  {
    answer(sh.exporter, call)
  }

  /** After an endpoint change whose replacement was built, every forwarded
      call reaches the exporter built from the remembered keyword
      arguments, which carry the new endpoint; otherwise the old one. */
  lemma ForwardAfterChange<A>(sh: Shim, change: EndpointChanger, newEndpoint: string, authToken: Option<string>,
                              teardown: Teardown, call: Call, answer: (Token, Call) -> A)
    ensures var r := ChangeSignalEndpoint(sh, change, newEndpoint, authToken, teardown);
            r.returned == Some(true) ==>
              && EndpointKey in r.shim.kwargs
              && r.shim.kwargs[EndpointKey] == change(Tag(sh.kind), newEndpoint, authToken).value
              && Forward(r.shim, call, answer) == answer(sh.make(r.shim.kwargs).value, call)
    ensures var r := ChangeSignalEndpoint(sh, change, newEndpoint, authToken, teardown);
            r.returned.None? ==> Forward(r.shim, call, answer) == Forward(sh, call, answer)
  {
  }

  /** One call to `change_signal_endpoint`: the new endpoint, the token,
      and how the swap's teardown goes. */
  datatype Request = Request(endpoint: string, authToken: Option<string>, teardown: Teardown)

  /** A sequence of endpoint changes made one after another; the effects of
      all of them in order. */
  function ChangeAll(sh: Shim, change: EndpointChanger, requests: seq<Request>)
    : (r: (Shim, seq<ShimEffect>))
    ensures r.0.kind == sh.kind && r.0.make == sh.make
    decreases |requests|
  {
    if requests == [] then (sh, [])
    else
      var c := ChangeSignalEndpoint(sh, change, requests[0].endpoint, requests[0].authToken, requests[0].teardown);
      var (last, rest) := ChangeAll(c.shim, change, requests[1..]);
      (last, c.effects + rest)
  }

  /** Every endpoint-change request a shim makes names its own signal. */
  predicate AsksOnlyFor(effects: seq<ShimEffect>, tag: string) {
    forall i :: 0 <= i < |effects| && effects[i].EndpointChangeAsked? ==> effects[i].signal == tag
  }

  /** The state a shim ends in: the last state set, else the one it had. */
  function EndState(start: ExporterState, states: seq<ExporterState>): ExporterState {
    if states == [] then start else states[|states| - 1]
  }

  /** After any sequence of endpoint changes the shim is in the last state
      any of them set, or in the state it started in when none did. */
  lemma {:induction false} ChangeAllEndState(sh: Shim, change: EndpointChanger, requests: seq<Request>)
    ensures ChangeAll(sh, change, requests).0.state == EndState(sh.state, StatesSet(ChangeAll(sh, change, requests).1))
    decreases |requests|
  {
    if requests != [] {
      var q := requests[0];
      var c := ChangeSignalEndpoint(sh, change, q.endpoint, q.authToken, q.teardown);
      ChangeStates(sh, change, q.endpoint, q.authToken, q.teardown);
      ChangeAllEndState(c.shim, change, requests[1..]);
      var rest := ChangeAll(c.shim, change, requests[1..]).1;
      StatesSetAppend(c.effects, rest);
    }
  }

  /** A shim that starts READY is READY after any sequence of endpoint
      changes in which no flush or shutdown raises. */
  lemma {:induction false} ChangeAllStaysReady(sh: Shim, change: EndpointChanger, requests: seq<Request>)
    ensures sh.state == Ready && (forall i :: 0 <= i < |requests| ==> requests[i].teardown == Completes) ==>
              ChangeAll(sh, change, requests).0.state == Ready
    decreases |requests|
  {
    if requests != [] {
      var q := requests[0];
      var c := ChangeSignalEndpoint(sh, change, q.endpoint, q.authToken, q.teardown);
      ChangeAllStaysReady(c.shim, change, requests[1..]);
      if sh.state == Ready && (forall i :: 0 <= i < |requests| ==> requests[i].teardown == Completes) {
        assert q.teardown == requests[0].teardown;
        assert forall i :: 0 <= i < |requests[1..]| ==> requests[1..][i].teardown == requests[i + 1].teardown;
      }
    }
  }

  /** A shim asks the configuration only about its own signal. */
  lemma {:induction false} ChangeAllAsksOnlyFor(sh: Shim, change: EndpointChanger, requests: seq<Request>)
    ensures AsksOnlyFor(ChangeAll(sh, change, requests).1, Tag(sh.kind))
    decreases |requests|
  {
    if requests != [] {
      var q := requests[0];
      var c := ChangeSignalEndpoint(sh, change, q.endpoint, q.authToken, q.teardown);
      ChangeAllAsksOnlyFor(c.shim, change, requests[1..]);
      var rest := ChangeAll(c.shim, change, requests[1..]).1;
      assert AsksOnlyFor(c.effects, Tag(sh.kind));
      var all := c.effects + rest;
      forall i | 0 <= i < |all| && all[i].EndpointChangeAsked?
        ensures all[i].signal == Tag(sh.kind)
      {
        if i >= |c.effects| {
          assert all[i] == rest[i - |c.effects|];
        }
      }
    }
  }
}
