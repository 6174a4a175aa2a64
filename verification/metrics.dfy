/** `_AnacondaMetrics`' instrument registry (signals.py:190-328) and the
    logger's level lookup (signals.py:146-157). Instruments are opaque
    records of what they were created with; what `add` and `record` are
    given is kept in a log of records. */
module Metrics {
  import opened Wrappers
  import opened Text
  import Config

  // ---------------------------------------------------------------------
  // Log levels
  // ---------------------------------------------------------------------

  const Debug := 10      // logging.DEBUG
  const Info := 20       // logging.INFO
  const Warning := 30    // logging.WARNING
  const Error := 40      // logging.ERROR
  const Critical := 50   // logging.CRITICAL

  /** The level names `_get_log_level` knows, lower case. */
  const LevelOf: map<string, int> := map[
    "debug" := Debug, "info" := Info, "warning" := Warning, "warn" := Warning,
    "error" := Error, "critical" := Critical, "fatal" := Critical]

  /** `_get_log_level`: the level of the lower-cased name, DEBUG for a name
      it does not know. */
  function GetLogLevel(level: string): (r: int)
    ensures r in {Debug, Info, Warning, Error, Critical}
    ensures r != Debug ==> Lower(level) in LevelOf
  {
    var key := Lower(level);
    if key in LevelOf then LevelOf[key] else Debug
  }

  /** Lower-casing an upper-cased name gives the lower-cased name. */
  lemma LowerOfUpper(s: string)
    ensures Lower(Upper(s)) == Lower(s)
  {
    var u := Upper(s);
    forall i | 0 <= i < |s|
      ensures Lower(u)[i] == Lower(s)[i]
    {
      assert u[i] == UpperChar(s[i]);
    }
  }

  /** The lookup ignores case: a name and its upper-cased and lower-cased
      spellings give one level. */
  lemma LogLevelIgnoresCase(level: string)
    ensures GetLogLevel(Upper(level)) == GetLogLevel(level)
    ensures GetLogLevel(Lower(level)) == GetLogLevel(level)
  {
    LowerOfUpper(level);
    var l := Lower(level);
    assert Lower(l) == l by {
      forall i | 0 <= i < |l| ensures Lower(l)[i] == l[i] { }
    }
  }

  /** Every name the configuration's `set_logging_level` accepts is one the
      lookup knows: an accepted level is never silently read as DEBUG
      unless it is `debug`. */
  lemma AcceptedLevelsKnown(level: string)
    requires level in Config.LoggingLevels
    ensures Lower(level) == level && level in LevelOf
    ensures GetLogLevel(level) == LevelOf[level]
    ensures GetLogLevel(level) == Debug <==> level == "debug"
  {
    assert Lower(level) == level by {
      forall i | 0 <= i < |level| ensures Lower(level)[i] == level[i] {
        assert !('A' <= level[i] <= 'Z');
      }
    }
  }

  // ---------------------------------------------------------------------
  // Instruments and the registry
  // ---------------------------------------------------------------------

  /** The three metric types; each has its bucket and its create call. */
  datatype Kind = SimpleCounter | UpDownCounter | Histogram

  /** The `metric_type` strings the registry knows. */
  function KindOf(metricType: string): (r: Option<Kind>)
    ensures r == Some(SimpleCounter) <==> metricType == "simple_counter"
    ensures r == Some(UpDownCounter) <==> metricType == "simple_up_down_counter"
    ensures r == Some(Histogram) <==> metricType == "histogram"
  {
    if metricType == "simple_counter" then Some(SimpleCounter)
    else if metricType == "simple_up_down_counter" then Some(UpDownCounter)
    else if metricType == "histogram" then Some(Histogram)
    else None
  }

  /** An instrument as the meter created it. */
  datatype Instrument = Instrument(kind: Kind, name: string, unit: string, description: string)

  /** The three name-to-instrument buckets. */
  datatype Registry = Registry(
    counters: map<string, Instrument>,
    upDownCounters: map<string, Instrument>,
    histograms: map<string, Instrument>)

  const EmptyRegistry := Registry(map[], map[], map[])

  function Bucket(r: Registry, k: Kind): map<string, Instrument> {
    match k
    case SimpleCounter => r.counters
    case UpDownCounter => r.upDownCounters
    case Histogram => r.histograms
  }

  /** `bucket_list[name] = metric`. */
  function WithEntry(r: Registry, k: Kind, name: string, inst: Instrument): (r': Registry)
    ensures Bucket(r', k) == Bucket(r, k)[name := inst]
    ensures forall j :: j != k ==> Bucket(r', j) == Bucket(r, j)
  {
    match k
    case SimpleCounter => r.(counters := r.counters[name := inst])
    case UpDownCounter => r.(upDownCounters := r.upDownCounters[name := inst])
    case Histogram => r.(histograms := r.histograms[name := inst])
  }

  /** `re.fullmatch(r"^[A-Za-z][A-Za-z_0-9]+$", name)`: an ASCII letter
      followed by at least one ASCII letter, digit or underscore, and
      nothing else (a full match leaves no room for a final newline). */
  predicate MetricNameOk(name: string) {
    && |name| >= 2
    && IsLetter(name[0])
    && forall i :: 1 <= i < |name| ==> IsAlnum(name[i]) || name[i] == '_'
  }

  /** Every instrument in bucket `b` is of kind `k`, sits under its own
      name, and that name is valid. */
  predicate BucketOk(b: map<string, Instrument>, k: Kind) {
    forall n :: n in b ==> b[n].kind == k && b[n].name == n && MetricNameOk(n)
  }

  /** Every bucket holds only instruments of its own kind under their own
      valid names. */
  predicate WellFormed(r: Registry) {
    forall k: Kind :: BucketOk(Bucket(r, k), k)
  }

  datatype MetricError = MetricsNotInitialized(metricType: string)

  /** `_check_for_metric`. */
  function CheckForMetric(r: Registry, name: string, metricType: string): (b: bool)
    ensures b <==> KindOf(metricType).Some? && name in Bucket(r, KindOf(metricType).value)
  {
    match KindOf(metricType)
    case None => false
    case Some(k) => name in Bucket(r, k)
  }

  /** `_get_or_create_metric`: the instrument registered under `name` in
      the type's bucket, else a new one when the name is valid, else
      `None`; with the registry afterwards. */
  function GetOrCreate(r: Registry, name: string, metricType: string, units: string, description: string)
    : (res: Result<(Option<Instrument>, Registry), MetricError>)
    ensures res.Failure? <==> KindOf(metricType).None?
    ensures res.Failure? ==> res.error == MetricsNotInitialized(metricType)
    ensures res.Success? ==>
              var k := KindOf(metricType).value;
              && (name in Bucket(r, k) ==> res.value == (Some(Bucket(r, k)[name]), r))
              && (name !in Bucket(r, k) && !MetricNameOk(name) ==> res.value == (None, r))
              && (name !in Bucket(r, k) && MetricNameOk(name) ==>
                    && res.value.0 == Some(Instrument(k, name, units, description))
                    && Bucket(res.value.1, k) == Bucket(r, k)[name := Instrument(k, name, units, description)]
                    && |Bucket(res.value.1, k)| == |Bucket(r, k)| + 1
                    && (forall j :: j != k ==> Bucket(res.value.1, j) == Bucket(r, j)))
  {
    match KindOf(metricType)
    case None => Failure(MetricsNotInitialized(metricType))
    case Some(k) =>
      if name in Bucket(r, k) then Success((Some(Bucket(r, k)[name]), r))
      else if !MetricNameOk(name) then Success((None, r))
      else
        var inst := Instrument(k, name, units, description);
        Success((Some(inst), WithEntry(r, k, name, inst)))
  }

  /** A well-formed registry stays well formed, and what comes back is the
      name's instrument of the requested kind. */
  lemma GetOrCreateWellFormed(r: Registry, name: string, metricType: string, units: string, description: string)
    requires WellFormed(r)
    requires GetOrCreate(r, name, metricType, units, description).Success?
    ensures var (inst, r') := GetOrCreate(r, name, metricType, units, description).value;
            && WellFormed(r')
            && (inst.Some? ==> inst.value.kind == KindOf(metricType).value && inst.value.name == name
                               && name in Bucket(r', inst.value.kind) && Bucket(r', inst.value.kind)[name] == inst.value)
  {
    var k := KindOf(metricType).value;
    var res := GetOrCreate(r, name, metricType, units, description).value;
    assert BucketOk(Bucket(r, k), k);
    if name !in Bucket(r, k) && MetricNameOk(name) {
      var r' := res.1;
      forall j: Kind
        ensures BucketOk(Bucket(r', j), j)
      {
        assert BucketOk(Bucket(r, j), j);
      }
    }
  }

  /** Asking again gives the same instrument and changes nothing, whatever
      units and description the second call passes. */
  lemma GetOrCreateIdempotent(r: Registry, name: string, metricType: string, units: string, description: string,
                              units2: string, description2: string)
    requires GetOrCreate(r, name, metricType, units, description).Success?
    ensures var (inst, r') := GetOrCreate(r, name, metricType, units, description).value;
            GetOrCreate(r', name, metricType, units2, description2) == Success((inst, r'))
  {
  }

  /** A name `_check_for_metric` finds is returned as registered. */
  lemma CheckedMetricReturned(r: Registry, name: string, metricType: string, units: string, description: string)
    requires CheckForMetric(r, name, metricType)
    ensures GetOrCreate(r, name, metricType, units, description)
            == Success((Some(Bucket(r, KindOf(metricType).value)[name]), r))
  {
  }

  // ---------------------------------------------------------------------
  // Recording
  // ---------------------------------------------------------------------

  /** One `add` or `record` call on an instrument. */
  datatype Record = Record(instrument: Instrument, value: int, attributes: map<string, string>)

  /** The registry and every value handed to an instrument so far. */
  datatype Meter = Meter(registry: Registry, records: seq<Record>)

  const DefaultUnits := "#"
  const DefaultDescription := "No description."
  const HistogramDescription := "Dynamically create histogram metric."

  function Abs(x: int): int { if x < 0 then -x else x }

  /** Hands `value` to `metric` when there is one; reports whether there was. */
  function Emit(m: Meter, reg: Registry, metric: Option<Instrument>, value: int, attributes: map<string, string>)
    : (res: (bool, Meter))
    ensures res.0 <==> metric.Some?
    ensures res.1.registry == reg
    ensures !res.0 ==> res.1.records == m.records
    ensures res.0 ==> res.1.records == m.records + [Record(metric.value, value, attributes)]
  {
    match metric
    case None => (false, m.(registry := reg))
    case Some(inst) => (true, Meter(reg, m.records + [Record(inst, value, attributes)]))
  }

  /** `increment_counter`: `abs(by)` goes to the simple counter of that
      name when one is registered, else to the up/down counter of that
      name, created if need be. It reports success exactly when a counter
      of that name exists or the name is valid; on failure nothing
      changes; simple counters and histograms are never created. */
  function IncrementCounter(m: Meter, name: string, amount: int, attributes: map<string, string>): (res: (bool, Meter))
    ensures var (ok, m') := res;
            && (ok <==> name in m.registry.counters || name in m.registry.upDownCounters || MetricNameOk(name))
            && (!ok ==> m' == m)
            && (ok ==> m'.records == m.records + [Record(IncrementTarget(m.registry, name).value, Abs(amount), attributes)])
            && m'.registry.counters == m.registry.counters
            && m'.registry.histograms == m.registry.histograms
            && (ok ==> name in m'.registry.counters || name in m'.registry.upDownCounters)
  {
    var r := m.registry;
    var (found, r1) := if CheckForMetric(r, name, "simple_counter")
                       then GetOrCreate(r, name, "simple_counter", DefaultUnits, DefaultDescription).value
                       else (None, r);
    var (metric, r2) := if found.Some? then (found, r1)
                        else GetOrCreate(r1, name, "simple_up_down_counter", DefaultUnits, DefaultDescription).value;
    Emit(m, r2, metric, Abs(amount), attributes)
  }

  /** The instrument `increment_counter` uses for `name`, if any. */
  function IncrementTarget(r: Registry, name: string): Option<Instrument> {
    if name in r.counters then Some(r.counters[name])
    else if name in r.upDownCounters then Some(r.upDownCounters[name])
    else if MetricNameOk(name) then Some(Instrument(UpDownCounter, name, DefaultUnits, DefaultDescription))
    else None
  }

  /** `decrement_counter`: `-abs(by)` goes to the up/down counter of that
      name, created if need be, even when a simple counter has that name.
      It reports success exactly when such a counter exists or the name is
      valid; the value it records is never positive. */
  function DecrementCounter(m: Meter, name: string, amount: int, attributes: map<string, string>): (res: (bool, Meter))
    ensures var (ok, m') := res;
            && (ok <==> name in m.registry.upDownCounters || MetricNameOk(name))
            && (!ok ==> m' == m)
            && (ok ==> |m'.records| == |m.records| + 1 && m'.records[..|m.records|] == m.records)
            && (ok ==> var rec := m'.records[|m.records|];
                       && rec.value == -Abs(amount) && rec.value <= 0
                       && rec.instrument == (if name in m.registry.upDownCounters then m.registry.upDownCounters[name]
                                             else Instrument(UpDownCounter, name, DefaultUnits, DefaultDescription)))
            && m'.registry.counters == m.registry.counters
            && m'.registry.histograms == m.registry.histograms
  {
    var (metric, r) := GetOrCreate(m.registry, name, "simple_up_down_counter", DefaultUnits, DefaultDescription).value;
    Emit(m, r, metric, -Abs(amount), attributes)
  }

  /** `record_histogram`: the value goes, as given, to the histogram of
      that name, created with its own description if need be. It reports
      success exactly when such a histogram exists or the name is valid. */
  function RecordHistogram(m: Meter, name: string, value: int, attributes: map<string, string>): (res: (bool, Meter))
    ensures var (ok, m') := res;
            && (ok <==> name in m.registry.histograms || MetricNameOk(name))
            && (!ok ==> m' == m)
            && (ok ==> |m'.records| == |m.records| + 1 && m'.records[..|m.records|] == m.records)
            && (ok ==> var rec := m'.records[|m.records|];
                       && rec.value == value
                       && rec.instrument == (if name in m.registry.histograms then m.registry.histograms[name]
                                             else Instrument(Histogram, name, DefaultUnits, HistogramDescription)))
            && m'.registry.counters == m.registry.counters
            && m'.registry.upDownCounters == m.registry.upDownCounters
  {
    var (metric, r) := GetOrCreate(m.registry, name, "histogram", DefaultUnits, HistogramDescription).value;
    Emit(m, r, metric, value, attributes)
  }

  /** Every recording operation keeps the registry well formed. */
  lemma RecordingKeepsWellFormed(m: Meter, name: string, v: int, attributes: map<string, string>)
    requires WellFormed(m.registry)
    ensures WellFormed(IncrementCounter(m, name, v, attributes).1.registry)
    ensures WellFormed(DecrementCounter(m, name, v, attributes).1.registry)
    ensures WellFormed(RecordHistogram(m, name, v, attributes).1.registry)
  {
    var r := m.registry;
    GetOrCreateWellFormed(r, name, "simple_up_down_counter", DefaultUnits, DefaultDescription);
    GetOrCreateWellFormed(r, name, "histogram", DefaultUnits, HistogramDescription);
    if CheckForMetric(r, name, "simple_counter") {
      GetOrCreateWellFormed(r, name, "simple_counter", DefaultUnits, DefaultDescription);
    }
  }

  /** Decrementing by `amount` after incrementing by `amount` a name that is no
      simple counter hits the same up/down counter with the opposite
      value, so the two records cancel. */
  lemma DecrementUndoesIncrement(m: Meter, name: string, amount: int, a1: map<string, string>, a2: map<string, string>)
    requires name !in m.registry.counters
    requires IncrementCounter(m, name, amount, a1).0
    ensures var m1 := IncrementCounter(m, name, amount, a1).1;
            var (ok, m2) := DecrementCounter(m1, name, amount, a2);
            && ok
            && |m2.records| == |m.records| + 2
            && m2.records[|m.records|].instrument == m2.records[|m.records| + 1].instrument
            && m2.records[|m.records|].value + m2.records[|m.records| + 1].value == 0
  {
    var m1 := IncrementCounter(m, name, amount, a1).1;
    assert name in m1.registry.upDownCounters;
  }
}
