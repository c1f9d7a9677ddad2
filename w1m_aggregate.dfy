/** The per-parameter aggregation of the one-metre telescope revision
    (warwick/w1m/environment/aggregate_parameter.py): each parameter turns
    the windowed list of records into a `Safe` or `Unsafe` status. Limits
    are inclusive, an empty window is `Unsafe` with the error "NO DATA", and
    the `Latest` behaviours have no staleness test. */
module W1mAggregate {

  import opened Common
  import Stats
  import opened W1mConstants

  datatype Behaviour = RangeWithLimits | Range | MedianWithLimits | Median | LatestWithLimits | Latest | Set

  predicate IsRange(b: Behaviour) { b == RangeWithLimits || b == Range }
  predicate IsMedian(b: Behaviour) { b == MedianWithLimits || b == Median }
  predicate IsLatest(b: Behaviour) { b == LatestWithLimits || b == Latest }

  /** The constructor arguments of `AggregateParameter`; the record field
      read is `measurement_name` when given, else the parameter's name. */
  datatype Config = Config(
    name: string,
    behaviour: Behaviour,
    limits: Option<Limits>,
    validSetValues: Option<set<real>>,
    measurementName: string)

  function NewConfig(name: string, behaviour: Behaviour, limits: Option<Limits>,
                     validSetValues: Option<set<real>>, measurementName: Option<string>): (c: Config)
    ensures c.measurementName == if measurementName.Some? then measurementName.value else name
    ensures c.name == name && c.behaviour == behaviour && c.limits == limits && c.validSetValues == validSetValues
  {
    Config(name, behaviour, limits, validSetValues,
           if measurementName.Some? then measurementName.value else name)
  }

  /** `__has_limits`: a `Set` parameter has limits when it has a valid set;
      any other one when its behaviour is one of the `*WithLimits` ones. */
  predicate HasLimits(c: Config) {
    if c.behaviour == Set then c.validSetValues.Some?
    else c.behaviour in {RangeWithLimits, MedianWithLimits, LatestWithLimits}
  }

  /** What `aggregate` returns; an absent dictionary key is `None`. The
      `limits` key is present exactly when the parameter has limits, and its
      value may itself be None (a `Set` parameter passes no limits). */
  datatype Summary = Summary(
    status: ParameterStatus,
    limits: Option<Option<Limits>>,
    error: Option<string>,
    min: Option<real>,
    max: Option<real>,
    latest: Option<real>,
    values: Option<set<real>>,
    validValues: Option<set<real>>)

  const NoData: string := "NO DATA"

  /** What `aggregate` can read without raising: on a non-empty window the
      limits (or, for `Set`, the valid set) must be configured, since they are
      indexed (or subtracted) whatever the behaviour is called, and the value
      field must be present in every record (the last one for `Latest`). */
  predicate Readable(c: Config, ms: seq<Measurement>) {
    |ms| > 0 ==>
      && (if c.behaviour == Set then c.validSetValues.Some? else c.limits.Some?)
      && (if IsLatest(c.behaviour) then c.measurementName in Last(ms).fields
          else HasField(ms, c.measurementName))
  }

  predicate Within(x: real, l: Limits) {
    l.lo <= x <= l.hi
  }

  function StatusOf(safe: bool): ParameterStatus {
    if safe then Safe else Unsafe
  }

  /** The summary `aggregate` returns for `measurements`. */
  function Summarize(c: Config, ms: seq<Measurement>): Summary
    requires Readable(c, ms)
  {
    var base := Base(c);
    if ms == [] then base.(error := Some(NoData))
    else if IsRange(c.behaviour) then RangeSummary(c, ms, base)
    else if IsMedian(c.behaviour) then MedianSummary(c, ms, base)
    else if c.behaviour == Set then SetSummary(c, ms, base)
    else LatestSummary(c, ms, base)
  }

  /** The keys every summary starts with: `Unsafe`, and the limits when the
      parameter has them. */
  function Base(c: Config): Summary {
    Summary(Unsafe, if HasLimits(c) then Some(c.limits) else None, None, None, None, None, None, None)
  }

  function RangeSummary(c: Config, ms: seq<Measurement>, base: Summary): Summary
    requires |ms| > 0 && c.limits.Some? && HasField(ms, c.measurementName)
  {
    var vs := Values(ms, c.measurementName);
    var lo, hi := Stats.SeqMin(vs), Stats.SeqMax(vs);
    base.(min := Some(lo), max := Some(hi), latest := Some(Last(vs)),
          status := StatusOf(lo >= c.limits.value.lo && hi <= c.limits.value.hi))
  }

  function MedianSummary(c: Config, ms: seq<Measurement>, base: Summary): Summary
    requires |ms| > 0 && c.limits.Some? && HasField(ms, c.measurementName)
  {
    var med := Stats.Median(Values(ms, c.measurementName));
    base.(latest := Some(med), status := StatusOf(Within(med, c.limits.value)))
  }

  function SetSummary(c: Config, ms: seq<Measurement>, base: Summary): Summary
    requires |ms| > 0 && c.validSetValues.Some? && HasField(ms, c.measurementName)
  {
    var vs := Values(ms, c.measurementName);
    var seen := SetOf(vs);
    base.(latest := Some(Last(vs)), values := Some(seen),
          status := StatusOf(seen <= c.validSetValues.value),
          validValues := if c.validSetValues.value != {} then c.validSetValues else None)
  }

  function LatestSummary(c: Config, ms: seq<Measurement>, base: Summary): Summary
    requires |ms| > 0 && c.limits.Some? && c.measurementName in Last(ms).fields
  {
    var x := Last(ms).fields[c.measurementName];
    base.(latest := Some(x), status := StatusOf(Within(x, c.limits.value)))
  }

  /** `AggregateParameter`: its configuration, the `has_limits` flag fixed at
      construction, and the `disabled` flag the watcher's limit override
      sets. */
  class Parameter {
    const config: Config
    const hasLimits: bool := HasLimits(config)
    var disabled: bool

    constructor(config: Config)
      ensures this.config == config && hasLimits == HasLimits(config) && !disabled
    {
      this.config := config;
      disabled := false;
    }

    /** `override_limit(d)`: disable (or re-enable) the parameter's limits. */
    method OverrideLimit(d: bool)
      modifies this
      ensures disabled == d
    {
      disabled := d;
    }

    /** `aggregate`: the status dictionary built key by key. The `disabled`
        flag is not consulted here; the watcher's rollup reads it. */
    method Aggregate(measurements: seq<Measurement>) returns (ret: Summary)
      requires Readable(config, measurements)
      ensures ret == Summarize(config, measurements)
    {
      ret := Summary(Unsafe, None, None, None, None, None, None, None);
      if hasLimits {
        ret := ret.(limits := Some(config.limits));
      }
      if measurements == [] {
        ret := ret.(error := Some(NoData));
        return;
      }
      if IsRange(config.behaviour) {
        ret := AggregateRange(config, measurements, ret);
      } else if IsMedian(config.behaviour) {
        ret := AggregateMedian(config, measurements, ret);
      } else if config.behaviour == Set {
        ret := AggregateSet(config, measurements, ret);
      } else {
        ret := AggregateLatest(config, measurements, ret);
      }
    }
  }

  method AggregateRange(c: Config, ms: seq<Measurement>, base: Summary) returns (ret: Summary)
    requires |ms| > 0 && c.limits.Some? && HasField(ms, c.measurementName) && base.status == Unsafe
    ensures ret == RangeSummary(c, ms, base)
  {
    var lo, hi, latest := Stats.ScanRange(ms, c.measurementName);
    ghost var vs := Values(ms, c.measurementName);
    assert forall i :: 0 <= i < |vs| ==> lo <= vs[i] && vs[i] <= hi;
    Stats.IsSeqMin(vs, lo);
    Stats.IsSeqMax(vs, hi);
    ret := base.(min := Some(lo), max := Some(hi), latest := Some(latest));
    if lo >= c.limits.value.lo && hi <= c.limits.value.hi {
      ret := ret.(status := Safe);
    }
  }

  method AggregateMedian(c: Config, ms: seq<Measurement>, base: Summary) returns (ret: Summary)
    requires |ms| > 0 && c.limits.Some? && HasField(ms, c.measurementName) && base.status == Unsafe
    ensures ret == MedianSummary(c, ms, base)
  {
    var med := Stats.Median(Values(ms, c.measurementName));
    ret := base.(latest := Some(med));
    if med >= c.limits.value.lo && med <= c.limits.value.hi {
      ret := ret.(status := Safe);
    }
  }

  method AggregateSet(c: Config, ms: seq<Measurement>, base: Summary) returns (ret: Summary)
    requires |ms| > 0 && c.validSetValues.Some? && HasField(ms, c.measurementName)
    requires base.status == Unsafe && base.validValues == None
    ensures ret == SetSummary(c, ms, base)
  {
    var vs := Values(ms, c.measurementName);
    var seen := SetOf(vs);
    ret := base.(latest := Some(vs[|vs| - 1]), values := Some(seen));
    if seen - c.validSetValues.value == {} {
      ret := ret.(status := Safe);
    }
    assert seen - c.validSetValues.value == {} <==> seen <= c.validSetValues.value by {
      if seen - c.validSetValues.value == {} {
        forall x | x in seen ensures x in c.validSetValues.value {
          assert x !in seen - c.validSetValues.value;
        }
      }
    }
    if c.validSetValues.value != {} {
      ret := ret.(validValues := c.validSetValues);
    }
  }

  method AggregateLatest(c: Config, ms: seq<Measurement>, base: Summary) returns (ret: Summary)
    requires |ms| > 0 && c.limits.Some? && c.measurementName in Last(ms).fields && base.status == Unsafe
    ensures ret == LatestSummary(c, ms, base)
  {
    var latest := ms[|ms| - 1].fields[c.measurementName];
    ret := base.(latest := Some(latest));
    if latest >= c.limits.value.lo && latest <= c.limits.value.hi {
      ret := ret.(status := Safe);
    }
  }

  /** The summary reports `limits` exactly when the parameter has limits,
      carries "NO DATA" exactly when the window is empty, and an empty window
      is `Unsafe`. No behaviour reports `Disabled`. */
  lemma SummaryShape(c: Config, ms: seq<Measurement>)
    requires Readable(c, ms)
    ensures var r := Summarize(c, ms);
            && (r.limits.Some? <==> HasLimits(c))
            && (r.limits.Some? ==> r.limits.value == c.limits)
            && (r.error.Some? <==> ms == [])
            && (r.error.Some? ==> r.error.value == NoData && r.status == Unsafe && r.latest == None)
            && r.status != Disabled
  {
  }

  /** `Range` and `RangeWithLimits`: `min` and `max` are readings bounding
      every reading, `latest` is the newest, and the status is `Safe` exactly
      when every reading lies within the limits, ends included. */
  lemma RangeVerdict(c: Config, ms: seq<Measurement>)
    requires Readable(c, ms) && IsRange(c.behaviour) && |ms| > 0
    ensures var r, key := Summarize(c, ms), c.measurementName;
            && r.min.Some? && r.max.Some? && r.latest == Some(Last(ms).fields[key])
            && (exists i :: 0 <= i < |ms| && ms[i].fields[key] == r.min.value)
            && (exists i :: 0 <= i < |ms| && ms[i].fields[key] == r.max.value)
            && (forall i :: 0 <= i < |ms| ==> r.min.value <= ms[i].fields[key] <= r.max.value)
            && (r.status == Safe <==> forall i :: 0 <= i < |ms| ==> Within(ms[i].fields[key], c.limits.value))
  {
    var vs := Values(ms, c.measurementName);
    assert Summarize(c, ms) == RangeSummary(c, ms, Base(c));
    var lo, hi := Stats.SeqMin(vs), Stats.SeqMax(vs);
    var i :| 0 <= i < |vs| && vs[i] == lo;
    var j :| 0 <= j < |vs| && vs[j] == hi;
    Stats.ExtremesWithin(vs, c.limits.value.lo, c.limits.value.hi);
  }

  /** `Median` and `MedianWithLimits`: `latest` is the median, `Safe` exactly
      when it lies within the limits, ends included. */
  lemma MedianVerdict(c: Config, ms: seq<Measurement>)
    requires Readable(c, ms) && IsMedian(c.behaviour) && |ms| > 0
    ensures var r, med := Summarize(c, ms), Stats.Median(Values(ms, c.measurementName));
            && r.latest == Some(med) && r.min == None && r.max == None
            && (r.status == Safe <==> Within(med, c.limits.value))
  {
    assert Summarize(c, ms) == MedianSummary(c, ms, Base(c));
  }

  /** A window the `Range` behaviour with the same limits finds `Safe` is
      `Safe` for `Median` too. */
  lemma MedianNoStricterThanRange(c: Config, ms: seq<Measurement>)
    requires Readable(c, ms) && IsMedian(c.behaviour) && |ms| > 0
    ensures Readable(c.(behaviour := Range), ms)
    ensures Summarize(c.(behaviour := Range), ms).status == Safe ==> Summarize(c, ms).status == Safe
  {
    var q := c.(behaviour := Range);
    assert Summarize(c, ms) == MedianSummary(c, ms, Base(c));
    assert Summarize(q, ms) == RangeSummary(q, ms, Base(q));
    Stats.MedianWithinExtremes(Values(ms, c.measurementName));
  }

  /** `Set`: the distinct readings are always reported, the status is `Safe`
      exactly when each of them is in the valid set (so an empty valid set
      makes any data unsafe), and the valid set is reported when non-empty. */
  lemma SetVerdict(c: Config, ms: seq<Measurement>)
    requires Readable(c, ms) && c.behaviour == Set && |ms| > 0
    ensures var r, key := Summarize(c, ms), c.measurementName;
            && r.values.Some?
            && (forall x :: x in r.values.value <==> exists i :: 0 <= i < |ms| && ms[i].fields[key] == x)
            && r.latest == Some(Last(ms).fields[key])
            && (r.status == Safe <==> forall i :: 0 <= i < |ms| ==> ms[i].fields[key] in c.validSetValues.value)
            && (r.validValues.Some? <==> c.validSetValues.value != {})
  {
    assert Summarize(c, ms) == SetSummary(c, ms, Base(c));
    SeenReadings(ms, c.measurementName);
    SeenWithin(ms, c.measurementName, c.validSetValues.value);
  }

  /** `Latest` and `LatestWithLimits`: only the newest reading is judged,
      with inclusive limits; no date enters the verdict, however old the
      reading is. */
  lemma LatestVerdict(c: Config, ms: seq<Measurement>)
    requires Readable(c, ms) && IsLatest(c.behaviour) && |ms| > 0
    ensures var r, x := Summarize(c, ms), Last(ms).fields[c.measurementName];
            && r.latest == Some(x)
            && (r.status == Safe <==> Within(x, c.limits.value))
  {
  }
}
