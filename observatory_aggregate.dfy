/** The per-parameter aggregation policies of the observatory revision
    (warwick/observatory/environment/aggregate_parameter.py): a parameter
    turns the windowed list of records into a summary with an unsafe and a
    warning flag. The `FilterInvalidAggregateParameter` subclass is the
    `FilterInvalid` variant: it first drops records whose `<field>_valid`
    flag is false. */
module ObservatoryAggregate {

  import opened Common
  import Stats

  datatype Behaviour = Range | Median | Latest | Set

  /** The configuration keyword of each behaviour. */
  function Name(b: Behaviour): string {
    match b
    case Range => "Range"
    case Median => "Median"
    case Latest => "Latest"
    case Set => "Set"
  }

  /** `AggregateBehaviour.parse`: exactly the four keywords are accepted;
      anything else raises `ValueError` with the offending string. */
  function Parse(value: string): (r: Result<Behaviour, string>)
    ensures r.Success? <==> value == "Range" || value == "Median" || value == "Latest" || value == "Set"
    ensures r.Success? ==> Name(r.value) == value
    ensures r.Failure? ==> r.error == "could not convert string to AggregateBehaviour: " + value
  {
    if value == "Range" then Success(Range)
    else if value == "Median" then Success(Median)
    else if value == "Latest" then Success(Latest)
    else if value == "Set" then Success(Set)
    else Failure("could not convert string to AggregateBehaviour: " + value)
  }

  /** Parsing the keyword of a behaviour gives that behaviour back. */
  lemma ParseName(b: Behaviour)
    ensures Parse(Name(b)) == Success(b)
  {
  }

  datatype Variant = Plain | FilterInvalid

  datatype Parameter = Parameter(
    variant: Variant,
    name: string,
    behaviour: Behaviour,
    caption: string,           // the `label` (a reserved word here)
    unit: Option<string>,
    limits: Option<Limits>,
    warnLimits: Option<Limits>,
    validSetValues: Option<set<real>>,
    display: Option<string>,
    measurementName: string,
    ignoreValues: set<real>)   // an absent ignore list is the empty set: the filter runs only when it is non-empty

  /** `AggregateParameter.__init__` (or the subclass's): the record field
      read is `measurement_name` when given, else the parameter's own name. */
  function NewParameter(variant: Variant, name: string, behaviour: Behaviour, caption: string,
                        unit: Option<string>, limits: Option<Limits>, warnLimits: Option<Limits>,
                        validSetValues: Option<set<real>>, display: Option<string>,
                        measurementName: Option<string>, ignoreValues: set<real>): (p: Parameter)
    ensures p.measurementName == if measurementName.Some? then measurementName.value else name
    ensures p.name == name && p.variant == variant && p.behaviour == behaviour && p.caption == caption
    ensures p.limits == limits && p.warnLimits == warnLimits && p.validSetValues == validSetValues
    ensures p.unit == unit && p.display == display && p.ignoreValues == ignoreValues
  {
    Parameter(variant, name, behaviour, caption, unit, limits, warnLimits, validSetValues, display,
              if measurementName.Some? then measurementName.value else name, ignoreValues)
  }

  /** What `aggregate` returns; an absent dictionary key is `None`. */
  datatype Summary = Summary(
    caption: string,           // the `label` (a reserved word here)
    unit: Option<string>,
    unsafe: bool,
    warning: bool,
    current: bool,
    dateStart: Option<int>,     // None stands for `datetime.min`: no record was aggregated
    dateEnd: Option<int>,
    dateCount: nat,
    limits: Option<Limits>,
    warnLimits: Option<Limits>,
    latest: Option<real>,
    min: Option<real>,
    max: Option<real>,
    values: Option<set<real>>,
    validValues: Option<set<real>>,
    display: Option<string>)

  function ValidFlag(key: string): Measurement -> bool {
    (m: Measurement) => key + "_valid" in m.fields && m.fields[key + "_valid"] != 0.0
  }

  function NotIgnored(key: string, ignore: set<real>): Measurement -> bool {
    (m: Measurement) => !(key in m.fields && m.fields[key] in ignore)
  }

  /** The records the `FilterInvalid` variant passes on to the base class. */
  function ValidOnly(p: Parameter, ms: seq<Measurement>): seq<Measurement> {
    if p.variant == FilterInvalid then Filter(ms, ValidFlag(p.measurementName)) else ms
  }

  /** The records the behaviour aggregates: valid ones, without ignored values. */
  function Considered(p: Parameter, ms: seq<Measurement>): seq<Measurement> {
    var v := ValidOnly(p, ms);
    if p.ignoreValues != {} then Filter(v, NotIgnored(p.measurementName, p.ignoreValues)) else v
  }

  /** Every record field `aggregate` indexes exists (otherwise Python raises
      `KeyError` out of `status`): the validity flag of every record for the
      `FilterInvalid` variant, the value of every record the ignore filter
      inspects, and the value of every considered record, or only of the
      last one for `Latest`. */
  predicate Readable(p: Parameter, ms: seq<Measurement>) {
    var key := p.measurementName;
    && (p.variant == FilterInvalid ==> HasField(ms, key + "_valid"))
    && (p.ignoreValues != {} ==> HasField(ValidOnly(p, ms), key))
    && var f := Considered(p, ms);
       (|f| > 0 ==> if p.behaviour == Latest then key in Last(f).fields else HasField(f, key))
  }

  /** `value < limits[0] or value > limits[1]` for the lowest and highest value. */
  predicate Outside(lo: real, hi: real, limits: Option<Limits>) {
    limits.Some? && (lo < limits.value.lo || hi > limits.value.hi)
  }

  function Shown(s: Option<string>): Option<string> {
    if NonEmpty(s) then s else None
  }

  /** The summary `aggregate` returns for `measurements` and the stale threshold. */
  function Summarize(p: Parameter, measurements: seq<Measurement>, staleThreshold: int): Summary
    requires Readable(p, measurements)
  {
    var f := Considered(p, measurements);
    Behave(p, f, Header(p, f, staleThreshold))
  }

  /** The keys every summary has, whatever the behaviour. */
  function Header(p: Parameter, f: seq<Measurement>, staleThreshold: int): Summary {
    Summary(p.caption, Shown(p.unit), false, false, |f| > 0 && Last(f).date >= staleThreshold,
            if |f| > 0 then Some(f[0].date) else None,
            if |f| > 0 then Some(Last(f).date) else None,
            |f|, p.limits, p.warnLimits, None, None, None, None, None, None)
  }

  predicate FieldsPresent(p: Parameter, f: seq<Measurement>) {
    |f| > 0 ==> if p.behaviour == Latest then p.measurementName in Last(f).fields else HasField(f, p.measurementName)
  }

  /** The keys the behaviour adds when at least one record is considered. */
  function Behave(p: Parameter, f: seq<Measurement>, base: Summary): Summary
    requires FieldsPresent(p, f)
  {
    if f == [] then base
    else match p.behaviour
      case Range => RangeSummary(p, f, base)
      case Median => MedianSummary(p, f, base)
      case Set => SetSummary(p, f, base)
      case Latest => LatestSummary(p, f, base)
  }

  function RangeSummary(p: Parameter, f: seq<Measurement>, base: Summary): Summary
    requires |f| > 0 && HasField(f, p.measurementName)
  {
    var vs := Values(f, p.measurementName);
    var lo, hi := Stats.SeqMin(vs), Stats.SeqMax(vs);
    base.(latest := Some(Last(vs)), min := Some(lo), max := Some(hi),
          unsafe := Outside(lo, hi, p.limits), warning := Outside(lo, hi, p.warnLimits))
  }

  function MedianSummary(p: Parameter, f: seq<Measurement>, base: Summary): Summary
    requires |f| > 0 && HasField(f, p.measurementName)
  {
    var med := Stats.Median(Values(f, p.measurementName));
    base.(latest := Some(med), unsafe := Outside(med, med, p.limits), warning := Outside(med, med, p.warnLimits))
  }

  predicate ValidSetChecked(p: Parameter) {
    p.validSetValues.Some? && p.validSetValues.value != {}
  }

  function SetSummary(p: Parameter, f: seq<Measurement>, base: Summary): Summary
    requires |f| > 0 && HasField(f, p.measurementName)
  {
    var vs := Values(f, p.measurementName);
    var seen := SetOf(vs);
    var bad := ValidSetChecked(p) && !(seen <= p.validSetValues.value);
    base.(latest := Some(Last(vs)), values := Some(seen), display := Shown(p.display),
          validValues := if ValidSetChecked(p) then p.validSetValues else None,
          unsafe := bad, warning := bad)
  }

  function LatestSummary(p: Parameter, f: seq<Measurement>, base: Summary): Summary
    requires |f| > 0 && p.measurementName in Last(f).fields
  {
    var x := Last(f).fields[p.measurementName];
    base.(latest := Some(x), display := Shown(p.display),
          unsafe := base.current && Outside(x, x, p.limits),
          warning := base.current && Outside(x, x, p.warnLimits))
  }

  /** `aggregate` (and `FilterInvalidAggregateParameter.aggregate`): the
      filters, the keys every summary has, then the keys of the behaviour. */
  method Aggregate(p: Parameter, measurements: seq<Measurement>, staleThreshold: int) returns (ret: Summary)
    requires Readable(p, measurements)
    ensures ret == Summarize(p, measurements, staleThreshold)
  {
    var ms := ValidOnly(p, measurements);
    if p.ignoreValues != {} {
      ms := Filter(ms, NotIgnored(p.measurementName, p.ignoreValues));
    }
    assert ms == Considered(p, measurements);
    ret := SummaryHeader(p, ms, staleThreshold);
    if ms == [] {
      return;
    }
    match p.behaviour {
      case Range => ret := AggregateRange(p, ms, ret);
      case Median => ret := AggregateMedian(p, ms, ret);
      case Set => ret := AggregateSet(p, ms, ret);
      case Latest => ret := AggregateLatest(p, ms, ret);
    }
  }

  /** The dictionary's common keys, `unit`, `limits` and `warn_limits` only
      when configured. */
  method SummaryHeader(p: Parameter, ms: seq<Measurement>, staleThreshold: int) returns (ret: Summary)
    ensures ret == Header(p, ms, staleThreshold)
  {
    var start := if |ms| > 0 then Some(ms[0].date) else None;
    var end := if |ms| > 0 then Some(ms[|ms| - 1].date) else None;
    ret := Summary(p.caption, None, false, false, |ms| > 0 && ms[|ms| - 1].date >= staleThreshold,
                   start, end, |ms|, None, None, None, None, None, None, None, None);
    if NonEmpty(p.unit) {
      ret := ret.(unit := p.unit);
    }
    if p.limits.Some? {
      ret := ret.(limits := p.limits);
    }
    if p.warnLimits.Some? {
      ret := ret.(warnLimits := p.warnLimits);
    }
  }

  method AggregateRange(p: Parameter, ms: seq<Measurement>, base: Summary) returns (ret: Summary)
    requires !base.unsafe && !base.warning
    requires |ms| > 0 && HasField(ms, p.measurementName)
    ensures ret == RangeSummary(p, ms, base)
  {
    var lo, hi, latest := Stats.ScanRange(ms, p.measurementName);
    ghost var vs := Values(ms, p.measurementName);
    assert forall i :: 0 <= i < |vs| ==> lo <= vs[i] && vs[i] <= hi;
    Stats.IsSeqMin(vs, lo);
    Stats.IsSeqMax(vs, hi);
    ret := base.(min := Some(lo), max := Some(hi), latest := Some(latest));
    if p.limits.Some? {
      ret := ret.(unsafe := lo < p.limits.value.lo || hi > p.limits.value.hi);
    }
    if p.warnLimits.Some? {
      ret := ret.(warning := lo < p.warnLimits.value.lo || hi > p.warnLimits.value.hi);
    }
  }

  method AggregateMedian(p: Parameter, ms: seq<Measurement>, base: Summary) returns (ret: Summary)
    requires !base.unsafe && !base.warning
    requires |ms| > 0 && HasField(ms, p.measurementName)
    ensures ret == MedianSummary(p, ms, base)
  {
    var med := Stats.Median(Values(ms, p.measurementName));
    ret := base.(latest := Some(med));
    if p.limits.Some? {
      ret := ret.(unsafe := med < p.limits.value.lo || med > p.limits.value.hi);
    }
    if p.warnLimits.Some? {
      ret := ret.(warning := med < p.warnLimits.value.lo || med > p.warnLimits.value.hi);
    }
  }

  method AggregateSet(p: Parameter, ms: seq<Measurement>, base: Summary) returns (ret: Summary)
    requires !base.unsafe && !base.warning
    requires base.display == None && base.validValues == None
    requires |ms| > 0 && HasField(ms, p.measurementName)
    ensures ret == SetSummary(p, ms, base)
  {
    var vs := Values(ms, p.measurementName);
    var seen := SetOf(vs);
    ret := base.(latest := Some(vs[|vs| - 1]), values := Some(seen));
    if NonEmpty(p.display) {
      ret := ret.(display := p.display);
    }
    if p.validSetValues.Some? && p.validSetValues.value != {} {
      var bad := !(seen <= p.validSetValues.value);
      ret := ret.(validValues := p.validSetValues, unsafe := bad, warning := bad);
    }
  }

  method AggregateLatest(p: Parameter, ms: seq<Measurement>, base: Summary) returns (ret: Summary)
    requires !base.unsafe && !base.warning
    requires base.display == None && base.validValues == None
    requires |ms| > 0 && p.measurementName in Last(ms).fields
    ensures ret == LatestSummary(p, ms, base)
  {
    var x := ms[|ms| - 1].fields[p.measurementName];
    ret := base.(latest := Some(x));
    if NonEmpty(p.display) {
      ret := ret.(display := p.display);
    }
    if p.limits.Some? && ret.current {
      ret := ret.(unsafe := x < p.limits.value.lo || x > p.limits.value.hi);
    }
    if p.warnLimits.Some? && ret.current {
      ret := ret.(warning := x < p.warnLimits.value.lo || x > p.warnLimits.value.hi);
    }
  }

  /** With nothing to aggregate the summary is never unsafe nor a warning,
      is not current, counts nothing and carries no reading, whatever the
      behaviour; the configured limits are still reported. */
  lemma EmptyWindow(p: Parameter, measurements: seq<Measurement>, staleThreshold: int)
    requires Readable(p, measurements) && Considered(p, measurements) == []
    ensures var r := Summarize(p, measurements, staleThreshold);
            && !r.unsafe && !r.warning && !r.current && r.dateCount == 0
            && r.dateStart == None && r.dateEnd == None
            && r.latest == None && r.min == None && r.max == None && r.values == None
            && r.limits == p.limits && r.warnLimits == p.warnLimits && r.caption == p.caption
  {
  }

  /** The `Range` behaviour: `min` and `max` are readings of the window and
      bound every reading, `latest` is the newest one, and the parameter is
      unsafe (a warning) exactly when some reading lies strictly outside the
      limits (warning limits); a reading equal to a limit is safe. */
  lemma RangeVerdict(p: Parameter, measurements: seq<Measurement>, staleThreshold: int)
    requires Readable(p, measurements) && p.behaviour == Range
    requires Considered(p, measurements) != []
    ensures var f, r, key := Considered(p, measurements), Summarize(p, measurements, staleThreshold), p.measurementName;
            && r.min.Some? && r.max.Some? && r.latest == Some(Last(f).fields[key])
            && (exists i :: 0 <= i < |f| && f[i].fields[key] == r.min.value)
            && (exists i :: 0 <= i < |f| && f[i].fields[key] == r.max.value)
            && (forall i :: 0 <= i < |f| ==> r.min.value <= f[i].fields[key] <= r.max.value)
            && (r.unsafe <==> p.limits.Some? && exists i :: 0 <= i < |f| && OutsideOne(f[i].fields[key], p.limits.value))
            && (r.warning <==> p.warnLimits.Some? && exists i :: 0 <= i < |f| && OutsideOne(f[i].fields[key], p.warnLimits.value))
  {
    var f, key := Considered(p, measurements), p.measurementName;
    assert Summarize(p, measurements, staleThreshold) == RangeSummary(p, f, Header(p, f, staleThreshold));
    var vs := Values(f, key);
    var lo, hi := Stats.SeqMin(vs), Stats.SeqMax(vs);
    var i :| 0 <= i < |vs| && vs[i] == lo;
    var j :| 0 <= j < |vs| && vs[j] == hi;
    RangeOutside(vs, p.limits);
    RangeOutside(vs, p.warnLimits);
  }

  /** A single reading outside a limit pair. */
  predicate OutsideOne(x: real, limits: Limits) {
    x < limits.lo || x > limits.hi
  }

  /** The extremes are outside the limits exactly when some reading is. */
  lemma RangeOutside(vs: seq<real>, limits: Option<Limits>)
    requires |vs| > 0
    ensures Outside(Stats.SeqMin(vs), Stats.SeqMax(vs), limits)
            <==> limits.Some? && exists i :: 0 <= i < |vs| && OutsideOne(vs[i], limits.value)
  {
    var lo, hi := Stats.SeqMin(vs), Stats.SeqMax(vs);
    if Outside(lo, hi, limits) {
      var i :| 0 <= i < |vs| && vs[i] == lo;
      var j :| 0 <= j < |vs| && vs[j] == hi;
      if lo < limits.value.lo {
        assert OutsideOne(vs[i], limits.value);
      } else {
        assert OutsideOne(vs[j], limits.value);
      }
    }
  }

  /** The `Median` behaviour reports the median as `latest` and judges only
      it: a median inside the limits is safe even when single readings are
      not. */
  lemma MedianVerdict(p: Parameter, measurements: seq<Measurement>, staleThreshold: int)
    requires Readable(p, measurements) && p.behaviour == Median
    requires Considered(p, measurements) != []
    ensures var f, r := Considered(p, measurements), Summarize(p, measurements, staleThreshold);
            var med := Stats.Median(Values(f, p.measurementName));
            && r.latest == Some(med) && r.min == None && r.max == None
            && (r.unsafe <==> p.limits.Some? && OutsideOne(med, p.limits.value))
            && (r.warning <==> p.warnLimits.Some? && OutsideOne(med, p.warnLimits.value))
  {
    var f := Considered(p, measurements);
    assert Summarize(p, measurements, staleThreshold) == MedianSummary(p, f, Header(p, f, staleThreshold));
  }

  /** Whenever the `Range` behaviour with the same limits finds the window
      safe (free of warnings), so does `Median`. */
  lemma MedianNoStricterThanRange(p: Parameter, measurements: seq<Measurement>, staleThreshold: int)
    requires Readable(p, measurements) && p.behaviour == Median
    requires Considered(p, measurements) != []
    ensures Readable(p.(behaviour := Range), measurements)
    ensures var r, q := Summarize(p, measurements, staleThreshold), Summarize(p.(behaviour := Range), measurements, staleThreshold);
            && (!q.unsafe ==> !r.unsafe)
            && (!q.warning ==> !r.warning)
  {
    var f := Considered(p, measurements);
    var vs := Values(f, p.measurementName);
    var q := p.(behaviour := Range);
    assert Considered(q, measurements) == f;
    var base := Header(p, f, staleThreshold);
    assert Header(q, f, staleThreshold) == base;
    assert Summarize(p, measurements, staleThreshold) == MedianSummary(p, f, base);
    assert Summarize(q, measurements, staleThreshold) == RangeSummary(q, f, base);
    var med, lo, hi := Stats.Median(vs), Stats.SeqMin(vs), Stats.SeqMax(vs);
    Stats.MedianWithinExtremes(vs);
    OutsideNarrows(med, lo, hi, p.limits);
    OutsideNarrows(med, lo, hi, p.warnLimits);
  }

  /** A value between the extremes is outside the limits only if the
      extremes are. */
  lemma OutsideNarrows(x: real, lo: real, hi: real, limits: Option<Limits>)
    requires lo <= x <= hi
    ensures Outside(x, x, limits) ==> Outside(lo, hi, limits)
  {
  }

  /** The `Set` behaviour reports the distinct readings seen; when a non-empty
      valid set is configured, the parameter is unsafe, and equally a
      warning, exactly when some reading is not in it. Without one it is
      never unsafe. */
  lemma SetVerdict(p: Parameter, measurements: seq<Measurement>, staleThreshold: int)
    requires Readable(p, measurements) && p.behaviour == Set
    requires Considered(p, measurements) != []
    ensures var f, r, key := Considered(p, measurements), Summarize(p, measurements, staleThreshold), p.measurementName;
            && r.values.Some?
            && (forall x :: x in r.values.value <==> exists i :: 0 <= i < |f| && f[i].fields[key] == x)
            && r.latest == Some(Last(f).fields[key])
            && r.unsafe == r.warning
            && (r.unsafe <==> ValidSetChecked(p) && exists i :: 0 <= i < |f| && f[i].fields[key] !in p.validSetValues.value)
            && (r.validValues.Some? <==> ValidSetChecked(p))
  {
    var f, key := Considered(p, measurements), p.measurementName;
    assert Summarize(p, measurements, staleThreshold) == SetSummary(p, f, Header(p, f, staleThreshold));
    SeenReadings(f, key);
    if ValidSetChecked(p) {
      SeenWithin(f, key, p.validSetValues.value);
    }
  }

  /** The `Latest` behaviour judges only the newest reading, and only while
      it is current: stale data is never unsafe nor a warning. */
  lemma LatestVerdict(p: Parameter, measurements: seq<Measurement>, staleThreshold: int)
    requires Readable(p, measurements) && p.behaviour == Latest
    requires Considered(p, measurements) != []
    ensures var f, r := Considered(p, measurements), Summarize(p, measurements, staleThreshold);
            var x := Last(f).fields[p.measurementName];
            && r.latest == Some(x)
            && (r.current <==> Last(f).date >= staleThreshold)
            && (r.unsafe <==> r.current && p.limits.Some? && OutsideOne(x, p.limits.value))
            && (r.warning <==> r.current && p.warnLimits.Some? && OutsideOne(x, p.warnLimits.value))
  {
  }

  /** A record whose value is in the ignore list changes nothing, wherever
      in the window it arrives. */
  lemma IgnoredNeverContribute(p: Parameter, a: seq<Measurement>, m: Measurement, b: seq<Measurement>,
                               staleThreshold: int)
    requires Readable(p, a + b)
    requires p.measurementName in m.fields && m.fields[p.measurementName] in p.ignoreValues
    requires p.variant == FilterInvalid ==> p.measurementName + "_valid" in m.fields
    ensures Readable(p, a + [m] + b)
    ensures Summarize(p, a + [m] + b, staleThreshold) == Summarize(p, a + b, staleThreshold)
  {
    var key := p.measurementName;
    IgnoredDropped(p, a, m, b);
    if p.variant == FilterInvalid {
      HasFieldJoin(a, [m], b, key + "_valid");
    }
    assert Considered(p, a + [m] + b) == Considered(p, a + b);
  }

  /** The ignored record passes the valid-flag filter, if at all, with its
      value present, and the ignore filter then drops it. */
  lemma IgnoredDropped(p: Parameter, a: seq<Measurement>, m: Measurement, b: seq<Measurement>)
    requires p.ignoreValues != {} && HasField(ValidOnly(p, a + b), p.measurementName)
    requires p.measurementName in m.fields && m.fields[p.measurementName] in p.ignoreValues
    ensures HasField(ValidOnly(p, a + [m] + b), p.measurementName)
    ensures Considered(p, a + [m] + b) == Considered(p, a + b)
  {
    ValidOnlySplit(p, a, [m], b);
    ValidOnlySplit(p, a, [], b);
    assert a + [] + b == a + b;
    var va, vm, vb := ValidOnly(p, a), ValidOnly(p, [m]), ValidOnly(p, b);
    ValidOnlySingle(p, m);
    HasFieldJoin(va, vm, vb, p.measurementName);
    IgnoredBetween(p, va, vm, vb, m);
    var ign := NotIgnored(p.measurementName, p.ignoreValues);
    assert Considered(p, a + [m] + b) == Filter(va + vm + vb, ign);
    assert ValidOnly(p, []) == [] && va + [] + vb == va + vb;
    assert Considered(p, a + b) == Filter(va + vb, ign);
  }

  /** The ignore filter drops a valid part holding at most the ignored
      record. */
  lemma IgnoredBetween(p: Parameter, va: seq<Measurement>, vm: seq<Measurement>, vb: seq<Measurement>, m: Measurement)
    requires vm == [m] || vm == []
    requires p.measurementName in m.fields && m.fields[p.measurementName] in p.ignoreValues
    ensures var ign := NotIgnored(p.measurementName, p.ignoreValues);
            Filter(va + vm + vb, ign) == Filter(va + vb, ign)
  {
    var ign := NotIgnored(p.measurementName, p.ignoreValues);
    ConsideredSplit(p, va, vm, vb);
    ConsideredSplit(p, va, [], vb);
    assert va + [] + vb == va + vb;
    assert Filter(vm, ign) == [] by {
      if vm == [m] {
        assert Filter(vm, ign) == Filter([], ign) + [];
      }
    }
  }

  /** The valid-flag filter keeps a single record or drops it. */
  lemma ValidOnlySingle(p: Parameter, m: Measurement)
    ensures ValidOnly(p, [m]) == [m] || ValidOnly(p, [m]) == []
  {
    if p.variant == FilterInvalid {
      var keep := ValidFlag(p.measurementName);
      assert Filter([m], keep) == Filter([], keep) + (if keep(m) then [m] else []);
    }
  }

  /** A field every record of `a + b` and of `m` has, every record of
      `a + m + b` has. */
  lemma HasFieldJoin(a: seq<Measurement>, m: seq<Measurement>, b: seq<Measurement>, key: string)
    requires HasField(a + b, key) && HasField(m, key)
    ensures HasField(a + m + b, key)
  {
    forall x: Measurement | x in a + m + b ensures key in x.fields {
      if x !in m {
        assert x in a + b;
      }
    }
  }

  /** The ignore filter distributes over a valid list split in three. */
  lemma ConsideredSplit(p: Parameter, va: seq<Measurement>, vm: seq<Measurement>, vb: seq<Measurement>)
    ensures var ign := NotIgnored(p.measurementName, p.ignoreValues);
            Filter(va + vm + vb, ign) == Filter(va, ign) + Filter(vm, ign) + Filter(vb, ign)
  {
    var ign := NotIgnored(p.measurementName, p.ignoreValues);
    FilterAppend(va + vm, vb, ign);
    FilterAppend(va, vm, ign);
  }

  /** The `FilterInvalid` variant: a record flagged invalid changes nothing,
      wherever in the window it arrives. */
  lemma InvalidNeverContribute(p: Parameter, a: seq<Measurement>, m: Measurement, b: seq<Measurement>,
                               staleThreshold: int)
    requires Readable(p, a + b) && p.variant == FilterInvalid
    requires p.measurementName + "_valid" in m.fields && m.fields[p.measurementName + "_valid"] == 0.0
    ensures Readable(p, a + [m] + b)
    ensures Summarize(p, a + [m] + b, staleThreshold) == Summarize(p, a + b, staleThreshold)
  {
    var key := p.measurementName;
    ValidOnlySplit(p, a, [m], b);
    ValidOnlySplit(p, a, [], b);
    assert a + [] + b == a + b;
    assert Filter([m], ValidFlag(key)) == Filter([], ValidFlag(key)) + [];
    assert ValidOnly(p, [m]) == [];
    assert ValidOnly(p, []) == [];
    assert ValidOnly(p, a + [m] + b) == ValidOnly(p, a + b);
    assert HasField(a + [m] + b, key + "_valid") by {
      forall x: Measurement | x in a + [m] + b ensures key + "_valid" in x.fields {
        if x != m {
          assert x in a + b;
        }
      }
    }
  }

  /** The valid-flag filter distributes over a window split in three. */
  lemma ValidOnlySplit(p: Parameter, a: seq<Measurement>, m: seq<Measurement>, b: seq<Measurement>)
    ensures ValidOnly(p, a + m + b) == ValidOnly(p, a) + ValidOnly(p, m) + ValidOnly(p, b)
  {
    if p.variant == FilterInvalid {
      FilterAppend(a + m, b, ValidFlag(p.measurementName));
      FilterAppend(a, m, ValidFlag(p.measurementName));
    }
  }

  /** Dropping invalid records and then ignored values gives the same window
      as the opposite order. */
  lemma FilterOrderIrrelevant(p: Parameter, measurements: seq<Measurement>)
    requires p.variant == FilterInvalid && p.ignoreValues != {}
    ensures Considered(p, measurements)
            == Filter(Filter(measurements, NotIgnored(p.measurementName, p.ignoreValues)), ValidFlag(p.measurementName))
  {
    FilterCommutes(measurements, ValidFlag(p.measurementName), NotIgnored(p.measurementName, p.ignoreValues));
  }
}
