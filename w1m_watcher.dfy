/** The watcher of the one-metre telescope revision
    (warwick/w1m/environment/pyro_watcher.py): the same bounded history and
    contact logging as the observatory revision, a status that rolls the
    parameters' verdicts up into one `Safe`, `Unsafe` or `Disabled`, and the
    limit override. */
module W1mWatcher {

  import opened Common
  import History
  import Contact
  import opened W1mConstants
  import W1mAggregate

  /** The log channel of this revision. */
  const Channel: string := "environmentd"

  /** What `status` returns; `None` dates stand for `datetime.min`. */
  datatype WatcherStatus = WatcherStatus(
    status: ParameterStatus,
    measurementStart: Option<int>,
    measurementEnd: Option<int>,
    measurementCount: nat,
    measurementStatus: ParameterStatus,
    data: map<string, W1mAggregate.Summary>)

  predicate AllReadable(cs: seq<W1mAggregate.Config>, ms: seq<Measurement>) {
    forall c :: c in cs ==> W1mAggregate.Readable(c, ms)
  }

  /** `data.update({param.name: param_value})` for every parameter in turn. */
  function Keyed(cs: seq<W1mAggregate.Config>, ms: seq<Measurement>): map<string, W1mAggregate.Summary>
    requires AllReadable(cs, ms)
  {
    if cs == [] then map[]
    else Keyed(cs[..|cs| - 1], ms)[Last(cs).name := W1mAggregate.Summarize(Last(cs), ms)]
  }

  /** Whether some parameter's own verdict is `Unsafe`
      (`UnsafeFound` and `UnsafeCounted` state it with an index). */
  predicate AnyUnsafe(cs: seq<W1mAggregate.Config>, ms: seq<Measurement>)
    requires AllReadable(cs, ms)
  {
    cs != [] && (AnyUnsafe(cs[..|cs| - 1], ms) || W1mAggregate.Summarize(Last(cs), ms).status == Unsafe)
  }

  predicate AnyLimits(cs: seq<W1mAggregate.Config>) {
    exists i :: 0 <= i < |cs| && W1mAggregate.HasLimits(cs[i])
  }

  predicate AllDisabled(disabled: seq<bool>) {
    forall i :: 0 <= i < |disabled| ==> disabled[i]
  }

  /** `measurement_status`: `Disabled` when every parameter is disabled,
      else `Unsafe` when the newest record in the window is older than the
      data gap allows (or there is none) and some parameter has limits, else
      `Safe`. */
  function MeasurementStatus(end: Option<int>, maxDataGap: int, now: int, anyLimits: bool, allDisabled: bool): ParameterStatus {
    if allDisabled then Disabled
    else if (end.None? || end.value + maxDataGap < now) && anyLimits then Unsafe
    else Safe
  }

  /** The status for parameters `cs` with disabled flags `disabled`, the
      buffered records `data` and the time `now`. */
  function Report(cs: seq<W1mAggregate.Config>, disabled: seq<bool>, data: seq<Measurement>, now: int,
                  windowLength: nat, maxDataGap: int): WatcherStatus
    requires AllReadable(cs, History.Window(data, now - windowLength))
  {
    var w := History.Window(data, now - windowLength);
    var start := if |w| > 0 then Some(w[0].date) else None;
    var end := if |w| > 0 then Some(Last(w).date) else None;
    var ms := MeasurementStatus(end, maxDataGap, now, AnyLimits(cs), AllDisabled(disabled));
    WatcherStatus(if AnyUnsafe(cs, w) then Unsafe else ms, start, end, |w|, ms, Keyed(cs, w))
  }

  /** One more parameter: its summary is stored under its name, and it
      makes the roll-up unsafe when its own verdict is. */
  lemma StepKeyed(cs: seq<W1mAggregate.Config>, ms: seq<Measurement>, i: nat)
    requires AllReadable(cs, ms) && i < |cs|
    ensures AllReadable(cs[..i], ms) && AllReadable(cs[..i + 1], ms)
    ensures Keyed(cs[..i + 1], ms) == Keyed(cs[..i], ms)[cs[i].name := W1mAggregate.Summarize(cs[i], ms)]
    ensures AnyUnsafe(cs[..i + 1], ms) <==> AnyUnsafe(cs[..i], ms) || W1mAggregate.Summarize(cs[i], ms).status == Unsafe
  {
    PrefixReadable(cs, ms, i);
    PrefixReadable(cs, ms, i + 1);
    var p := cs[..i + 1];
    assert p[..i] == cs[..i] && Last(p) == cs[i];
    StepUnsafe(cs, ms, i);
  }

  lemma PrefixReadable(cs: seq<W1mAggregate.Config>, ms: seq<Measurement>, n: nat)
    requires AllReadable(cs, ms) && n <= |cs|
    ensures AllReadable(cs[..n], ms)
  {
    forall c | c in cs[..n] ensures W1mAggregate.Readable(c, ms) {
      assert c in cs;
    }
  }

  lemma StepUnsafe(cs: seq<W1mAggregate.Config>, ms: seq<Measurement>, i: nat)
    requires AllReadable(cs, ms) && i < |cs|
    requires AllReadable(cs[..i], ms) && AllReadable(cs[..i + 1], ms)
    ensures AnyUnsafe(cs[..i + 1], ms) <==> AnyUnsafe(cs[..i], ms) || W1mAggregate.Summarize(cs[i], ms).status == Unsafe
  {
    var p := cs[..i + 1];
    assert p[..i] == cs[..i] && Last(p) == cs[i];
  }

  /** An `Unsafe` roll-up names a parameter whose own verdict is `Unsafe`. */
  lemma {:induction false} UnsafeFound(cs: seq<W1mAggregate.Config>, ms: seq<Measurement>)
    requires AllReadable(cs, ms) && AnyUnsafe(cs, ms)
    ensures exists j :: 0 <= j < |cs| && W1mAggregate.Summarize(cs[j], ms).status == Unsafe
  {
    var front := cs[..|cs| - 1];
    if AnyUnsafe(front, ms) {
      UnsafeFound(front, ms);
      var j :| 0 <= j < |front| && W1mAggregate.Summarize(front[j], ms).status == Unsafe;
      assert cs[j] == front[j];
    } else {
      assert cs[|cs| - 1] == Last(cs);
    }
  }

  /** One parameter whose own verdict is `Unsafe` makes the roll-up `Unsafe`. */
  lemma {:induction false} UnsafeCounted(cs: seq<W1mAggregate.Config>, ms: seq<Measurement>, j: nat)
    requires AllReadable(cs, ms) && j < |cs| && W1mAggregate.Summarize(cs[j], ms).status == Unsafe
    ensures AnyUnsafe(cs, ms)
  {
    var front := cs[..|cs| - 1];
    if j < |front| {
      assert front[j] == cs[j];
      UnsafeCounted(front, ms, j);
    } else {
      assert Last(cs) == cs[j];
    }
  }

  /** The overall status is `Unsafe` exactly when some parameter's verdict
      is, or the data is stale while some parameter has limits and not
      every parameter is disabled; it is `Disabled` exactly when every
      parameter is disabled and none reports `Unsafe`. */
  lemma Rollup(cs: seq<W1mAggregate.Config>, disabled: seq<bool>, data: seq<Measurement>, now: int,
               windowLength: nat, maxDataGap: int)
    requires AllReadable(cs, History.Window(data, now - windowLength))
    ensures var r, w := Report(cs, disabled, data, now, windowLength, maxDataGap), History.Window(data, now - windowLength);
            var stale := r.measurementEnd.None? || r.measurementEnd.value + maxDataGap < now;
            && (r.status == Unsafe <==>
                  AnyUnsafe(cs, w) || (!AllDisabled(disabled) && stale && AnyLimits(cs)))
            && (r.status == Disabled <==> !AnyUnsafe(cs, w) && AllDisabled(disabled))
            && (r.measurementEnd.None? <==> r.measurementCount == 0)
  {
  }

  /** An empty window makes a watcher with a limited parameter `Unsafe`,
      unless every parameter is disabled. */
  lemma EmptyWindowUnsafe(cs: seq<W1mAggregate.Config>, disabled: seq<bool>, data: seq<Measurement>, now: int,
                          windowLength: nat, maxDataGap: int)
    requires History.Window(data, now - windowLength) == [] && AnyLimits(cs) && !AllDisabled(disabled)
    ensures AllReadable(cs, History.Window(data, now - windowLength))
    ensures var r := Report(cs, disabled, data, now, windowLength, maxDataGap);
            r.status == Unsafe && r.measurementStatus == Unsafe && r.measurementCount == 0
  {
  }

  /** The disabled flags never mask a parameter's `Unsafe` verdict: the
      summaries and the `Unsafe` outcome are the same whatever the flags. */
  lemma FlagsDoNotMaskUnsafe(cs: seq<W1mAggregate.Config>, d1: seq<bool>, d2: seq<bool>, data: seq<Measurement>,
                             now: int, windowLength: nat, maxDataGap: int)
    requires AllReadable(cs, History.Window(data, now - windowLength))
    requires AnyUnsafe(cs, History.Window(data, now - windowLength))
    ensures Report(cs, d1, data, now, windowLength, maxDataGap).status == Unsafe
    ensures Report(cs, d1, data, now, windowLength, maxDataGap).data == Report(cs, d2, data, now, windowLength, maxDataGap).data
  {
  }

  /** The window reported on is the records dated at or after
      `now - windowLength`, in arrival order; its count and first and last
      dates are the ones reported. */
  lemma WindowReported(cs: seq<W1mAggregate.Config>, disabled: seq<bool>, data: seq<Measurement>, now: int,
                       windowLength: nat, maxDataGap: int)
    requires AllReadable(cs, History.Window(data, now - windowLength))
    ensures var r, w := Report(cs, disabled, data, now, windowLength, maxDataGap), History.Window(data, now - windowLength);
            && r.measurementCount == |w|
            && (forall m :: m in w <==> m in data && m.date >= now - windowLength)
            && (r.measurementStart.Some? ==> r.measurementStart.value == w[0].date && w[0] in data)
            && (r.measurementEnd.Some? ==> r.measurementEnd.value == Last(w).date && Last(w) in data)
  {
    var w := History.Window(data, now - windowLength);
    forall m ensures m in w <==> m in data && m.date >= now - windowLength {
      FilterMember(data, (m: Measurement) => m.date >= now - windowLength, m);
    }
    if |w| > 0 {
      assert w[0] in w && Last(w) in w;
    }
  }

  /** `override_limits` selects the parameters that have limits and carry
      the given name, or all of those when no name is given. */
  predicate Selected(hasLimits: bool, paramName: string, name: Option<string>) {
    (name.None? || paramName == name.value) && hasLimits
  }

  /** `PyroWatcher` of this revision. */
  class PyroWatcher {
    const daemonName: string
    const queryDelay: nat
    const maxDataGap: int
    const windowLength: nat
    const parameters: seq<W1mAggregate.Parameter>
    /** `maxlen` of the deque: `ceil(window_length.seconds * 1.1 / query_delay)`. */
    const capacity: nat

    var data: seq<Measurement>
    var lastQueryFailed: bool
    /** Every line sent to the log so far. */
    var log: seq<Contact.LogEvent>

    ghost predicate Valid()
      reads this
    {
      |data| <= capacity
    }

    constructor(daemonName: string, queryDelay: nat, maxDataGap: int, windowLength: nat,
                parameters: seq<W1mAggregate.Parameter>)
      requires queryDelay > 0
      ensures Valid()
      ensures this.daemonName == daemonName && this.queryDelay == queryDelay
      ensures this.maxDataGap == maxDataGap && this.windowLength == windowLength && this.parameters == parameters
      ensures capacity == History.Capacity(windowLength, queryDelay)
      ensures data == [] && !lastQueryFailed && log == []
    {
      this.daemonName := daemonName;
      this.queryDelay := queryDelay;
      this.maxDataGap := maxDataGap;
      this.windowLength := windowLength;
      this.parameters := parameters;
      capacity := History.Capacity(windowLength, queryDelay);
      data := [];
      lastQueryFailed := false;
      log := [];
    }

    /** The configurations of the parameters, in declaration order. */
    function Configs(): (cs: seq<W1mAggregate.Config>)
      ensures |cs| == |parameters| && forall i :: 0 <= i < |parameters| ==> cs[i] == parameters[i].config
    {
      seq(|parameters|, i requires 0 <= i < |parameters| => parameters[i].config)
    }

    /** The parameters' current disabled flags, in declaration order. */
    function DisabledFlags(): (d: seq<bool>)
      reads parameters
      ensures |d| == |parameters| && forall i :: 0 <= i < |parameters| ==> d[i] == parameters[i].disabled
    {
      Flags(parameters)
    }

    /** One iteration of `__run_thread`, logging to the `environmentd`
        channel. */
    method Poll(outcome: Contact.PollOutcome)
      requires Valid()
      modifies this
      ensures Valid()
      ensures var s := Contact.PollState(old(data), old(lastQueryFailed));
              Contact.PollState(data, lastQueryFailed) == Contact.Poll(s, outcome, capacity)
              && log == old(log) + Contact.PollEvents(s, outcome, capacity, Channel, daemonName)
    {
      if outcome.Reply? {
        data := History.Append(data, outcome.m, capacity);
        if lastQueryFailed || |data| == 1 {
          var message := if lastQueryFailed then "Restored contact with " + daemonName
                         else "Established contact with " + daemonName;
          log := log + [Contact.Info(Channel, message)];
        }
        lastQueryFailed := false;
      } else {
        if !lastQueryFailed {
          log := log + [Contact.Error(Channel, "Lost contact with " + daemonName)];
        }
        lastQueryFailed := true;
      }
    }

    /** `status` at time `now`. */
    method Status(now: int) returns (ret: WatcherStatus)
      requires AllReadable(Configs(), History.Window(data, now - windowLength))
      ensures ret == Report(Configs(), DisabledFlags(), data, now, windowLength, maxDataGap)
    {
      var cs := Configs();
      var w := History.Window(data, now - windowLength);
      var start, end := None, None;
      if |w| > 0 {
        start, end := Some(w[0].date), Some(w[|w| - 1].date);
      }
      var measurementStatus := Safe;
      var anyLimits := AnyHasLimits();
      if (end.None? || end.value + maxDataGap < now) && anyLimits {
        measurementStatus := Unsafe;
      }
      var allDisabled := AllParametersDisabled();
      if allDisabled {
        measurementStatus := Disabled;
      }
      var summaries, anyUnsafe := AggregateAll(w);
      var status := if anyUnsafe then Unsafe else measurementStatus;
      ret := WatcherStatus(status, start, end, |w|, measurementStatus, summaries);
    }

    /** The loop of `status`: every parameter aggregates the window, its
        summary is stored under its name, and any `Unsafe` verdict is noted. */
    method AggregateAll(w: seq<Measurement>) returns (summaries: map<string, W1mAggregate.Summary>, anyUnsafe: bool)
      requires AllReadable(Configs(), w)
      ensures summaries == Keyed(Configs(), w) && anyUnsafe == AnyUnsafe(Configs(), w)
    {
      ghost var cs := Configs();
      summaries := map[];
      anyUnsafe := false;
      for i := 0 to |parameters|
        invariant summaries == Keyed(cs[..i], w)
        invariant anyUnsafe == AnyUnsafe(cs[..i], w)
      {
        assert cs[i] in cs;
        var summary := parameters[i].Aggregate(w);
        StepKeyed(cs, w, i);
        summaries := summaries[parameters[i].config.name := summary];
        if summary.status == Unsafe {
          anyUnsafe := true;
        }
      }
      assert cs[..|parameters|] == cs;
    }

    /** `any(param.has_limits for param in parameters)` */
    method AnyHasLimits() returns (any: bool)
      ensures any == AnyLimits(Configs())
    {
      any := false;
      for i := 0 to |parameters|
        invariant any <==> exists j :: 0 <= j < i && parameters[j].hasLimits
      {
        if parameters[i].hasLimits {
          any := true;
        }
      }
    }

    /** `all(param.disabled for param in parameters)`: true for no parameters. */
    method AllParametersDisabled() returns (all: bool)
      ensures all == AllDisabled(DisabledFlags())
    {
      all := true;
      for i := 0 to |parameters|
        invariant all <==> forall j :: 0 <= j < i ==> parameters[j].disabled
      {
        if !parameters[i].disabled {
          all := false;
        }
      }
    }

    /** `override_limits(parameter, disabled)`: every parameter with limits
        whose name matches (any name when `name` is None) gets the new flag;
        the others keep theirs. Reports whether any parameter matched. */
    method OverrideLimits(name: Option<string>, d: bool) returns (success: bool)
      modifies parameters
      ensures success <==> exists i :: 0 <= i < |parameters| && Selected(parameters[i].hasLimits, parameters[i].config.name, name)
      ensures forall p :: p in parameters ==>
                p.disabled == if Selected(p.hasLimits, p.config.name, name) then d else old(p.disabled)
    {
      success := false;
      for i := 0 to |parameters|
        invariant success <==> exists j :: 0 <= j < i && Selected(parameters[j].hasLimits, parameters[j].config.name, name)
        invariant forall p :: p in parameters ==>
                    p.disabled == if Selected(p.hasLimits, p.config.name, name) && p in parameters[..i] then d else old(p.disabled)
      {
        var param := parameters[i];
        if Selected(param.hasLimits, param.config.name, name) {
          param.OverrideLimit(d);
          success := true;
        }
        assert parameters[..i + 1] == parameters[..i] + [param];
      }
      assert parameters[..|parameters|] == parameters;
    }

    /** `parameters_with_limits`: the names of the parameters with limits,
        in declaration order. */
    function ParametersWithLimits(): (names: seq<string>)
      ensures forall n :: n in names <==>
                exists i :: 0 <= i < |parameters| && parameters[i].hasLimits && parameters[i].config.name == n
    {
      LimitedNamesExact(parameters);
      LimitedNames(parameters)
    }

    /** `clear_history`: the buffer is emptied and nothing else changes. */
    method ClearHistory()
      requires Valid()
      modifies this
      ensures Valid()
      ensures data == [] && lastQueryFailed == old(lastQueryFailed) && log == old(log)
    {
      data := [];
    }
  }

  function Flags(ps: seq<W1mAggregate.Parameter>): (d: seq<bool>)
    reads ps
    ensures |d| == |ps| && forall i :: 0 <= i < |ps| ==> d[i] == ps[i].disabled
  {
    if ps == [] then [] else Flags(ps[..|ps| - 1]) + [Last(ps).disabled]
  }

  function LimitedNames(ps: seq<W1mAggregate.Parameter>): seq<string> {
    Names(Filter(ps, (p: W1mAggregate.Parameter) => p.hasLimits))
  }

  /** `parameters_with_limits` names exactly the parameters with limits,
      in declaration order and as often as they are declared. */
  lemma LimitedNamesExact(ps: seq<W1mAggregate.Parameter>)
    ensures forall n :: n in LimitedNames(ps) <==> exists i :: 0 <= i < |ps| && ps[i].hasLimits && ps[i].config.name == n
    ensures forall a, b :: ps == a + b ==> LimitedNames(ps) == LimitedNames(a) + LimitedNames(b)
  {
    var keep := (p: W1mAggregate.Parameter) => p.hasLimits;
    var f := Filter(ps, keep);
    forall n ensures n in LimitedNames(ps) <==> exists i :: 0 <= i < |ps| && ps[i].hasLimits && ps[i].config.name == n {
      if n in LimitedNames(ps) {
        var j :| 0 <= j < |f| && Names(f)[j] == n;
        FilterMember(ps, keep, f[j]);
        var i :| 0 <= i < |ps| && ps[i] == f[j];
      }
      if exists i :: 0 <= i < |ps| && ps[i].hasLimits && ps[i].config.name == n {
        var i :| 0 <= i < |ps| && ps[i].hasLimits && ps[i].config.name == n;
        FilterMember(ps, keep, ps[i]);
        var j :| 0 <= j < |f| && f[j] == ps[i];
        assert Names(f)[j] == n;
      }
    }
    forall a, b | ps == a + b ensures LimitedNames(ps) == LimitedNames(a) + LimitedNames(b) {
      FilterAppend(a, b, keep);
      NamesAppend(Filter(a, keep), Filter(b, keep));
    }
  }

  lemma NamesAppend(a: seq<W1mAggregate.Parameter>, b: seq<W1mAggregate.Parameter>)
    ensures Names(a + b) == Names(a) + Names(b)
  {
    assert |Names(a + b)| == |Names(a) + Names(b)|;
    forall i | 0 <= i < |a + b| ensures Names(a + b)[i] == (Names(a) + Names(b))[i] {
    }
  }

  function Names(ps: seq<W1mAggregate.Parameter>): (names: seq<string>)
    ensures |names| == |ps| && forall i :: 0 <= i < |ps| ==> names[i] == ps[i].config.name
  {
    if ps == [] then [] else Names(ps[..|ps| - 1]) + [Last(ps).config.name]
  }
}
