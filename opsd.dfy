/** The earlier operations daemon (opsd.py): a bounded history of weather
    station records and a status that accumulates the wind, temperature,
    humidity and pressure readings of the last twenty minutes, judges them
    against strict limits, and decides whether the history is sufficient
    to trust. */
module Opsd {

  import opened Common
  import History
  import Stats

  /** `CONDITION_TIMEOUT_DELAY`, in seconds: the window of history judged. */
  const ConditionTimeoutDelay: int := 1200
  /** `VAISALA_TIME_GAP_MAX`, in seconds. */
  const TimeGapMax: int := 30
  /** `VAISALA_QUERY_DELAY`, in seconds. */
  const QueryDelay: nat := 10

  const WindLimits: Limits := Limits(0.0, 30.0)
  const TemperatureLimits: Limits := Limits(0.0, 50.0)
  const HumidityLimits: Limits := Limits(0.0, 75.0)
  const PressureLimits: Limits := Limits(600.0, 1100.0)

  /** The starting value of the running minimum (and, negated, maximum). */
  const Sentinel: real := 99999999.0

  /** The running minimum after adding `vs` in turn to a minimum of `init`. */
  function FoldMin(init: real, vs: seq<real>): real {
    if vs == [] then init else Stats.Min(Last(vs), FoldMin(init, vs[..|vs| - 1]))
  }

  function FoldMax(init: real, vs: seq<real>): real {
    if vs == [] then init else Stats.Max(Last(vs), FoldMax(init, vs[..|vs| - 1]))
  }

  /** `results()` of an accumulator that was given `vs`: `(0, 0, False)`
      when nothing was added, else the running extremes and whether they lie
      strictly inside the limits. */
  function ResultsOf(limits: Limits, vs: seq<real>): (real, real, bool) {
    if |vs| == 0 then (0.0, 0.0, false)
    else
      var lo, hi := FoldMin(Sentinel, vs), FoldMax(-Sentinel, vs);
      (lo, hi, lo > limits.lo && hi < limits.hi)
  }

  /** The running extremes are the extremes of the readings, bounded by the
      sentinels; for readings between the sentinels they are exactly the
      smallest and the largest reading. */
  lemma {:induction false} FoldExtremes(vs: seq<real>)
    requires |vs| > 0
    ensures FoldMin(Sentinel, vs) == Stats.Min(Stats.SeqMin(vs), Sentinel)
    ensures FoldMax(-Sentinel, vs) == Stats.Max(Stats.SeqMax(vs), -Sentinel)
    ensures (forall i :: 0 <= i < |vs| ==> -Sentinel <= vs[i] <= Sentinel) ==>
              FoldMin(Sentinel, vs) == Stats.SeqMin(vs) && FoldMax(-Sentinel, vs) == Stats.SeqMax(vs)
  {
    if |vs| > 1 {
      var front := vs[..|vs| - 1];
      FoldExtremes(front);
      assert forall i :: 0 <= i < |front| ==> front[i] == vs[i];
    }
  }

  /** An accumulator's verdict holds exactly when something was added and
      every reading lies strictly inside the limits: a reading equal to a
      limit is invalid. */
  lemma ResultsVerdict(limits: Limits, vs: seq<real>)
    requires limits.lo < Sentinel && limits.hi > -Sentinel
    ensures ResultsOf(limits, vs).2 <==> |vs| > 0 && forall i :: 0 <= i < |vs| ==> limits.lo < vs[i] < limits.hi
    ensures |vs| == 0 ==> ResultsOf(limits, vs) == (0.0, 0.0, false)
  {
    if |vs| > 0 {
      FoldExtremes(vs);
      var lo, hi := Stats.SeqMin(vs), Stats.SeqMax(vs);
      if forall i :: 0 <= i < |vs| ==> limits.lo < vs[i] < limits.hi {
        var i :| 0 <= i < |vs| && vs[i] == lo;
        var j :| 0 <= j < |vs| && vs[j] == hi;
      }
    }
  }

  /** `AggregateMeasurement`: a running minimum, maximum and count over
      the readings added so far, and the limits they are judged against. */
  class AggregateMeasurement {
    var min: real
    var max: real
    var count: nat
    const limitMin: real
    const limitMax: real
    /** The readings added so far, in order. */
    ghost var added: seq<real>

    ghost predicate Valid()
      reads this
    {
      count == |added| && min == FoldMin(Sentinel, added) && max == FoldMax(-Sentinel, added)
    }

    constructor(limits: Limits)
      ensures Valid() && added == [] && limitMin == limits.lo && limitMax == limits.hi
    {
      min := Sentinel;
      max := -Sentinel;
      count := 0;
      limitMin := limits.lo;
      limitMax := limits.hi;
      added := [];
    }

    /** `add(measurement)` */
    method Add(x: real)
      requires Valid()
      modifies this
      ensures Valid() && added == old(added) + [x]
    {
      min := Stats.Min(x, min);
      max := Stats.Max(x, max);
      count := count + 1;
      added := added + [x];
      assert added[..|added| - 1] == old(added);
    }

    /** `results()` */
    function Results(): (r: (real, real, bool))
      requires Valid()
      reads this
      ensures r == ResultsOf(Limits(limitMin, limitMax), added)
    {
      if count == 0 then (0.0, 0.0, false)
      else (min, max, min > limitMin && max < limitMax)
    }
  }

  /** What `status` returns. */
  datatype OpsStatus = OpsStatus(
    dateStart: Option<int>,
    dateEnd: Option<int>,
    sufficientData: bool,
    wind: (real, real, bool),
    pressure: (real, real, bool),
    temperature: (real, real, bool),
    humidity: (real, real, bool))

  /** The records aggregated: those dated after `now - CONDITION_TIMEOUT_DELAY`. */
  function InWindow(data: seq<Measurement>, now: int): seq<Measurement> {
    Filter(data, (m: Measurement) => m.date > now - ConditionTimeoutDelay)
  }

  /** No record in the window follows its predecessor in the buffer by more
      than `VAISALA_TIME_GAP_MAX`. */
  predicate GapFree(data: seq<Measurement>, now: int) {
    forall i :: 0 < i < |data| && data[i].date > now - ConditionTimeoutDelay ==>
      data[i].date - data[i - 1].date <= TimeGapMax
  }

  /** `vaisala_sufficient_data`: the buffer reaches back to the start of the
      window, its newest record is recent, and the window has no gap. */
  predicate Sufficient(data: seq<Measurement>, now: int) {
    && |data| > 0
    && data[0].date <= now - ConditionTimeoutDelay
    && Last(data).date >= now - TimeGapMax
    && GapFree(data, now)
  }

  predicate WeatherFields(m: Measurement) {
    "wind_speed" in m.fields && "temperature" in m.fields
    && "relative_humidity" in m.fields && "pressure" in m.fields
  }

  /** Every record of the window carries the four readings (else `status`
      raises `KeyError`). */
  predicate Readable(data: seq<Measurement>, now: int) {
    forall m :: m in data && m.date > now - ConditionTimeoutDelay ==> WeatherFields(m)
  }

  lemma InWindowReadable(data: seq<Measurement>, now: int)
    requires Readable(data, now)
    ensures forall m :: m in InWindow(data, now) ==> WeatherFields(m)
  {
    forall m | m in InWindow(data, now) ensures WeatherFields(m) {
      FilterMember(data, (m: Measurement) => m.date > now - ConditionTimeoutDelay, m);
    }
  }

  /** The status `status` returns at time `now`. */
  function Report(data: seq<Measurement>, now: int): OpsStatus
    requires Readable(data, now)
  {
    var w := InWindow(data, now);
    InWindowReadable(data, now);
    OpsStatus(
      if |data| > 0 then Some(data[0].date) else None,
      if |data| > 0 then Some(Last(data).date) else None,
      Sufficient(data, now),
      ResultsOf(WindLimits, Values(w, "wind_speed")),
      ResultsOf(PressureLimits, Values(w, "pressure")),
      ResultsOf(TemperatureLimits, Values(w, "temperature")),
      ResultsOf(HumidityLimits, Values(w, "relative_humidity")))
  }

  /** A history younger than the window is never sufficient, so the daemon
      waits a full window after startup; an empty history is insufficient
      too. */
  lemma YoungHistoryInsufficient(data: seq<Measurement>, now: int)
    requires Readable(data, now)
    requires forall i :: 0 <= i < |data| ==> data[i].date > now - ConditionTimeoutDelay
    ensures !Report(data, now).sufficientData
    ensures |data| == 0 ==> Report(data, now) == OpsStatus(None, None, false, (0.0, 0.0, false), (0.0, 0.0, false),
                                                          (0.0, 0.0, false), (0.0, 0.0, false))
  {
    if |data| == 0 {
      assert InWindow(data, now) == [];
    }
  }

  /** A record before the window never enters the readings: dropping the
      records dated at or before `now - CONDITION_TIMEOUT_DELAY` leaves the
      four verdicts unchanged, though it does change the reported start date
      and may change sufficiency. */
  lemma OldRecordsNotAggregated(old_: seq<Measurement>, recent: seq<Measurement>, now: int)
    requires Readable(old_ + recent, now)
    requires forall i :: 0 <= i < |old_| ==> old_[i].date <= now - ConditionTimeoutDelay
    ensures Readable(recent, now)
    ensures var a, b := Report(old_ + recent, now), Report(recent, now);
            a.wind == b.wind && a.pressure == b.pressure && a.temperature == b.temperature && a.humidity == b.humidity
  {
    var keep := (m: Measurement) => m.date > now - ConditionTimeoutDelay;
    FilterAppend(old_, recent, keep);
    FilterNone(old_, keep);
    assert InWindow(old_ + recent, now) == InWindow(recent, now);
    forall m | m in recent && m.date > now - ConditionTimeoutDelay ensures WeatherFields(m) {
      assert m in old_ + recent;
    }
  }

  /** The buffer after one successful query of `run_vaisala_thread`, as
      written: for a record older than `VAISALA_TIME_GAP_MAX` the warning
      formats the undefined name `date`, the `NameError` is caught by the
      loop's `except`, and the record is never appended. */
  function ReceiveAsWritten(data: seq<Measurement>, m: Measurement, now: int, capacity: nat): seq<Measurement> {
    if now - m.date > TimeGapMax then data else History.Append(data, m, capacity)
  }

  /** A record 31 seconds old reaching an empty buffer is lost as written,
      where appending it (the intended behaviour, `OperationsDaemon.Record`)
      keeps it. */
  lemma StaleRecordLost()
    ensures var m := Measurement(0, map[]);
            ReceiveAsWritten([], m, 31, 132) == [] && History.Append([], m, 132) == [m]
  {
  }

  /** A gap of more than `VAISALA_TIME_GAP_MAX` before a record of the
      window makes the history insufficient, wherever it is. */
  lemma GapMakesInsufficient(data: seq<Measurement>, now: int, i: nat)
    requires Readable(data, now)
    requires 0 < i < |data| && data[i].date > now - ConditionTimeoutDelay
    requires data[i].date - data[i - 1].date > TimeGapMax
    ensures !Report(data, now).sufficientData
  {
  }

  /** The dates reported are those of the oldest and newest buffered
      records, in the window or not; sufficiency needs the oldest to reach
      back to the window's start and the newest to be recent. */
  lemma ReportedDates(data: seq<Measurement>, now: int)
    requires Readable(data, now) && |data| > 0
    ensures Report(data, now).dateStart == Some(data[0].date)
    ensures Report(data, now).dateEnd == Some(data[|data| - 1].date)
    ensures data[0].date > now - ConditionTimeoutDelay ==> !Report(data, now).sufficientData
    ensures data[|data| - 1].date < now - TimeGapMax ==> !Report(data, now).sufficientData
  {
  }

  /** `OperationsDaemon`: the bounded weather history and the running flag. */
  class OperationsDaemon {
    /** `maxlen` of the deque: `ceil(CONDITION_TIMEOUT_DELAY * 1.1 / VAISALA_QUERY_DELAY)`. */
    const capacity: nat
    var data: seq<Measurement>
    var running: bool

    ghost predicate Valid()
      reads this
    {
      |data| <= capacity
    }

    constructor()
      ensures Valid() && capacity == History.Capacity(ConditionTimeoutDelay, QueryDelay) && capacity == 132
      ensures data == [] && running
    {
      capacity := History.Capacity(ConditionTimeoutDelay, QueryDelay);
      data := [];
      running := true;
    }

    /** The `append` of a received record to the deque. */
    method Record(m: Measurement)
      requires Valid()
      modifies this
      ensures Valid() && data == History.Append(old(data), m, capacity) && running == old(running)
    {
      data := History.Append(data, m, capacity);
    }

    /** `running()` */
    function Running(): bool
      reads this
    {
      running
    }

    /** `stop()` */
    method Stop()
      modifies this
      ensures !running && data == old(data)
    {
      running := false;
    }

    /** `status()` at time `now`: one pass over the whole buffer. */
    method Status(now: int) returns (ret: OpsStatus)
      requires Readable(data, now)
      ensures ret == Report(data, now)
    {
      var maxFirstDate := now - ConditionTimeoutDelay;
      var minLastDate := now - TimeGapMax;
      var wind := new AggregateMeasurement(WindLimits);
      var temperature := new AggregateMeasurement(TemperatureLimits);
      var humidity := new AggregateMeasurement(HumidityLimits);
      var pressure := new AggregateMeasurement(PressureLimits);
      var dateStart, dateEnd, sufficient := Accumulate(data, now, wind, temperature, humidity, pressure);
      assert data[..|data|] == data;
      if dateStart.None? || dateStart.value > maxFirstDate {
        sufficient := false;
      }
      if dateEnd.None? || dateEnd.value < minLastDate {
        sufficient := false;
      }
      ret := OpsStatus(dateStart, dateEnd, sufficient, wind.Results(), pressure.Results(),
                       temperature.Results(), humidity.Results());
    }
  }

  /** The loop of `status`: every record of the buffer moves the start and
      end dates, and every record of the window is tested for a gap and
      given to the four accumulators. */
  method Accumulate(data: seq<Measurement>, now: int, wind: AggregateMeasurement, temperature: AggregateMeasurement,
                    humidity: AggregateMeasurement, pressure: AggregateMeasurement)
    returns (dateStart: Option<int>, dateEnd: Option<int>, sufficient: bool)
    requires Readable(data, now)
    requires wind.Valid() && temperature.Valid() && humidity.Valid() && pressure.Valid()
    requires wind.added == [] && temperature.added == [] && humidity.added == [] && pressure.added == []
    requires wind != temperature && wind != humidity && wind != pressure
    requires temperature != humidity && temperature != pressure && humidity != pressure
    modifies wind, temperature, humidity, pressure
    ensures Accumulated(data, now, wind, temperature, humidity, pressure)
    ensures dateStart == (if |data| > 0 then Some(data[0].date) else None)
    ensures dateEnd == (if |data| > 0 then Some(Last(data).date) else None)
    ensures sufficient == GapFree(data, now)
  {
    var maxFirstDate := now - ConditionTimeoutDelay;
    dateStart, dateEnd, sufficient := None, None, true;
    assert data[..0] == [];
    assert InWindow([], now) == [];
    for i := 0 to |data|
      invariant Readable(data[..i], now)
      invariant Accumulated(data[..i], now, wind, temperature, humidity, pressure)
      invariant dateStart == if i > 0 then Some(data[0].date) else None
      invariant dateEnd == if i > 0 then Some(data[i - 1].date) else None
      invariant sufficient == GapFree(data[..i], now)
    {
      var m := data[i];
      var date := m.date;
      if dateStart.None? {
        dateStart := Some(date);
      }
      if dateEnd.None? {
        dateEnd := Some(date);
      }
      StepWindow(data, now, i);
      StepReadings(data, now, i);
      if date > maxFirstDate {
        if date - dateEnd.value > TimeGapMax {
          sufficient := false;
        }
        AddReadings(m, wind, temperature, humidity, pressure);
      }
      dateEnd := Some(date);
    }
    assert data[..|data|] == data;
  }

  /** Each accumulator was given, in order, the readings of its field over
      the records of the window of `ms`. */
  ghost predicate Accumulated(ms: seq<Measurement>, now: int, wind: AggregateMeasurement,
                              temperature: AggregateMeasurement, humidity: AggregateMeasurement,
                              pressure: AggregateMeasurement)
    requires Readable(ms, now)
    reads wind, temperature, humidity, pressure
  {
    && wind.Valid() && temperature.Valid() && humidity.Valid() && pressure.Valid()
    && wind.added == Readings(ms, now, "wind_speed")
    && temperature.added == Readings(ms, now, "temperature")
    && humidity.added == Readings(ms, now, "relative_humidity")
    && pressure.added == Readings(ms, now, "pressure")
  }

  /** The readings of `key` the accumulators are given: one per record of
      the window, in order. */
  ghost function Readings(data: seq<Measurement>, now: int, key: string): seq<real>
    requires Readable(data, now) && key in {"wind_speed", "temperature", "relative_humidity", "pressure"}
  {
    InWindowReadable(data, now);
    Values(InWindow(data, now), key)
  }

  /** The four `add` calls for one record of the window. */
  method AddReadings(m: Measurement, wind: AggregateMeasurement, temperature: AggregateMeasurement,
                     humidity: AggregateMeasurement, pressure: AggregateMeasurement)
    requires WeatherFields(m)
    requires wind.Valid() && temperature.Valid() && humidity.Valid() && pressure.Valid()
    requires wind != temperature && wind != humidity && wind != pressure
    requires temperature != humidity && temperature != pressure && humidity != pressure
    modifies wind, temperature, humidity, pressure
    ensures wind.Valid() && temperature.Valid() && humidity.Valid() && pressure.Valid()
    ensures wind.added == old(wind.added) + [m.fields["wind_speed"]]
    ensures temperature.added == old(temperature.added) + [m.fields["temperature"]]
    ensures humidity.added == old(humidity.added) + [m.fields["relative_humidity"]]
    ensures pressure.added == old(pressure.added) + [m.fields["pressure"]]
  {
    wind.Add(m.fields["wind_speed"]);
    temperature.Add(m.fields["temperature"]);
    humidity.Add(m.fields["relative_humidity"]);
    pressure.Add(m.fields["pressure"]);
  }

  /** One more record of the buffer adds its readings when it is in the
      window. */
  lemma StepReadings(data: seq<Measurement>, now: int, i: nat)
    requires i < |data| && Readable(data, now)
    ensures Readable(data[..i], now) && Readable(data[..i + 1], now)
    ensures var m, inWindow := data[i], data[i].date > now - ConditionTimeoutDelay;
            && Readings(data[..i + 1], now, "wind_speed")
               == Readings(data[..i], now, "wind_speed") + (if inWindow then [m.fields["wind_speed"]] else [])
            && Readings(data[..i + 1], now, "temperature")
               == Readings(data[..i], now, "temperature") + (if inWindow then [m.fields["temperature"]] else [])
            && Readings(data[..i + 1], now, "relative_humidity")
               == Readings(data[..i], now, "relative_humidity") + (if inWindow then [m.fields["relative_humidity"]] else [])
            && Readings(data[..i + 1], now, "pressure")
               == Readings(data[..i], now, "pressure") + (if inWindow then [m.fields["pressure"]] else [])
  {
    StepReading(data, now, i, "wind_speed");
    StepReading(data, now, i, "temperature");
    StepReading(data, now, i, "relative_humidity");
    StepReading(data, now, i, "pressure");
  }

  lemma StepReading(data: seq<Measurement>, now: int, i: nat, key: string)
    requires i < |data| && Readable(data, now)
    requires key in {"wind_speed", "temperature", "relative_humidity", "pressure"}
    ensures Readable(data[..i], now) && Readable(data[..i + 1], now)
    ensures Readings(data[..i + 1], now, key)
            == Readings(data[..i], now, key)
               + (if data[i].date > now - ConditionTimeoutDelay then [data[i].fields[key]] else [])
  {
    StepWindow(data, now, i);
    InWindowReadable(data[..i], now);
    var a, b := InWindow(data[..i], now), InWindow(data[..i + 1], now);
    if data[i].date > now - ConditionTimeoutDelay {
      assert b == a + [data[i]];
      assert b[..|b| - 1] == a;
    }
  }

  /** One more record of the buffer: it extends the window (and each list of
      readings) when it is in the window, and adds one gap test. */
  lemma StepWindow(data: seq<Measurement>, now: int, i: nat)
    requires i < |data| && Readable(data, now)
    ensures Readable(data[..i], now) && Readable(data[..i + 1], now)
    ensures var m := data[i];
            InWindow(data[..i + 1], now)
              == InWindow(data[..i], now) + (if m.date > now - ConditionTimeoutDelay then [m] else [])
    ensures data[i].date > now - ConditionTimeoutDelay ==> WeatherFields(data[i])
    ensures forall m :: m in InWindow(data[..i + 1], now) ==> WeatherFields(m)
    ensures GapFree(data[..i + 1], now) <==>
              GapFree(data[..i], now) && (i > 0 && data[i].date > now - ConditionTimeoutDelay ==> data[i].date - data[i - 1].date <= TimeGapMax)
  {
    var prefix := data[..i + 1];
    assert prefix[..i] == data[..i];
    forall m | m in data[..i + 1] ensures m in data {
    }
    InWindowReadable(data[..i], now);
    InWindowReadable(data[..i + 1], now);
  }
}
