/** Building the parameter lists of the observatory revision
    (warwick/observatory/environment/parameters.py): a table of parameter
    names, each with its behaviour (and optionally the record field it reads
    and its valid set), becomes the list of parameters a watcher aggregates,
    with the limits and warning limits looked up by name. */
module ObservatoryParameters {

  import opened Common
  import Agg = ObservatoryAggregate

  /** A value of the `params` dictionary: a bare behaviour, or a dictionary
      with a behaviour and optionally `valid_set_values`, `name` (the record
      field) and `ignore`. */
  datatype Entry =
    | Plain(behaviour: Agg.Behaviour)
    | Detailed(behaviour: Agg.Behaviour, validSetValues: Option<set<real>>, name: Option<string>,
               ignore: Option<seq<real>>)

  /** A dictionary has each key once; the order is its iteration order. */
  predicate DistinctKeys(params: seq<(string, Entry)>) {
    forall i, j :: 0 <= i < j < |params| ==> params[i].0 != params[j].0
  }

  /** `(limits or {}).get(key)` */
  function LimitFor(table: Option<map<string, Limits>>, key: string): (r: Option<Limits>)
    ensures r.Some? <==> table.Some? && key in table.value
    ensures r.Some? ==> r.value == table.value[key]
  {
    if table.Some? && key in table.value then Some(table.value[key]) else None
  }

  /** What the constructor call for the entry `key: entry` yields: the key is
      the name; the limits are looked up by key; a detailed entry adds its
      valid set and record field, a plain one neither; nothing else is
      passed, so the label is empty and no value is ignored. */
  predicate Built(variant: Agg.Variant, key: string, entry: Entry, limits: Option<map<string, Limits>>,
                  warnLimits: Option<map<string, Limits>>, p: Agg.Parameter) {
    && p.variant == variant
    && p.name == key
    && p.behaviour == entry.behaviour
    && p.caption == ""
    && p.unit == None && p.display == None
    && p.limits == LimitFor(limits, key)
    && p.warnLimits == LimitFor(warnLimits, key)
    && p.validSetValues == (if entry.Detailed? then entry.validSetValues else None)
    && p.measurementName == (if entry.Detailed? && entry.name.Some? then entry.name.value else key)
    && p.ignoreValues == {}
  }

  /** `build_parameter_list`: one parameter per key, in the dictionary's
      order. */
  method BuildParameterList(variant: Agg.Variant, params: seq<(string, Entry)>,
                            limits: Option<map<string, Limits>>, warnLimits: Option<map<string, Limits>>)
    returns (list: seq<Agg.Parameter>)
    ensures |list| == |params|
    ensures forall i :: 0 <= i < |params| ==> Built(variant, params[i].0, params[i].1, limits, warnLimits, list[i])
  {
    list := [];
    for i := 0 to |params|
      invariant |list| == i
      invariant forall j :: 0 <= j < i ==> Built(variant, params[j].0, params[j].1, limits, warnLimits, list[j])
    {
      var (key, value) := params[i];
      var param;
      if value.Detailed? {
        param := Agg.NewParameter(variant, key, value.behaviour, "", None, LimitFor(limits, key),
                                  LimitFor(warnLimits, key), value.validSetValues, None, value.name, {});
      } else {
        param := Agg.NewParameter(variant, key, value.behaviour, "", None, LimitFor(limits, key),
                                  LimitFor(warnLimits, key), None, None, None, {});
      }
      list := list + [param];
    }
  }

  function Names(list: seq<Agg.Parameter>): seq<string> {
    if list == [] then [] else Names(list[..|list| - 1]) + [Last(list).name]
  }

  /** The names of the built list are the keys, in order; so distinct keys
      give distinct names, and every key has exactly one parameter. */
  lemma {:induction false} BuiltNames(variant: Agg.Variant, params: seq<(string, Entry)>,
                                      limits: Option<map<string, Limits>>, warnLimits: Option<map<string, Limits>>,
                                      list: seq<Agg.Parameter>)
    requires |list| == |params|
    requires forall i :: 0 <= i < |params| ==> Built(variant, params[i].0, params[i].1, limits, warnLimits, list[i])
    ensures |Names(list)| == |params| && forall i :: 0 <= i < |params| ==> Names(list)[i] == params[i].0
    ensures DistinctKeys(params) ==> forall i, j :: 0 <= i < j < |list| ==> list[i].name != list[j].name
  {
    if list != [] {
      var n := |list| - 1;
      BuiltNames(variant, params[..n], limits, warnLimits, list[..n]);
    }
  }

  /** A table entry with its behaviour and record field. */
  function Named(name: string, behaviour: Agg.Behaviour): Entry {
    Detailed(behaviour, None, Some(name), None)
  }

  const VaisalaTable: seq<(string, Entry)> := [
    ("wind_speed", Plain(Agg.Range)),
    ("median_wind_speed", Named("wind_speed", Agg.Median)),
    ("temperature", Plain(Agg.Range)),
    ("relative_humidity", Plain(Agg.Range)),
    ("pressure", Plain(Agg.Range)),
    ("accumulated_rain", Plain(Agg.Range)),
    ("dew_point_delta", Plain(Agg.Range))]

  const OnemetreRoomAlertTable: seq<(string, Entry)> := [
    ("internal_temp", Plain(Agg.Range)),
    ("internal_humidity", Plain(Agg.Range)),
    ("roomalert_temp", Plain(Agg.Range)),
    ("roomalert_humidity", Plain(Agg.Range)),
    ("truss_temp", Plain(Agg.Range)),
    ("hatch_closed", Plain(Agg.Set)),
    ("trap_closed", Plain(Agg.Set)),
    ("security_system_safe", Plain(Agg.Latest))]

  const GotoRoomAlertTable: seq<(string, Entry)> := [
    ("internal_temp", Plain(Agg.Range)),
    ("internal_humidity", Plain(Agg.Range)),
    ("dome2_internal_temp", Plain(Agg.Range)),
    ("dome2_internal_humidity", Plain(Agg.Range)),
    ("roomalert_temp", Plain(Agg.Range)),
    ("roomalert_humidity", Plain(Agg.Range))]

  const SuperwaspTable: seq<(string, Entry)> := [
    ("wind_speed", Plain(Agg.Range)),
    ("median_wind_speed", Named("wind_speed", Agg.Median)),
    ("sky_temp", Plain(Agg.Range)),
    ("ext_temperature", Plain(Agg.Range)),
    ("ext_humidity", Plain(Agg.Range)),
    ("dew_point_delta", Plain(Agg.Range))]

  const TngTable: seq<(string, Entry)> := [
    ("dust", Plain(Agg.Latest)),
    ("solarimeter", Plain(Agg.Latest)),
    ("seeing", Plain(Agg.Latest))]

  const DiskspaceTable: seq<(string, Entry)> := [
    ("data_fs_available_bytes", Plain(Agg.Latest)),
    ("data_fs_percent_available", Plain(Agg.Latest))]

  const NetpingTable: seq<(string, Entry)> := [
    ("google", Detailed(Agg.Latest, None, None, Some([-1.0]))),
    ("ngtshead", Detailed(Agg.Latest, None, None, Some([-1.0])))]

  const OnemetrePowerTable: seq<(string, Entry)> := [
    ("main_ups_status", Detailed(Agg.Set, Some({2.0}), None, None)),
    ("main_ups_battery_healthy", Plain(Agg.Set)),
    ("main_ups_battery_remaining", Plain(Agg.Range)),
    ("light", Plain(Agg.Set))]

  const RasaPowerTable: seq<(string, Entry)> := [
    ("ups_status", Detailed(Agg.Set, Some({2.0}), None, None)),
    ("ups_battery_healthy", Plain(Agg.Set)),
    ("ups_battery_remaining", Plain(Agg.Range))]

  /** `vaisala_parameters`: seven parameters that first drop records whose
      validity flag is false; `median_wind_speed` is the median of the
      `wind_speed` field, every other parameter reads its own field. */
  method VaisalaParameters(limits: Option<map<string, Limits>>, warnLimits: Option<map<string, Limits>>)
    returns (list: seq<Agg.Parameter>)
    ensures |list| == 7
    ensures forall i :: 0 <= i < |list| ==>
              Built(Agg.FilterInvalid, VaisalaTable[i].0, VaisalaTable[i].1, limits, warnLimits, list[i])
    ensures forall i :: 0 <= i < |list| ==>
              list[i].limits == LimitFor(limits, list[i].name)
              && list[i].warnLimits == LimitFor(warnLimits, list[i].name)
    ensures forall p :: p in list ==> p.variant == Agg.FilterInvalid && p.caption == ""
    ensures list[1].name == "median_wind_speed" && list[1].behaviour == Agg.Median
            && list[1].measurementName == "wind_speed"
    ensures forall i :: 0 <= i < 7 && i != 1 ==> list[i].behaviour == Agg.Range && list[i].measurementName == list[i].name
  {
    list := BuildParameterList(Agg.FilterInvalid, VaisalaTable, limits, warnLimits);
  }

  /** `onemetre_roomalert_parameters`: plain parameters; the hatch and trap
      flags are sets and the security system is judged on its latest value. */
  method OnemetreRoomAlertParameters(limits: Option<map<string, Limits>>, warnLimits: Option<map<string, Limits>>)
    returns (list: seq<Agg.Parameter>)
    ensures |list| == 8
    ensures forall i :: 0 <= i < |list| ==>
              Built(Agg.Plain, OnemetreRoomAlertTable[i].0, OnemetreRoomAlertTable[i].1, limits, warnLimits, list[i])
    ensures forall i :: 0 <= i < |list| ==>
              list[i].limits == LimitFor(limits, list[i].name)
              && list[i].warnLimits == LimitFor(warnLimits, list[i].name)
    ensures forall p :: p in list ==> p.variant == Agg.Plain && p.measurementName == p.name
    ensures list[5].name == "hatch_closed" && list[5].behaviour == Agg.Set && list[5].validSetValues == None
    ensures list[6].name == "trap_closed" && list[6].behaviour == Agg.Set && list[6].validSetValues == None
    ensures list[7].name == "security_system_safe" && list[7].behaviour == Agg.Latest
    ensures forall i :: 0 <= i < 5 ==> list[i].behaviour == Agg.Range
  {
    list := BuildParameterList(Agg.Plain, OnemetreRoomAlertTable, limits, warnLimits);
  }

  /** `goto_roomalert_parameters`: six plain ranges. */
  method GotoRoomAlertParameters(limits: Option<map<string, Limits>>, warnLimits: Option<map<string, Limits>>)
    returns (list: seq<Agg.Parameter>)
    ensures |list| == 6
    ensures forall i :: 0 <= i < |list| ==>
              Built(Agg.Plain, GotoRoomAlertTable[i].0, GotoRoomAlertTable[i].1, limits, warnLimits, list[i])
    ensures forall i :: 0 <= i < |list| ==>
              list[i].limits == LimitFor(limits, list[i].name)
              && list[i].warnLimits == LimitFor(warnLimits, list[i].name)
    ensures forall p :: p in list ==> p.variant == Agg.Plain && p.behaviour == Agg.Range && p.measurementName == p.name
  {
    list := BuildParameterList(Agg.Plain, GotoRoomAlertTable, limits, warnLimits);
  }

  /** `superwasp_parameters`: plain parameters, with the same median of the
      wind speed as the vaisala list. */
  method SuperwaspParameters(limits: Option<map<string, Limits>>, warnLimits: Option<map<string, Limits>>)
    returns (list: seq<Agg.Parameter>)
    ensures |list| == 6
    ensures forall i :: 0 <= i < |list| ==>
              Built(Agg.Plain, SuperwaspTable[i].0, SuperwaspTable[i].1, limits, warnLimits, list[i])
    ensures forall i :: 0 <= i < |list| ==>
              list[i].limits == LimitFor(limits, list[i].name)
              && list[i].warnLimits == LimitFor(warnLimits, list[i].name)
    ensures forall p :: p in list ==> p.variant == Agg.Plain
    ensures list[1].name == "median_wind_speed" && list[1].behaviour == Agg.Median
            && list[1].measurementName == "wind_speed"
    ensures forall i :: 0 <= i < 6 && i != 1 ==> list[i].behaviour == Agg.Range && list[i].measurementName == list[i].name
  {
    list := BuildParameterList(Agg.Plain, SuperwaspTable, limits, warnLimits);
  }

  /** `tng_parameters`: three latest values that first drop invalid records. */
  method TngParameters(limits: Option<map<string, Limits>>, warnLimits: Option<map<string, Limits>>)
    returns (list: seq<Agg.Parameter>)
    ensures |list| == 3
    ensures forall i :: 0 <= i < |list| ==>
              Built(Agg.FilterInvalid, TngTable[i].0, TngTable[i].1, limits, warnLimits, list[i])
    ensures forall i :: 0 <= i < |list| ==>
              list[i].limits == LimitFor(limits, list[i].name)
              && list[i].warnLimits == LimitFor(warnLimits, list[i].name)
    ensures forall p :: p in list ==> p.variant == Agg.FilterInvalid && p.behaviour == Agg.Latest
  {
    list := BuildParameterList(Agg.FilterInvalid, TngTable, limits, warnLimits);
  }

  /** `diskspace_parameters`: two plain latest values. */
  method DiskspaceParameters(limits: Option<map<string, Limits>>, warnLimits: Option<map<string, Limits>>)
    returns (list: seq<Agg.Parameter>)
    ensures |list| == 2
    ensures forall i :: 0 <= i < |list| ==>
              Built(Agg.Plain, DiskspaceTable[i].0, DiskspaceTable[i].1, limits, warnLimits, list[i])
    ensures forall i :: 0 <= i < |list| ==>
              list[i].limits == LimitFor(limits, list[i].name)
              && list[i].warnLimits == LimitFor(warnLimits, list[i].name)
    ensures forall p :: p in list ==> p.variant == Agg.Plain && p.behaviour == Agg.Latest
  {
    list := BuildParameterList(Agg.Plain, DiskspaceTable, limits, warnLimits);
  }

  /** `netping_parameters`: the `ignore` lists of the table are never read,
      so both parameters count the `-1` replies. */
  method NetpingParameters(limits: Option<map<string, Limits>>, warnLimits: Option<map<string, Limits>>)
    returns (list: seq<Agg.Parameter>)
    ensures |list| == 2
    ensures forall i :: 0 <= i < |list| ==>
              Built(Agg.Plain, NetpingTable[i].0, NetpingTable[i].1, limits, warnLimits, list[i])
    ensures forall i :: 0 <= i < |list| ==>
              list[i].limits == LimitFor(limits, list[i].name)
              && list[i].warnLimits == LimitFor(warnLimits, list[i].name)
    ensures forall i :: 0 <= i < 2 ==> NetpingTable[i].1.ignore == Some([-1.0])
    ensures forall p :: p in list ==> p.variant == Agg.Plain && p.behaviour == Agg.Latest && p.ignoreValues == {}
  {
    list := BuildParameterList(Agg.Plain, NetpingTable, limits, warnLimits);
  }

  /** `onemetre_power_parameters`: the UPS status is safe only while it
      reads 2. */
  method OnemetrePowerParameters(limits: Option<map<string, Limits>>, warnLimits: Option<map<string, Limits>>)
    returns (list: seq<Agg.Parameter>)
    ensures |list| == 4
    ensures forall i :: 0 <= i < |list| ==>
              Built(Agg.Plain, OnemetrePowerTable[i].0, OnemetrePowerTable[i].1, limits, warnLimits, list[i])
    ensures forall i :: 0 <= i < |list| ==>
              list[i].limits == LimitFor(limits, list[i].name)
              && list[i].warnLimits == LimitFor(warnLimits, list[i].name)
    ensures forall p :: p in list ==> p.variant == Agg.Plain
    ensures list[0].name == "main_ups_status" && list[0].behaviour == Agg.Set && list[0].validSetValues == Some({2.0})
    ensures list[1].behaviour == Agg.Set && list[1].validSetValues == None
    ensures list[2].behaviour == Agg.Range
    ensures list[3].behaviour == Agg.Set && list[3].validSetValues == None
  {
    list := BuildParameterList(Agg.Plain, OnemetrePowerTable, limits, warnLimits);
  }

  /** `rasa_power_parameters`: as the one-metre list without the light. */
  method RasaPowerParameters(limits: Option<map<string, Limits>>, warnLimits: Option<map<string, Limits>>)
    returns (list: seq<Agg.Parameter>)
    ensures |list| == 3
    ensures forall i :: 0 <= i < |list| ==>
              Built(Agg.Plain, RasaPowerTable[i].0, RasaPowerTable[i].1, limits, warnLimits, list[i])
    ensures forall i :: 0 <= i < |list| ==>
              list[i].limits == LimitFor(limits, list[i].name)
              && list[i].warnLimits == LimitFor(warnLimits, list[i].name)
    ensures forall p :: p in list ==> p.variant == Agg.Plain
    ensures list[0].name == "ups_status" && list[0].behaviour == Agg.Set && list[0].validSetValues == Some({2.0})
    ensures list[1].behaviour == Agg.Set && list[1].validSetValues == None
    ensures list[2].behaviour == Agg.Range
  {
    list := BuildParameterList(Agg.Plain, RasaPowerTable, limits, warnLimits);
  }
}
