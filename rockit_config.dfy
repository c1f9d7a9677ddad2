/** The configuration helper of the rockit revision
    (rockit/environment/config.py): turning one `parameters` entry of the
    JSON configuration into a parameter. This revision adds the `LatestSet`
    behaviour, which keeps its valid set like `Set`. */
module RockitConfig {

  import opened Common

  /** The behaviours the rockit configuration schema lists. */
  datatype Behaviour = Range | Median | Latest | Set | LatestSet

  function Name(b: Behaviour): string {
    match b
    case Range => "Range"
    case Median => "Median"
    case Latest => "Latest"
    case Set => "Set"
    case LatestSet => "LatestSet"
  }

  /** `AggregateBehaviour.parse` of this revision: the five keywords, and a
      raised error for anything else. */
  function Parse(value: string): (r: Result<Behaviour, string>)
    ensures r.Success? <==> value in {"Range", "Median", "Latest", "Set", "LatestSet"}
    ensures r.Success? ==> Name(r.value) == value
  {
    if value == "Range" then Success(Range)
    else if value == "Median" then Success(Median)
    else if value == "Latest" then Success(Latest)
    else if value == "Set" then Success(Set)
    else if value == "LatestSet" then Success(LatestSet)
    else Failure("could not convert string to AggregateBehaviour: " + value)
  }

  datatype Variant = Plain | FilterInvalid

  /** The arguments of the constructor call `parse_watcher_parameter`
      makes; the record field is `None` unless a Median names one. */
  datatype Parameter = Parameter(
    variant: Variant,
    name: string,
    behaviour: Behaviour,
    caption: string,           // the `label`
    unit: Option<string>,
    limits: Option<Limits>,
    warnLimits: Option<Limits>,
    measurementName: Option<string>,
    validSetValues: Option<set<real>>,
    display: Option<string>)

  /** `'type' in enum [...]` together with the `anyOf` rule that a Median
      parameter must carry `median_key`. */
  predicate SchemaValid(json: ParameterJson) {
    && json.kind in {"Range", "Median", "Latest", "Set", "LatestSet"}
    && (json.kind == "Median" ==> json.medianKey.Some?)
  }

  /** Whether the behaviour keeps `valid_set_values`. */
  predicate KeepsValidSet(b: Behaviour) {
    b == Set || b == LatestSet
  }

  /** `parse_watcher_parameter(parameter, parameter_json)` */
  function ParseWatcherParameter(key: string, json: ParameterJson): (r: Result<Parameter, string>)
    ensures r.Success? <==> Parse(json.kind).Success?
    ensures r.Failure? ==> r.error == Parse(json.kind).error
    ensures r.Success? ==>
              var p := r.value;
              && p.name == key && Name(p.behaviour) == json.kind && p.caption == json.caption
              && p.variant == (if json.filterInvalid == Some(true) then FilterInvalid else Plain)
              && p.limits == json.unsafeLimits && p.warnLimits == json.warnLimits
              && p.unit == json.unit && p.display == json.display
  {
    var variant := if json.filterInvalid.Some? && json.filterInvalid.value then FilterInvalid else Plain;
    match Parse(json.kind)
    case Failure(e) => Failure(e)
    case Success(behaviour) =>
      var medianKey := if behaviour == Median && json.medianKey.Some? then json.medianKey else None;
      var validSetValues := if KeepsValidSet(behaviour) && json.validSetValues.Some?
                            then Some(SetOf(json.validSetValues.value)) else None;
      Success(Parameter(variant, key, behaviour, json.caption, json.unit, json.unsafeLimits, json.warnLimits,
                        medianKey, validSetValues, json.display))
  }

  /** A parameter that meets the schema parses; a Median is given its
      `median_key` as the record field and every other behaviour none. */
  lemma SchemaValidParses(key: string, json: ParameterJson)
    requires SchemaValid(json)
    ensures var r := ParseWatcherParameter(key, json);
            && r.Success?
            && (json.kind == "Median" <==> r.value.behaviour == Median)
            && (json.kind == "Median" ==> r.value.measurementName == json.medianKey)
            && (json.kind != "Median" ==> r.value.measurementName == None)
  {
  }

  /** The valid set is kept, as a set, exactly by Set and LatestSet
      parameters that give one. */
  lemma ValidSetKept(key: string, json: ParameterJson)
    requires ParseWatcherParameter(key, json).Success?
    ensures var p := ParseWatcherParameter(key, json).value;
            && (p.validSetValues.Some? <==> (json.kind == "Set" || json.kind == "LatestSet") && json.validSetValues.Some?)
            && (p.validSetValues.Some? ==> forall x :: x in p.validSetValues.value <==> x in json.validSetValues.value)
  {
  }

  /** The variant depends on `filter_invalid` alone: any other change to the
      entry leaves it as it was. */
  lemma VariantFromFilterInvalid(key: string, a: ParameterJson, b: ParameterJson)
    requires ParseWatcherParameter(key, a).Success? && ParseWatcherParameter(key, b).Success?
    requires a.filterInvalid == b.filterInvalid
    ensures ParseWatcherParameter(key, a).value.variant == ParseWatcherParameter(key, b).value.variant
  {
  }

  /** The keyword of each behaviour parses back to it. */
  lemma ParseName(b: Behaviour)
    ensures Parse(Name(b)) == Success(b)
  {
  }
}
