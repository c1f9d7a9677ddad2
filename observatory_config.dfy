/** The configuration helpers of the observatory revision
    (warwick/observatory/environment/config.py): turning one `parameters`
    entry of the JSON configuration into a parameter, and the text of the
    error raised when the configuration breaks its schema. */
module ObservatoryConfig {

  import opened Common
  import opened Text
  import Agg = ObservatoryAggregate

  /** The part of the configuration schema that `parse_watcher_parameter`
      relies on: the type is one of the four behaviours, and a Median
      parameter names the record field it reads. */
  predicate SchemaValid(json: ParameterJson) {
    && (json.kind == "Range" || json.kind == "Median" || json.kind == "Latest" || json.kind == "Set")
    && (json.kind == "Median" ==> json.medianKey.Some?)
  }

  /** `parse_watcher_parameter(parameter, parameter_json)`: a true
      `filter_invalid` selects the validity-filtering variant; `median_key`
      is read only by a Median parameter and `valid_set_values` only by a Set
      parameter; the optional keys default to `None`; no value is ignored.
      An unknown type raises the error of `AggregateBehaviour.parse`. */
  function ParseWatcherParameter(key: string, json: ParameterJson): (r: Result<Agg.Parameter, string>)
    ensures r.Success? <==> Agg.Parse(json.kind).Success?
    ensures r.Failure? ==> r.error == Agg.Parse(json.kind).error
    ensures r.Success? ==>
              var p := r.value;
              && p.name == key && p.behaviour == Agg.Parse(json.kind).value && p.caption == json.caption
              && p.variant == (if json.filterInvalid == Some(true) then Agg.FilterInvalid else Agg.Plain)
              && p.measurementName == (if p.behaviour == Agg.Median && json.medianKey.Some? then json.medianKey.value else key)
              && p.validSetValues == (if p.behaviour == Agg.Set && json.validSetValues.Some?
                                      then Some(SetOf(json.validSetValues.value)) else None)
              && p.limits == json.unsafeLimits && p.warnLimits == json.warnLimits
              && p.unit == json.unit && p.display == json.display && p.ignoreValues == {}
  {
    var variant := if json.filterInvalid.Some? && json.filterInvalid.value then Agg.FilterInvalid else Agg.Plain;
    match Agg.Parse(json.kind)
    case Failure(e) => Failure(e)
    case Success(behaviour) =>
      var medianKey := if behaviour == Agg.Median && json.medianKey.Some? then json.medianKey else None;
      var validSetValues := if behaviour == Agg.Set && json.validSetValues.Some?
                            then Some(SetOf(json.validSetValues.value)) else None;
      Success(Agg.NewParameter(variant, key, behaviour, json.caption, json.unit, json.unsafeLimits, json.warnLimits,
                               validSetValues, json.display, medianKey, {}))
  }

  /** A parameter that meets the schema always parses, and a Median reads
      the field its `median_key` names. */
  lemma SchemaValidParses(key: string, json: ParameterJson)
    requires SchemaValid(json)
    ensures var r := ParseWatcherParameter(key, json);
            && r.Success?
            && Agg.Name(r.value.behaviour) == json.kind
            && (json.kind == "Median" ==> r.value.measurementName == json.medianKey.value)
            && (json.kind != "Median" ==> r.value.measurementName == key)
  {
  }

  /** `median_key` matters only to a Median parameter, and
      `valid_set_values` only to a Set parameter: changing either elsewhere
      yields the same parameter. */
  lemma UnusedKeysIgnored(key: string, json: ParameterJson, medianKey: Option<string>,
                          validSetValues: Option<seq<real>>)
    ensures json.kind != "Median" ==>
              ParseWatcherParameter(key, json.(medianKey := medianKey)) == ParseWatcherParameter(key, json)
    ensures json.kind != "Set" ==>
              ParseWatcherParameter(key, json.(validSetValues := validSetValues)) == ParseWatcherParameter(key, json)
  {
  }

  /** An element of a validation error's path: a property name or an array
      index. */
  datatype PathElement = Key(name: string) | Index(i: nat)

  /** A schema validation error: where it is and what is wrong. */
  datatype ValidationError = ValidationError(path: seq<PathElement>, message: string)

  /** `str(p)` */
  function PathText(e: PathElement): string {
    match e
    case Key(name) => name
    case Index(i) => NatToString(i)
  }

  function PathTexts(path: seq<PathElement>): (r: seq<string>)
    ensures |r| == |path| && forall i :: 0 <= i < |path| ==> r[i] == PathText(path[i])
  {
    if path == [] then [] else PathTexts(path[..|path| - 1]) + [PathText(Last(path))]
  }

  /** One line of the report: the path joined with `->`, then `: ` and the
      message; the bare message when the path is empty. */
  function FormatError(e: ValidationError): string {
    if |e.path| > 0 then Join(PathTexts(e.path), "->") + ": " + e.message else e.message
  }

  /** Each line ends with its error's message, and is the bare message
      when the error has no path. */
  lemma FormatErrorMessage(e: ValidationError)
    ensures var r := FormatError(e);
            |e.message| <= |r| && r[|r| - |e.message|..] == e.message
    ensures |e.path| == 0 ==> FormatError(e) == e.message
  {
    if |e.path| > 0 {
      var j := Join(PathTexts(e.path), "->");
      var r := j + ": " + e.message;
      assert r[|r| - |e.message|..] == e.message;
    }
  }

  /** A located error's line spells out the path elements in order: the
      `k`-th comes after the elements before it, each followed by `->`. */
  lemma FormatErrorPath(e: ValidationError, k: nat)
    requires k < |e.path|
    ensures var r := FormatError(e);
            var texts := PathTexts(e.path);
            var at := TotalLength(texts[..k]) + 2 * k;
            at + |texts[k]| <= |r| && r[at..at + |texts[k]|] == PathText(e.path[k])
  {
    var texts := PathTexts(e.path);
    var tail := ": " + e.message;
    JoinContainsBefore(texts, "->", tail, k);
    var w := |"->"|;
    assert w == 2;
    assert k * w == 2 * k;
    assert FormatError(e) == Join(texts, "->") + tail;
  }

  const ViolationHeader: string := "Invalid configuration:\n\t"

  /** The message of `ConfigSchemaViolationError(errors)`. */
  function ViolationMessage(errors: seq<string>): (r: string)
    ensures |r| >= |ViolationHeader| && r[..|ViolationHeader|] == ViolationHeader
  {
    ViolationHeader + Join(errors, "\n\t")
  }

  /** Every error line appears in the message, after the header and the
      lines and separators before it. */
  lemma ViolationMessageLists(errors: seq<string>, k: nat)
    requires k < |errors|
    ensures var r := ViolationMessage(errors);
            var at := |ViolationHeader| + TotalLength(errors[..k]) + 2 * k;
            at + |errors[k]| <= |r| && r[at..at + |errors[k]|] == errors[k]
  {
    var r := ViolationMessage(errors);
    var j := Join(errors, "\n\t");
    JoinContains(errors, "\n\t", k);
    var at := TotalLength(errors[..k]) + 2 * k;
    var h := |ViolationHeader|;
    assert r[h + at..h + at + |errors[k]|] == j[at..at + |errors[k]|];
  }

  /** `validate_config` after the validator has listed its `errors`: the
      configuration is accepted when there are none; otherwise the
      violation error is raised with one line per error, in order. */
  method ValidateConfig(errors: seq<ValidationError>) returns (raised: Option<string>)
    ensures raised.None? <==> |errors| == 0
    ensures raised.Some? ==>
              exists lines: seq<string> ::
                && |lines| == |errors|
                && (forall i :: 0 <= i < |errors| ==> lines[i] == FormatError(errors[i]))
                && raised.value == ViolationMessage(lines)
  {
    var lines: seq<string> := [];
    for i := 0 to |errors|
      invariant |lines| == i
      invariant forall k :: 0 <= k < i ==> lines[k] == FormatError(errors[k])
    {
      var error := errors[i];
      var message;
      if |error.path| > 0 {
        var path := Join(PathTexts(error.path), "->");
        message := path + ": " + error.message;
      } else {
        message := error.message;
      }
      lines := lines + [message];
    }
    if |lines| > 0 {
      raised := Some(ViolationMessage(lines));
    } else {
      raised := None;
    }
  }
}
