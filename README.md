# Environment daemon safety aggregation, modelled in Dafny

The environment daemon decides whether the weather and the site hardware are
safe enough to observe. Watchers poll sensor daemons, each keeping a bounded
history of timestamped records. On every status query, each watcher
aggregates the records of a recent time window parameter by parameter, using
one of these behaviours:

- the range of the readings;
- their median;
- the latest reading;
- the set of readings seen.

It then judges the result against limits. Several revisions of this engine
sit side by side in the repository, and this project models each one
separately:

- **Observatory revision** (`warwick/observatory/environment`):
  - `AggregateParameter` and its `FilterInvalidAggregateParameter` subclass
    (`ObservatoryAggregate`), where a parameter is unsafe or a warning;
  - the `PyroWatcher` with its bounded deque, edge-triggered contact logging
    and status (`ObservatoryWatcher`, with the shared parts in `History` and
    `Contact`);
  - the parameter tables of `parameters.py` (`ObservatoryParameters`);
  - the configuration helpers of `config.py` (`ObservatoryConfig`).
- **One-metre telescope revision** (`warwick/w1m/environment`):
  - `AggregateParameter` with `Safe`/`Unsafe` verdicts and the
    `*WithLimits` behaviours (`W1mAggregate`);
  - its `PyroWatcher`, with the `Safe`/`Unsafe`/`Disabled` roll-up, the
    limit override and `parameters_with_limits` (`W1mWatcher`);
  - the `CommandStatus` messages (`W1mConstants`).
- **Rockit revision**: `parse_watcher_parameter` of
  `rockit/environment/config.py`, with the `LatestSet` behaviour and the
  schema rule that a Median names its field (`RockitConfig`).
- **Earlier operations daemon** (`opsd.py`): the `AggregateMeasurement`
  accumulator, the buffer capacity and the window, gap and sufficiency loop
  of `OperationsDaemon.status` (`Opsd`).

Conventions of the model:

- Timestamps are integer seconds, and `now` is an argument.
- `datetime.min` ("no record") is `None`.
- Readings are `real`; Python booleans are `0.0`/`1.0`.
- A dictionary key that may be absent is an `Option`.
- One iteration of a polling thread is a method that takes the query's
  outcome (`Reply`, `EmptyReply` or `QueryFailed`) as a parameter. The log
  lines it sends are appended to a `log` sequence.

Some accesses raise `KeyError` or `TypeError`, and the source lets those
errors escape `status`. Examples are a record without the field a parameter
reads, or a one-metre range parameter configured without limits. These
conditions are preconditions, stated precisely per path (the `Readable`
predicates).

Each computation is proved against its specification:

- Every method that works step by step (the aggregation loops, the status
  loops, the limit override, `build_parameter_list`, the error collection of
  `validate_config`) is proved equal to a function of its inputs. Examples
  are `Summarize`, `Report`, `Keyed` and `Built`.
- The properties the code promises are then proved about those functions:
  - extremes and medians;
  - subset tests;
  - strict versus inclusive limits;
  - filters that drop records without a trace;
  - FIFO eviction;
  - logging only on edges;
  - the status roll-up.

Where the specification of the system and the code disagree, the model
follows the code:

- **Disabled parameters in the one-metre revision.** `aggregate` never reads
  `disabled`, so a disabled parameter's own `Unsafe` verdict still makes the
  watcher `Unsafe` (`W1mWatcher.FlagsDoNotMaskUnsafe`).
- **What makes a watcher `Disabled`.** Every parameter must be disabled, not
  only the limited ones, and a watcher with no parameters counts as all
  disabled.
- **Filter order in `FilterInvalidAggregateParameter`.** It drops invalid
  records before the base class drops ignored values. The two orders give
  the same window (`ObservatoryAggregate.FilterOrderIrrelevant`).
- **Limits in the one-metre revision.** The plain `Range`, `Median` and
  `Latest` behaviours index their limits like the `*WithLimits` ones, so all
  of them need limits on any non-empty window, and a `Set` parameter needs
  a valid set there. The model makes these requirements preconditions.
- **`ParameterStatus`** is imported by the one-metre revision but not defined
  in its constants module. It is modelled as `Safe | Unsafe | Disabled`.
- **`disabled` and `override_limit`** are used by the one-metre watcher but
  do not appear in its `AggregateParameter`. They are modelled as a mutable
  `disabled` field that `OverrideLimit` sets.

## Model

| member | source | states |
|---|---|---|
| `ObservatoryAggregate.Parse` | warwick/observatory/environment/aggregate_parameter.py:32-43 | exactly the four keywords parse, each to the behaviour with that name; any other string fails with the `ValueError` text naming it |
| `ObservatoryAggregate.ParseName` | warwick/observatory/environment/aggregate_parameter.py:32-43 | parsing a behaviour's keyword gives the behaviour back |
| `ObservatoryAggregate.NewParameter` | warwick/observatory/environment/aggregate_parameter.py:48-59 | the field read is `measurement_name` when given, else the parameter's name; every other argument is kept as given |
| `ObservatoryAggregate.Aggregate` | warwick/observatory/environment/aggregate_parameter.py:61-173 | the imperative `aggregate` (filters, common keys, behaviour branch) equals the specification `Summarize` |
| `ObservatoryAggregate.SummaryHeader` | warwick/observatory/environment/aggregate_parameter.py:93-116 | the common keys: label, count, first and last dates, `current` iff the newest date reaches the stale threshold, unit only when non-empty, limits echoed |
| `ObservatoryAggregate.AggregateRange` | warwick/observatory/environment/aggregate_parameter.py:118-131 | the min/max loop and the two limit tests give the `Range` summary |
| `ObservatoryAggregate.AggregateMedian` | warwick/observatory/environment/aggregate_parameter.py:133-140 | the median and its limit tests give the `Median` summary |
| `ObservatoryAggregate.AggregateSet` | warwick/observatory/environment/aggregate_parameter.py:142-158 | the distinct values, display and valid-set test give the `Set` summary |
| `ObservatoryAggregate.AggregateLatest` | warwick/observatory/environment/aggregate_parameter.py:160-171 | the newest value, judged only while current, gives the `Latest` summary |
| `ObservatoryAggregate.EmptyWindow` | warwick/observatory/environment/aggregate_parameter.py:93-116 | with nothing to aggregate: not unsafe, no warning, not current, count 0, no dates, no latest/min/max/values; limits and label still reported |
| `ObservatoryAggregate.RangeVerdict` | warwick/observatory/environment/aggregate_parameter.py:118-131 | min and max are readings that bound every reading, latest is the newest; unsafe (warning) iff some reading lies strictly outside the limits (warning limits), so a reading equal to a limit is safe |
| `ObservatoryAggregate.RangeOutside` | warwick/observatory/environment/aggregate_parameter.py:126-131 | the extremes are outside a limit pair iff some reading is |
| `ObservatoryAggregate.MedianVerdict` | warwick/observatory/environment/aggregate_parameter.py:133-140 | latest is the median, unsafe (warning) iff the median is strictly outside the limits |
| `ObservatoryAggregate.MedianNoStricterThanRange` | warwick/observatory/environment/aggregate_parameter.py:118-140 | a window the `Range` behaviour finds neither unsafe nor a warning is not one for `Median` with the same limits either |
| `ObservatoryAggregate.SetVerdict` | warwick/observatory/environment/aggregate_parameter.py:142-158 | values are exactly the readings seen; with a non-empty valid set unsafe == warning == some reading is outside it; without one never unsafe |
| `ObservatoryAggregate.LatestVerdict` | warwick/observatory/environment/aggregate_parameter.py:160-171 | only the newest reading is judged and only while current, so stale data is never unsafe nor a warning |
| `ObservatoryAggregate.IgnoredNeverContribute` | warwick/observatory/environment/aggregate_parameter.py:87-91 | inserting a record whose value is in the ignore list anywhere in the window leaves the whole summary unchanged |
| `ObservatoryAggregate.InvalidNeverContribute` | warwick/observatory/environment/aggregate_parameter.py:176-181 | for the filtering variant, inserting a record whose `_valid` flag is false anywhere leaves the whole summary unchanged |
| `ObservatoryAggregate.FilterOrderIrrelevant` | warwick/observatory/environment/aggregate_parameter.py:176-181 | dropping invalid records then ignored values gives the same window as the opposite order |
| `Stats.ScanRange` | warwick/observatory/environment/aggregate_parameter.py:119-124 | the min/max/latest loop (shared by both revisions) ends with readings that bound every reading and the newest reading |
| `Stats.MedianWithinExtremes` | warwick/observatory/environment/aggregate_parameter.py:134 | `statistics.median` lies between the smallest and the largest reading |
| `Stats.MedianPermutation` | warwick/observatory/environment/aggregate_parameter.py:134 | the median does not depend on the arrival order of the readings |
| `Stats.MedianOddIsReading` | warwick/observatory/environment/aggregate_parameter.py:134 | with an odd count the median is one of the readings |
| `W1mConstants.Message` | warwick/w1m/environment/constants.py:37-42 | every message starts with `error: ` |
| `W1mConstants.UnknownCodeMessage` | warwick/w1m/environment/constants.py:40-42 | a code without a table entry gives `error: Unknown error code ` followed by a decimal that reads back as the code |
| `W1mConstants.CommandCodesMessages` | warwick/w1m/environment/constants.py:22-35 | `Success`, `InvalidWatcher` and `InvalidParameter` fall through to the unknown-code text with 0, 11 and 12; `InvalidControlIP` has the IP message |
| `W1mConstants.MessageInjective` | warwick/w1m/environment/constants.py:30-42 | different codes never share a message |
| `W1mAggregate.NewConfig` | warwick/w1m/environment/aggregate_parameter.py:32-39 | the field read is `measurement_name` when given, else the name |
| `W1mAggregate.Parameter.constructor` | warwick/w1m/environment/aggregate_parameter.py:32-39 | `has_limits` is fixed at construction from the configuration; the parameter starts enabled |
| `W1mAggregate.Parameter.OverrideLimit` | warwick/w1m/environment/pyro_watcher.py:141 | `override_limit(d)` sets the disabled flag to `d` |
| `W1mAggregate.Parameter.Aggregate` | warwick/w1m/environment/aggregate_parameter.py:52-110 | the imperative `aggregate` equals the specification `Summarize` |
| `W1mAggregate.AggregateRange` | warwick/w1m/environment/aggregate_parameter.py:65-77 | the min/max loop and the inclusive test give the range summary |
| `W1mAggregate.AggregateMedian` | warwick/w1m/environment/aggregate_parameter.py:79-85 | the median and the inclusive test give the median summary |
| `W1mAggregate.AggregateSet` | warwick/w1m/environment/aggregate_parameter.py:87-101 | the distinct values and the subset test give the set summary |
| `W1mAggregate.AggregateLatest` | warwick/w1m/environment/aggregate_parameter.py:103-108 | the newest value and the inclusive test give the latest summary |
| `W1mAggregate.SummaryShape` | warwick/w1m/environment/aggregate_parameter.py:41-63 | `limits` is reported iff the parameter has limits (a Set iff it has a valid set, others iff a `*WithLimits` behaviour); "NO DATA" iff the window is empty, and then `Unsafe`; never `Disabled` |
| `W1mAggregate.RangeVerdict` | warwick/w1m/environment/aggregate_parameter.py:65-77 | min and max are readings bounding every reading, latest the newest; `Safe` iff every reading is within the limits, ends included |
| `W1mAggregate.MedianVerdict` | warwick/w1m/environment/aggregate_parameter.py:79-85 | latest is the median; `Safe` iff it is within the limits, ends included |
| `W1mAggregate.MedianNoStricterThanRange` | warwick/w1m/environment/aggregate_parameter.py:65-85 | a window the `Range` behaviour finds `Safe` is `Safe` for `Median` with the same limits |
| `W1mAggregate.SetVerdict` | warwick/w1m/environment/aggregate_parameter.py:87-101 | values are exactly the readings seen; `Safe` iff every reading is in the valid set; the valid set is reported iff non-empty |
| `W1mAggregate.LatestVerdict` | warwick/w1m/environment/aggregate_parameter.py:103-108 | only the newest reading is judged, inclusively, with no staleness test |
| `History.CapacityIsCeiling` | warwick/observatory/environment/pyro_watcher.py:43-45 | the capacity is the least number of polls `query_delay` apart covering 1.1 window lengths, i.e. `ceil(window_length * 1.1 / query_delay)` |
| `History.AppendKeepsNewest` | warwick/observatory/environment/pyro_watcher.py:68-69 | an append keeps the new record as the newest, after the old records, dropping the oldest once full |
| `History.FifoEviction` | warwick/w1m/environment/pyro_watcher.py:45-47 | appending records one by one keeps exactly the most recent `capacity` of everything appended, in order |
| `History.WindowExact` | warwick/observatory/environment/pyro_watcher.py:96-100 | the window holds exactly the buffered records dated at or after the window start, in arrival order |
| `Contact.EdgeTriggered` | warwick/observatory/environment/pyro_watcher.py:61-88 | one poll logs at most one line: "Lost" iff it fails after a success, "Restored" iff it succeeds after a failure, "Established" iff it succeeds after a success and the buffer length becomes 1 |
| `Contact.RepeatedFailuresSilent` | warwick/observatory/environment/pyro_watcher.py:76-88 | once contact is lost, further failed polls log nothing and leave the buffer as it is |
| `Contact.LostContactLoggedOnce` | warwick/observatory/environment/pyro_watcher.py:76-88 | a run of failures after a success logs "Lost contact" exactly once, appends nothing and sets the failure flag |
| `Contact.RepeatedRepliesSilent` | warwick/observatory/environment/pyro_watcher.py:61-75 | successive successful polls on a non-empty buffer of capacity at least 2 log nothing |
| `ObservatoryWatcher.KeyedDomain` | warwick/observatory/environment/pyro_watcher.py:102-106 | the status is keyed by exactly the parameter names |
| `ObservatoryWatcher.KeyedLastWins` | warwick/observatory/environment/pyro_watcher.py:104-105 | each name maps to the summary of the last parameter carrying it, over the same window and stale threshold |
| `ObservatoryWatcher.KeyedValues` | warwick/observatory/environment/pyro_watcher.py:104-105 | every summary is that of a parameter with that name |
| `ObservatoryWatcher.EmptyHistoryReport` | warwick/observatory/environment/pyro_watcher.py:96-106 | with an empty history every parameter reports count 0, not unsafe, no warning, not current, no latest; the label is the watcher's |
| `ObservatoryWatcher.PyroWatcher.constructor` | warwick/observatory/environment/pyro_watcher.py:29-45 | the deque's capacity is fixed from window length and query delay; empty buffer, no failure recorded |
| `ObservatoryWatcher.PyroWatcher.Poll` | warwick/observatory/environment/pyro_watcher.py:61-88 | one iteration of the run loop: buffer, failure flag and log lines as `Contact.Poll`/`PollEvents` |
| `ObservatoryWatcher.StepKeyed` | warwick/observatory/environment/pyro_watcher.py:104-105 | one more parameter adds, or replaces, the summary under its own name |
| `ObservatoryWatcher.PyroWatcher.Status` | warwick/observatory/environment/pyro_watcher.py:91-106 | every parameter aggregates the window with the stale threshold `now - max_data_gap`, keyed by name, labelled with the watcher's label |
| `ObservatoryWatcher.PyroWatcher.ClearHistory` | warwick/observatory/environment/pyro_watcher.py:108-111 | the buffer is emptied and nothing else changes |
| `W1mWatcher.Rollup` | warwick/w1m/environment/pyro_watcher.py:106-124 | `Unsafe` iff some parameter is unsafe or the data is stale with a limited parameter and not all disabled; `Disabled` iff all are disabled and none is unsafe |
| `W1mWatcher.EmptyWindowUnsafe` | warwick/w1m/environment/pyro_watcher.py:111-117 | an empty window with a limited parameter is `Unsafe` unless every parameter is disabled |
| `W1mWatcher.FlagsDoNotMaskUnsafe` | warwick/w1m/environment/pyro_watcher.py:116-124 | a parameter's `Unsafe` verdict makes the watcher `Unsafe` whatever the disabled flags; the summaries do not depend on them |
| `W1mWatcher.WindowReported` | warwick/w1m/environment/pyro_watcher.py:95-104 | the count, first and last dates are those of the records dated at or after the window start |
| `W1mWatcher.UnsafeFound` | warwick/w1m/environment/pyro_watcher.py:119-124 | when the loop notes an unsafe verdict, some parameter's summary is `Unsafe` |
| `W1mWatcher.UnsafeCounted` | warwick/w1m/environment/pyro_watcher.py:119-124 | any parameter whose summary is `Unsafe` makes the loop note an unsafe verdict |
| `W1mWatcher.StepKeyed` | warwick/w1m/environment/pyro_watcher.py:120-124 | each parameter's summary is stored under its name and an unsafe verdict is noted |
| `W1mWatcher.LimitedNamesExact` | warwick/w1m/environment/pyro_watcher.py:145-147 | the names listed are exactly those of parameters with limits, in declaration order |
| `W1mWatcher.PyroWatcher.constructor` | warwick/w1m/environment/pyro_watcher.py:34-47 | the deque's capacity is fixed from window length and query delay; empty buffer, no failure recorded |
| `W1mWatcher.PyroWatcher.Poll` | warwick/w1m/environment/pyro_watcher.py:60-88 | one iteration of the run loop, logging to `environmentd` |
| `W1mWatcher.PyroWatcher.Status` | warwick/w1m/environment/pyro_watcher.py:91-133 | the imperative `status` equals the specification `Report` for the current disabled flags |
| `W1mWatcher.PyroWatcher.AggregateAll` | warwick/w1m/environment/pyro_watcher.py:119-124 | the loop stores every parameter's summary by name and notes whether any is `Unsafe` |
| `W1mWatcher.PyroWatcher.AnyHasLimits` | warwick/w1m/environment/pyro_watcher.py:112-113 | true iff some parameter has limits |
| `W1mWatcher.PyroWatcher.AllParametersDisabled` | warwick/w1m/environment/pyro_watcher.py:116 | true iff every parameter is disabled (true for none) |
| `W1mWatcher.PyroWatcher.OverrideLimits` | warwick/w1m/environment/pyro_watcher.py:135-143 | exactly the parameters with limits whose name matches (all of them for `None`) get the new flag, the others keep theirs; returns whether any matched |
| `W1mWatcher.PyroWatcher.ParametersWithLimits` | warwick/w1m/environment/pyro_watcher.py:145-147 | names exactly the parameters that have limits |
| `W1mWatcher.PyroWatcher.ClearHistory` | warwick/w1m/environment/pyro_watcher.py:149-151 | the buffer is emptied and nothing else changes |
| `Opsd.FoldExtremes` | opsd.py:59-70 | after any sequence of `add` calls the running min and max are the extremes of the readings, bounded by the ±99999999 sentinels |
| `Opsd.ResultsVerdict` | opsd.py:72-79 | nothing added gives `(0, 0, False)`; otherwise valid iff every reading lies strictly inside the limits, so a reading equal to a limit is invalid |
| `Opsd.AggregateMeasurement.constructor` | opsd.py:59-64 | sentinel extremes, count 0, the given limits |
| `Opsd.AggregateMeasurement.Add` | opsd.py:66-70 | count, min and max stay those of the readings added so far |
| `Opsd.AggregateMeasurement.Results` | opsd.py:72-79 | the tuple is `ResultsOf` the limits and the readings added |
| `Opsd.YoungHistoryInsufficient` | opsd.py:172-174 | a history with no record dated at or before the window start is insufficient; an empty one reports no dates and `(0, 0, False)` everywhere |
| `Opsd.OldRecordsNotAggregated` | opsd.py:159-168 | records dated at or before `now - CONDITION_TIMEOUT_DELAY` never change the four verdicts |
| `Opsd.GapMakesInsufficient` | opsd.py:159-163 | a gap of more than 30 s before any record of the window makes the history insufficient |
| `Opsd.ReportedDates` | opsd.py:152-178 | the dates reported are the oldest and newest buffered ones; too young an oldest or too old a newest record makes the history insufficient |
| `Opsd.StaleRecordLost` | opsd.py:116-119 | as written, a record 31 s old reaching an empty buffer is lost, where appending keeps it |
| `Opsd.OperationsDaemon.constructor` | opsd.py:84-92 | capacity `ceil(1200 * 1.1 / 10)` = 132, empty buffer, running |
| `Opsd.OperationsDaemon.Record` | opsd.py:119 | the record is appended to the bounded deque |
| `Opsd.OperationsDaemon.Stop` | opsd.py:194-196 | clears the running flag and keeps the buffer |
| `Opsd.OperationsDaemon.Status` | opsd.py:127-188 | the imperative `status` equals the specification `Report` |
| `Opsd.Accumulate` | opsd.py:148-170 | the loop gives each accumulator the readings of the window in order, the first and last buffered dates, and gap-freedom of the window |
| `Opsd.AddReadings` | opsd.py:165-168 | one record's four readings are added to the four accumulators |
| `Opsd.StepWindow` | opsd.py:159-163 | one more record extends the window iff dated after the window start, and adds one gap test |
| `ObservatoryParameters.LimitFor` | warwick/observatory/environment/parameters.py:30-35 | the limits of a key when the table exists and has it, else `None` |
| `ObservatoryParameters.BuildParameterList` | warwick/observatory/environment/parameters.py:27-43 | one parameter per entry, in order: name = key, limits looked up by key, a dict entry's behaviour, valid set and field, a plain entry's behaviour only; nothing else passed |
| `ObservatoryParameters.BuiltNames` | warwick/observatory/environment/parameters.py:29-43 | the names of the built list are the keys in order, so distinct keys give distinct names |
| `ObservatoryParameters.VaisalaParameters` | warwick/observatory/environment/parameters.py:45-57 | seven validity-filtering parameters, `wind_speed`, `median_wind_speed`, `temperature`, `relative_humidity`, `pressure`, `accumulated_rain`, `dew_point_delta`; `median_wind_speed` is the median of `wind_speed`, the others are ranges of their own field. Each parameter is the constructor call for its table entry (`Built`: name = key, the entry's behaviour, record field and valid set) with `limits` and `warn_limits` looked up by its name. |
| `ObservatoryParameters.OnemetreRoomAlertParameters` | warwick/observatory/environment/parameters.py:59-72 | eight plain parameters: ranges `internal_temp`, `internal_humidity`, `roomalert_temp`, `roomalert_humidity`, `truss_temp`; sets `hatch_closed`, `trap_closed` without a valid set; latest `security_system_safe`. Each parameter is the constructor call for its table entry (`Built`: name = key, the entry's behaviour, record field and valid set) with `limits` and `warn_limits` looked up by its name. |
| `ObservatoryParameters.GotoRoomAlertParameters` | warwick/observatory/environment/parameters.py:74-85 | six plain ranges of their own fields: `internal_temp`, `internal_humidity`, `dome2_internal_temp`, `dome2_internal_humidity`, `roomalert_temp`, `roomalert_humidity`. Each parameter is the constructor call for its table entry (`Built`: name = key, the entry's behaviour, record field and valid set) with `limits` and `warn_limits` looked up by its name. |
| `ObservatoryParameters.SuperwaspParameters` | warwick/observatory/environment/parameters.py:87-98 | six plain parameters: ranges `wind_speed`, `sky_temp`, `ext_temperature`, `ext_humidity`, `dew_point_delta`, and `median_wind_speed`, the median of `wind_speed`. Each parameter is the constructor call for its table entry (`Built`: name = key, the entry's behaviour, record field and valid set) with `limits` and `warn_limits` looked up by its name. |
| `ObservatoryParameters.TngParameters` | warwick/observatory/environment/parameters.py:100-108 | three validity-filtering latest values: `dust`, `solarimeter`, `seeing`. Each parameter is the constructor call for its table entry (`Built`: name = key, the entry's behaviour, record field and valid set) with `limits` and `warn_limits` looked up by its name. |
| `ObservatoryParameters.DiskspaceParameters` | warwick/observatory/environment/parameters.py:110-117 | two plain latest values: `data_fs_available_bytes`, `data_fs_percent_available`. Each parameter is the constructor call for its table entry (`Built`: name = key, the entry's behaviour, record field and valid set) with `limits` and `warn_limits` looked up by its name. |
| `ObservatoryParameters.NetpingParameters` | warwick/observatory/environment/parameters.py:119-126 | two plain latest values, `google` and `ngtshead`; the table's `ignore` lists are not passed on, so no value is ignored. Each parameter is the constructor call for its table entry (`Built`: name = key, the entry's behaviour, record field and valid set) with `limits` and `warn_limits` looked up by its name. |
| `ObservatoryParameters.OnemetrePowerParameters` | warwick/observatory/environment/parameters.py:128-137 | four plain parameters: set `main_ups_status` valid only at 2; sets `main_ups_battery_healthy`, `light` without a valid set; range `main_ups_battery_remaining`. Each parameter is the constructor call for its table entry (`Built`: name = key, the entry's behaviour, record field and valid set) with `limits` and `warn_limits` looked up by its name. |
| `ObservatoryParameters.RasaPowerParameters` | warwick/observatory/environment/parameters.py:139-147 | three plain parameters: set `ups_status` valid only at 2; set `ups_battery_healthy` without a valid set; range `ups_battery_remaining`. Each parameter is the constructor call for its table entry (`Built`: name = key, the entry's behaviour, record field and valid set) with `limits` and `warn_limits` looked up by its name. |
| `ObservatoryConfig.ParseWatcherParameter` | warwick/observatory/environment/config.py:224-249 | a true `filter_invalid` selects the filtering variant; `median_key` only for Median, `valid_set_values` (as a set) only for Set; optional keys default to `None`; an unknown type fails with the parse error |
| `ObservatoryConfig.SchemaValidParses` | warwick/observatory/environment/config.py:96-152 | an entry meeting the schema parses; a Median reads its `median_key`, others their own key |
| `ObservatoryConfig.UnusedKeysIgnored` | warwick/observatory/environment/config.py:231-237 | changing `median_key` of a non-Median, or `valid_set_values` of a non-Set, gives the same parameter |
| `ObservatoryConfig.FormatErrorMessage` | warwick/observatory/environment/config.py:210-214 | each report line ends with the error's message, and is the bare message when the path is empty |
| `ObservatoryConfig.FormatErrorPath` | warwick/observatory/environment/config.py:210-212 | a located error's line spells out the path elements in order, separated by `->` |
| `ObservatoryConfig.ViolationMessage` | warwick/observatory/environment/config.py:164-166 | the message starts with `Invalid configuration:\n\t` |
| `ObservatoryConfig.ViolationMessageLists` | warwick/observatory/environment/config.py:164-166 | every error line appears in the message, after the header and the lines and `\n\t` separators before it |
| `ObservatoryConfig.ValidateConfig` | warwick/observatory/environment/config.py:201-221 | nothing is raised iff there are no errors; otherwise the violation message lists one formatted line per error, in order |
| `RockitConfig.Parse` | rockit/environment/config.py:89-93 | exactly the five schema keywords parse, each to the behaviour of that name |
| `RockitConfig.ParseName` | rockit/environment/config.py:89-93 | parsing a behaviour's keyword gives it back |
| `RockitConfig.ParseWatcherParameter` | rockit/environment/config.py:155-180 | the key is the name, the label passed through, the variant from `filter_invalid`, optional keys default to `None`; an unknown type fails |
| `RockitConfig.SchemaValidParses` | rockit/environment/config.py:129-145 | an entry meeting the schema parses; a Median (and only it) gets its `median_key` as field |
| `RockitConfig.ValidSetKept` | rockit/environment/config.py:166-168 | the valid set is kept, as the set of the listed values, exactly for Set and LatestSet entries that give one |
| `RockitConfig.VariantFromFilterInvalid` | rockit/environment/config.py:157-159 | the variant depends on `filter_invalid` alone |

## Findings

| source | as written | input that shows it | evidently intended | confidence | as-written member | corrected member |
|---|---|---|---|---|---|---|
| opsd.py:116-119 | the stale-data warning formats the undefined name `date`; the `NameError` is caught by the loop's `except`, so a stale record is never appended | a record dated 31 s before `now` reaching an empty buffer leaves it empty | warn, then append every received record | high; not executed | `Opsd.StaleRecordLost` | `Opsd.OperationsDaemon.Record` |

## Left out

- Threads, locks, `time.sleep` and the `while True` polling loops. One loop iteration is a method taking the query's outcome.
- The Pyro transport, daemon connections, `spawn_daemon` and the daemon and IP address books. These are network I/O and foreign registries.
- `print` output. The log lines are a sequence of events, not real logging.
- The wall clock and date strings (`utcnow`, `strptime`, `strftime`). `now` is an argument, dates are integer seconds, and `datetime.min` is `None`.
- History.Capacity: computed exactly as `ceil(11 * window / (10 * delay))`. The source computes it in floating point, which can be one larger when `window * 1.1` rounds up (50 * 1.1 gives 55.00000000000001, so 56 instead of 55). For the daemon's own 1200 s and 10 s, both give 132.
- W1mWatcher.PyroWatcher.constructor: the window length is taken in whole seconds. `window_length.seconds` drops whole days, so windows of a day or more are not modelled.
- The rest of `run_vaisala_thread` in opsd.py. Only its append (`Record`) and the stale-record loss described under Findings are modelled.
- JSON Schema validation itself, file loading, and `Config.__init__`/`get_watchers`. The validator's errors are an input to `ValidateConfig`, and of the schema only the type enum and the Median rule are modelled (`SchemaValid`).
- ObservatoryConfig.ValidateConfig: the errors are taken in the order given. The sort by path, and the fallback to `'exception while validating'` when the validator itself raises, are not modelled.
- ObservatoryConfig.ParseWatcherParameter: `label` and `type` are taken as present, as the schema requires. The `KeyError` raised when they are missing is not modelled.
- RockitConfig.Parse: rockit's `AggregateBehaviour.parse` is not part of this model. It is assumed to accept exactly the five behaviour names of the schema.
- RockitConfig.ParseWatcherParameter: rockit's parameter classes are not part of this model. The result records the constructor's arguments, with a `None` field when no `median_key` is given.
- ObservatoryParameters.BuildParameterList: the observatory `AggregateParameter` requires a `label`, which `build_parameter_list` does not pass (as written, Python raises `TypeError`). The model builds each parameter with an empty label.
- ObservatoryParameters.BuildParameterList: a dict entry without `behaviour` (`value.get('behaviour')` is `None`) is not modelled. Every table gives one.
- W1mAggregate.Parameter.Aggregate: on a non-empty window the source raises out of `status` in four cases, and each is a precondition here (`Readable`): a record missing the value field (`KeyError`); a `*WithLimits` parameter whose limits are `None` (`None[0]`, `TypeError`); a plain `Range`, `Median` or `Latest` parameter without limits, which indexes them the same way; and a `Set` parameter whose `valid_set_values` is `None` (`values - None`, `TypeError`).
- ObservatoryAggregate.Aggregate: a record missing the value field or the `_valid` flag it needs raises `KeyError` out of `status` in the source. Here it is a precondition (`Readable`).
- Opsd.OperationsDaemon.Status: a record of the window without one of the four weather fields raises `KeyError`. Here it is a precondition (`Readable`).
- Contact.EdgeTriggered: with a deque of capacity 1, every successful poll logs "Established", because the length is 1 after every append. The model keeps this behaviour as written.
- `sun_moon_watcher.py`, the constant configuration tables (`onemetre_config.py`, `rasa_config.py`), `ops.py`, `setup.py` and the package `__init__.py`. These are floating-point ephemerides, fixtures, a command-line print, packaging and re-exports.
