/** The watcher of the observatory revision
    (warwick/observatory/environment/pyro_watcher.py): a bounded history of
    the replies of one sensor daemon, one poll of its run loop, and the
    status it reports by aggregating every parameter over the current time
    window. */
module ObservatoryWatcher {

  import opened Common
  import History
  import Contact
  import Agg = ObservatoryAggregate

  /** What `status` returns: the watcher's label and one summary per
      parameter name. */
  datatype WatcherStatus = WatcherStatus(caption: string, parameters: map<string, Agg.Summary>)

  predicate AllReadable(ps: seq<Agg.Parameter>, ms: seq<Measurement>) {
    forall p :: p in ps ==> Agg.Readable(p, ms)
  }

  /** `{p.name: p.aggregate(measurements, stale_threshold) for p in parameters}`:
      a later parameter with the same name replaces an earlier one. */
  function Keyed(ps: seq<Agg.Parameter>, ms: seq<Measurement>, staleThreshold: int): map<string, Agg.Summary>
    requires AllReadable(ps, ms)
  {
    if ps == [] then map[]
    else Keyed(ps[..|ps| - 1], ms, staleThreshold)[Last(ps).name := Agg.Summarize(Last(ps), ms, staleThreshold)]
  }

  lemma PrefixReadable(ps: seq<Agg.Parameter>, ms: seq<Measurement>, n: nat)
    requires AllReadable(ps, ms) && n <= |ps|
    ensures AllReadable(ps[..n], ms)
  {
    forall p | p in ps[..n] ensures Agg.Readable(p, ms) {
      assert p in ps;
    }
  }

  /** One more parameter adds, or replaces, its own name's summary. */
  lemma StepKeyed(ps: seq<Agg.Parameter>, ms: seq<Measurement>, staleThreshold: int, i: nat)
    requires AllReadable(ps, ms) && i < |ps|
    ensures Agg.Readable(ps[i], ms) && AllReadable(ps[..i], ms) && AllReadable(ps[..i + 1], ms)
    ensures Keyed(ps[..i + 1], ms, staleThreshold)
            == Keyed(ps[..i], ms, staleThreshold)[ps[i].name := Agg.Summarize(ps[i], ms, staleThreshold)]
  {
    assert ps[i] in ps;
    PrefixReadable(ps, ms, i);
    PrefixReadable(ps, ms, i + 1);
    var q := ps[..i + 1];
    assert q[..i] == ps[..i] && Last(q) == ps[i];
  }

  /** The status for the buffered records `data` at time `now`: every
      parameter aggregates the records dated at or after
      `now - windowLength`, with the stale threshold `now - maxDataGap`. */
  function Report(caption: string, ps: seq<Agg.Parameter>, data: seq<Measurement>, now: int,
                  windowLength: nat, maxDataGap: int): WatcherStatus
    requires AllReadable(ps, History.Window(data, now - windowLength))
  {
    WatcherStatus(caption, Keyed(ps, History.Window(data, now - windowLength), now - maxDataGap))
  }

  /** The summaries are keyed by exactly the parameter names. */
  lemma KeyedDomain(ps: seq<Agg.Parameter>, ms: seq<Measurement>, staleThreshold: int)
    requires AllReadable(ps, ms)
    ensures forall name :: name in Keyed(ps, ms, staleThreshold) <==> exists i :: 0 <= i < |ps| && ps[i].name == name
  {
    forall name ensures name in Keyed(ps, ms, staleThreshold) <==> exists i :: 0 <= i < |ps| && ps[i].name == name {
      if name in Keyed(ps, ms, staleThreshold) {
        KeyedNamed(ps, ms, staleThreshold, name);
      }
      if exists i :: 0 <= i < |ps| && ps[i].name == name {
        var i :| 0 <= i < |ps| && ps[i].name == name;
        KeyedHas(ps, ms, staleThreshold, i);
      }
    }
  }

  lemma {:induction false} KeyedHas(ps: seq<Agg.Parameter>, ms: seq<Measurement>, staleThreshold: int, i: nat)
    requires AllReadable(ps, ms) && i < |ps|
    ensures ps[i].name in Keyed(ps, ms, staleThreshold)
  {
    if i < |ps| - 1 {
      var front := ps[..|ps| - 1];
      assert front[i] == ps[i];
      KeyedHas(front, ms, staleThreshold, i);
    }
  }

  lemma {:induction false} KeyedNamed(ps: seq<Agg.Parameter>, ms: seq<Measurement>, staleThreshold: int, name: string)
    requires AllReadable(ps, ms) && name in Keyed(ps, ms, staleThreshold)
    ensures exists i :: 0 <= i < |ps| && ps[i].name == name
  {
    if name == Last(ps).name {
      assert ps[|ps| - 1].name == name;
    } else {
      var front := ps[..|ps| - 1];
      KeyedNamed(front, ms, staleThreshold, name);
      var i :| 0 <= i < |front| && front[i].name == name;
      assert ps[i] == front[i];
    }
  }

  /** Each name maps to the summary of the last parameter carrying it, over
      the same records and stale threshold as every other parameter. */
  lemma {:induction false} KeyedLastWins(ps: seq<Agg.Parameter>, ms: seq<Measurement>, staleThreshold: int, i: nat)
    requires AllReadable(ps, ms)
    requires i < |ps| && forall j :: i < j < |ps| ==> ps[j].name != ps[i].name
    ensures ps[i].name in Keyed(ps, ms, staleThreshold)
    ensures Keyed(ps, ms, staleThreshold)[ps[i].name] == Agg.Summarize(ps[i], ms, staleThreshold)
  {
    if i < |ps| - 1 {
      var front := ps[..|ps| - 1];
      assert front[i] == ps[i];
      KeyedLastWins(front, ms, staleThreshold, i);
    }
  }

  /** Each summary is that of some parameter of the watcher. */
  lemma KeyedValues(ps: seq<Agg.Parameter>, ms: seq<Measurement>, staleThreshold: int)
    requires AllReadable(ps, ms)
    ensures forall name :: name in Keyed(ps, ms, staleThreshold) ==>
              exists i :: 0 <= i < |ps| && ps[i].name == name
                          && Keyed(ps, ms, staleThreshold)[name] == Agg.Summarize(ps[i], ms, staleThreshold)
  {
    forall name | name in Keyed(ps, ms, staleThreshold)
      ensures exists i :: 0 <= i < |ps| && ps[i].name == name
                          && Keyed(ps, ms, staleThreshold)[name] == Agg.Summarize(ps[i], ms, staleThreshold)
    {
      var i := KeyedValue(ps, ms, staleThreshold, name);
    }
  }

  /** The index of the parameter whose summary `name` maps to. */
  lemma {:induction false} KeyedValue(ps: seq<Agg.Parameter>, ms: seq<Measurement>, staleThreshold: int, name: string)
    returns (i: nat)
    requires AllReadable(ps, ms) && name in Keyed(ps, ms, staleThreshold)
    ensures i < |ps| && ps[i].name == name
    ensures Keyed(ps, ms, staleThreshold)[name] == Agg.Summarize(ps[i], ms, staleThreshold)
  {
    if name == Last(ps).name {
      i := |ps| - 1;
    } else {
      var front := ps[..|ps| - 1];
      i := KeyedValue(front, ms, staleThreshold, name);
      assert ps[i] == front[i];
    }
  }

  /** With an empty history every parameter reports an empty window: no
      records counted, nothing unsafe, no warning, nothing current. */
  lemma EmptyHistoryReport(caption: string, ps: seq<Agg.Parameter>, now: int, windowLength: nat, maxDataGap: int)
    ensures AllReadable(ps, History.Window([], now - windowLength))
    ensures var r := Report(caption, ps, [], now, windowLength, maxDataGap);
            r.caption == caption
            && forall name :: name in r.parameters ==>
                 var s := r.parameters[name];
                 s.dateCount == 0 && !s.unsafe && !s.warning && !s.current && s.latest == None
  {
    var w := History.Window([], now - windowLength);
    assert w == [];
    KeyedValues(ps, w, now - maxDataGap);
    var k := Keyed(ps, w, now - maxDataGap);
    forall name | name in k
      ensures k[name].dateCount == 0 && !k[name].unsafe && !k[name].warning && !k[name].current && k[name].latest == None
    {
      var i :| 0 <= i < |ps| && ps[i].name == name && k[name] == Agg.Summarize(ps[i], w, now - maxDataGap);
      Agg.EmptyWindow(ps[i], w, now - maxDataGap);
    }
  }

  /** `PyroWatcher`: the daemon it polls, its label, timings and parameters,
      and the state the run loop and `status` share. */
  class PyroWatcher {
    const daemonName: string
    const caption: string          // the `label`
    const queryDelay: nat
    const maxDataGap: int
    const windowLength: nat
    const parameters: seq<Agg.Parameter>
    const logName: string
    /** `maxlen` of the deque: `ceil(window_length * 1.1 / query_delay)`. */
    const capacity: nat

    var data: seq<Measurement>
    var lastQueryFailed: bool
    /** Every line sent to the log so far. */
    var log: seq<Contact.LogEvent>

    ghost predicate Valid()
      reads this
    {
      |data| <= capacity
    }

    constructor(daemonName: string, caption: string, queryDelay: nat, maxDataGap: int, windowLength: nat,
                parameters: seq<Agg.Parameter>, logName: string)
      requires queryDelay > 0
      ensures Valid()
      ensures this.daemonName == daemonName && this.caption == caption && this.queryDelay == queryDelay
      ensures this.maxDataGap == maxDataGap && this.windowLength == windowLength
      ensures this.parameters == parameters && this.logName == logName
      ensures capacity == History.Capacity(windowLength, queryDelay)
      ensures data == [] && !lastQueryFailed && log == []
    {
      this.daemonName := daemonName;
      this.caption := caption;
      this.queryDelay := queryDelay;
      this.maxDataGap := maxDataGap;
      this.windowLength := windowLength;
      this.parameters := parameters;
      this.logName := logName;
      capacity := History.Capacity(windowLength, queryDelay);
      data := [];
      lastQueryFailed := false;
      log := [];
    }

    /** One iteration of `__run_thread`: a reply is appended and contact is
        logged as established or restored on its edge; an empty reply or a
        failed query appends nothing and logs lost contact on its edge. */
    method Poll(outcome: Contact.PollOutcome)
      requires Valid()
      modifies this
      ensures Valid()
      ensures var s := Contact.PollState(old(data), old(lastQueryFailed));
              Contact.PollState(data, lastQueryFailed) == Contact.Poll(s, outcome, capacity)
              && log == old(log) + Contact.PollEvents(s, outcome, capacity, logName, daemonName)
    {
      if outcome.Reply? {
        data := History.Append(data, outcome.m, capacity);
        if lastQueryFailed || |data| == 1 {
          var message := if lastQueryFailed then "Restored contact with " + daemonName
                         else "Established contact with " + daemonName;
          log := log + [Contact.Info(logName, message)];
        }
        lastQueryFailed := false;
      } else {
        if !lastQueryFailed {
          log := log + [Contact.Error(logName, "Lost contact with " + daemonName)];
        }
        lastQueryFailed := true;
      }
    }

    /** `status` at time `now`. */
    method Status(now: int) returns (ret: WatcherStatus)
      requires AllReadable(parameters, History.Window(data, now - windowLength))
      ensures ret == Report(caption, parameters, data, now, windowLength, maxDataGap)
    {
      var measurements := History.Window(data, now - windowLength);
      var staleThreshold := now - maxDataGap;
      var summaries: map<string, Agg.Summary> := map[];
      for i := 0 to |parameters|
        invariant summaries == Keyed(parameters[..i], measurements, staleThreshold)
      {
        var p := parameters[i];
        StepKeyed(parameters, measurements, staleThreshold, i);
        var summary := Agg.Aggregate(p, measurements, staleThreshold);
        summaries := summaries[p.name := summary];
      }
      assert parameters[..|parameters|] == parameters;
      ret := WatcherStatus(caption, summaries);
    }

    /** `clear_history`: the buffer is emptied and nothing else changes. */
    method ClearHistory()
      requires Valid()
      modifies this
      ensures Valid()
      ensures data == [] && lastQueryFailed == old(lastQueryFailed) && log == old(log)
    {
      data := [];
    }
  }
}
