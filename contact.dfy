/** One iteration of a watcher's polling loop, without the thread, the
    sleep and the transport: the outcome of the query is a parameter. The
    watcher appends a successful reply to its bounded history and logs
    contact changes only on their edges. */
module Contact {

  import opened Common
  import History

  /** What one `last_measurement()` query produced. */
  datatype PollOutcome = Reply(m: Measurement) | EmptyReply | QueryFailed

  /** A line sent to the logging sink: `log.info` or `log.error`. */
  datatype LogEvent = Info(channel: string, message: string) | Error(channel: string, message: string)

  /** The state the polling loop carries from one iteration to the next. */
  datatype PollState = PollState(data: seq<Measurement>, lastQueryFailed: bool)

  /** The log lines of one iteration, given the failure flag before it and
      the buffer length after it. */
  function ContactEvents(lastQueryFailed: bool, outcome: PollOutcome, newLength: nat,
                         channel: string, daemonName: string): seq<LogEvent>
  {
    if outcome.Reply? then
      if lastQueryFailed || newLength == 1 then
        [Info(channel, if lastQueryFailed then "Restored contact with " + daemonName
                       else "Established contact with " + daemonName)]
      else []
    else if !lastQueryFailed then [Error(channel, "Lost contact with " + daemonName)]
    else []
  }

  /** The state after one iteration. */
  function Poll(s: PollState, outcome: PollOutcome, capacity: nat): PollState {
    if outcome.Reply? then PollState(History.Append(s.data, outcome.m, capacity), false)
    else PollState(s.data, true)
  }

  function PollEvents(s: PollState, outcome: PollOutcome, capacity: nat,
                      channel: string, daemonName: string): seq<LogEvent>
  {
    ContactEvents(s.lastQueryFailed, outcome, |Poll(s, outcome, capacity).data|, channel, daemonName)
  }

  /** Several iterations in a row: the final state and every log line, in order. */
  function Run(s: PollState, outcomes: seq<PollOutcome>, capacity: nat,
               channel: string, daemonName: string): (PollState, seq<LogEvent>)
    decreases |outcomes|
  {
    if outcomes == [] then (s, [])
    else
      var next := Poll(s, outcomes[0], capacity);
      var rest := Run(next, outcomes[1..], capacity, channel, daemonName);
      (rest.0, PollEvents(s, outcomes[0], capacity, channel, daemonName) + rest.1)
  }

  predicate AllFailed(outcomes: seq<PollOutcome>) {
    forall i :: 0 <= i < |outcomes| ==> !outcomes[i].Reply?
  }

  /** Once contact is lost, further failed polls log nothing and keep the buffer. */
  lemma {:induction false} RepeatedFailuresSilent(s: PollState, outcomes: seq<PollOutcome>, capacity: nat,
                                                  channel: string, daemonName: string)
    requires s.lastQueryFailed && AllFailed(outcomes)
    ensures Run(s, outcomes, capacity, channel, daemonName) == (s, [])
    decreases |outcomes|
  {
    if outcomes != [] {
      assert Poll(s, outcomes[0], capacity) == s;
      assert PollEvents(s, outcomes[0], capacity, channel, daemonName) == [];
      assert AllFailed(outcomes[1..]) by {
        forall i | 0 <= i < |outcomes[1..]| ensures !outcomes[1..][i].Reply? {
          assert outcomes[1..][i] == outcomes[i + 1];
        }
      }
      RepeatedFailuresSilent(s, outcomes[1..], capacity, channel, daemonName);
      var rest := Run(s, outcomes[1..], capacity, channel, daemonName);
      var none: seq<LogEvent> := [];
      assert rest == (s, none);
      assert Run(s, outcomes, capacity, channel, daemonName) == (rest.0, none + rest.1);
      assert none + rest.1 == none;
    }
  }

  /** A run of failed polls after a success logs "Lost contact" exactly once,
      appends nothing and leaves the failure flag set. */
  lemma LostContactLoggedOnce(s: PollState, outcomes: seq<PollOutcome>, capacity: nat,
                              channel: string, daemonName: string)
    requires !s.lastQueryFailed && |outcomes| > 0 && AllFailed(outcomes)
    ensures Run(s, outcomes, capacity, channel, daemonName)
            == (PollState(s.data, true), [Error(channel, "Lost contact with " + daemonName)])
  {
    var failed := PollState(s.data, true);
    assert Poll(s, outcomes[0], capacity) == failed;
    assert AllFailed(outcomes[1..]) by {
      forall i | 0 <= i < |outcomes[1..]| ensures !outcomes[1..][i].Reply? {
        assert outcomes[1..][i] == outcomes[i + 1];
      }
    }
    RepeatedFailuresSilent(failed, outcomes[1..], capacity, channel, daemonName);
    var lost := [Error(channel, "Lost contact with " + daemonName)];
    assert PollEvents(s, outcomes[0], capacity, channel, daemonName) == lost;
    var none: seq<LogEvent> := [];
    assert Run(s, outcomes, capacity, channel, daemonName) == (failed, lost + none);
    assert lost + none == lost;
  }

  /** Once contact is up and the buffer holds a record, successful polls
      log nothing, as long as the deque can keep at least two entries; the
      lines logged on an edge are stated by `EdgeTriggered`. */
  lemma {:induction false} RepeatedRepliesSilent(s: PollState, outcomes: seq<PollOutcome>, capacity: nat,
                                                 channel: string, daemonName: string)
    requires !s.lastQueryFailed && |s.data| >= 1 && capacity >= 2
    requires forall i :: 0 <= i < |outcomes| ==> outcomes[i].Reply?
    ensures Run(s, outcomes, capacity, channel, daemonName).1 == []
    ensures !Run(s, outcomes, capacity, channel, daemonName).0.lastQueryFailed
    decreases |outcomes|
  {
    if outcomes != [] {
      var next := Poll(s, outcomes[0], capacity);
      assert |next.data| >= 2;
      RepeatedRepliesSilent(next, outcomes[1..], capacity, channel, daemonName);
    }
  }

  /** Every iteration logs at most one line, and only when the outcome
      differs in kind from the one before it, or on the very first record. */
  lemma EdgeTriggered(s: PollState, outcome: PollOutcome, capacity: nat, channel: string, daemonName: string)
    ensures var ev := PollEvents(s, outcome, capacity, channel, daemonName);
            && |ev| <= 1
            && (ev != [] && ev[0].Error? <==> !s.lastQueryFailed && !outcome.Reply?)
            && (ev != [] && ev[0] == Info(channel, "Restored contact with " + daemonName) <==> s.lastQueryFailed && outcome.Reply?)
            && (ev != [] && ev[0] == Info(channel, "Established contact with " + daemonName)
                <==> !s.lastQueryFailed && outcome.Reply? && |Poll(s, outcome, capacity).data| == 1)
  {
    var r, e := "Restored contact with " + daemonName, "Established contact with " + daemonName;
    assert r != e by { assert r[0] == 'R' && e[0] == 'E'; }
    var ev := PollEvents(s, outcome, capacity, channel, daemonName);
    if outcome.Reply? {
      if s.lastQueryFailed {
        assert ev == [Info(channel, r)];
      } else if |Poll(s, outcome, capacity).data| == 1 {
        assert ev == [Info(channel, e)];
      } else {
        assert ev == [];
      }
    } else if s.lastQueryFailed {
      assert ev == [];
    } else {
      assert ev == [Error(channel, "Lost contact with " + daemonName)];
    }
  }
}
