/** Status codes of the one-metre telescope revision
    (warwick/w1m/environment/constants.py): the status a parameter or a
    watcher reports, and the return codes of the limit-override command with
    their human-readable messages. */
module W1mConstants {

  import Common
  import opened Text

  /** The verdict of a parameter or of a whole watcher. The revision imports
      it from its constants module; the three values are the ones it uses. */
  datatype ParameterStatus = Safe | Unsafe | Disabled

  /** `CommandStatus`: return codes of the limit-override command. */
  const Success: int := 0
  const InvalidControlIP: int := 10
  const InvalidWatcher: int := 11
  const InvalidParameter: int := 12

  /** `CommandStatus._messages`: the codes with a message of their own. The
      last text is written in two pieces: so split, the verifier can read
      the characters the proofs below compare, which it cannot when the text
      after the prefix is a single literal. */
  const Messages: map<int, string> := map[
    10 := ErrorPrefix + "command not accepted from this IP",
    -100 := ErrorPrefix + "terminated by user",
    -101 := ErrorPrefix + "unable to communicate" + " with environment daemon"]

  const ErrorPrefix: string := "error: "
  const UnknownText: string := ErrorPrefix + "Unknown error code "

  /** `CommandStatus.message`: the table entry, else the unknown-code text
      with the code written in decimal. Every message reads as an error. */
  function Message(code: int): (r: string)
    ensures |r| > |ErrorPrefix| && r[..|ErrorPrefix|] == ErrorPrefix
  {
    if code in Messages then Messages[code] else UnknownText + IntToString(code)
  }

  /** A code without a table entry yields the unknown-code text, from which
      the code can be read back. */
  lemma UnknownCodeMessage(code: int)
    requires code !in Messages
    ensures var r := Message(code);
            |r| > |UnknownText| && r[..|UnknownText|] == UnknownText
            && ParseInt(r[|UnknownText|..]) == Common.Some(code)
  {
    var r := Message(code);
    assert r[|UnknownText|..] == IntToString(code);
    IntToStringRoundTrip(code);
  }

  /** `Success`, `InvalidWatcher` and `InvalidParameter` have no table entry,
      so they get the unknown-code text; `InvalidControlIP` has one. */
  lemma CommandCodesMessages()
    ensures Message(Success) == UnknownText + "0"
    ensures Message(InvalidWatcher) == UnknownText + "11"
    ensures Message(InvalidParameter) == UnknownText + "12"
    ensures Message(InvalidControlIP) == ErrorPrefix + "command not accepted from this IP"
  {
    assert IntToString(0) == "0";
    assert NatToString(11) == NatToString(1) + [DigitChar(1)];
    assert NatToString(12) == NatToString(1) + [DigitChar(2)];
  }

  /** Different codes never share a message, so the message identifies the
      code. */
  lemma MessageInjective(a: int, b: int)
    requires Message(a) == Message(b)
    ensures a == b
  {
    var ra, rb := Message(a), Message(b);
    assert ra[7] == rb[7] && ra[8] == rb[8];
    if a !in Messages && b !in Messages {
      UnknownCodeMessage(a);
      UnknownCodeMessage(b);
    }
  }
}
