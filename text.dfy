/** The string formatting the daemon relies on: Python's `str()` of an
    integer (`'{}'.format(code)`) and `str.join`. */
module Text {

  import opened Common

  function DigitChar(d: nat): char
    requires d < 10
  {
    "0123456789"[d]
  }

  predicate IsDigit(c: char) {
    '0' <= c <= '9'
  }

  function DigitValue(c: char): nat
    requires IsDigit(c)
  {
    (c as int - '0' as int) as nat
  }

  /** The decimal digits of `n`, most significant first, without leading zeros. */
  function NatToString(n: nat): (r: string)
    ensures |r| > 0
    ensures forall i :: 0 <= i < |r| ==> IsDigit(r[i])
  {
    if n < 10 then [DigitChar(n)] else NatToString(n / 10) + [DigitChar(n % 10)]
  }

  /** Python's `str(i)`: a minus sign before the digits of a negative number. */
  function IntToString(i: int): string {
    if i < 0 then "-" + NatToString(-i) else NatToString(i)
  }

  /** The number a string of decimal digits denotes. */
  function DigitsValue(s: string): nat
    requires forall i :: 0 <= i < |s| ==> IsDigit(s[i])
  {
    if s == [] then 0 else DigitsValue(s[..|s| - 1]) * 10 + DigitValue(s[|s| - 1])
  }

  /** Python's `int(s)` on what `str` produces. */
  function ParseInt(s: string): Option<int> {
    if |s| > 0 && s[0] == '-' && |s| > 1 && (forall i :: 1 <= i < |s| ==> IsDigit(s[i])) then
      Some(-(DigitsValue(s[1..]) as int))
    else if |s| > 0 && (forall i :: 0 <= i < |s| ==> IsDigit(s[i])) then
      Some(DigitsValue(s))
    else
      None
  }

  lemma {:induction false} NatToStringRoundTrip(n: nat)
    ensures DigitsValue(NatToString(n)) == n
  {
    var s := NatToString(n);
    if n >= 10 {
      NatToStringRoundTrip(n / 10);
      assert s[..|s| - 1] == NatToString(n / 10);
    }
  }

  /** Reading back what `str` wrote gives the same integer, so distinct codes
      are printed distinctly. */
  lemma IntToStringRoundTrip(i: int)
    ensures ParseInt(IntToString(i)) == Some(i)
  {
    if i < 0 {
      var d := NatToString(-i);
      NatToStringRoundTrip(-i);
      ParseDigits(d);
      assert IntToString(i) == "-" + d;
    } else {
      var d := NatToString(i);
      NatToStringRoundTrip(i);
      ParseDigits(d);
      assert IntToString(i) == d;
    }
  }

  /** `int` reads a string of digits, with or without a minus sign. */
  lemma ParseDigits(d: string)
    requires |d| > 0 && forall k :: 0 <= k < |d| ==> IsDigit(d[k])
    ensures ParseInt(d) == Some(DigitsValue(d) as int)
    ensures ParseInt("-" + d) == Some(-(DigitsValue(d) as int))
  {
    var s := "-" + d;
    assert s[1..] == d;
    assert forall k :: 1 <= k < |s| ==> s[k] == d[k - 1];
    assert IsDigit(d[0]);
  }

  /** `sep.join(xs)` */
  function Join(xs: seq<string>, sep: string): string {
    if xs == [] then ""
    else if |xs| == 1 then xs[0]
    else Join(xs[..|xs| - 1], sep) + sep + xs[|xs| - 1]
  }

  function TotalLength(xs: seq<string>): nat {
    if xs == [] then 0 else TotalLength(xs[..|xs| - 1]) + |xs[|xs| - 1]|
  }

  /** The joined string holds every piece once and one separator between
      each neighbouring pair, and nothing else. */
  lemma {:induction false} JoinLength(xs: seq<string>, sep: string)
    requires |xs| > 0
    ensures |Join(xs, sep)| == TotalLength(xs) + (|xs| - 1) * |sep|
  {
    if |xs| > 1 {
      JoinLength(xs[..|xs| - 1], sep);
    } else {
      assert xs[..0] == [];
    }
  }

  /** The piece `xs[k]` is found in the joined string at the offset made of
      the pieces and separators before it. */
  lemma {:induction false} JoinContains(xs: seq<string>, sep: string, k: nat)
    requires k < |xs|
    ensures var j := Join(xs, sep);
            var at := TotalLength(xs[..k]) + k * |sep|;
            at + |xs[k]| <= |j| && j[at..at + |xs[k]|] == xs[k]
  {
    var n := |xs|;
    if n == 1 {
      assert xs[..0] == [];
    } else if k < n - 1 {
      var front := xs[..n - 1];
      JoinContains(front, sep, k);
      assert front[..k] == xs[..k] && front[k] == xs[k];
      JoinContainsFront(xs, sep, k);
    } else {
      JoinContainsLast(xs, sep);
    }
  }

  /** `JoinContains` when more text follows the joined string. */
  lemma JoinContainsBefore(xs: seq<string>, sep: string, tail: string, k: nat)
    requires k < |xs|
    ensures var j := Join(xs, sep) + tail;
            var at := TotalLength(xs[..k]) + k * |sep|;
            at + |xs[k]| <= |j| && j[at..at + |xs[k]|] == xs[k]
  {
    var j, at := Join(xs, sep), TotalLength(xs[..k]) + k * |sep|;
    JoinContains(xs, sep, k);
    assert at + |xs[k]| <= |j| && j[at..at + |xs[k]|] == xs[k];
    SliceOfPrefix(j, tail, at, at + |xs[k]|);
  }

  /** The step of `JoinContains` for a piece before the last: the joined
      front is a prefix of the joined whole. */
  lemma JoinContainsFront(xs: seq<string>, sep: string, k: nat)
    requires k < |xs| - 1
    requires var front, at := xs[..|xs| - 1], TotalLength(xs[..k]) + k * |sep|;
             at + |xs[k]| <= |Join(front, sep)| && Join(front, sep)[at..at + |xs[k]|] == xs[k]
    ensures var j := Join(xs, sep);
            var at := TotalLength(xs[..k]) + k * |sep|;
            at + |xs[k]| <= |j| && j[at..at + |xs[k]|] == xs[k]
  {
    var n := |xs|;
    var jf := Join(xs[..n - 1], sep);
    var at := TotalLength(xs[..k]) + k * |sep|;
    assert Join(xs, sep) == (jf + sep) + xs[n - 1];
    SliceOfPrefix(jf, sep, at, at + |xs[k]|);
    SliceOfPrefix(jf + sep, xs[n - 1], at, at + |xs[k]|);
  }

  /** The last piece follows the joined front and one separator. */
  lemma JoinContainsLast(xs: seq<string>, sep: string)
    requires |xs| > 1
    ensures var j, k := Join(xs, sep), |xs| - 1;
            var at := TotalLength(xs[..k]) + k * |sep|;
            at + |xs[k]| <= |j| && j[at..at + |xs[k]|] == xs[k]
  {
    var n, w := |xs|, |sep|;
    var front := xs[..n - 1];
    var jf := Join(front, sep);
    assert Join(xs, sep) == (jf + sep) + xs[n - 1];
    JoinLength(front, sep);
    MulSucc(n - 2, w);
    assert |jf + sep| == TotalLength(front) + (n - 1) * w;
    SliceAfterPrefix(jf + sep, xs[n - 1]);
  }

  lemma MulSucc(a: int, w: int)
    ensures (a + 1) * w == a * w + w
  {
  }

  /** A slice inside the first part of a concatenation. */
  lemma SliceOfPrefix<T>(a: seq<T>, b: seq<T>, lo: nat, hi: nat)
    requires lo <= hi <= |a|
    ensures (a + b)[lo..hi] == a[lo..hi]
  {
  }

  /** The second part of a concatenation, sliced back out. */
  lemma SliceAfterPrefix<T>(a: seq<T>, b: seq<T>)
    ensures (a + b)[|a|..|a| + |b|] == b
  {
  }
}
