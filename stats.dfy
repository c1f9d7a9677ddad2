/** The statistics the aggregation policies use: the extremes of a list of
    readings (Python's `min`/`max` folded over the window) and the median of
    Python's `statistics.median`. */
module Stats {

  import opened Common

  function Min(a: real, b: real): real { if a <= b then a else b }
  function Max(a: real, b: real): real { if a >= b then a else b }

  /** The smallest reading of a non-empty list. */
  function SeqMin(s: seq<real>): (r: real)
    requires |s| > 0
    ensures r in s
    ensures forall i :: 0 <= i < |s| ==> r <= s[i]
  {
    if |s| == 1 then s[0] else Min(SeqMin(s[..|s| - 1]), s[|s| - 1])
  }

  /** The largest reading of a non-empty list. */
  function SeqMax(s: seq<real>): (r: real)
    requires |s| > 0
    ensures r in s
    ensures forall i :: 0 <= i < |s| ==> s[i] <= r
  {
    if |s| == 1 then s[0] else Max(SeqMax(s[..|s| - 1]), s[|s| - 1])
  }

  ghost predicate Sorted(s: seq<real>) {
    forall i, j :: 0 <= i < j < |s| ==> s[i] <= s[j]
  }

  /** Insert `x` into an ascending list, keeping it ascending. */
  function Insert(x: real, s: seq<real>): (r: seq<real>)
    requires Sorted(s)
    ensures Sorted(r)
    ensures multiset(r) == multiset(s) + multiset{x}
    ensures |r| == |s| + 1
  {
    if s == [] then [x]
    else if x <= s[0] then [x] + s
    else
      var rest := s[1..];
      var t := Insert(x, rest);
      HeadBelowInserted(x, s, t);
      ConsSorted(s[0], t);
      assert s == [s[0]] + rest;
      [s[0]] + t
  }

  /** Inserting a reading above the head of an ascending list keeps every
      entry of the new tail at or above that head. */
  lemma HeadBelowInserted(x: real, s: seq<real>, t: seq<real>)
    requires Sorted(s) && |s| > 0 && s[0] < x
    requires multiset(t) == multiset(s[1..]) + multiset{x}
    ensures forall k :: 0 <= k < |t| ==> s[0] <= t[k]
  {
    forall k | 0 <= k < |t| ensures s[0] <= t[k] {
      assert t[k] in multiset(t);
      if t[k] != x {
        assert t[k] in multiset(s[1..]);
        var j :| 0 <= j < |s[1..]| && s[1..][j] == t[k];
        assert s[1..][j] == s[j + 1];
      }
    }
  }

  /** A head at or below every entry of an ascending list keeps it ascending. */
  lemma ConsSorted(h: real, t: seq<real>)
    requires Sorted(t) && forall k :: 0 <= k < |t| ==> h <= t[k]
    ensures Sorted([h] + t)
  {
    var r := [h] + t;
    forall p, q | 0 <= p < q < |r| ensures r[p] <= r[q] {
      assert r[q] == t[q - 1];
      if p > 0 {
        assert r[p] == t[p - 1];
      }
    }
  }

  /** Python's `sorted`: the readings in ascending order. */
  function Sort(s: seq<real>): (r: seq<real>)
    ensures Sorted(r)
    ensures multiset(r) == multiset(s)
    ensures |r| == |s|
  {
    if s == [] then []
    else
      assert s == s[..|s| - 1] + [s[|s| - 1]];
      Insert(s[|s| - 1], Sort(s[..|s| - 1]))
  }

  /** Python's `statistics.median`: the middle reading of the sorted list, or
      the mean of the two middle readings when the count is even. */
  function Median(s: seq<real>): real
    requires |s| > 0
  {
    Middle(Sort(s))
  }

  /** The middle entry of a list, or the mean of the two middle entries
      when the count is even. */
  function Middle(t: seq<real>): real
    requires |t| > 0
  {
    var n := |t|;
    if n % 2 == 1 then t[n / 2] else (t[n / 2 - 1] + t[n / 2]) / 2.0
  }

  /** Every reading of the sorted list lies between the extremes of the input. */
  lemma SortedWithinExtremes(s: seq<real>, k: int)
    requires 0 <= k < |s|
    ensures SeqMin(s) <= Sort(s)[k] <= SeqMax(s)
  {
    var t := Sort(s);
    assert t[k] in multiset(t);
    assert t[k] in multiset(s);
    var j :| 0 <= j < |s| && s[j] == t[k];
  }

  /** The median lies between the smallest and the largest reading, so a
      window whose extremes are inside the limits has its median inside too. */
  lemma MedianWithinExtremes(s: seq<real>)
    requires |s| > 0
    ensures SeqMin(s) <= Median(s) <= SeqMax(s)
  {
    var t := Sort(s);
    var lo, hi := SeqMin(s), SeqMax(s);
    forall k | 0 <= k < |t| ensures lo <= t[k] <= hi {
      SortedWithinExtremes(s, k);
    }
    MiddleWithin(t, lo, hi);
  }

  /** The middle of a list whose entries lie in `[lo, hi]` lies there too. */
  lemma MiddleWithin(t: seq<real>, lo: real, hi: real)
    requires |t| > 0 && forall k :: 0 <= k < |t| ==> lo <= t[k] <= hi
    ensures lo <= Middle(t) <= hi
  {
    var n := |t|;
    if n % 2 == 0 {
      MeanWithin(t[n / 2 - 1], t[n / 2], lo, hi);
    }
  }

  lemma MeanWithin(a: real, b: real, lo: real, hi: real)
    requires lo <= a <= hi && lo <= b <= hi
    ensures lo <= (a + b) / 2.0 <= hi
  {
  }

  /** With an odd count the median is one of the readings. */
  lemma MedianOddIsReading(s: seq<real>)
    requires |s| % 2 == 1
    ensures Median(s) in s
  {
    var t := Sort(s);
    assert t[|s| / 2] in multiset(t);
  }

  /** Two ascending lists with the same readings are the same list. */
  lemma {:induction false} SortedUnique(a: seq<real>, b: seq<real>)
    requires Sorted(a) && Sorted(b) && multiset(a) == multiset(b)
    ensures a == b
    decreases |a|
  {
    assert |a| == |multiset(a)| == |b|;
    if a != [] {
      SameHead(a, b);
      SameTail(a, b);
      SortedTail(a);
      SortedTail(b);
      SortedUnique(a[1..], b[1..]);
      assert a == [a[0]] + a[1..] && b == [b[0]] + b[1..];
    }
  }

  /** Two non-empty ascending lists with the same readings start alike. */
  lemma SameHead(a: seq<real>, b: seq<real>)
    requires Sorted(a) && Sorted(b) && multiset(a) == multiset(b) && |a| > 0 && |b| > 0
    ensures a[0] == b[0]
  {
    assert a[0] in multiset(b);
    assert b[0] in multiset(a);
    var i :| 0 <= i < |b| && b[i] == a[0];
    var j :| 0 <= j < |a| && a[j] == b[0];
    assert b[0] <= b[i] && a[0] <= a[j];
  }

  /** Lists with the same readings and the same head have tails with the
      same readings. */
  lemma SameTail(a: seq<real>, b: seq<real>)
    requires multiset(a) == multiset(b) && |a| > 0 && |b| > 0 && a[0] == b[0]
    ensures multiset(a[1..]) == multiset(b[1..])
  {
    assert a == [a[0]] + a[1..] && b == [b[0]] + b[1..];
    assert multiset(a) == multiset{a[0]} + multiset(a[1..]);
    assert multiset(b) == multiset{a[0]} + multiset(b[1..]);
    forall y ensures multiset(a[1..])[y] == multiset(b[1..])[y] {
      assert multiset(a)[y] == multiset{a[0]}[y] + multiset(a[1..])[y];
      assert multiset(b)[y] == multiset{a[0]}[y] + multiset(b[1..])[y];
    }
  }

  lemma SortedTail(a: seq<real>)
    requires Sorted(a) && |a| > 0
    ensures Sorted(a[1..])
  {
    forall p, q | 0 <= p < q < |a[1..]| ensures a[1..][p] <= a[1..][q] {
      assert a[1..][p] == a[p + 1] && a[1..][q] == a[q + 1];
    }
  }

  /** The median does not depend on the order the readings arrived in. */
  lemma MedianPermutation(s: seq<real>, s': seq<real>)
    requires |s| > 0 && multiset(s) == multiset(s')
    ensures |s'| > 0 && Median(s) == Median(s')
  {
    assert |s| == |multiset(s)| == |s'|;
    var t, t' := Sort(s), Sort(s');
    assert multiset(t) == multiset(t');
    SortedUnique(t, t');
    assert Median(s) == Median(s') by {
      assert t == t';
    }
  }

  /** A single reading is its own median. */
  lemma MedianSingle(x: real)
    ensures Median([x]) == x
  {
    assert Sort([x]) == [x];
  }

  /** The extremes lie within `[a, b]` exactly when every reading does. */
  lemma ExtremesWithin(s: seq<real>, a: real, b: real)
    requires |s| > 0
    ensures a <= SeqMin(s) && SeqMax(s) <= b <==> forall i :: 0 <= i < |s| ==> a <= s[i] <= b
  {
    var lo, hi := SeqMin(s), SeqMax(s);
    if forall i :: 0 <= i < |s| ==> a <= s[i] <= b {
      var i :| 0 <= i < |s| && s[i] == lo;
      var j :| 0 <= j < |s| && s[j] == hi;
    }
  }

  /** A reading of the list at or below every reading is its minimum. */
  lemma IsSeqMin(s: seq<real>, x: real)
    requires x in s && forall i :: 0 <= i < |s| ==> x <= s[i]
    ensures x == SeqMin(s)
  {
    var m := SeqMin(s);
    var i :| 0 <= i < |s| && s[i] == x;
    var j :| 0 <= j < |s| && s[j] == m;
    assert m <= s[i] && x <= s[j];
  }

  /** A reading of the list at or above every reading is its maximum. */
  lemma IsSeqMax(s: seq<real>, x: real)
    requires x in s && forall i :: 0 <= i < |s| ==> s[i] <= x
    ensures x == SeqMax(s)
  {
    var m := SeqMax(s);
    var i :| 0 <= i < |s| && s[i] == x;
    var j :| 0 <= j < |s| && s[j] == m;
    assert s[i] <= m && s[j] <= x;
  }

  /** The loop of the `Range` behaviours of both aggregation revisions:
      starting from the first record's value, fold `min` and `max` over every
      record and remember the last value seen. */
  method ScanRange(ms: seq<Measurement>, key: string) returns (lo: real, hi: real, latest: real)
    requires |ms| > 0 && HasField(ms, key)
    ensures lo in Values(ms, key) && forall i :: 0 <= i < |ms| ==> lo <= ms[i].fields[key]
    ensures hi in Values(ms, key) && forall i :: 0 <= i < |ms| ==> ms[i].fields[key] <= hi
    ensures latest == Last(ms).fields[key]
  {
    ghost var vs := Values(ms, key);
    ghost var loAt, hiAt := 0, 0;
    lo := ms[0].fields[key];
    hi := lo;
    latest := lo;
    for i := 0 to |ms|
      invariant loAt < |vs| && lo == vs[loAt] && hiAt < |vs| && hi == vs[hiAt]
      invariant forall j :: 0 <= j < i ==> lo <= vs[j] <= hi
      invariant i > 0 ==> latest == vs[i - 1]
    {
      var value := ms[i].fields[key];
      lo := Min(value, lo);
      hi := Max(value, hi);
      latest := value;
      if lo == value {
        loAt := i;
      }
      if hi == value {
        hiAt := i;
      }
    }
  }
}
