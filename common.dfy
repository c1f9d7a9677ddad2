/** Values shared by every part of the environment daemon model: optional and
    failing results, limit pairs, timestamped measurement records, and the
    order-preserving filter that every list comprehension of the daemon is. */
module Common {

  datatype Option<+T> = None | Some(value: T)

  datatype Result<+T, +E> = Success(value: T) | Failure(error: E)

  /** A `(min, max)` pair of safe (or warning) values. */
  datatype Limits = Limits(lo: real, hi: real)

  /** One reply of a sensor daemon: its timestamp, in integer seconds, and its
      named fields. Booleans are stored as 0.0 / 1.0, as Python compares them. */
  datatype Measurement = Measurement(date: int, fields: map<string, real>)

  /** Python truthiness of a string that may be None. */
  predicate NonEmpty(s: Option<string>) {
    s.Some? && s.value != ""
  }

  function Last<T>(s: seq<T>): T
    requires |s| > 0
  {
    s[|s| - 1]
  }

  /** `[x for x in s if keep(x)]` */
  function Filter<T>(s: seq<T>, keep: T -> bool): (r: seq<T>)
    ensures |r| <= |s|
  {
    if s == [] then [] else Filter(s[..|s| - 1], keep) + (if keep(Last(s)) then [Last(s)] else [])
  }

  lemma {:induction false} FilterAppend<T>(a: seq<T>, b: seq<T>, keep: T -> bool)
    ensures Filter(a + b, keep) == Filter(a, keep) + Filter(b, keep)
    decreases |b|
  {
    if b == [] {
      assert a + b == a;
    } else {
      var b' := b[..|b| - 1];
      assert (a + b)[..|a + b| - 1] == a + b';
      FilterAppend(a, b', keep);
    }
  }

  /** The filter keeps exactly the kept elements, each as often as it occurs. */
  lemma {:induction false} FilterMultiset<T>(s: seq<T>, keep: T -> bool)
    ensures forall x :: multiset(Filter(s, keep))[x] == if keep(x) then multiset(s)[x] else 0
  {
    if s != [] {
      var s' := s[..|s| - 1];
      FilterMultiset(s', keep);
      assert s == s' + [Last(s)];
    }
  }

  lemma FilterMember<T>(s: seq<T>, keep: T -> bool, x: T)
    ensures x in Filter(s, keep) <==> x in s && keep(x)
  {
    FilterMultiset(s, keep);
    assert x in Filter(s, keep) <==> multiset(Filter(s, keep))[x] > 0;
    assert x in s <==> multiset(s)[x] > 0;
  }

  lemma {:induction false} FilterAll<T>(s: seq<T>, keep: T -> bool)
    requires forall i :: 0 <= i < |s| ==> keep(s[i])
    ensures Filter(s, keep) == s
  {
    if s != [] {
      FilterAll(s[..|s| - 1], keep);
    }
  }

  lemma {:induction false} FilterNone<T>(s: seq<T>, keep: T -> bool)
    requires forall i :: 0 <= i < |s| ==> !keep(s[i])
    ensures Filter(s, keep) == []
  {
    if s != [] {
      FilterNone(s[..|s| - 1], keep);
    }
  }

  /** Two filters applied one after the other give the same list in either order. */
  lemma {:induction false} FilterCommutes<T>(s: seq<T>, p: T -> bool, q: T -> bool)
    ensures Filter(Filter(s, p), q) == Filter(Filter(s, q), p)
  {
    if s != [] {
      var s' := s[..|s| - 1];
      var x := Last(s);
      FilterCommutes(s', p, q);
      FilterAppend(Filter(s', p), if p(x) then [x] else [], q);
      FilterAppend(Filter(s', q), if q(x) then [x] else [], p);
    }
  }

  /** Every element of the filtered list was kept. */
  lemma FilterKept<T>(s: seq<T>, keep: T -> bool)
    ensures forall i :: 0 <= i < |Filter(s, keep)| ==> keep(Filter(s, keep)[i]) && Filter(s, keep)[i] in s
  {
    forall i | 0 <= i < |Filter(s, keep)|
      ensures keep(Filter(s, keep)[i]) && Filter(s, keep)[i] in s
    {
      FilterMember(s, keep, Filter(s, keep)[i]);
    }
  }

  /** `m[key]` for every element of a list of records. */
  function Values(ms: seq<Measurement>, key: string): (r: seq<real>)
    requires forall m :: m in ms ==> key in m.fields
    ensures |r| == |ms|
    ensures forall i :: 0 <= i < |ms| ==> r[i] == ms[i].fields[key]
  {
    if ms == [] then [] else Values(ms[..|ms| - 1], key) + [Last(ms).fields[key]]
  }

  predicate HasField(ms: seq<Measurement>, key: string) {
    forall m :: m in ms ==> key in m.fields
  }

  /** One entry of a watcher's `parameters` block of the JSON configuration
      file; an absent optional key is `None`. `label` and `type` are
      required by the configuration schema. */
  datatype ParameterJson = ParameterJson(
    caption: string,           // `label`
    kind: string,              // `type`
    filterInvalid: Option<bool>,
    medianKey: Option<string>,
    validSetValues: Option<seq<real>>,
    unsafeLimits: Option<Limits>,
    warnLimits: Option<Limits>,
    unit: Option<string>,
    display: Option<string>)

  /** `set(values)` */
  function SetOf(values: seq<real>): (r: set<real>)
    ensures forall x :: x in r <==> x in values
  {
    set x | x in values
  }

  /** The distinct readings of `key` are exactly the ones some record carries. */
  lemma SeenReadings(ms: seq<Measurement>, key: string)
    requires HasField(ms, key)
    ensures forall x :: x in SetOf(Values(ms, key)) <==> exists i :: 0 <= i < |ms| && ms[i].fields[key] == x
  {
    var vs := Values(ms, key);
    forall x ensures x in SetOf(vs) <==> exists i :: 0 <= i < |ms| && ms[i].fields[key] == x {
      if x in SetOf(vs) {
        var i :| 0 <= i < |vs| && vs[i] == x;
        assert ms[i].fields[key] == x;
      }
      if exists i :: 0 <= i < |ms| && ms[i].fields[key] == x {
        var i :| 0 <= i < |ms| && ms[i].fields[key] == x;
        assert vs[i] == x;
      }
    }
  }

  /** The distinct readings all lie in `valid` exactly when every record's
      reading does. */
  lemma SeenWithin(ms: seq<Measurement>, key: string, valid: set<real>)
    requires HasField(ms, key)
    ensures SetOf(Values(ms, key)) <= valid <==> forall i :: 0 <= i < |ms| ==> ms[i].fields[key] in valid
  {
    var vs := Values(ms, key);
    if !(SetOf(vs) <= valid) {
      var x :| x in SetOf(vs) && x !in valid;
      var i :| 0 <= i < |vs| && vs[i] == x;
      assert ms[i].fields[key] !in valid;
    } else {
      forall i | 0 <= i < |ms| ensures ms[i].fields[key] in valid {
        assert vs[i] in SetOf(vs);
      }
    }
  }
}
