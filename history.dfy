/** The bounded measurement history each watcher keeps: a
    `deque(maxlen=capacity)` whose capacity is fixed when the watcher is
    built, and the time window selected from it on every status query. */
module History {

  import opened Common

  /** `math.ceil(window_length * 1.1 / query_delay)`, in exact integer arithmetic. */
  function Capacity(windowLength: nat, queryDelay: nat): nat
    requires queryDelay > 0
  {
    (11 * windowLength + 10 * queryDelay - 1) / (10 * queryDelay)
  }

  /** The capacity is the least number of polls, `query_delay` seconds apart,
      that cover 1.1 window lengths. */
  lemma CapacityIsCeiling(windowLength: nat, queryDelay: nat)
    requires queryDelay > 0
    ensures Capacity(windowLength, queryDelay) * (10 * queryDelay) >= 11 * windowLength
    ensures Capacity(windowLength, queryDelay) == 0 || (Capacity(windowLength, queryDelay) - 1) * (10 * queryDelay) < 11 * windowLength
  {
    var c, d, n := Capacity(windowLength, queryDelay), 10 * queryDelay, 11 * windowLength + 10 * queryDelay - 1;
    assert n == c * d + n % d;
    assert 0 <= n % d < d;
    assert (c - 1) * d == c * d - d;
  }

  /** The last `capacity` entries of `s` (all of them when there are fewer). */
  function Suffix<T>(s: seq<T>, capacity: nat): (r: seq<T>)
    ensures |r| == if |s| <= capacity then |s| else capacity
  {
    if |s| <= capacity then s else s[|s| - capacity..]
  }

  /** `deque.append` on a deque with `maxlen=capacity`: the new entry goes at
      the end and, once the deque is full, the oldest entry is dropped. */
  function Append<T>(buf: seq<T>, x: T, capacity: nat): seq<T> {
    Suffix(buf + [x], capacity)
  }

  /** The appended entry is always the newest one kept; it follows the
      newest entries of the old buffer, the oldest being dropped once the
      capacity is reached. */
  lemma AppendKeepsNewest<T>(buf: seq<T>, x: T, capacity: nat)
    requires capacity > 0 && |buf| <= capacity
    ensures var r := Append(buf, x, capacity);
            && |r| == (if |buf| < capacity then |buf| + 1 else capacity)
            && r[|r| - 1] == x
            && r[..|r| - 1] == (if |buf| < capacity then buf else buf[1..])
  {
    var r := Append(buf, x, capacity);
    if |buf| == capacity {
      assert r == buf[1..] + [x];
    }
  }

  /** Appending one entry at a time keeps exactly the most recent `capacity`
      entries of everything ever appended, in arrival order. */
  function AppendAll<T>(buf: seq<T>, xs: seq<T>, capacity: nat): seq<T>
    decreases |xs|
  {
    if xs == [] then buf else AppendAll(Append(buf, xs[0], capacity), xs[1..], capacity)
  }

  lemma {:induction false} FifoEviction<T>(buf: seq<T>, xs: seq<T>, capacity: nat)
    requires |buf| <= capacity
    ensures AppendAll(buf, xs, capacity) == Suffix(buf + xs, capacity)
    decreases |xs|
  {
    if xs != [] {
      var b1 := Append(buf, xs[0], capacity);
      FifoEviction(b1, xs[1..], capacity);
      assert buf + xs == (buf + [xs[0]]) + xs[1..];
      SuffixOfSuffix(buf + [xs[0]], xs[1..], capacity);
    }
  }

  lemma SuffixOfSuffix<T>(s: seq<T>, t: seq<T>, capacity: nat)
    ensures Suffix(Suffix(s, capacity) + t, capacity) == Suffix(s + t, capacity)
  {
    if |s| > capacity {
      var s' := s[|s| - capacity..];
      var u, v := s' + t, s + t;
      assert u == v[|s| - capacity..];
      assert u[|u| - capacity..] == v[|v| - capacity..];
    }
  }

  /** `[m for m in data if m['date'] >= since]` */
  function Window(ms: seq<Measurement>, since: int): seq<Measurement> {
    Filter(ms, (m: Measurement) => m.date >= since)
  }

  /** The window holds exactly the records dated at or after `since`, as
      often as the buffer does, and keeps their arrival order across any
      split of the buffer. */
  lemma WindowExact(ms: seq<Measurement>, since: int)
    ensures forall m :: multiset(Window(ms, since))[m] == if m.date >= since then multiset(ms)[m] else 0
    ensures forall a, b :: ms == a + b ==> Window(ms, since) == Window(a, since) + Window(b, since)
  {
    FilterMultiset(ms, (m: Measurement) => m.date >= since);
    forall a, b | ms == a + b
      ensures Window(ms, since) == Window(a, since) + Window(b, since)
    {
      FilterAppend(a, b, (m: Measurement) => m.date >= since);
    }
  }
}
