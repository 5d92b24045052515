/** The Prometheus-style histogram (`Histogram.observe`): cumulative buckets per label set. */
module Histogram {

  type Key = seq<string>

  datatype Bound = Finite(limit: real) | Inf

  predicate Within(value: real, b: Bound) {
    match b
    case Finite(r) => value <= r
    case Inf => true
  }

  /** `_key`: the values of the declared labels, missing ones empty, others ignored. */
  function KeyOf(labelNames: seq<string>, labels: map<string, string>): Key {
    seq(|labelNames|, i requires 0 <= i < |labelNames| =>
      if labelNames[i] in labels then labels[labelNames[i]] else "")
  }

  datatype Series = Series(buckets: seq<nat>, sum: real, count: nat)

  function NoSeries(n: nat): Series {
    Series(seq(n, _ => 0), 0.0, 0)
  }

  function SeriesAt(m: map<Key, Series>, k: Key, n: nat): Series {
    if k in m then m[k] else NoSeries(n)
  }

  function Bumped(bounds: seq<Bound>, s: Series, value: real): (r: Series)
    requires |s.buckets| == |bounds|
    ensures |r.buckets| == |bounds|
  {
    Series(Counted(bounds, s.buckets, value), s.sum + value, s.count + 1)
  }

  function Counted(bounds: seq<Bound>, buckets: seq<nat>, value: real): (r: seq<nat>)
    requires |buckets| == |bounds|
    ensures |r| == |bounds|
  {
    seq(|bounds|, i requires 0 <= i < |bounds| => buckets[i] + if Within(value, bounds[i]) then 1 else 0)
  }

  /** Ascending bounds, and one that everything is within. */
  ghost predicate Ladder(bounds: seq<Bound>) {
    && bounds != [] && bounds[|bounds| - 1] == Inf
    && (forall i :: 0 <= i < |bounds| - 1 ==> bounds[i].Finite?)
    && (forall i, j :: 0 <= i < j < |bounds| - 1 ==> bounds[i].limit <= bounds[j].limit)
  }

  /** `sorted(b)` */
  function InsertAsc(x: real, s: seq<real>): seq<real> {
    if s == [] || x < s[0] then [x] + s else [s[0]] + InsertAsc(x, s[1..])
  }

  function SortAsc(s: seq<real>): seq<real> {
    if s == [] then [] else InsertAsc(s[|s| - 1], SortAsc(s[..|s| - 1]))
  }

  const DEFAULT_BUCKETS := [0.05, 0.1, 0.25, 0.5, 1.0, 2.5, 5.0, 10.0]

  function Bounds(buckets: seq<real>): seq<Bound> {
    var s := SortAsc(if buckets == [] then DEFAULT_BUCKETS else buckets);
    seq(|s|, i requires 0 <= i < |s| => Finite(s[i])) + [Inf]
  }

  ghost predicate Ascending(s: seq<real>) {
    forall i, j :: 0 <= i < j < |s| ==> s[i] <= s[j]
  }

  lemma AscendingCons(c: real, r: seq<real>)
    ensures Ascending([c] + r) <==> Ascending(r) && forall x :: x in r ==> c <= x
  {
    if Ascending([c] + r) {
      forall i, j | 0 <= i < j < |r| ensures r[i] <= r[j] {
        assert ([c] + r)[i + 1] <= ([c] + r)[j + 1];
      }
      forall x | x in r ensures c <= x {
        var i :| 0 <= i < |r| && r[i] == x;
        assert ([c] + r)[0] <= ([c] + r)[i + 1];
      }
    } else if forall x :: x in r ==> c <= x {
      var i, j :| 0 <= i < j < |[c] + r| && ([c] + r)[i] > ([c] + r)[j];
      assert r[j - 1] in r;
      assert i > 0 && r[i - 1] > r[j - 1];
    }
  }

  lemma SameElements(a: seq<real>, b: seq<real>)
    requires multiset(a) == multiset(b)
    ensures forall x :: x in a ==> x in b
  {
    forall x | x in a ensures x in b { assert x in multiset(a); }
  }

  lemma {:induction false} InsertAscIs(x: real, s: seq<real>)
    requires Ascending(s)
    ensures Ascending(InsertAsc(x, s)) && multiset(InsertAsc(x, s)) == multiset(s) + multiset{x}
  {
    hide Ascending;
    if s == [] {
      AscendingCons(x, []);
      assert [x] + s == [x] + [];
    } else {
      var c, tail := s[0], s[1..];
      assert s == [c] + tail;
      AscendingCons(c, tail);
      if x < c {
        forall y | y in s ensures x <= y { assert y == c || y in tail; }
        AscendingCons(x, s);
      } else {
        var r := InsertAsc(x, tail);
        InsertAscIs(x, tail);
        SameElements(r, tail + [x]);
        AscendingCons(c, r);
      }
    }
  }

  lemma {:induction false} SortAscIs(s: seq<real>)
    ensures Ascending(SortAsc(s)) && multiset(SortAsc(s)) == multiset(s)
  {
    if s != [] {
      var front, last := s[..|s| - 1], s[|s| - 1];
      assert s == front + [last] && SortAsc(s) == InsertAsc(last, SortAsc(front));
      hide Ascending, InsertAsc, SortAsc;
      SortAscIs(front);
      InsertAscIs(last, SortAsc(front));
    }
  }

  /** The bounds are ascending and end in +Inf, and they are the given ones, or the default ones
      if none are given. */
  lemma BoundsAreALadder(buckets: seq<real>)
    ensures Ladder(Bounds(buckets))
    ensures multiset(Limits(Bounds(buckets)))
         == multiset(if buckets == [] then [0.05, 0.1, 0.25, 0.5, 1.0, 2.5, 5.0, 10.0] else buckets)
  {
    var given := if buckets == [] then DEFAULT_BUCKETS else buckets;
    SortAscIs(given);
    assert Limits(Bounds(buckets)) == SortAsc(given);
  }

  /** The finite bounds in front of the last one. */
  function Limits(bounds: seq<Bound>): seq<real>
    requires Ladder(bounds)
  {
    seq(|bounds| - 1, i requires 0 <= i < |bounds| - 1 => bounds[i].limit)
  }

  /** A series is filed under the values of the declared labels in their order; a missing label
      counts as empty, any other makes no difference. */
  lemma KeyIs(labelNames: seq<string>, labels: map<string, string>, other: map<string, string>)
    ensures |KeyOf(labelNames, labels)| == |labelNames|
    ensures forall i :: 0 <= i < |labelNames| ==>
      KeyOf(labelNames, labels)[i] == if labelNames[i] in labels then labels[labelNames[i]] else ""
    ensures (forall n :: n in labelNames ==> (n in labels <==> n in other) && (n in labels ==> labels[n] == other[n]))
            ==> KeyOf(labelNames, labels) == KeyOf(labelNames, other)
  {}

  function Joined(buckets: map<Key, seq<nat>>, sums: map<Key, real>, counts: map<Key, nat>): map<Key, Series>
    requires buckets.Keys == sums.Keys == counts.Keys
  {
    map k | k in buckets :: Series(buckets[k], sums[k], counts[k])
  }

  lemma JoinedUpdate(buckets: map<Key, seq<nat>>, sums: map<Key, real>, counts: map<Key, nat>, k: Key, s: Series)
    requires buckets.Keys == sums.Keys == counts.Keys
    ensures buckets[k := s.buckets].Keys == sums[k := s.sum].Keys == counts[k := s.count].Keys
    ensures Joined(buckets[k := s.buckets], sums[k := s.sum], counts[k := s.count]) == Joined(buckets, sums, counts)[k := s]
  {}

  ghost predicate Sized(buckets: map<Key, seq<nat>>, n: nat) {
    forall k :: k in buckets ==> |buckets[k]| == n
  }

  lemma SizedUpdate(buckets: map<Key, seq<nat>>, n: nat, k: Key, v: seq<nat>)
    requires Sized(buckets, n) && |v| == n
    ensures Sized(buckets[k := v], n)
  {}

  class Histogram {
    const labelNames: seq<string>
    const bounds: seq<Bound>
    var bucketCounts: map<Key, seq<nat>>
    var sums: map<Key, real>
    var counts: map<Key, nat>
    ghost var observed: seq<Observation>  // every observation made, in order

    constructor (labelNames: seq<string>, buckets: seq<real>)
      ensures Valid() && State() == map[] && observed == []
      ensures this.labelNames == labelNames && this.bounds == Bounds(buckets)
    {
      this.labelNames, this.bounds := labelNames, Bounds(buckets);
      bucketCounts, sums, counts, observed := map[], map[], map[], [];
      new;
      BoundsAreALadder(buckets);
    }

    ghost predicate Tidy()
      reads this
    {
      && Ladder(bounds)
      && bucketCounts.Keys == sums.Keys == counts.Keys
      && Sized(bucketCounts, |bounds|)
    }

    /** The numbers are those of the observations made. */
    ghost predicate Valid()
      reads this
    {
      Tidy() && State() == After(bounds, observed)
    }

    ghost function State(): map<Key, Series>
      requires Tidy()
      reads this
    {
      Joined(bucketCounts, sums, counts)
    }

    /** The loop over the bounds. */
    method Count(k: Key, value: real)
      requires k in bucketCounts && |bucketCounts[k]| == |bounds|
      modifies `bucketCounts
      ensures bucketCounts == old(bucketCounts)[k := Counted(bounds, old(bucketCounts[k]), value)]
    {
      var i := 0;
      while i < |bounds|
        invariant 0 <= i <= |bounds| && k in bucketCounts && |bucketCounts[k]| == |bounds|
        invariant bucketCounts == old(bucketCounts)[k := bucketCounts[k]]
        invariant forall j :: 0 <= j < |bounds| ==>
          bucketCounts[k][j] == old(bucketCounts[k])[j] + if j < i && Within(value, bounds[j]) then 1 else 0
      {
        if Within(value, bounds[i]) {
          bucketCounts := bucketCounts[k := bucketCounts[k][i := bucketCounts[k][i] + 1]];
        }
        i := i + 1;
      }
      assert bucketCounts[k] == Counted(bounds, old(bucketCounts[k]), value);
    }

    /** A label set seen for the first time gets an empty series. */
    method Prepare(k: Key)
      requires Tidy()
      modifies this
      ensures Tidy() && k in bucketCounts
      ensures var s := SeriesAt(old(State()), k, |bounds|);
              && bucketCounts == old(bucketCounts)[k := s.buckets]
              && sums == old(sums)[k := s.sum] && counts == old(counts)[k := s.count]
      ensures observed == old(observed)
    {
      if k !in bucketCounts {
        bucketCounts := bucketCounts[k := seq(|bounds|, _ => 0)];
        sums := sums[k := 0.0];
        counts := counts[k := 0];
      }
    }

    method Observe(value: real, labels: map<string, string>)
      requires Valid()
      modifies this
      ensures Valid() && observed == old(observed) + [Observation(KeyOf(labelNames, labels), value)]
      ensures var k := KeyOf(labelNames, labels);
              State() == old(State())[k := Bumped(bounds, SeriesAt(old(State()), k, |bounds|), value)]
    {
      var k := KeyOf(labelNames, labels);
      AfterOneMore(bounds, observed, Observation(k, value));
      hide After, SeriesAt, KeyOf, Bumped, Joined, Sized, Ladder;
      Record(k, value);
      observed := observed + [Observation(k, value)];
    }

    /** The locked section. */
    method Record(k: Key, value: real)
      requires Tidy()
      modifies this
      ensures Tidy() && observed == old(observed)
      ensures State() == old(State())[k := Bumped(bounds, SeriesAt(old(State()), k, |bounds|), value)]
    {
      ghost var t := Bumped(bounds, SeriesAt(State(), k, |bounds|), value);
      JoinedUpdate(bucketCounts, sums, counts, k, t);
      SizedUpdate(bucketCounts, |bounds|, k, t.buckets);
      hide Joined, SeriesAt, Sized, Ladder, Counted, Bumped;
      Tally(k, value);
    }

    method Tally(k: Key, value: real)
      requires Tidy()
      modifies this
      ensures observed == old(observed)
      ensures var t := Bumped(bounds, SeriesAt(old(State()), k, |bounds|), value);
              && bucketCounts == old(bucketCounts)[k := t.buckets]
              && sums == old(sums)[k := t.sum] && counts == old(counts)[k := t.count]
    {
      ghost var s := SeriesAt(State(), k, |bounds|);
      ghost var t := Bumped(bounds, s, value);
      Prepare(k);
      hide Counted, Ladder, Joined, Sized, SeriesAt;
      Count(k, value);
      AddUp(k, value);
      Overwrite(old(bucketCounts), k, s.buckets, t.buckets);
      Overwrite(old(sums), k, s.sum, t.sum);
      Overwrite(old(counts), k, s.count, t.count);
    }

    method AddUp(k: Key, value: real)
      requires k in sums && k in counts
      modifies `sums, `counts
      ensures sums == old(sums)[k := old(sums[k]) + value] && counts == old(counts)[k := old(counts[k]) + 1]
    {
      sums := sums[k := sums[k] + value];
      counts := counts[k := counts[k] + 1];
    }
  }

  lemma Overwrite<V>(m: map<Key, V>, k: Key, v: V, w: V)
    ensures m[k := v][k := w] == m[k := w]
  {}

  // ------------------------------------------------------------------ what the numbers mean

  datatype Observation = Observation(key: Key, value: real)

  function After(bounds: seq<Bound>, obs: seq<Observation>): (m: map<Key, Series>)
    ensures forall k :: k in m ==> |m[k].buckets| == |bounds|
  {
    if obs == [] then map[]
    else
      var m, o := After(bounds, obs[..|obs| - 1]), obs[|obs| - 1];
      m[o.key := Bumped(bounds, SeriesAt(m, o.key, |bounds|), o.value)]
  }

  /** One more `Observe` on a histogram in state `After(bounds, obs)` gives the next such state. */
  lemma AfterOneMore(bounds: seq<Bound>, obs: seq<Observation>, o: Observation)
    ensures After(bounds, obs + [o])
         == After(bounds, obs)[o.key := Bumped(bounds, SeriesAt(After(bounds, obs), o.key, |bounds|), o.value)]
  {
    assert (obs + [o])[..|obs|] == obs;
  }

  /** How many observations with this key are within the bound. */
  function Below(obs: seq<Observation>, k: Key, b: Bound): nat {
    if obs == [] then 0
    else
      var n := |obs| - 1;
      Below(obs[..n], k, b) + if obs[n].key == k && (b.Inf? || obs[n].value <= b.limit) then 1 else 0
  }

  function Total(obs: seq<Observation>, k: Key): real {
    if obs == [] then 0.0
    else
      var n := |obs| - 1;
      Total(obs[..n], k) + if obs[n].key == k then obs[n].value else 0.0
  }

  function Expected(bounds: seq<Bound>, obs: seq<Observation>, k: Key): Series {
    Series(seq(|bounds|, i requires 0 <= i < |bounds| => Below(obs, k, bounds[i])), Total(obs, k), Below(obs, k, Inf))
  }

  /** Each bucket counts the key's values at or below its bound. */
  lemma {:induction false} SeriesIs(bounds: seq<Bound>, obs: seq<Observation>, k: Key)
    ensures var m := After(bounds, obs);
            && (k in m <==> exists o :: o in obs && o.key == k)
            && SeriesAt(m, k, |bounds|) == Expected(bounds, obs, k)
  {
    if obs == [] {
      assert Expected(bounds, obs, k) == NoSeries(|bounds|);
    } else {
      var n := |obs| - 1;
      SeriesIs(bounds, obs[..n], k);
      assert obs == obs[..n] + [obs[n]];
      ExpectedLast(bounds, obs, k);
      hide Expected, Bumped;
      if obs[n].key == k { assert obs[n] in obs; }
    }
  }

  lemma ExpectedLast(bounds: seq<Bound>, obs: seq<Observation>, k: Key)
    requires obs != []
    ensures var o, e := obs[|obs| - 1], Expected(bounds, obs[..|obs| - 1], k);
            Expected(bounds, obs, k) == if o.key == k then Bumped(bounds, e, o.value) else e
  {
    var n, r := |obs| - 1, Expected(bounds, obs, k);
    var e := Expected(bounds, obs[..n], k);
    forall i | 0 <= i < |bounds|
      ensures r.buckets[i] == e.buckets[i] + if obs[n].key == k && Within(obs[n].value, bounds[i]) then 1 else 0
    {}
    hide Below;
    if obs[n].key == k {
      assert r.buckets == Bumped(bounds, e, obs[n].value).buckets;
    } else {
      assert r.buckets == e.buckets;
    }
  }

  lemma {:induction false} BelowGrows(obs: seq<Observation>, k: Key, b: Bound, c: Bound)
    requires c == Inf || (b.Finite? && c.Finite? && b.limit <= c.limit)
    ensures Below(obs, k, b) <= Below(obs, k, c)
  {
    if obs != [] { BelowGrows(obs[..|obs| - 1], k, b, c); }
  }

  /** The exposed series of every key seen: buckets never decrease along the bounds, the last is
      the number of observations, and the sum is their total. */
  lemma {:induction false} BucketsAreCumulative(bounds: seq<Bound>, obs: seq<Observation>, k: Key)
    requires Ladder(bounds) && k in After(bounds, obs)
    ensures var s := After(bounds, obs)[k];
            && (forall i, j :: 0 <= i <= j < |bounds| ==> s.buckets[i] <= s.buckets[j])
            && s.buckets[|bounds| - 1] == s.count == Below(obs, k, Inf)
            && s.sum == Total(obs, k)
  {
    SeriesIs(bounds, obs, k);
    var s := After(bounds, obs)[k];
    forall i, j | 0 <= i <= j < |bounds| ensures s.buckets[i] <= s.buckets[j] {
      BelowGrows(obs, k, bounds[i], bounds[j]);
    }
  }

  // ------------------------------------------------------------------ order does not matter

  lemma {:induction false} BelowSplit(a: seq<Observation>, b: seq<Observation>, k: Key, c: Bound)
    ensures Below(a + b, k, c) == Below(a, k, c) + Below(b, k, c)
    ensures Total(a + b, k) == Total(a, k) + Total(b, k)
  {
    if b == [] {
      assert a + b == a;
    } else {
      BelowSplit(a, b[..|b| - 1], k, c);
      assert (a + b)[..|a + b| - 1] == a + b[..|b| - 1];
    }
  }

  lemma RemoveOne<T>(a: seq<T>, x: T, front: seq<T>, rest: seq<T>)
    requires multiset(a + [x]) == multiset(front + [x] + rest)
    ensures multiset(a) == multiset(front + rest)
  {
    assert multiset(a + [x]) == multiset(a) + multiset{x};
    assert multiset(front + [x] + rest) == multiset(front) + multiset{x} + multiset(rest);
    assert multiset(front + rest) == multiset(front) + multiset(rest);
    assert multiset(a) == multiset(a + [x]) - multiset{x};
    assert multiset(front + rest) == multiset(front + [x] + rest) - multiset{x};
  }

  lemma TakeLast<T>(a: seq<T>, b: seq<T>) returns (front: seq<T>, rest: seq<T>)
    requires a != [] && multiset(a) == multiset(b)
    ensures b == front + [a[|a| - 1]] + rest && multiset(a[..|a| - 1]) == multiset(front + rest)
  {
    var n := |a| - 1;
    assert a == a[..n] + [a[n]];
    assert a[n] in multiset(b);
    var i :| 0 <= i < |b| && b[i] == a[n];
    front, rest := b[..i], b[i + 1..];
    assert b == front + [a[n]] + rest;
    RemoveOne(a[..n], a[n], front, rest);
  }

  lemma {:induction false} SameNumbers(a: seq<Observation>, b: seq<Observation>, k: Key, c: Bound)
    requires multiset(a) == multiset(b)
    ensures Below(a, k, c) == Below(b, k, c) && Total(a, k) == Total(b, k)
    decreases |a|
  {
    if a == [] {
      assert |multiset(b)| == 0;
    } else {
      var n, x := |a| - 1, a[|a| - 1];
      var front, rest := TakeLast(a, b);
      assert a == a[..n] + [x];
      hide Below, Total;
      SameNumbers(a[..n], front + rest, k, c);
      BelowSplit(front, rest, k, c);
      BelowSplit(front + [x], rest, k, c);
      BelowSplit(front, [x], k, c);
      BelowSplit(a[..n], [x], k, c);
    }
  }

  /** Only how often each observation was made matters, not when. */
  lemma OrderDoesNotMatter(bounds: seq<Bound>, a: seq<Observation>, b: seq<Observation>)
    requires multiset(a) == multiset(b)
    ensures After(bounds, a) == After(bounds, b)
  {
    var m, n := After(bounds, a), After(bounds, b);
    forall k ensures (k in m <==> k in n) && SeriesAt(m, k, |bounds|) == SeriesAt(n, k, |bounds|) {
      SeriesIs(bounds, a, k);
      SeriesIs(bounds, b, k);
      forall c: Bound ensures Below(a, k, c) == Below(b, k, c) && Total(a, k) == Total(b, k) { SameNumbers(a, b, k, c); }
      forall o ensures o in a <==> o in b { assert o in multiset(a) <==> o in multiset(b); }
      assert Expected(bounds, a, k).buckets == Expected(bounds, b, k).buckets;
    }
    forall k | k in m ensures m[k] == n[k] { assert SeriesAt(m, k, |bounds|) == SeriesAt(n, k, |bounds|); }
  }

  /** So an object tells at any time what was observed on it until then, whatever the order. */
  lemma ObjectTells(h: Histogram, k: Key)
    requires h.Valid()
    ensures k in h.State() <==> exists o :: o in h.observed && o.key == k
    ensures SeriesAt(h.State(), k, |h.bounds|) == Expected(h.bounds, h.observed, k)
    ensures forall g: Histogram :: g.Valid() && g.bounds == h.bounds && multiset(g.observed) == multiset(h.observed)
              ==> g.State() == h.State()
  {
    SeriesIs(h.bounds, h.observed, k);
    hide After, Expected, Joined, Sized, Ladder;
    forall g: Histogram | g.Valid() && g.bounds == h.bounds && multiset(g.observed) == multiset(h.observed)
      ensures g.State() == h.State()
    {
      OrderDoesNotMatter(h.bounds, g.observed, h.observed);
    }
  }
}
