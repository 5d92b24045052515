/** Ranking by score: a stable descending sort, a cut after k, only positive scores. The example
    store cuts first and filters then; the schema linker filters, sorts and cuts. */
module Ranking {
  import opened Text

  type Scored<T> = seq<(T, real)>

  /** Into a descending list, after everything with the same score. */
  function Insert<T>(x: (T, real), s: Scored<T>): (r: Scored<T>)
    ensures |r| == |s| + 1
  {
    if s == [] then [x]
    else
      var n := |s| - 1;
      if s[n].1 >= x.1 then s + [x] else Insert(x, s[..n]) + [s[n]]
  }

  /** `sort(key=score, reverse=True)`, and `sorted(key=-score)` as well. */
  function SortDesc<T>(s: Scored<T>): (r: Scored<T>)
    ensures |r| == |s|
  {
    if s == [] then [] else Insert(s[|s| - 1], SortDesc(s[..|s| - 1]))
  }

  function Positive<T>(s: Scored<T>): (r: Scored<T>)
    ensures |r| <= |s|
  {
    if s == [] then []
    else
      var n := |s| - 1;
      Positive(s[..n]) + if s[n].1 > 0.0 then [s[n]] else []
  }

  /** `FewShotStore._rank`: `[e for s, e in scored[:k] if s > 0]` after the sort. */
  function CutThenFilter<T>(s: Scored<T>, k: int): Scored<T> {
    Positive(Front(SortDesc(s), k))
  }

  /** `SchemaLinker.rank`: `sorted([x for x in scored if x[1] > 0])[:k]`. */
  function FilterThenCut<T>(s: Scored<T>, k: int): Scored<T> {
    Front(SortDesc(Positive(s)), k)
  }

  // ------------------------------------------------------------------ the sort

  ghost predicate Descending<T>(s: Scored<T>) {
    forall i, j :: 0 <= i < j < |s| ==> s[i].1 >= s[j].1
  }

  /** The items of one score, in their order. */
  function Level<T>(s: Scored<T>, v: real): Scored<T> {
    if s == [] then []
    else
      var n := |s| - 1;
      Level(s[..n], v) + if s[n].1 == v then [s[n]] else []
  }

  ghost predicate SameLevels<T>(a: Scored<T>, b: Scored<T>) {
    forall v :: Level(a, v) == Level(b, v)
  }

  lemma LevelSnoc<T>(s: Scored<T>, x: (T, real), v: real)
    ensures Level(s + [x], v) == Level(s, v) + if x.1 == v then [x] else []
  {
    assert (s + [x])[..|s|] == s;
  }

  lemma LastLevel<T>(s: Scored<T>, v: real)
    requires s != []
    ensures Level(s, v) == Level(s[..|s| - 1], v) + if s[|s| - 1].1 == v then [s[|s| - 1]] else []
  {}

  lemma {:induction false} LevelEmpty<T>(s: Scored<T>, v: real)
    requires forall i :: 0 <= i < |s| ==> s[i].1 != v
    ensures Level(s, v) == []
  {
    if s != [] { LevelEmpty(s[..|s| - 1], v); }
  }

  lemma {:induction false} LevelHas<T>(s: Scored<T>, i: nat)
    requires i < |s|
    ensures Level(s, s[i].1) != []
  {
    LastLevel(s, s[i].1);
    if i < |s| - 1 { LevelHas(s[..|s| - 1], i); }
  }

  lemma {:induction false} InsertAdds<T>(x: (T, real), s: Scored<T>)
    ensures multiset(Insert(x, s)) == multiset(s) + multiset{x}
  {
    if s != [] {
      var n := |s| - 1;
      assert s == s[..n] + [s[n]];
      if s[n].1 < x.1 { InsertAdds(x, s[..n]); }
    }
  }

  lemma {:induction false} InsertKeepsOrder<T>(x: (T, real), s: Scored<T>)
    requires Descending(s)
    ensures Descending(Insert(x, s))
  {
    if s != [] && s[|s| - 1].1 < x.1 {
      var n := |s| - 1;
      var t := Insert(x, s[..n]);
      InsertKeepsOrder(x, s[..n]);
      InsertAdds(x, s[..n]);
      forall i | 0 <= i < |t| ensures t[i].1 >= s[n].1 {
        assert t[i] in multiset(t);
        assert t[i] == x || t[i] in s[..n];
      }
    }
  }

  lemma InsertCases<T>(x: (T, real), s: Scored<T>)
    requires s != []
    ensures var n := |s| - 1;
            Insert(x, s) == if s[n].1 >= x.1 then s + [x] else Insert(x, s[..n]) + [s[n]]
  {}

  lemma Swap<X>(l: seq<X>, x: seq<X>, y: seq<X>)
    requires x == [] || y == []
    ensures l + x + y == l + y + x
  {
    assert l + [] == l;
  }

  lemma {:induction false} InsertLevel<T>(x: (T, real), s: Scored<T>, v: real)
    ensures Level(Insert(x, s), v) == Level(s, v) + if x.1 == v then [x] else []
  {
    if s == [] {
      LevelSnoc([], x, v);
      assert [] + [x] == [x];
    } else {
      hide Insert, Level;
      var n := |s| - 1;
      InsertCases(x, s);
      if s[n].1 >= x.1 {
        LevelSnoc(s, x, v);
      } else {
        InsertLevel(x, s[..n], v);
        LevelSnoc(Insert(x, s[..n]), s[n], v);
        LastLevel(s, v);
        Swap(Level(s[..n], v), if x.1 == v then [x] else [], if s[n].1 == v then [s[n]] else []);
      }
    }
  }

  ghost predicate StableSortOf<T>(s: Scored<T>, r: Scored<T>) {
    Descending(r) && SameLevels(r, s)
  }

  lemma {:induction false} SortIsDescending<T>(s: Scored<T>)
    ensures Descending(SortDesc(s))
    ensures multiset(SortDesc(s)) == multiset(s)
  {
    if s != [] {
      var n := |s| - 1;
      SortIsDescending(s[..n]);
      InsertKeepsOrder(s[n], SortDesc(s[..n]));
      InsertAdds(s[n], SortDesc(s[..n]));
      assert s == s[..n] + [s[n]];
    }
  }

  lemma {:induction false} SortKeepsLevel<T>(s: Scored<T>, v: real)
    ensures Level(SortDesc(s), v) == Level(s, v)
  {
    if s != [] {
      var n := |s| - 1;
      SortKeepsLevel(s[..n], v);
      InsertLevel(s[n], SortDesc(s[..n]), v);
      LastLevel(s, v);
    }
  }

  lemma SortIs<T>(s: Scored<T>)
    ensures StableSortOf(s, SortDesc(s))
    ensures multiset(SortDesc(s)) == multiset(s)
  {
    SortIsDescending(s);
    forall v ensures Level(SortDesc(s), v) == Level(s, v) { SortKeepsLevel(s, v); }
  }

  /** Descending, and equal scores in their old order: there is only one such list. */
  lemma {:induction false} SortIsUnique<T>(a: Scored<T>, b: Scored<T>)
    requires Descending(a) && Descending(b) && SameLevels(a, b)
    ensures a == b
    decreases |a| + |b|
  {
    if a == [] {
      Hollow(b);
    } else {
      hide SameLevels;
      LevelHas(a, |a| - 1);
      SameLast(a, b);
      var m, n := |a| - 1, |b| - 1;
      SameFronts(a, b);
      SortIsUnique(a[..m], b[..n]);
      assert a == a[..m] + [a[m]] && b == b[..n] + [b[n]];
    }
  }

  lemma SameFronts<T>(a: Scored<T>, b: Scored<T>)
    requires a != [] && b != [] && a[|a| - 1] == b[|b| - 1] && SameLevels(a, b)
    ensures SameLevels(a[..|a| - 1], b[..|b| - 1])
  {
    hide Level;
    var m, n := |a| - 1, |b| - 1;
    forall v ensures Level(a[..m], v) == Level(b[..n], v) {
      assert Level(a, v) == Level(b, v);
      LastLevel(a, v);
      LastLevel(b, v);
      SameFront(Level(a[..m], v), Level(b[..n], v), if a[m].1 == v then [a[m]] else []);
    }
  }

  lemma Hollow<T>(b: Scored<T>)
    requires SameLevels([], b)
    ensures b == []
  {
    if b != [] { LevelHas(b, 0); }
  }

  lemma SameFront<X>(x: seq<X>, y: seq<X>, z: seq<X>)
    ensures x + z == y + z ==> x == y
  {
    if x + z == y + z {
      assert |x| == |y|;
      assert x == (x + z)[..|x|] && y == (y + z)[..|y|];
    }
  }

  lemma SameLast<T>(a: Scored<T>, b: Scored<T>)
    requires a != [] && Descending(a) && Descending(b) && SameLevels(a, b)
    ensures b != [] && a[|a| - 1] == b[|b| - 1]
  {
    hide Level, Descending;
    var x := a[|a| - 1];
    LevelHas(a, |a| - 1);
    assert Level(a, x.1) == Level(b, x.1);
    NotEmpty(b, x.1);
    var y := b[|b| - 1];
    LevelHas(b, |b| - 1);
    assert Level(a, y.1) == Level(b, y.1);
    LowestLevel(a, y.1);
    LowestLevel(b, x.1);
    LastOfLevel(a);
    LastOfLevel(b);
  }

  lemma NotEmpty<T>(b: Scored<T>, v: real)
    ensures Level(b, v) != [] ==> b != []
  {}

  lemma LastOfLevel<T>(a: Scored<T>)
    requires a != []
    ensures var x, l := a[|a| - 1], Level(a, a[|a| - 1].1); l != [] && l[|l| - 1] == x
  {}

  /** No level below the last item's score. */
  lemma LowestLevel<T>(a: Scored<T>, v: real)
    requires a != [] && Descending(a) && Level(a, v) != []
    ensures v >= a[|a| - 1].1
  {
    if v < a[|a| - 1].1 { LevelEmpty(a, v); }
  }

  // ------------------------------------------------------------------ the cut and the filter

  lemma {:induction false} PositiveInsert<T>(x: (T, real), s: Scored<T>)
    ensures Positive(Insert(x, s)) == if x.1 > 0.0 then Insert(x, Positive(s)) else Positive(s)
  {
    if s == [] {
      PositiveSnoc([], x);
      assert [] + [x] == [x];
    } else {
      hide Insert, Positive;
      var n := |s| - 1;
      InsertCases(x, s);
      if s[n].1 >= x.1 {
        PositiveSnoc(s, x);
        PositiveAtLeast(s, x);
        Nothing(Positive(s));
      } else {
        PositiveInsert(x, s[..n]);
        PositiveSnoc(Insert(x, s[..n]), s[n]);
        LastPositive(s);
        InsertBefore(x, Positive(s[..n]), s[n]);
        Nothing(Positive(s[..n]));
        Nothing(Insert(x, Positive(s[..n])));
      }
    }
  }

  lemma Nothing<X>(s: seq<X>)
    ensures s + [] == s
  {}

  lemma LastPositive<T>(s: Scored<T>)
    requires s != []
    ensures Positive(s) == Positive(s[..|s| - 1]) + if s[|s| - 1].1 > 0.0 then [s[|s| - 1]] else []
  {}

  lemma PositiveSnoc<T>(s: Scored<T>, x: (T, real))
    ensures Positive(s + [x]) == Positive(s) + if x.1 > 0.0 then [x] else []
  {
    assert (s + [x])[..|s|] == s;
  }

  lemma PositiveAtLeast<T>(s: Scored<T>, x: (T, real))
    requires s != [] && s[|s| - 1].1 >= x.1
    ensures x.1 > 0.0 ==> Insert(x, Positive(s)) == Positive(s) + [x]
  {
    if x.1 > 0.0 { assert Positive(s)[|Positive(s)| - 1] == s[|s| - 1]; }
  }

  lemma InsertBefore<T>(x: (T, real), p: Scored<T>, y: (T, real))
    requires y.1 < x.1
    ensures Insert(x, p + [y]) == Insert(x, p) + [y]
  {
    assert (p + [y])[..|p|] == p;
  }

  /** Sorting and dropping the scores that are not positive can be done in either order. */
  lemma {:induction false} SortThenFilter<T>(s: Scored<T>)
    ensures Positive(SortDesc(s)) == SortDesc(Positive(s))
  {
    if s != [] {
      hide Insert, Positive, SortDesc;
      var n := |s| - 1;
      SortThenFilter(s[..n]);
      SortLast(s);
      PositiveInsert(s[n], SortDesc(s[..n]));
      LastPositive(s);
      Nothing(Positive(s[..n]));
      SortSnoc(Positive(s[..n]), s[n]);
    }
  }

  lemma SortLast<T>(s: Scored<T>)
    requires s != []
    ensures SortDesc(s) == Insert(s[|s| - 1], SortDesc(s[..|s| - 1]))
  {}

  lemma SortSnoc<T>(s: Scored<T>, x: (T, real))
    ensures SortDesc(s + [x]) == Insert(x, SortDesc(s))
  {
    assert (s + [x])[..|s|] == s;
  }

  /** In a descending list the positive scores come first. */
  lemma {:induction false} PositivesLead<T>(r: Scored<T>)
    requires Descending(r)
    ensures Positive(r) == r[..|Positive(r)|]
    ensures forall i :: 0 <= i < |r| ==> (r[i].1 > 0.0 <==> i < |Positive(r)|)
  {
    if r != [] {
      hide Positive;
      var n := |r| - 1;
      var m := |Positive(r[..n])|;
      PositivesLead(r[..n]);
      LastPositive(r);
      if m < n { assert r[..n][m] == r[m]; }
      assert r[..n][..m] == r[..m];
    }
  }

  lemma FrontPositives<T>(r: Scored<T>, n: nat)
    requires Descending(r) && n <= |r|
    ensures Positive(r[..n]) == r[..if n < |Positive(r)| then n else |Positive(r)|]
  {
    PositivesLead(r);
    PositivesLead(r[..n]);
    var p, q := |Positive(r)|, |Positive(r[..n])|;
    if q < n { assert r[..n][q] == r[q]; }
    if 0 < q { assert r[..n][q - 1] == r[q - 1]; }
    assert r[..n][..q] == r[..q];
  }

  /** How many items `[:k]` leaves of n. */
  function Kept(n: nat, k: int): (m: nat)
    ensures m <= n
  {
    if k >= 0 then (if k < n then k else n) else if n + k >= 0 then n + k else 0
  }

  lemma FrontIs<T>(s: seq<T>, k: int)
    ensures Front(s, k) == s[..Kept(|s|, k)]
  {}

  /** The store's order of cutting and filtering gives the linker's result exactly if k is not
      negative, or all scores are positive, or none is, or the cut leaves nothing anyway. */
  lemma CutAndFilterCommute<T>(s: Scored<T>, k: int)
    ensures CutThenFilter(s, k) == FilterThenCut(s, k)
            <==> k >= 0 || |Positive(s)| == |s| || |Positive(s)| == 0 || |s| + k <= 0
  {
    hide SortDesc, Positive;
    SortIs(s);
    SortThenFilter(s);
    var r := SortDesc(s);
    SamePositives(s);
    FrontIs(r, k);
    FrontPositives(r, Kept(|r|, k));
    PositivesLead(r);
    FrontIs(Positive(r), k);
    Prefixes(r, |Positive(r)|, Kept(|r|, k), Kept(|Positive(r)|, k));
  }

  lemma SamePositives<T>(s: Scored<T>)
    ensures |Positive(SortDesc(s))| == |Positive(s)|
  {
    SortThenFilter(s);
  }

  lemma Prefixes<X>(r: seq<X>, p: nat, m: nat, n: nat)
    requires n <= p <= |r| && m <= |r|
    ensures r[..if m < p then m else p] == r[..p][..n] <==> n == if m < p then m else p
  {
    assert r[..p][..n] == r[..n];
    assert |r[..n]| == n;
  }

  /** What is left out beats nothing that is kept, and something positive is left out only if
      k items are kept; the kept items are in the one stable order. */
  lemma {:induction false} BestAreKept<T>(s: Scored<T>, k: nat)
    ensures var kept := CutThenFilter(s, k);
            && |kept| <= k && kept <= SortDesc(Positive(s))
            && StableSortOf(Positive(s), SortDesc(Positive(s)))
            && (forall x :: x in kept ==> x in s && x.1 > 0.0)
            && (forall x :: x in multiset(Positive(s)) - multiset(kept) ==>
                  |kept| == k && forall y :: y in kept ==> y.1 >= x.1)
  {
    CutAndFilterCommute(s, k);
    SortIs(Positive(s));
    PositiveAre(s);
    var r := SortDesc(Positive(s));
    FrontIs(r, k);
    var m := Kept(|r|, k);
    assert r == r[..m] + r[m..];
    forall x | x in r[..m] ensures x in s && x.1 > 0.0 { assert x in multiset(r); }
    forall x | x in multiset(r) - multiset(r[..m])
      ensures m == k && forall y :: y in r[..m] ==> y.1 >= x.1
    {
      assert x in r[m..];
    }
  }

  lemma {:induction false} PositiveAre<T>(s: Scored<T>)
    ensures forall x :: x in Positive(s) <==> x in s && x.1 > 0.0
  {
    if s != [] {
      PositiveAre(s[..|s| - 1]);
      assert s == s[..|s| - 1] + [s[|s| - 1]];
    }
  }

  lemma {:induction false} PositiveAt<T>(s: Scored<T>, i: nat)
    requires i < |Positive(s)|
    ensures Positive(s)[i] in s && Positive(s)[i].1 > 0.0
  {
    var n := |s| - 1;
    if i < |Positive(s[..n])| { PositiveAt(s[..n], i); }
  }

  lemma KeptAre<T>(s: Scored<T>, k: int, i: nat)
    requires i < |CutThenFilter(s, k)|
    ensures CutThenFilter(s, k)[i] in s && CutThenFilter(s, k)[i].1 > 0.0
  {
    hide SortDesc, Positive, Front;
    SortIs(s);
    PositiveAt(Front(SortDesc(s), k), i);
    FrontIs(SortDesc(s), k);
    assert CutThenFilter(s, k)[i] in multiset(SortDesc(s));
  }
}
