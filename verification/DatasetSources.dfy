/** Where every record of the training set comes from, field by field, and in which order the
    records stand. */
module DatasetSources {
  import opened Text
  import opened Dataset

  /** The vulnerable or the corrected version of candidate k of class q, or a plain statement of
      the first or the second list. */
  datatype Source = Bad(q: nat, k: nat) | Good(q: nat, k: nat) | Seed(k: nat) | Pool(k: nat)

  datatype Lists = Lists(quotas: seq<Quota>, seedSafe: seq<Plain>, safePool: seq<Plain>)

  /** The order of the loops: class by class and candidate by candidate, then the two lists. */
  function Phase(l: Lists, s: Source): nat {
    match s
    case Bad(q, _) => q
    case Good(q, _) => q
    case Seed(_) => |l.quotas|
    case Pool(_) => |l.quotas| + 1
  }

  predicate Before(l: Lists, s: Source, t: Source) {
    Phase(l, s) < Phase(l, t)
    || (Phase(l, s) == Phase(l, t) && (s.k < t.k || (s.k == t.k && s.Bad? && t.Good?)))
  }

  /** The class in lower case, with dashes for underscores. */
  predicate IsSlug(p: string, c: string) {
    |p| == |c| && forall i :: 0 <= i < |c| ==>
      p[i] == if c[i] == '_' then '-' else if 'A' <= c[i] <= 'Z' then (c[i] as int + 32) as char else c[i]
  }

  predicate PlainFields(r: Record, p: Plain) {
    r.sql == p.sql && r.nl == p.intent && r.tables == p.tables && r.difficulty == p.difficulty
    && r.vulnClass == "safe" && !r.isVulnerable && r.split == "train" && r.seedId.prefix == "safe"
  }

  predicate PairFields(r: Record, p: Pair, vulnClass: string) {
    r.nl == p.intent && r.tables == p.tables && r.difficulty == p.difficulty && r.split == "train"
    && IsSlug(r.seedId.prefix, vulnClass)
  }

  predicate ComesFrom(l: Lists, r: Record, s: Source) {
    match s
    case Bad(q, k) =>
      && q < |l.quotas| && k < |l.quotas[q].pool| && PairFields(r, l.quotas[q].pool[k], l.quotas[q].vulnClass)
      && r.sql == l.quotas[q].pool[k].bad && r.vulnClass == l.quotas[q].vulnClass && r.isVulnerable
    case Good(q, k) =>
      && q < |l.quotas| && k < |l.quotas[q].pool| && PairFields(r, l.quotas[q].pool[k], l.quotas[q].vulnClass)
      && r.sql == l.quotas[q].pool[k].good && r.vulnClass == "safe" && !r.isVulnerable
    case Seed(k) => k < |l.seedSafe| && PlainFields(r, l.seedSafe[k])
    case Pool(k) => k < |l.safePool| && PlainFields(r, l.safePool[k])
  }

  /** Every record has its source, and the sources stand in order. */
  ghost predicate Sourced(l: Lists, rs: seq<Record>, src: seq<Source>) {
    && |src| == |rs|
    && (forall i :: 0 <= i < |rs| ==> ComesFrom(l, rs[i], src[i]))
    && (forall i, j :: 0 <= i < j < |src| ==> Before(l, src[i], src[j]))
  }

  /** All sources so far lie before candidate k of a phase. */
  ghost predicate Upto(l: Lists, src: seq<Source>, phase: nat, k: nat) {
    forall s :: s in src ==> Phase(l, s) < phase || (Phase(l, s) == phase && s.k < k)
  }

  lemma OneMore(l: Lists, b: Book, src: seq<Source>, r: Record, s: Source) returns (longer: seq<Source>)
    requires Sourced(l, b.records, src) && ComesFrom(l, r, s) && forall t :: t in src ==> Before(l, t, s)
    ensures Sourced(l, Added(b, r).records, longer)
    ensures longer == src || longer == src + [s]
  {
    longer := if Normal(r.sql) in b.seen then src else src + [s];
    hide ComesFrom, Normal;
    forall i, j | 0 <= i < j < |longer| ensures Before(l, longer[i], longer[j]) {
      if j == |src| { assert src[i] in src; }
    }
  }

  lemma SlugIs(c: string)
    ensures IsSlug(Slug(c), c)
  {}

  lemma PairSourced(l: Lists, b: Book, src: seq<Source>, q: nat, k: nat) returns (longer: seq<Source>)
    requires q < |l.quotas| && k < |l.quotas[q].pool| && Sourced(l, b.records, src) && Upto(l, src, q, k)
    ensures Sourced(l, PairAdded(b, l.quotas[q].vulnClass, l.quotas[q].pool[k]).records, longer)
    ensures Upto(l, longer, q, k + 1)
  {
    var c, p := l.quotas[q].vulnClass, l.quotas[q].pool[k];
    SlugIs(c);
    var id := SeedId(Slug(c), Number(b, Slug(c)));
    var b1 := Numbered(b, Slug(c));
    var bad, good := BadRecord(id, c, p), GoodRecord(id, p);
    assert ComesFrom(l, bad, Bad(q, k)) && ComesFrom(l, good, Good(q, k));
    hide Sourced, ComesFrom, Added, IsSlug;
    longer := OneMore(l, b1, src, bad, Bad(q, k));
    longer := OneMore(l, Added(b1, bad), longer, good, Good(q, k));
  }

  lemma {:induction false} DrawnSourced(l: Lists, b: Book, src: seq<Source>, q: nat, n: nat) returns (longer: seq<Source>)
    requires q < |l.quotas| && n <= |l.quotas[q].pool| && Sourced(l, b.records, src) && Upto(l, src, q, 0)
    ensures Sourced(l, Drawn(b, l.quotas[q], n).0.records, longer) && Upto(l, longer, q, n)
  {
    longer := src;
    if n > 0 {
      longer := DrawnSourced(l, b, src, q, n - 1);
      var (c, added) := Drawn(b, l.quotas[q], n - 1);
      hide Sourced, PairAdded, Blocked;
      if !(added >= l.quotas[q].target || Blocked(c, l.quotas[q].pool[n - 1])) {
        longer := PairSourced(l, c, longer, q, n - 1);
      }
    }
  }

  lemma {:induction false} AllDrawnSourced(l: Lists, n: nat) returns (src: seq<Source>)
    requires n <= |l.quotas|
    ensures Sourced(l, AllDrawn(EMPTY, l.quotas[..n]).records, src) && Upto(l, src, n, 0)
  {
    if n == 0 {
      src := [];
      assert l.quotas[..0] == [];
    } else {
      src := AllDrawnSourced(l, n - 1);
      assert l.quotas[..n][..n - 1] == l.quotas[..n - 1];
      src := DrawnSourced(l, AllDrawn(EMPTY, l.quotas[..n - 1]), src, n - 1, |l.quotas[n - 1].pool|);
    }
  }

  /** How many numbers have been given out under the prefix of the plain statements. */
  function Given(b: Book): nat {
    Number(b, "safe") - 1
  }

  /** A statement of the lists is numbered by its place, whether or not those before it were new. */
  ghost predicate PlainsNumbered(l: Lists, base: nat, rs: seq<Record>, src: seq<Source>)
    requires |src| == |rs|
  {
    forall i :: 0 <= i < |rs| ==>
      && (src[i].Seed? ==> rs[i].seedId.number == base + src[i].k + 1)
      && (src[i].Pool? ==> rs[i].seedId.number == base + |l.seedSafe| + src[i].k + 1)
  }
  /** One plain statement more, added or not. */
  lemma PlainSourced(l: Lists, base: nat, c: Book, src: seq<Source>, p: Plain, s: Source) returns (longer: seq<Source>)
    requires Sourced(l, c.records, src) && PlainsNumbered(l, base, c.records, src)
    requires (s.Seed? && s.k < |l.seedSafe| && p == l.seedSafe[s.k] && Given(c) == base + s.k)
             || (s.Pool? && s.k < |l.safePool| && p == l.safePool[s.k] && Given(c) == base + |l.seedSafe| + s.k)
    requires Upto(l, src, Phase(l, s), s.k)
    ensures Sourced(l, PlainAdded(c, p).records, longer) && Upto(l, longer, Phase(l, s), s.k + 1)
    ensures PlainsNumbered(l, base, PlainAdded(c, p).records, longer) && Given(PlainAdded(c, p)) == Given(c) + 1
  {
    var r := PlainRecord(SeedId("safe", Number(c, "safe")), p);
    hide Normal;
    longer := OneMore(l, Numbered(c, "safe"), src, r, s);
    hide Sourced;
  }

  lemma {:induction false} SeedsSourced(l: Lists, b: Book, src: seq<Source>, total: int, n: nat) returns (longer: seq<Source>)
    requires n <= |l.seedSafe| && Sourced(l, b.records, src) && Upto(l, src, |l.quotas|, 0)
    ensures var c := Filled(b, l.seedSafe[..n], total);
      && Sourced(l, c.records, longer) && Upto(l, longer, |l.quotas|, n)
      && PlainsNumbered(l, Given(b), c.records, longer)
      && (|c.records| < total ==> Given(c) == Given(b) + n)
  {
    longer := src;
    if n == 0 {
      assert l.seedSafe[..0] == [];
    } else {
      hide Sourced, Upto, PlainsNumbered, Given, PlainAdded;
      longer := SeedsSourced(l, b, src, total, n - 1);
      assert l.seedSafe[..n][..n - 1] == l.seedSafe[..n - 1];
      var c := Filled(b, l.seedSafe[..n - 1], total);
      if |c.records| < total {
        longer := PlainSourced(l, Given(b), c, longer, l.seedSafe[n - 1], Seed(n - 1));
      }
    }
  }

  lemma {:induction false} PoolSourced(l: Lists, base: nat, b: Book, src: seq<Source>, total: int, n: nat)
    returns (longer: seq<Source>)
    requires n <= |l.safePool| && Sourced(l, b.records, src) && Upto(l, src, |l.quotas| + 1, 0)
    requires PlainsNumbered(l, base, b.records, src) && (|b.records| < total ==> Given(b) == base + |l.seedSafe|)
    ensures var c := Filled(b, l.safePool[..n], total);
      && Sourced(l, c.records, longer) && Upto(l, longer, |l.quotas| + 1, n)
      && PlainsNumbered(l, base, c.records, longer)
      && (|c.records| < total ==> Given(c) == base + |l.seedSafe| + n)
  {
    longer := src;
    if n == 0 {
      assert l.safePool[..0] == [];
    } else {
      hide Sourced, Upto, PlainsNumbered, Given, PlainAdded;
      longer := PoolSourced(l, base, b, src, total, n - 1);
      assert l.safePool[..n][..n - 1] == l.safePool[..n - 1];
      var c := Filled(b, l.safePool[..n - 1], total);
      if |c.records| < total {
        longer := PlainSourced(l, base, c, longer, l.safePool[n - 1], Pool(n - 1));
      }
    }
  }

  /** Every record of the result is one candidate or plain statement, field by field, and they
      stand in the order of the loops: the classes in theirs and the candidates of each in theirs,
      a corrected version behind its vulnerable one, then the seed statements, then the pool. */
  lemma RecordsComeInOrder(l: Lists, total: int) returns (src: seq<Source>)
    ensures var rs := Front(Built(l.quotas, l.seedSafe, l.safePool, total).records, total);
      && Sourced(l, rs, src)
      && PlainsNumbered(l, Given(AllDrawn(EMPTY, l.quotas)), rs, src)
  {
    var rs := Built(l.quotas, l.seedSafe, l.safePool, total).records;
    src := BuiltSourced(l, total);
    hide Built, AllDrawn;
    FrontSourced(l, Given(AllDrawn(EMPTY, l.quotas)), rs, src, |Front(rs, total)|);
    src := src[..|Front(rs, total)|];
  }

  lemma BuiltSourced(l: Lists, total: int) returns (src: seq<Source>)
    ensures var rs := Built(l.quotas, l.seedSafe, l.safePool, total).records;
            Sourced(l, rs, src) && PlainsNumbered(l, Given(AllDrawn(EMPTY, l.quotas)), rs, src)
  {
    var b0 := AllDrawn(EMPTY, l.quotas);
    assert l.quotas[..|l.quotas|] == l.quotas && l.seedSafe[..|l.seedSafe|] == l.seedSafe
        && l.safePool[..|l.safePool|] == l.safePool;
    hide AllDrawn, Filled, Sourced, PlainsNumbered, Given;
    src := AllDrawnSourced(l, |l.quotas|);
    src := SeedsSourced(l, b0, src, total, |l.seedSafe|);
    src := PoolSourced(l, Given(b0), Filled(b0, l.seedSafe, total), src, total, |l.safePool|);
  }

  lemma FrontSourced(l: Lists, base: nat, rs: seq<Record>, src: seq<Source>, n: nat)
    requires Sourced(l, rs, src) && PlainsNumbered(l, base, rs, src) && n <= |rs|
    ensures Sourced(l, rs[..n], src[..n]) && PlainsNumbered(l, base, rs[..n], src[..n])
  {
    hide ComesFrom, Before;
  }

  // ------------------------------------------------------------------ the numbers

  /** Numbers count up from 1 under each prefix, and no number is taken back. */
  ghost predicate CountsUp(b: Book) {
    && (forall i :: 0 <= i < |b.records| ==>
          var id := b.records[i].seedId; 1 <= id.number && id.prefix in b.counter && id.number <= b.counter[id.prefix])
    && (forall i, j :: 0 <= i < j < |b.records| && b.records[i].seedId.prefix == b.records[j].seedId.prefix ==>
          b.records[i].seedId.number <= b.records[j].seedId.number)
  }

  lemma NumberedCountsUp(b: Book, prefix: string)
    requires CountsUp(b)
    ensures CountsUp(Numbered(b, prefix)) && Numbered(b, prefix).counter[prefix] == Number(b, prefix)
  {}

  lemma AddedCountsUp(b: Book, r: Record)
    requires CountsUp(b) && r.seedId.prefix in b.counter && 1 <= r.seedId.number == b.counter[r.seedId.prefix]
    ensures CountsUp(Added(b, r)) && Added(b, r).counter == b.counter
  {}

  lemma {:induction false} DrawnCountsUp(b: Book, q: Quota, n: nat)
    requires CountsUp(b) && n <= |q.pool|
    ensures CountsUp(Drawn(b, q, n).0)
  {
    if n > 0 {
      DrawnCountsUp(b, q, n - 1);
      var c, prefix, p := Drawn(b, q, n - 1).0, Slug(q.vulnClass), q.pool[n - 1];
      var id := SeedId(prefix, Number(c, prefix));
      hide CountsUp, Added, Slug;
      NumberedCountsUp(c, prefix);
      AddedCountsUp(Numbered(c, prefix), BadRecord(id, q.vulnClass, p));
      AddedCountsUp(Added(Numbered(c, prefix), BadRecord(id, q.vulnClass, p)), GoodRecord(id, p));
    }
  }

  lemma {:induction false} AllDrawnCountsUp(quotas: seq<Quota>)
    ensures CountsUp(AllDrawn(EMPTY, quotas))
  {
    if quotas != [] {
      var q := quotas[|quotas| - 1];
      AllDrawnCountsUp(quotas[..|quotas| - 1]);
      DrawnCountsUp(AllDrawn(EMPTY, quotas[..|quotas| - 1]), q, |q.pool|);
    }
  }

  lemma {:induction false} FilledCountsUp(b: Book, plains: seq<Plain>, total: int)
    requires CountsUp(b)
    ensures CountsUp(Filled(b, plains, total))
  {
    if plains != [] {
      var n := |plains| - 1;
      FilledCountsUp(b, plains[..n], total);
      var c := Filled(b, plains[..n], total);
      hide CountsUp, Added;
      NumberedCountsUp(c, "safe");
      AddedCountsUp(Numbered(c, "safe"), PlainRecord(SeedId("safe", Number(c, "safe")), plains[n]));
    }
  }

  /** Seed ids are numbered from 1 on and upwards under every prefix. */
  lemma NumbersAscend(l: Lists, total: int)
    ensures var rs := Front(Built(l.quotas, l.seedSafe, l.safePool, total).records, total);
      && (forall i :: 0 <= i < |rs| ==> 1 <= rs[i].seedId.number)
      && (forall i, j :: 0 <= i < j < |rs| && rs[i].seedId.prefix == rs[j].seedId.prefix ==>
            rs[i].seedId.number <= rs[j].seedId.number)
  {
    AllDrawnCountsUp(l.quotas);
    FilledCountsUp(AllDrawn(EMPTY, l.quotas), l.seedSafe, total);
    FilledCountsUp(Filled(AllDrawn(EMPTY, l.quotas), l.seedSafe, total), l.safePool, total);
  }

  /** How many vulnerable records carry this prefix. */
  function Vulnerable(rs: seq<Record>, prefix: string): nat {
    if rs == [] then 0
    else
      var n := |rs| - 1;
      Vulnerable(rs[..n], prefix) + if rs[n].isVulnerable && rs[n].seedId.prefix == prefix then 1 else 0
  }

  lemma VulnerableSnoc(rs: seq<Record>, r: Record, prefix: string)
    ensures Vulnerable(rs + [r], prefix)
         == Vulnerable(rs, prefix) + if r.isVulnerable && r.seedId.prefix == prefix then 1 else 0
  {
    assert (rs + [r])[..|rs|] == rs;
  }

  /** Under every prefix but that of the plain statements, the vulnerable records are numbered
      1, 2, 3, ... */
  ghost predicate Consecutive(rs: seq<Record>) {
    forall i :: 0 <= i < |rs| && rs[i].isVulnerable && rs[i].seedId.prefix != "safe" ==>
      rs[i].seedId.number == Vulnerable(rs[..i + 1], rs[i].seedId.prefix)
  }

  ghost predicate CountsPairs(b: Book) {
    Consecutive(b.records) && forall p: string :: p != "safe" ==> Number(b, p) == Vulnerable(b.records, p) + 1
  }

  lemma ConsecutiveSnoc(rs: seq<Record>, r: Record)
    requires Consecutive(rs)
    requires r.isVulnerable && r.seedId.prefix != "safe" ==> r.seedId.number == Vulnerable(rs, r.seedId.prefix) + 1
    ensures Consecutive(rs + [r])
  {
    var all := rs + [r];
    VulnerableSnoc(rs, r, r.seedId.prefix);
    forall i | 0 <= i < |all| && all[i].isVulnerable && all[i].seedId.prefix != "safe"
      ensures all[i].seedId.number == Vulnerable(all[..i + 1], all[i].seedId.prefix)
    {
      if i < |rs| { assert all[..i + 1] == rs[..i + 1]; } else { assert all[..i + 1] == all; }
    }
  }

  lemma PairCountsPairs(b: Book, vulnClass: string, p: Pair)
    requires CountsPairs(b) && !Blocked(b, p)
    ensures CountsPairs(PairAdded(b, vulnClass, p))
  {
    var prefix := Slug(vulnClass);
    var id := SeedId(prefix, Number(b, prefix));
    var bad, good, b1 := BadRecord(id, vulnClass, p), GoodRecord(id, p), Numbered(b, prefix);
    hide Normal, Slug;
    assert Added(b1, bad).records == b.records + [bad];
    ConsecutiveSnoc(b.records, bad);
    ConsecutiveSnoc(b.records + [bad], good);
    forall q: string | q != "safe"
      ensures Number(PairAdded(b, vulnClass, p), q) == Vulnerable(PairAdded(b, vulnClass, p).records, q) + 1
    {
      VulnerableSnoc(b.records, bad, q);
      VulnerableSnoc(b.records + [bad], good, q);
    }
  }

  lemma PlainCountsPairs(b: Book, p: Plain)
    requires CountsPairs(b)
    ensures CountsPairs(PlainAdded(b, p))
  {
    var r := PlainRecord(SeedId("safe", Number(b, "safe")), p);
    hide Normal;
    ConsecutiveSnoc(b.records, r);
    forall q: string | q != "safe" ensures Number(PlainAdded(b, p), q) == Vulnerable(PlainAdded(b, p).records, q) + 1 {
      VulnerableSnoc(b.records, r, q);
    }
  }

  lemma {:induction false} DrawnCountsPairs(b: Book, q: Quota, n: nat)
    requires CountsPairs(b) && n <= |q.pool|
    ensures CountsPairs(Drawn(b, q, n).0)
  {
    if n > 0 {
      DrawnCountsPairs(b, q, n - 1);
      var (c, added) := Drawn(b, q, n - 1);
      hide CountsPairs, Blocked, PairAdded;
      if !(added >= q.target || Blocked(c, q.pool[n - 1])) { PairCountsPairs(c, q.vulnClass, q.pool[n - 1]); }
    }
  }

  lemma {:induction false} AllDrawnCountsPairs(quotas: seq<Quota>)
    ensures CountsPairs(AllDrawn(EMPTY, quotas))
  {
    if quotas != [] {
      var q := quotas[|quotas| - 1];
      AllDrawnCountsPairs(quotas[..|quotas| - 1]);
      hide CountsPairs;
      DrawnCountsPairs(AllDrawn(EMPTY, quotas[..|quotas| - 1]), q, |q.pool|);
    }
  }

  lemma {:induction false} FilledCountsPairs(b: Book, plains: seq<Plain>, total: int)
    requires CountsPairs(b)
    ensures CountsPairs(Filled(b, plains, total))
  {
    if plains != [] {
      var n := |plains| - 1;
      FilledCountsPairs(b, plains[..n], total);
      hide CountsPairs, PlainAdded;
      PlainCountsPairs(Filled(b, plains[..n], total), plains[n]);
    }
  }

  /** The vulnerable records of each prefix are numbered 1, 2, 3, ... in the order they stand. */
  lemma PairsAreCounted(l: Lists, total: int)
    ensures Consecutive(Front(Built(l.quotas, l.seedSafe, l.safePool, total).records, total))
  {
    AllDrawnCountsPairs(l.quotas);
    FilledCountsPairs(AllDrawn(EMPTY, l.quotas), l.seedSafe, total);
    FilledCountsPairs(Filled(AllDrawn(EMPTY, l.quotas), l.seedSafe, total), l.safePool, total);
    var rs := Built(l.quotas, l.seedSafe, l.safePool, total).records;
    ConsecutiveFront(rs, |Front(rs, total)|);
  }

  lemma ConsecutiveFront(rs: seq<Record>, n: nat)
    requires Consecutive(rs) && n <= |rs|
    ensures Consecutive(rs[..n])
  {
    var front := rs[..n];
    forall i | 0 <= i < n && front[i].isVulnerable && front[i].seedId.prefix != "safe"
      ensures front[i].seedId.number == Vulnerable(front[..i + 1], front[i].seedId.prefix)
    {
      assert front[..i + 1] == rs[..i + 1];
    }
  }

  /** The numbers of the plain statements start behind those given to a class that is itself
      written `safe`; there is none, so they start at 1. */
  lemma {:induction false} NoClassIsSafe(quotas: seq<Quota>)
    requires forall q :: q in quotas ==> !IsSlug("safe", q.vulnClass)
    ensures Given(AllDrawn(EMPTY, quotas)) == 0
  {
    if quotas != [] {
      var q := quotas[|quotas| - 1];
      NoClassIsSafe(quotas[..|quotas| - 1]);
      SlugIs(q.vulnClass);
      assert q in quotas;
      hide IsSlug, Slug;
      DrawnGivesNone(AllDrawn(EMPTY, quotas[..|quotas| - 1]), q, |q.pool|);
    }
  }

  lemma {:induction false} DrawnGivesNone(b: Book, q: Quota, n: nat)
    requires n <= |q.pool| && Slug(q.vulnClass) != "safe"
    ensures Given(Drawn(b, q, n).0) == Given(b)
  {
    hide Slug, Normal;
    if n > 0 { DrawnGivesNone(b, q, n - 1); }
  }
}
