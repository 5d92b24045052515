/** What the assembled training set guarantees. */
module DatasetProperties {
  import opened Text
  import opened Dataset

  // ------------------------------------------------------------------ statements and ids

  function Normals(rs: seq<Record>): set<string> {
    set r | r in rs :: Normal(r.sql)
  }

  ghost predicate Distinct(rs: seq<Record>) {
    forall i, j :: 0 <= i < j < |rs| ==> Normal(rs[i].sql) != Normal(rs[j].sql)
  }

  /** Only a vulnerable record and the record right after it can share an id. */
  ghost predicate IdsLinkNeighbours(rs: seq<Record>) {
    forall i, j :: 0 <= i < j < |rs| && rs[i].seedId == rs[j].seedId ==>
      j == i + 1 && rs[i].isVulnerable && !rs[j].isVulnerable
  }

  ghost predicate Issued(b: Book, id: SeedId) {
    id.prefix in b.counter && id.number <= b.counter[id.prefix]
  }

  ghost predicate Inv(b: Book) {
    && b.seen == Normals(b.records) && Distinct(b.records) && IdsLinkNeighbours(b.records)
    && forall r :: r in b.records ==> Issued(b, r.seedId)
  }

  ghost predicate NewId(rs: seq<Record>, r: Record) {
    forall i :: 0 <= i < |rs| && rs[i].seedId == r.seedId ==>
      i == |rs| - 1 && rs[i].isVulnerable && !r.isVulnerable
  }

  lemma NormalsSnoc(rs: seq<Record>, r: Record)
    ensures Normals(rs + [r]) == Normals(rs) + {Normal(r.sql)}
  {
    forall k ensures k in Normals(rs + [r]) <==> k in Normals(rs) + {Normal(r.sql)} {
      if k in Normals(rs) {
        var x :| x in rs && Normal(x.sql) == k;
        assert x in rs + [r];
      }
      assert r in rs + [r];
    }
  }

  lemma AddedInv(b: Book, r: Record)
    requires Inv(b) && Issued(b, r.seedId) && NewId(b.records, r)
    ensures Inv(Added(b, r))
    ensures Normal(r.sql) in Added(b, r).seen && b.seen <= Added(b, r).seen
  {
    if Normal(r.sql) !in b.seen {
      NormalsSnoc(b.records, r);
      var rs := b.records + [r];
      forall i, j | 0 <= i < j < |rs| ensures Normal(rs[i].sql) != Normal(rs[j].sql) {
        if j == |b.records| { assert rs[i] in b.records; }
      }
      forall i, j | 0 <= i < j < |rs| && rs[i].seedId == rs[j].seedId
        ensures j == i + 1 && rs[i].isVulnerable && !rs[j].isVulnerable
      {
        if j == |b.records| { assert rs[i] == b.records[i]; }
      }
    }
  }

  lemma NumberedInv(b: Book, prefix: string)
    requires Inv(b)
    ensures Inv(Numbered(b, prefix)) && Issued(Numbered(b, prefix), SeedId(prefix, Number(b, prefix)))
    ensures forall r :: r in b.records ==> r.seedId != SeedId(prefix, Number(b, prefix))
  {
    forall r | r in b.records
      ensures r.seedId != SeedId(prefix, Number(b, prefix)) && Issued(Numbered(b, prefix), r.seedId)
    {
      assert Issued(b, r.seedId);
    }
  }

  /** The records a pair adds when neither of its statements is there yet: both, or only the
      vulnerable one if the two are the same up to white space. */
  function Block(id: SeedId, vulnClass: string, p: Pair): seq<Record> {
    [BadRecord(id, vulnClass, p)] + if Normal(p.bad) == Normal(p.good) then [] else [GoodRecord(id, p)]
  }

  lemma PairAddedIs(b: Book, vulnClass: string, p: Pair)
    requires !Blocked(b, p)
    ensures var prefix := Slug(vulnClass);
            PairAdded(b, vulnClass, p).records
              == b.records + Block(SeedId(prefix, Number(b, prefix)), vulnClass, p)
  {}

  lemma PairAddedInv(b: Book, vulnClass: string, p: Pair)
    requires Inv(b)
    ensures Inv(PairAdded(b, vulnClass, p))
    ensures b.seen <= PairAdded(b, vulnClass, p).seen && Blocked(PairAdded(b, vulnClass, p), p)
    ensures var prefix := Slug(vulnClass);
            forall r :: r in b.records ==> r.seedId != SeedId(prefix, Number(b, prefix))
  {
    var prefix := Slug(vulnClass);
    var id := SeedId(prefix, Number(b, prefix));
    NumberedInv(b, prefix);
    var c := Numbered(b, prefix);
    AddedInv(c, BadRecord(id, vulnClass, p));
    var d := Added(c, BadRecord(id, vulnClass, p));
    forall i | 0 <= i < |b.records| ensures d.records[i].seedId != id { assert d.records[i] in b.records; }
    AddedInv(d, GoodRecord(id, p));
  }

  lemma PlainAddedInv(b: Book, p: Plain)
    requires Inv(b)
    ensures Inv(PlainAdded(b, p))
    ensures b.seen <= PlainAdded(b, p).seen && Normal(p.sql) in PlainAdded(b, p).seen
    ensures forall r :: r in b.records ==> r.seedId != SeedId("safe", Number(b, "safe"))
  {
    NumberedInv(b, "safe");
    AddedInv(Numbered(b, "safe"), PlainRecord(SeedId("safe", Number(b, "safe")), p));
  }

  // ------------------------------------------------------------------ the vulnerable part

  function Count(rs: seq<Record>, c: string): nat {
    if rs == [] then 0 else Count(rs[..|rs| - 1], c) + if rs[|rs| - 1].vulnClass == c then 1 else 0
  }

  lemma {:induction false} CountAppend(rs: seq<Record>, more: seq<Record>, c: string)
    ensures Count(rs + more, c) == Count(rs, c) + Count(more, c)
  {
    if more == [] {
      assert rs + more == rs;
    } else {
      var n := |more| - 1;
      CountAppend(rs, more[..n], c);
      assert (rs + more)[..|rs + more| - 1] == rs + more[..n];
    }
  }

  lemma CountBlock(id: SeedId, vulnClass: string, p: Pair, c: string)
    requires c != "safe"
    ensures Count(Block(id, vulnClass, p), c) == if c == vulnClass then 1 else 0
    ensures 1 <= |Block(id, vulnClass, p)| <= 2
  {
    var bad := [BadRecord(id, vulnClass, p)];
    CountAppend(bad, Block(id, vulnClass, p)[1..], c);
    assert Block(id, vulnClass, p) == bad + Block(id, vulnClass, p)[1..];
    assert bad[..0] == [];
  }

  ghost predicate HasTwin(rs: seq<Record>, i: nat) {
    i + 1 < |rs| && rs[i + 1].seedId == rs[i].seedId
  }

  /** Record i is the vulnerable version of p; its twin, if it has one, is p's safe version. */
  ghost predicate From(vulnClass: string, p: Pair, rs: seq<Record>, i: nat)
    requires i < |rs|
  {
    && rs[i] == BadRecord(rs[i].seedId, vulnClass, p)
    && (HasTwin(rs, i) <==> Normal(p.bad) != Normal(p.good))
    && (HasTwin(rs, i) ==> rs[i + 1] == GoodRecord(rs[i].seedId, p))
  }

  ghost predicate Origin(quotas: seq<Quota>, rs: seq<Record>, i: nat)
    requires i < |rs|
  {
    exists q, p :: q in quotas && p in q.pool && From(q.vulnClass, p, rs, i)
  }

  ghost predicate Origins(quotas: seq<Quota>, rs: seq<Record>) {
    forall i :: 0 <= i < |rs| && rs[i].isVulnerable ==> Origin(quotas, rs, i)
  }

  /** Records with other ids do not touch what came before. */
  lemma OriginsExtend(quotas: seq<Quota>, rs: seq<Record>, more: seq<Record>)
    requires Origins(quotas, rs)
    requires forall r, m :: r in rs && m in more ==> r.seedId != m.seedId
    ensures forall i :: 0 <= i < |rs| && rs[i].isVulnerable ==> Origin(quotas, rs + more, i)
  {
    var all := rs + more;
    forall i | 0 <= i < |rs| && rs[i].isVulnerable ensures Origin(quotas, all, i) {
      var q, p :| q in quotas && p in q.pool && From(q.vulnClass, p, rs, i);
      if i + 1 == |rs| && more != [] { assert rs[i] in rs && more[0] in more && all[i + 1] == more[0]; }
      assert all[i] == rs[i] && (i + 1 < |rs| ==> all[i + 1] == rs[i + 1]);
      assert From(q.vulnClass, p, all, i);
    }
  }

  lemma PairOrigins(quotas: seq<Quota>, b: Book, q: Quota, p: Pair)
    requires Inv(b) && Origins(quotas, b.records) && q in quotas && p in q.pool && !Blocked(b, p)
    ensures Origins(quotas, PairAdded(b, q.vulnClass, p).records)
  {
    var id := SeedId(Slug(q.vulnClass), Number(b, Slug(q.vulnClass)));
    var block := Block(id, q.vulnClass, p);
    PairAddedIs(b, q.vulnClass, p);
    PairAddedInv(b, q.vulnClass, p);
    OriginsExtend(quotas, b.records, block);
    var all := b.records + block;
    assert From(q.vulnClass, p, all, |b.records|);
  }

  lemma PlainOrigins(quotas: seq<Quota>, b: Book, p: Plain)
    requires Inv(b) && Origins(quotas, b.records)
    ensures Origins(quotas, PlainAdded(b, p).records)
  {
    PlainAddedInv(b, p);
    OriginsExtend(quotas, b.records, [PlainRecord(SeedId("safe", Number(b, "safe")), p)]);
  }

  lemma {:induction false} DrawnKeeps(quotas: seq<Quota>, b: Book, q: Quota, n: nat)
    requires Inv(b) && Origins(quotas, b.records) && q in quotas && n <= |q.pool|
    ensures var (c, added) := Drawn(b, q, n);
            && Inv(c) && Origins(quotas, c.records) && b.seen <= c.seen
            && added <= q.target && |c.records| <= |b.records| + 2 * added
            && (added < q.target ==> forall p :: p in q.pool[..n] ==> Blocked(c, p))
  {
    hide PairAdded;
    if n > 0 {
      DrawnKeeps(quotas, b, q, n - 1);
      var (c, added) := Drawn(b, q, n - 1);
      var p := q.pool[n - 1];
      assert q.pool[..n] == q.pool[..n - 1] + [p];
      if added < q.target && !Blocked(c, p) {
        PairKeeps(quotas, c, q, p);
      }
    }
  }

  lemma PairKeeps(quotas: seq<Quota>, b: Book, q: Quota, p: Pair)
    requires Inv(b) && Origins(quotas, b.records) && q in quotas && p in q.pool && !Blocked(b, p)
    ensures var c := PairAdded(b, q.vulnClass, p);
            && Inv(c) && Origins(quotas, c.records) && b.seen <= c.seen && Blocked(c, p)
            && |c.records| <= |b.records| + 2
  {
    PairAddedInv(b, q.vulnClass, p);
    PairOrigins(quotas, b, q, p);
    PairAddedIs(b, q.vulnClass, p);
  }

  lemma CountPair(b: Book, q: Quota, p: Pair, c: string)
    requires !Blocked(b, p) && c != "safe"
    ensures Count(PairAdded(b, q.vulnClass, p).records, c)
         == Count(b.records, c) + if c == q.vulnClass then 1 else 0
  {
    var id := SeedId(Slug(q.vulnClass), Number(b, Slug(q.vulnClass)));
    PairAddedIs(b, q.vulnClass, p);
    CountAppend(b.records, Block(id, q.vulnClass, p), c);
    CountBlock(id, q.vulnClass, p, c);
  }

  lemma {:induction false} DrawnCounts(b: Book, q: Quota, n: nat, c: string)
    requires n <= |q.pool| && c != "safe"
    ensures Count(Drawn(b, q, n).0.records, c)
         == Count(b.records, c) + if c == q.vulnClass then Drawn(b, q, n).1 else 0
  {
    hide PairAdded;
    if n > 0 {
      DrawnCounts(b, q, n - 1, c);
      var (d, added) := Drawn(b, q, n - 1);
      var p := q.pool[n - 1];
      if added < q.target && !Blocked(d, p) {
        CountPair(d, q, p, c);
      }
    }
  }

  function TargetSum(quotas: seq<Quota>): nat {
    if quotas == [] then 0 else TargetSum(quotas[..|quotas| - 1]) + quotas[|quotas| - 1].target
  }

  lemma {:induction false} AllDrawnKeeps(all: seq<Quota>, quotas: seq<Quota>)
    requires forall q :: q in quotas ==> q in all
    ensures var c := AllDrawn(EMPTY, quotas);
            && Inv(c) && Origins(all, c.records) && |c.records| <= 2 * TargetSum(quotas)
  {
    if quotas != [] {
      var n := |quotas| - 1;
      AllDrawnKeeps(all, quotas[..n]);
      DrawnKeeps(all, AllDrawn(EMPTY, quotas[..n]), quotas[n], |quotas[n].pool|);
    }
  }

  /** Classes are the keys of a dictionary, and "safe" is not one of them. */
  ghost predicate Classes(quotas: seq<Quota>) {
    && (forall i, j :: 0 <= i < j < |quotas| ==> quotas[i].vulnClass != quotas[j].vulnClass)
    && (forall q :: q in quotas ==> q.vulnClass != "safe")
  }

  /** The class is filled to its target, or every candidate has a statement already present. */
  ghost predicate Exhausted(b: Book, q: Quota) {
    forall p :: p in q.pool ==> Blocked(b, p)
  }

  lemma AllDrawnIs(quotas: seq<Quota>)
    ensures AllDrawn(EMPTY, quotas) == if quotas == [] then EMPTY
      else Drawn(AllDrawn(EMPTY, quotas[..|quotas| - 1]), quotas[|quotas| - 1], |quotas[|quotas| - 1].pool|).0
  {}

  lemma {:induction false} ClassCounts(quotas: seq<Quota>, c: string)
    requires Classes(quotas) && c != "safe"
    ensures var b := AllDrawn(EMPTY, quotas);
            && ((forall q :: q in quotas ==> q.vulnClass != c) ==> Count(b.records, c) == 0)
            && (forall q :: q in quotas && q.vulnClass == c ==>
                  Count(b.records, c) <= q.target && (Count(b.records, c) < q.target ==> Exhausted(b, q)))
  {
    hide Drawn, Inv, Origins, AllDrawn;
    AllDrawnIs(quotas);
    if quotas != [] {
      var n := |quotas| - 1;
      var q, b := quotas[n], AllDrawn(EMPTY, quotas[..n]);
      ClassCounts(quotas[..n], c);
      AllDrawnKeeps(quotas, quotas[..n]);
      DrawnKeeps(quotas, b, q, |q.pool|);
      DrawnCounts(b, q, |q.pool|, c);
      assert q.pool[..|q.pool|] == q.pool;
      assert quotas == quotas[..n] + [q];
    }
  }

  // ------------------------------------------------------------------ the safe part

  lemma {:induction false} FilledKeeps(quotas: seq<Quota>, b: Book, plains: seq<Plain>, total: int)
    requires Inv(b) && Origins(quotas, b.records)
    ensures var c := Filled(b, plains, total);
            && Inv(c) && Origins(quotas, c.records) && b.seen <= c.seen
            && b.records <= c.records && |c.records| <= Max(|b.records|, total)
            && (|c.records| < total ==> forall p :: p in plains ==> Normal(p.sql) in c.seen)
            && (forall v :: v != "safe" ==> Count(c.records, v) == Count(b.records, v))
  {
    hide PlainAdded;
    if plains != [] {
      var n := |plains| - 1;
      FilledKeeps(quotas, b, plains[..n], total);
      var c := Filled(b, plains[..n], total);
      if |c.records| < total {
        PlainKeeps(quotas, c, plains[n]);
        assert plains == plains[..n] + [plains[n]];
      }
    }
  }

  function Max(a: int, b: int): int { if a < b then b else a }

  lemma PlainKeeps(quotas: seq<Quota>, b: Book, p: Plain)
    requires Inv(b) && Origins(quotas, b.records)
    ensures var c := PlainAdded(b, p);
            && Inv(c) && Origins(quotas, c.records) && b.seen <= c.seen && Normal(p.sql) in c.seen
            && b.records <= c.records && |c.records| <= |b.records| + 1
            && (forall v :: v != "safe" ==> Count(c.records, v) == Count(b.records, v))
  {
    PlainAddedInv(b, p);
    PlainOrigins(quotas, b, p);
    forall v | v != "safe" ensures Count(PlainAdded(b, p).records, v) == Count(b.records, v) {
      var rs := PlainAdded(b, p).records;
      if rs != b.records { assert rs[..|rs| - 1] == b.records; }
    }
  }

  // ------------------------------------------------------------------ the result

  function Assembled(quotas: seq<Quota>, seedSafe: seq<Plain>, safePool: seq<Plain>, total: int): seq<Record> {
    Front(Built(quotas, seedSafe, safePool, total).records, total)
  }

  lemma BuiltKeeps(quotas: seq<Quota>, seedSafe: seq<Plain>, safePool: seq<Plain>, total: int)
    ensures var b := Built(quotas, seedSafe, safePool, total);
            && Inv(b) && Origins(quotas, b.records)
            && AllDrawn(EMPTY, quotas).records <= b.records && AllDrawn(EMPTY, quotas).seen <= b.seen
            && |b.records| <= Max(2 * TargetSum(quotas), total)
            && (|b.records| < total ==> forall p :: p in seedSafe + safePool ==> Normal(p.sql) in b.seen)
            && (forall v :: v != "safe" ==> Count(b.records, v) == Count(AllDrawn(EMPTY, quotas).records, v))
  {
    hide Filled, AllDrawn;
    AllDrawnKeeps(quotas, quotas);
    var a := AllDrawn(EMPTY, quotas);
    FilledKeeps(quotas, a, seedSafe, total);
    FilledKeeps(quotas, Filled(a, seedSafe, total), safePool, total);
  }

  /** No statement twice, whatever its white space; an id shared by two records ties a
      vulnerable record to the safe one right after it. */
  lemma RecordsAreDistinct(quotas: seq<Quota>, seedSafe: seq<Plain>, safePool: seq<Plain>, total: int)
    ensures var rs := Assembled(quotas, seedSafe, safePool, total);
            Distinct(rs) && IdsLinkNeighbours(rs)
  {
    hide Built;
    BuiltKeeps(quotas, seedSafe, safePool, total);
  }

  /** With room for all pairs, a vulnerable record comes from a candidate of its class and is
      followed by that candidate's corrected version under the same id, exactly if the two
      versions differ in more than white space. */
  lemma TwinsFollow(quotas: seq<Quota>, seedSafe: seq<Plain>, safePool: seq<Plain>, total: int)
    requires total >= 2 * TargetSum(quotas)
    ensures Origins(quotas, Assembled(quotas, seedSafe, safePool, total))
  {
    hide Built;
    BuiltKeeps(quotas, seedSafe, safePool, total);
  }

  /** A total too small cuts a pair at most at the very end. */
  lemma CutAtMostOnePair(quotas: seq<Quota>, seedSafe: seq<Plain>, safePool: seq<Plain>, total: int, i: nat)
    requires i < |Assembled(quotas, seedSafe, safePool, total)| - 1
    requires Assembled(quotas, seedSafe, safePool, total)[i].isVulnerable
    ensures Origin(quotas, Assembled(quotas, seedSafe, safePool, total), i)
  {
    hide Built;
    BuiltKeeps(quotas, seedSafe, safePool, total);
    var b, rs := Built(quotas, seedSafe, safePool, total).records, Assembled(quotas, seedSafe, safePool, total);
    assert b[i] == rs[i] && b[i + 1] == rs[i + 1];
    var q, p :| q in quotas && p in q.pool && From(q.vulnClass, p, b, i);
    assert From(q.vulnClass, p, rs, i);
  }

  /** The promise about pairs fails for a candidate whose versions differ in white space only:
      it is taken all the same, and its vulnerable record stands alone. */
  lemma LonelyRecord(total: int)
    requires total >= 2
    ensures var p := Pair("", ";", "; ", [], "easy");
            var rs := Assembled([Quota("NO_PAGINATION", 1, [p])], [], [], total);
            |rs| == 1 && rs[0].isVulnerable && rs[0].sql == p.bad
  {
    var p := Pair("", ";", "; ", [], "easy");
    var q := Quota("NO_PAGINATION", 1, [p]);
    SameButSpace();
    PairAddedIs(EMPTY, q.vulnClass, p);
    assert Drawn(EMPTY, q, 0) == (EMPTY, 0);
    assert Drawn(EMPTY, q, 1).0 == PairAdded(EMPTY, q.vulnClass, p);
    assert [q][..0] == [];
    assert AllDrawn(EMPTY, [q]) == Drawn(EMPTY, q, 1).0;
  }

  lemma SameButSpace()
    ensures Normal(";") == Normal("; ") == ";"
  {
    var a, b := ";", "; ";
    assert a[1..] == "" && b[1..] == " " && WordEnd(" ") == 0;
    assert WordEnd(a) == 1 && WordEnd(b) == 1;
    assert " "[1..] == "";
    assert Normal(" ") == Normal("");
    assert a[..1] == ";" && b[..1] == ";";
  }

  lemma {:induction false} CountFront(rs: seq<Record>, n: nat, c: string)
    requires n <= |rs|
    ensures Count(rs[..n], c) <= Count(rs, c)
  {
    CountAppend(rs[..n], rs[n..], c);
    assert rs == rs[..n] + rs[n..];
  }

  /** A class never gets more than its target, and less only when its candidates run out (or
      the total cuts the list). */
  lemma ClassesMeetTargets(quotas: seq<Quota>, seedSafe: seq<Plain>, safePool: seq<Plain>, total: int, q: Quota)
    requires Classes(quotas) && q in quotas
    ensures var rs := Assembled(quotas, seedSafe, safePool, total);
            && Count(rs, q.vulnClass) <= q.target
            && (Count(rs, q.vulnClass) < q.target && total >= 2 * TargetSum(quotas) ==>
                  forall p :: p in q.pool ==> Normal(p.bad) in Normals(rs) || Normal(p.good) in Normals(rs))
  {
    hide Built, AllDrawn;
    var b, rs := Built(quotas, seedSafe, safePool, total), Assembled(quotas, seedSafe, safePool, total);
    BuiltKeeps(quotas, seedSafe, safePool, total);
    ClassCounts(quotas, q.vulnClass);
    assert rs == b.records[..|rs|];
    CountFront(b.records, |rs|, q.vulnClass);
    if total >= 2 * TargetSum(quotas) { assert rs == b.records; }
  }

  /** The list has the length asked for, unless every safe candidate is in it already. */
  lemma TotalIsReached(quotas: seq<Quota>, seedSafe: seq<Plain>, safePool: seq<Plain>, total: nat)
    ensures var rs := Assembled(quotas, seedSafe, safePool, total);
            && |rs| <= total
            && (|rs| < total ==> forall p :: p in seedSafe + safePool ==> Normal(p.sql) in Normals(rs))
  {
    hide Built;
    BuiltKeeps(quotas, seedSafe, safePool, total);
  }
}
