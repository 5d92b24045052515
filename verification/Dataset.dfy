/** Assembly of the training set (`build_records`): vulnerable statements with their corrected
    twins first, plain safe statements after, every statement once. */
module Dataset {
  import opened Text

  /** `ds-<prefix>-<number>`, the number padded to three digits. */
  datatype SeedId = SeedId(prefix: string, number: nat)

  datatype Record = Record(
    seedId: SeedId, nl: string, sql: string, vulnClass: string, isVulnerable: bool,
    difficulty: string, tables: seq<string>, split: string)

  datatype Pair = Pair(intent: string, bad: string, good: string, tables: seq<string>, difficulty: string)

  datatype Plain = Plain(intent: string, sql: string, tables: seq<string>, difficulty: string)

  /** A class of vulnerabilities, how many records it should get, and its candidates. */
  datatype Quota = Quota(vulnClass: string, target: nat, pool: seq<Pair>)

  // ------------------------------------------------------------------ keys

  function WordEnd(s: string): (n: nat)
    ensures n <= |s|
    ensures s != "" && !IsSpace(s[0]) ==> n > 0
  {
    if s == "" || IsSpace(s[0]) then 0 else 1 + WordEnd(s[1..])
  }

  /** `" ".join(sql.split())` */
  function Normal(s: string): string
    decreases |s|
  {
    if s == "" then ""
    else if IsSpace(s[0]) then Normal(s[1..])
    else
      var n := WordEnd(s);
      var rest := Normal(s[n..]);
      s[..n] + if rest == "" then "" else " " + rest
  }

  /** How much white space stands between two parts of a statement makes no difference. */
  lemma {:induction false} SpaceIsNormalised(a: string, v: string, w: string, b: string)
    requires Blank(v) && Blank(w) && v != "" && w != ""
    ensures Normal(a + v + b) == Normal(a + w + b)
    decreases |a|
  {
    hide WordEnd;
    var s, t := a + v + b, a + w + b;
    if a == "" {
      LeadIsDropped(v, b);
      LeadIsDropped(w, b);
      assert s == v + b && t == w + b;
    } else if IsSpace(a[0]) {
      assert s[1..] == a[1..] + v + b && t[1..] == a[1..] + w + b;
      SpaceIsNormalised(a[1..], v, w, b);
    } else {
      WordEndsBefore(a, v + b);
      WordEndsBefore(a, w + b);
      assert s == a + (v + b) && t == a + (w + b);
      var n := WordEnd(a);
      assert s[..n] == a[..n] == t[..n];
      assert s[n..] == a[n..] + v + b && t[n..] == a[n..] + w + b;
      SpaceIsNormalised(a[n..], v, w, b);
    }
  }

  lemma {:induction false} LeadIsDropped(w: string, b: string)
    requires Blank(w)
    ensures Normal(w + b) == Normal(b)
  {
    if w == "" {
      assert w + b == b;
    } else {
      assert (w + b)[1..] == w[1..] + b;
      LeadIsDropped(w[1..], b);
    }
  }

  lemma {:induction false} WordEndsBefore(a: string, rest: string)
    requires rest != "" && IsSpace(rest[0])
    ensures WordEnd(a + rest) == WordEnd(a)
  {
    if a == "" {
      assert a + rest == rest;
    } else if !IsSpace(a[0]) {
      assert (a + rest)[1..] == a[1..] + rest;
      WordEndsBefore(a[1..], rest);
    }
  }

  /** A statement without white space at its ends and with single blanks inside is kept: two
      such statements have the same key only if they are the same. */
  lemma {:induction false} NormalKeeps(s: string)
    requires Tidy(s)
    ensures Normal(s) == s
    decreases |s|
  {
    if s != "" {
      var n := WordEnd(s);
      WordIsSolid(s);
      if n == |s| {
        assert s[n..] == "" && s[..n] == s;
      } else {
        assert s[n..][0] == ' ' && s[n..][1..] == s[n + 1..];
        assert Tidy(s[n + 1..]) by {
          var r := s[n + 1..];
          assert forall k :: 0 <= k < |r| ==> r[k] == s[n + 1 + k];
          assert forall k :: 0 <= k < |r| && IsSpace(r[k]) ==> IsSpace(s[n + 1 + k]);
        }
        NormalKeeps(s[n + 1..]);
        assert s == s[..n] + (" " + s[n + 1..]);
      }
    }
  }

  predicate Tidy(s: string) {
    forall k :: 0 <= k < |s| && IsSpace(s[k]) ==> s[k] == ' ' && 0 < k < |s| - 1 && !IsSpace(s[k + 1])
  }

  lemma {:induction false} WordIsSolid(s: string)
    ensures forall k :: 0 <= k < WordEnd(s) ==> !IsSpace(s[k])
    ensures WordEnd(s) < |s| ==> IsSpace(s[WordEnd(s)])
  {
    if s != "" && !IsSpace(s[0]) { WordIsSolid(s[1..]); }
  }

  /** `cls.lower().replace("_", "-")` */
  function Slug(s: string): string {
    seq(|s|, i requires 0 <= i < |s| => if s[i] == '_' then '-' else LowerChar(s[i]))
  }

  // ------------------------------------------------------------------ the book of records

  datatype Book = Book(records: seq<Record>, seen: set<string>, counter: map<string, nat>)

  const EMPTY := Book([], {}, map[])

  function Added(b: Book, r: Record): Book {
    if Normal(r.sql) in b.seen then b
    else b.(records := b.records + [r], seen := b.seen + {Normal(r.sql)})
  }

  function Number(b: Book, prefix: string): nat {
    1 + if prefix in b.counter then b.counter[prefix] else 0
  }

  function Numbered(b: Book, prefix: string): Book {
    b.(counter := b.counter[prefix := Number(b, prefix)])
  }

  function BadRecord(id: SeedId, vulnClass: string, p: Pair): Record {
    Record(id, p.intent, p.bad, vulnClass, true, p.difficulty, p.tables, "train")
  }

  function GoodRecord(id: SeedId, p: Pair): Record {
    Record(id, p.intent, p.good, "safe", false, p.difficulty, p.tables, "train")
  }

  function PlainRecord(id: SeedId, p: Plain): Record {
    Record(id, p.intent, p.sql, "safe", false, p.difficulty, p.tables, "train")
  }

  predicate Blocked(b: Book, p: Pair) {
    Normal(p.bad) in b.seen || Normal(p.good) in b.seen
  }

  function PairAdded(b: Book, vulnClass: string, p: Pair): Book {
    var prefix := Slug(vulnClass);
    var id := SeedId(prefix, Number(b, prefix));
    Added(Added(Numbered(b, prefix), BadRecord(id, vulnClass, p)), GoodRecord(id, p))
  }

  /** The book and the number of pairs taken after the first n candidates of a class. */
  function Drawn(b: Book, q: Quota, n: nat): (Book, nat)
    requires n <= |q.pool|
  {
    if n == 0 then (b, 0)
    else
      var (c, added) := Drawn(b, q, n - 1);
      if added >= q.target || Blocked(c, q.pool[n - 1]) then (c, added)
      else (PairAdded(c, q.vulnClass, q.pool[n - 1]), added + 1)
  }

  function AllDrawn(b: Book, quotas: seq<Quota>): Book {
    if quotas == [] then b
    else
      var q := quotas[|quotas| - 1];
      Drawn(AllDrawn(b, quotas[..|quotas| - 1]), q, |q.pool|).0
  }

  function PlainAdded(b: Book, p: Plain): Book {
    Added(Numbered(b, "safe"), PlainRecord(SeedId("safe", Number(b, "safe")), p))
  }

  function Filled(b: Book, plains: seq<Plain>, total: int): Book {
    if plains == [] then b
    else
      var n := |plains| - 1;
      var c := Filled(b, plains[..n], total);
      if |c.records| >= total then c else PlainAdded(c, plains[n])
  }

  function Built(quotas: seq<Quota>, seedSafe: seq<Plain>, safePool: seq<Plain>, total: int): Book {
    Filled(Filled(AllDrawn(EMPTY, quotas), seedSafe, total), safePool, total)
  }

  // ------------------------------------------------------------------ the builder

  class Builder {
    var records: seq<Record>
    var seenSql: set<string>
    var counter: map<string, nat>

    constructor ()
      ensures State() == EMPTY
    {
      records, seenSql, counter := [], {}, map[];
    }

    ghost function State(): Book
      reads this
    {
      Book(records, seenSql, counter)
    }

    method Add(r: Record) returns (added: bool)
      modifies this
      ensures State() == Added(old(State()), r)
      ensures added <==> Normal(r.sql) !in old(seenSql)
    {
      var key := Normal(r.sql);
      if key in seenSql { return false; }
      seenSql := seenSql + {key};
      records := records + [r];
      return true;
    }

    method Sid(prefix: string) returns (id: SeedId)
      modifies this
      ensures id == SeedId(prefix, Number(old(State()), prefix))
      ensures State() == Numbered(old(State()), prefix)
    {
      counter := counter[prefix := 1 + if prefix in counter then counter[prefix] else 0];
      return SeedId(prefix, counter[prefix]);
    }

    method Draw(q: Quota)
      modifies this
      ensures State() == Drawn(old(State()), q, |q.pool|).0
    {
      hide Normal, Slug;
      var added, i := 0, 0;
      while i < |q.pool|
        invariant 0 <= i <= |q.pool|
        invariant (State(), added) == Drawn(old(State()), q, i)
      {
        var p := q.pool[i];
        if added >= q.target {
          TargetReached(old(State()), q, i, |q.pool|);
          break;
        }
        if Normal(p.bad) !in seenSql && Normal(p.good) !in seenSql {
          var s := Sid(Slug(q.vulnClass));
          var _ := Add(BadRecord(s, q.vulnClass, p));
          var _ := Add(GoodRecord(s, p));
          added := added + 1;
        }
        i := i + 1;
      }
    }

    method Fill(plains: seq<Plain>, total: int)
      modifies this
      ensures State() == Filled(old(State()), plains, total)
    {
      hide Normal;
      var i := 0;
      while i < |plains|
        invariant 0 <= i <= |plains|
        invariant State() == Filled(old(State()), plains[..i], total)
      {
        if |records| >= total {
          FullAlready(old(State()), plains, total, i, |plains|);
          assert plains[..|plains|] == plains;
          return;
        }
        assert plains[..i + 1][..i] == plains[..i];
        var s := Sid("safe");
        var _ := Add(PlainRecord(s, plains[i]));
        i := i + 1;
      }
      assert plains[..|plains|] == plains;
    }
  }

  /** Breaking out of the loop is the same as finding the target reached to the end. */
  lemma {:induction false} TargetReached(b: Book, q: Quota, i: nat, n: nat)
    requires i <= n <= |q.pool| && Drawn(b, q, i).1 >= q.target
    ensures Drawn(b, q, n) == Drawn(b, q, i)
  {
    hide PairAdded, Blocked;
    if i < n { TargetReached(b, q, i, n - 1); }
  }

  lemma {:induction false} FullAlready(b: Book, plains: seq<Plain>, total: int, i: nat, n: nat)
    requires i <= n <= |plains| && |Filled(b, plains[..i], total).records| >= total
    ensures Filled(b, plains[..n], total) == Filled(b, plains[..i], total)
  {
    hide PlainAdded;
    if i < n {
      FullAlready(b, plains, total, i, n - 1);
      assert plains[..n][..n - 1] == plains[..n - 1];
    }
  }

  method BuildRecords(quotas: seq<Quota>, seedSafe: seq<Plain>, safePool: seq<Plain>, total: int)
    returns (records: seq<Record>)
    ensures records == Front(Built(quotas, seedSafe, safePool, total).records, total)
  {
    var b := new Builder();
    var i := 0;
    while i < |quotas|
      invariant 0 <= i <= |quotas|
      invariant fresh(b) && b.State() == AllDrawn(EMPTY, quotas[..i])
    {
      assert quotas[..i + 1][..i] == quotas[..i];
      b.Draw(quotas[i]);
      i := i + 1;
    }
    assert quotas[..|quotas|] == quotas;
    b.Fill(seedSafe, total);
    b.Fill(safePool, total);
    records := Front(b.records, total);
  }
}
