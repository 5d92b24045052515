/** The example store (`FewShotStore`): safe examples for the generator, vulnerable ones for
    the judge, ranked by token overlap with a cache of token sets. */
module FewShot {
  import opened Ranking
  import opened Text

  /** A line of the data file; its class and split may be missing. */
  datatype Row = Row(nl: string, sql: string, vulnClass: string, isVulnerable: bool, split: string,
                     tables: seq<string>)

  class Example {
    const row: Row

    constructor (row: Row)
      ensures this.row == row
    {
      this.row := row;
    }
  }

  type Tokens = set<string>

  // ------------------------------------------------------------------ tokens

  predicate IsCyrillic(c: char) {
    'А' <= c <= 'я'
  }

  predicate IsTokenChar(c: char) {
    'a' <= c <= 'z' || 'A' <= c <= 'Z' || IsCyrillic(c) || '0' <= c <= '9' || c == '_'
  }

  function Lower(c: char): char {
    if 'А' <= c <= 'Я' then (c as int + 32) as char else LowerChar(c)
  }

  function TokenEnd(s: string): (n: nat)
    ensures n <= |s|
    ensures s != "" && IsTokenChar(s[0]) ==> n > 0
  {
    if s == "" || !IsTokenChar(s[0]) then 0 else 1 + TokenEnd(s[1..])
  }

  function LowerAll(s: string): string {
    seq(|s|, i requires 0 <= i < |s| => Lower(s[i]))
  }

  function TokensOf(s: string): Tokens
    decreases |s|
  {
    if s == "" then {}
    else if !IsTokenChar(s[0]) then TokensOf(s[1..])
    else
      var n := TokenEnd(s);
      {LowerAll(s[..n])} + TokensOf(s[n..])
  }

  /** Tokens are the lower-cased runs of token characters between the others. */
  lemma {:induction false} TokensSplit(a: string, sep: char, b: string)
    requires !IsTokenChar(sep)
    ensures TokensOf(a + [sep] + b) == TokensOf(a) + TokensOf(b)
    decreases |a|
  {
    var s := a + [sep] + b;
    if a == "" {
      assert s[1..] == b;
    } else if !IsTokenChar(a[0]) {
      assert s[1..] == a[1..] + [sep] + b;
      TokensSplit(a[1..], sep, b);
    } else {
      EndBefore(a, sep, b);
      var n := TokenEnd(a);
      assert s[..n] == a[..n] && s[n..] == a[n..] + [sep] + b;
      TokensSplit(a[n..], sep, b);
    }
  }

  lemma {:induction false} EndBefore(a: string, sep: char, b: string)
    requires !IsTokenChar(sep)
    ensures TokenEnd(a + [sep] + b) == TokenEnd(a)
  {
    if a != "" && IsTokenChar(a[0]) {
      assert (a + [sep] + b)[1..] == a[1..] + [sep] + b;
      EndBefore(a[1..], sep, b);
    }
  }

  lemma {:induction false} WholeWord(w: string)
    requires forall k :: 0 <= k < |w| ==> IsTokenChar(w[k])
    ensures TokenEnd(w) == |w|
  {
    if w != "" { WholeWord(w[1..]); }
  }

  /** A word of token characters is one token, lower-cased. */
  lemma WordIsToken(w: string)
    requires w != "" && forall k :: 0 <= k < |w| ==> IsTokenChar(w[k])
    ensures TokensOf(w) == {LowerAll(w)}
  {
    WholeWord(w);
    assert w[..|w|] == w && w[|w|..] == "";
    assert TokensOf("") == {};
  }

  /** The letters of a token are Latin or Cyrillic (but for one of them), digits and underscores. */
  lemma TokenLetters()
    ensures TokensOf("aZ_09" + "АЯая") == {"az_09аяая"}
    ensures TokensOf("aZ_09" + [' '] + "АЯая") == {"az_09", "аяая"}
    ensures forall c :: c in {'ё', 'Ё', ' ', '-', '.', '\n'} ==> !IsTokenChar(c)
  {
    var w, v := "aZ_09", "АЯая";
    assert LowerAll(w) == "az_09" && LowerAll(v) == "аяая" && LowerAll(w + v) == "az_09аяая";
    WordIsToken(w);
    WordIsToken(v);
    WordIsToken(w + v);
    TokensSplit(w, ' ', v);
  }

  function Jaccard(a: Tokens, b: Tokens): real {
    if a == {} || b == {} then 0.0
    else if |a * b| == 0 then 0.0
    else
      Union(a, b);
      |a * b| as real / |a + b| as real
  }

  lemma Union(a: Tokens, b: Tokens)
    ensures |a * b| <= |a| <= |a + b| && |b| <= |a + b|
    ensures |a * b| == |a + b| ==> a == b
  {
    Subset(a * b, a);
    Subset(a, a + b);
    Subset(b, a + b);
  }

  lemma {:induction false} Subset<T>(a: set<T>, b: set<T>)
    requires a <= b
    ensures |a| <= |b|
    ensures |a| == |b| ==> a == b
    decreases |a|
  {
    if a != {} {
      var x :| x in a;
      Subset(a - {x}, b - {x});
      assert a == (a - {x}) + {x} && b == (b - {x}) + {x};
    }
  }

  /** The overlap is a share: in [0, 1], symmetric, positive exactly if a token is shared, and 1
      exactly for equal sets that are not empty. */
  lemma JaccardIs(a: Tokens, b: Tokens)
    ensures 0.0 <= Jaccard(a, b) <= 1.0 && Jaccard(a, b) == Jaccard(b, a)
    ensures Jaccard(a, b) > 0.0 <==> exists t :: t in a && t in b
    ensures Jaccard(a, b) == 1.0 <==> a == b && a != {}
    ensures Jaccard(a, b) * |a + b| as real == |a * b| as real
  {
    JaccardTimesUnion(a, b);
    Union(a, b);
    Overlap(a, b);
    assert a * b == b * a && a + b == b + a;
    if a * b != {} {
      Share(|a * b|, |a + b|);
      if a == b { assert a * b == a && a + b == a; }
    } else if a == b {
      assert a == a * b;
    }
  }

  /** Shared tokens over all tokens. */
  lemma JaccardTimesUnion(a: Tokens, b: Tokens)
    ensures Jaccard(a, b) * |a + b| as real == |a * b| as real
  {
    Union(a, b);
    if a == {} || b == {} { assert a * b == {}; }
  }

  lemma Overlap(a: Tokens, b: Tokens)
    ensures (exists t :: t in a && t in b) <==> a * b != {}
  {
    forall t | t in a && t in b ensures a * b != {} { assert t in a * b; }
    if a * b != {} {
      var t :| t in a * b;
      assert t in a && t in b;
    }
  }

  lemma Share(n: nat, m: nat)
    requires 0 < n <= m
    ensures 0.0 < n as real / m as real <= 1.0
    ensures n as real / m as real == 1.0 <==> n == m
  {
    var q := n as real / m as real;
    Compare(q, m as real, n as real);
  }

  lemma Compare(q: real, y: real, x: real)
    requires y > 0.0 && q == x / y
    ensures x > 0.0 ==> q > 0.0
    ensures x < y ==> q < 1.0
    ensures x == y ==> q == 1.0
  {
    assert q * y == x;
    if q <= 0.0 { assert q * y <= 0.0 * y; }
    if q > 1.0 { assert (q - 1.0) * y > 0.0; }
    if q >= 1.0 { assert (q - 1.0) * y >= 0.0 && q * y == y + (q - 1.0) * y; }
    if q < 1.0 { assert (1.0 - q) * y > 0.0; }
  }

  // ------------------------------------------------------------------ the store

  function TextOf(r: Row): string {
    r.nl + " " + r.sql
  }

  function ScoredPool(pool: seq<Example>, q: Tokens): (s: Scored<Example>)
    ensures |s| == |pool|
  {
    seq(|pool|, i requires 0 <= i < |pool| => (pool[i], Jaccard(q, TokensOf(TextOf(pool[i].row)))))
  }

  function Items<T>(s: Scored<T>): seq<T> {
    seq(|s|, i requires 0 <= i < |s| => s[i].0)
  }

  function Ranked(pool: seq<Example>, q: Tokens, k: int): seq<Example> {
    Items(CutThenFilter(ScoredPool(pool, q), k))
  }

  /** The rows of the split, vulnerable or not; an empty split means all. */
  function Selected(rows: seq<Row>, split: string, vulnerable: bool): seq<Row> {
    if rows == [] then []
    else
      var n := |rows| - 1;
      Selected(rows[..n], split, vulnerable)
        + if (split == "" || rows[n].split == split) && rows[n].isVulnerable == vulnerable then [rows[n]] else []
  }

  function RowsOf(es: seq<Example>): seq<Row> {
    seq(|es|, i requires 0 <= i < |es| => es[i].row)
  }

  function OfClasses(es: seq<Example>, classes: seq<string>): seq<Example> {
    if es == [] then []
    else
      var n := |es| - 1;
      OfClasses(es[..n], classes) + if es[n].row.vulnClass in classes then [es[n]] else []
  }

  /** Without classes, or without a match, all negatives. */
  function NegativePool(negatives: seq<Example>, classes: seq<string>): seq<Example> {
    if classes != [] && OfClasses(negatives, classes) != [] then OfClasses(negatives, classes) else negatives
  }

  class FewShotStore {
    var positives: seq<Example>
    var negatives: seq<Example>
    var tokCache: map<Example, Tokens>

    /** The cache holds what would be computed anew. */
    ghost predicate Valid()
      reads this
    {
      && (forall e :: e in tokCache ==> tokCache[e] == TokensOf(TextOf(e.row)))
      && (forall e :: e in positives ==> !e.row.isVulnerable)
      && (forall e :: e in negatives ==> e.row.isVulnerable)
    }

    constructor (rows: seq<Row>, split: string)
      ensures Valid()
      ensures RowsOf(positives) == Selected(rows, split, false)
      ensures RowsOf(negatives) == Selected(rows, split, true)
    {
      positives, negatives, tokCache := [], [], map[];
      new;
      var i := 0;
      while i < |rows|
        invariant 0 <= i <= |rows| && tokCache == map[]
        invariant RowsOf(positives) == Selected(rows[..i], split, false)
        invariant RowsOf(negatives) == Selected(rows[..i], split, true)
        invariant Valid()
      {
        assert rows[..i + 1][..i] == rows[..i];
        if split == "" || rows[i].split == split {
          var ex := new Example(rows[i]);
          if ex.row.isVulnerable {
            assert RowsOf(negatives + [ex]) == RowsOf(negatives) + [rows[i]];
            negatives := negatives + [ex];
          } else {
            assert RowsOf(positives + [ex]) == RowsOf(positives) + [rows[i]];
            positives := positives + [ex];
          }
        }
        i := i + 1;
      }
      assert rows[..|rows|] == rows;
    }

    /** `_rank`: with the cache the result is what it is without. */
    method Rank(pool: seq<Example>, q: Tokens, k: int) returns (r: seq<Example>)
      requires Valid()
      modifies `tokCache
      ensures Valid()
      ensures r == Ranked(pool, q, k)
      ensures tokCache.Keys == old(tokCache.Keys) + (set e | e in pool)
    {
      hide TokensOf, Jaccard;
      var scored: Scored<Example> := [];
      var i := 0;
      while i < |pool|
        invariant 0 <= i <= |pool| && |scored| == i
        invariant forall j :: 0 <= j < i ==> scored[j] == (pool[j], Jaccard(q, TokensOf(TextOf(pool[j].row))))
        invariant Valid()
        invariant tokCache.Keys == old(tokCache.Keys) + (set e | e in pool[..i])
      {
        var e := pool[i];
        assert pool[..i + 1] == pool[..i] + [e];
        if e !in tokCache {
          tokCache := tokCache[e := TokensOf(TextOf(e.row))];
        }
        scored := scored + [(e, Jaccard(q, tokCache[e]))];
        i := i + 1;
      }
      assert pool[..|pool|] == pool;
      assert scored == ScoredPool(pool, q);
      r := Items(CutThenFilter(scored, k));
    }

    method RetrievePositive(query: string, k: int) returns (r: seq<Example>)
      requires Valid()
      modifies `tokCache
      ensures Valid()
      ensures r == Ranked(positives, TokensOf(query), k)
    {
      r := Rank(positives, TokensOf(query), k);
    }

    method RetrieveNegative(query: string, k: int, classes: seq<string>) returns (r: seq<Example>)
      requires Valid()
      modifies `tokCache
      ensures Valid()
      ensures r == Ranked(NegativePool(negatives, classes), TokensOf(query), k)
    {
      r := Rank(NegativePool(negatives, classes), TokensOf(query), k);
    }
  }

  // ------------------------------------------------------------------ who sees what

  lemma {:induction false} OfClassesAre(es: seq<Example>, classes: seq<string>, i: nat)
    ensures forall e :: e in es && e.row.vulnClass in classes ==> e in OfClasses(es, classes)
    ensures i < |OfClasses(es, classes)| ==>
      OfClasses(es, classes)[i] in es && OfClasses(es, classes)[i].row.vulnClass in classes
  {
    if es != [] {
      OfClassesAre(es[..|es| - 1], classes, i);
      assert es == es[..|es| - 1] + [es[|es| - 1]];
    }
  }

  lemma RankedAreFromPool(pool: seq<Example>, q: Tokens, k: int, i: nat)
    requires i < |Ranked(pool, q, k)|
    ensures Ranked(pool, q, k)[i] in pool
    ensures exists t :: t in q && t in TokensOf(TextOf(Ranked(pool, q, k)[i].row))
  {
    hide CutThenFilter, Jaccard, TokensOf;
    var s := ScoredPool(pool, q);
    KeptAre(s, k, i);
    var x := CutThenFilter(s, k)[i];
    var j :| 0 <= j < |s| && s[j] == x;
    assert pool[j] == x.0;
    JaccardIs(q, TokensOf(TextOf(x.0.row)));
  }

  /** The two roles never see each other's examples, and the judge gets examples of the classes
      found whenever there is one. */
  lemma {:induction false} RolesAreSeparate(positives: seq<Example>, negatives: seq<Example>, query: string, k: int,
                                          classes: seq<string>)
    requires forall e :: e in positives ==> !e.row.isVulnerable
    requires forall e :: e in negatives ==> e.row.isVulnerable
    ensures forall e :: e in Ranked(positives, TokensOf(query), k) ==> e in positives && e !in negatives
    ensures forall e :: e in Ranked(NegativePool(negatives, classes), TokensOf(query), k) ==>
              && e in negatives && e !in positives
              && ((exists n :: n in negatives && n.row.vulnClass in classes) ==> e.row.vulnClass in classes)
  {
    hide Ranked, TokensOf;
    var q, pool := TokensOf(query), NegativePool(negatives, classes);
    var pos, neg := Ranked(positives, q, k), Ranked(pool, q, k);
    forall i | 0 <= i < |pos| ensures pos[i] in positives { RankedAreFromPool(positives, q, k, i); }
    forall i | 0 <= i < |pool|
      ensures pool[i] in negatives
      ensures (exists n :: n in negatives && n.row.vulnClass in classes) ==> pool[i].row.vulnClass in classes
    {
      OfClassesAre(negatives, classes, i);
    }
    forall i | 0 <= i < |neg| ensures neg[i] in pool { RankedAreFromPool(pool, q, k, i); }
  }

  lemma {:induction false} SelectedCount(rows: seq<Row>, split: string, r: Row)
    ensures multiset(Selected(rows, split, false))[r] + multiset(Selected(rows, split, true))[r]
         == if split == "" || r.split == split then multiset(rows)[r] else 0
  {
    if rows != [] {
      var n := |rows| - 1;
      SelectedCount(rows[..n], split, r);
      assert rows == rows[..n] + [rows[n]];
      assert multiset(rows) == multiset(rows[..n]) + multiset{rows[n]};
    }
  }

  /** Every row of the split is indexed exactly as often as it occurs, on the side its mark
      says; rows of other splits are not indexed at all. */
  lemma SplitIsPartitioned(rows: seq<Row>, split: string, r: Row)
    ensures multiset(Selected(rows, split, r.isVulnerable))[r]
         == if split == "" || r.split == split then multiset(rows)[r] else 0
    ensures r !in Selected(rows, split, !r.isVulnerable)
  {
    SelectedCount(rows, split, r);
    SelectedSide(rows, split, !r.isVulnerable);
  }

  lemma {:induction false} SelectedSide(rows: seq<Row>, split: string, vulnerable: bool)
    ensures forall r :: r in Selected(rows, split, vulnerable) ==> r.isVulnerable == vulnerable
  {
    if rows != [] { SelectedSide(rows[..|rows| - 1], split, vulnerable); }
  }

  // ------------------------------------------------------------------ what is retrieved

  /** The words of an example: those of its question and of its statement. */
  function Words(e: Example): Tokens {
    TokensOf(e.row.nl) + TokensOf(e.row.sql)
  }

  lemma WordsAre(e: Example)
    ensures TokensOf(TextOf(e.row)) == Words(e)
  {
    TokensSplit(e.row.nl, ' ', e.row.sql);
  }

  /** What is retrieved: at most k examples of the pool that share a word with the query, the
      larger overlap first; what is left out shares no word, or k are returned and none of them
      overlaps less. */
  lemma RankedIs(pool: seq<Example>, q: Tokens, k: nat)
    ensures var r := Ranked(pool, q, k);
      && |r| <= k
      && (forall i :: 0 <= i < |r| ==> r[i] in pool && Jaccard(q, Words(r[i])) > 0.0)
      && (forall i, j :: 0 <= i < j < |r| ==> Jaccard(q, Words(r[i])) >= Jaccard(q, Words(r[j])))
      && (forall e :: e in pool && e !in r ==>
            Jaccard(q, Words(e)) <= 0.0
            || (|r| == k && forall i :: 0 <= i < |r| ==> Jaccard(q, Words(r[i])) >= Jaccard(q, Words(e))))
  {
    var s, r := ScoredPool(pool, q), Ranked(pool, q, k);
    var kept := CutThenFilter(s, k);
    BestAreKept(s, k);
    hide CutThenFilter, Positive, SortDesc, TokensOf, Jaccard, Level, SameLevels, Words;
    forall i | 0 <= i < |r| ensures r[i] in pool && kept[i] == (r[i], Jaccard(q, Words(r[i]))) {
      assert kept[i] in kept;
      IsScored(pool, q, kept[i]);
    }
    forall e | e in pool && e !in r
      ensures Jaccard(q, Words(e)) <= 0.0
              || (|r| == k && forall i :: 0 <= i < |r| ==> Jaccard(q, Words(r[i])) >= Jaccard(q, Words(e)))
    {
      LeftOut(pool, q, k, e);
      assert forall i :: 0 <= i < |r| ==> kept[i] in kept;
    }
  }

  lemma IsScored(pool: seq<Example>, q: Tokens, x: (Example, real))
    requires x in ScoredPool(pool, q)
    ensures x.0 in pool && x.1 == Jaccard(q, Words(x.0))
  {
    hide Jaccard, Words, TokensOf;
    WordsAre(x.0);
  }

  lemma LeftOut(pool: seq<Example>, q: Tokens, k: nat, e: Example)
    requires e in pool && e !in Ranked(pool, q, k)
    ensures var kept, score := CutThenFilter(ScoredPool(pool, q), k), Jaccard(q, Words(e));
            score <= 0.0 || (|kept| == k && forall y :: y in kept ==> y.1 >= score)
  {
    var s, x := ScoredPool(pool, q), (e, Jaccard(q, Words(e)));
    var kept := CutThenFilter(s, k);
    WordsAre(e);
    hide CutThenFilter, TokensOf, Jaccard, Words, Positive, SortDesc;
    var j :| 0 <= j < |pool| && pool[j] == e;
    assert s[j] == x;
    BestAreKept(s, k);
    PositiveAre(s);
    forall i | 0 <= i < |kept| ensures kept[i] != x {
      assert Ranked(pool, q, k)[i] == kept[i].0;
    }
    if x.1 > 0.0 { assert x in multiset(Positive(s)) && x !in multiset(kept); }
  }

  /** Indexing keeps the order of the rows. */
  lemma {:induction false} SelectedInOrder(rows: seq<Row>, split: string, vulnerable: bool) returns (at: seq<nat>)
    ensures |at| == |Selected(rows, split, vulnerable)|
    ensures forall i :: 0 <= i < |at| ==> at[i] < |rows| && Selected(rows, split, vulnerable)[i] == rows[at[i]]
    ensures forall i, j :: 0 <= i < j < |at| ==> at[i] < at[j]
  {
    at := [];
    if rows != [] {
      var n := |rows| - 1;
      var front, all := Selected(rows[..n], split, vulnerable), Selected(rows, split, vulnerable);
      assert all == front || all == front + [rows[n]];
      hide Selected;
      at := SelectedInOrder(rows[..n], split, vulnerable);
      if |all| > |front| { at := at + [n]; }
    }
  }

  /** The judge's pool: the negatives of the classes, in their order, and all negatives if there
      are none of them or no classes are given. */
  lemma {:induction false} NegativePoolIs(negatives: seq<Example>, classes: seq<string>) returns (at: seq<nat>)
    ensures var pool := NegativePool(negatives, classes);
      if forall e :: e in negatives ==> e.row.vulnClass !in classes then pool == negatives
      else
        && |at| == |pool|
        && (forall i :: 0 <= i < |at| ==>
              at[i] < |negatives| && pool[i] == negatives[at[i]] && pool[i].row.vulnClass in classes)
        && (forall i, j :: 0 <= i < j < |at| ==> at[i] < at[j])
        && (forall e :: e in negatives && e.row.vulnClass in classes ==> e in pool)
  {
    at := OfClassesInOrder(negatives, classes);
    OfClassesAre(negatives, classes, 0);
    if e :| e in negatives && e.row.vulnClass in classes { assert e in OfClasses(negatives, classes); }
  }

  lemma {:induction false} OfClassesInOrder(es: seq<Example>, classes: seq<string>) returns (at: seq<nat>)
    ensures |at| == |OfClasses(es, classes)|
    ensures forall i :: 0 <= i < |at| ==>
      at[i] < |es| && OfClasses(es, classes)[i] == es[at[i]] && es[at[i]].row.vulnClass in classes
    ensures forall i, j :: 0 <= i < j < |at| ==> at[i] < at[j]
  {
    at := [];
    if es != [] {
      var n := |es| - 1;
      var front, all := OfClasses(es[..n], classes), OfClasses(es, classes);
      assert all == front || (all == front + [es[n]] && es[n].row.vulnClass in classes);
      hide OfClasses;
      at := OfClassesInOrder(es[..n], classes);
      if |all| > |front| { at := at + [n]; }
    }
  }

  // ------------------------------------------------------------------ the schema linker

  /** A table's words: those of its name and comment, and all of them with the columns'. */
  datatype Table = Table(name: string, headTok: Tokens, allTok: Tokens, boost: real)

  function LexicalScore(q: Tokens, t: Table): real {
    (|q * t.allTok| + 2 * |q * t.headTok|) as real * t.boost
  }

  function ScoredTables(q: Tokens, tables: seq<Table>): Scored<string> {
    seq(|tables|, i requires 0 <= i < |tables| => (tables[i].name, LexicalScore(q, tables[i])))
  }

  function RankTables(q: Tokens, tables: seq<Table>, k: int): Scored<string> {
    FilterThenCut(ScoredTables(q, tables), k)
  }

  /** The tables linked are the k best that share a word with the task, if boosts are positive:
      no table with a shared word is left out while fewer than k are returned. */
  lemma LinkedTablesShareAWord(q: Tokens, tables: seq<Table>, k: nat)
    requires forall t :: t in tables ==> t.boost > 0.0 && t.headTok <= t.allTok
    ensures forall x :: x in RankTables(q, tables, k) ==>
              exists t :: t in tables && x == (t.name, LexicalScore(q, t)) && q * t.allTok != {}
    ensures |RankTables(q, tables, k)| < k ==>
              forall t :: t in tables && q * t.allTok != {} ==> (t.name, LexicalScore(q, t)) in RankTables(q, tables, k)
  {
    hide FilterThenCut, CutThenFilter, SortDesc, Positive, StableSortOf, LexicalScore;
    var s := ScoredTables(q, tables);
    CutAndFilterCommute(s, k);
    BestAreKept(s, k);
    PositiveAre(s);
    forall t | t in tables ensures LexicalScore(q, t) > 0.0 <==> q * t.allTok != {} { ScoreIsShared(q, t); }
    var kept := RankTables(q, tables, k);
    forall x | x in kept ensures exists t :: t in tables && x == (t.name, LexicalScore(q, t)) && q * t.allTok != {} {
      var i :| 0 <= i < |s| && s[i] == x;
      assert tables[i] in tables;
    }
    if |kept| < k {
      forall t | t in tables && q * t.allTok != {} ensures (t.name, LexicalScore(q, t)) in kept {
        var i :| 0 <= i < |tables| && tables[i] == t;
        assert s[i] in Positive(s);
        assert s[i] !in multiset(Positive(s)) - multiset(kept);
        assert s[i] in multiset(Positive(s));
      }
    }
  }

  /** A word more in the task adds the table's boost if it is one of the table's words, and twice
      that besides if it is in its name or comment; no word, no score. */
  lemma ScoreByWord(q: Tokens, w: string, t: Table)
    requires w !in q
    ensures LexicalScore({}, t) == 0.0
    ensures LexicalScore(q + {w}, t)
         == LexicalScore(q, t) + (if w in t.allTok then t.boost else 0.0) + (if w in t.headTok then 2.0 * t.boost else 0.0)
  {
    SharedWithOneMore(q, w, t.allTok);
    SharedWithOneMore(q, w, t.headTok);
    assert {} * t.allTok == {} && {} * t.headTok == {};
    Thrice(|q * t.allTok| + 2 * |q * t.headTok|, if w in t.allTok then 1 else 0, if w in t.headTok then 2 else 0, t.boost);
  }

  lemma SharedWithOneMore(q: Tokens, w: string, s: Tokens)
    requires w !in q
    ensures |(q + {w}) * s| == |q * s| + if w in s then 1 else 0
  {
    assert (q + {w}) * s == q * s + if w in s then {w} else {};
  }

  lemma Thrice(n: nat, a: nat, h: nat, boost: real)
    ensures (n + a + h) as real * boost == n as real * boost + a as real * boost + h as real * boost
  {
    assert (n + a + h) as real == n as real + a as real + h as real;
  }

  lemma ScoreIsShared(q: Tokens, t: Table)
    requires t.boost > 0.0 && t.headTok <= t.allTok
    ensures LexicalScore(q, t) > 0.0 <==> q * t.allTok != {}
  {
    assert q * t.headTok <= q * t.allTok;
    Boosted(|q * t.allTok| + 2 * |q * t.headTok|, t.boost);
  }

  lemma Boosted(n: nat, boost: real)
    requires boost > 0.0
    ensures n as real * boost > 0.0 <==> n > 0
  {
    if n > 0 { assert n as real >= 1.0; }
  }
}
