/** The round-robin end of `gen_safe`: the first template of every table, then the second of
    every table that has one, and so on. */
module RoundRobin {

  function Longest<T>(lists: seq<seq<T>>): (n: nat)
    ensures forall l :: l in lists ==> |l| <= n
  {
    if lists == [] then 0
    else
      var n, last := Longest(lists[..|lists| - 1]), lists[|lists| - 1];
      assert forall l :: l in lists ==> l in lists[..|lists| - 1] || l == last;
      if |last| > n then |last| else n
  }

  /** Row k of `zip_longest`, without the fill values. */
  function RowOf<T>(lists: seq<seq<T>>, k: nat): seq<T> {
    if lists == [] then []
    else
      var last := lists[|lists| - 1];
      RowOf(lists[..|lists| - 1], k) + if k < |last| then [last[k]] else []
  }

  function Rows<T>(lists: seq<seq<T>>, n: nat): seq<T> {
    if n == 0 then [] else Rows(lists, n - 1) + RowOf(lists, n - 1)
  }

  function Interleaved<T>(lists: seq<seq<T>>): seq<T> {
    Rows(lists, Longest(lists))
  }

  method Interleave<T>(perTable: seq<seq<T>>) returns (interleaved: seq<T>)
    ensures interleaved == Interleaved(perTable)
  {
    hide RowOf, Longest;
    interleaved := [];
    var k, n := 0, Longest(perTable);
    while k < n
      invariant 0 <= k <= n && interleaved == Rows(perTable, k)
    {
      interleaved := AddRow(interleaved, perTable, k);
      k := k + 1;
    }
  }

  /** The inner loop over one row. */
  method AddRow<T>(before: seq<T>, perTable: seq<seq<T>>, k: nat) returns (r: seq<T>)
    ensures r == before + RowOf(perTable, k)
  {
    hide RowOf;
    r := before;
    var i := 0;
    EmptyRow(perTable, k);
    while i < |perTable|
      invariant 0 <= i <= |perTable| && r == before + RowOf(perTable[..i], k)
    {
      NextInRow(perTable, i, k, before);
      if k < |perTable[i]| { r := r + [perTable[i][k]]; }
      i := i + 1;
    }
    assert perTable[..|perTable|] == perTable;
  }

  lemma EmptyRow<T>(lists: seq<seq<T>>, k: nat)
    ensures RowOf(lists[..0], k) == []
  {}

  lemma NextInRow<T>(lists: seq<seq<T>>, i: nat, k: nat, before: seq<T>)
    requires i < |lists|
    ensures before + RowOf(lists[..i + 1], k)
         == if k < |lists[i]| then before + RowOf(lists[..i], k) + [lists[i][k]] else before + RowOf(lists[..i], k)
  {
    assert lists[..i + 1][..i] == lists[..i];
    assert RowOf(lists[..i + 1], k) == RowOf(lists[..i], k) + if k < |lists[i]| then [lists[i][k]] else [];
  }

  // ------------------------------------------------------------------ nothing lost

  /** All candidates, table by table, each table cut after n templates. */
  function Heads<T>(lists: seq<seq<T>>, n: nat): seq<T> {
    if lists == [] then []
    else
      var last := lists[|lists| - 1];
      Heads(lists[..|lists| - 1], n) + last[..if n < |last| then n else |last|]
  }

  lemma {:induction false} NextRow<T>(lists: seq<seq<T>>, n: nat)
    ensures multiset(Heads(lists, n + 1)) == multiset(Heads(lists, n)) + multiset(RowOf(lists, n))
  {
    if lists != [] {
      var front, last := lists[..|lists| - 1], lists[|lists| - 1];
      NextRow(front, n);
      LastTable(lists, n);
      LastTable(lists, n + 1);
      var a, x := last[..if n < |last| then n else |last|], if n < |last| then [last[n]] else [];
      assert last[..if n + 1 < |last| then n + 1 else |last|] == a + x;
      MoreOfBoth(Heads(front, n + 1), Heads(front, n), RowOf(front, n), a, x);
    }
  }

  lemma MoreOfBoth<T>(h: seq<T>, g: seq<T>, r: seq<T>, a: seq<T>, x: seq<T>)
    requires multiset(h) == multiset(g) + multiset(r)
    ensures multiset(h + (a + x)) == multiset(g + a) + multiset(r + x)
  {}

  lemma LastTable<T>(lists: seq<seq<T>>, n: nat)
    requires lists != []
    ensures var front, last := lists[..|lists| - 1], lists[|lists| - 1];
            && Heads(lists, n) == Heads(front, n) + last[..if n < |last| then n else |last|]
            && RowOf(lists, n) == RowOf(front, n) + if n < |last| then [last[n]] else []
  {}

  lemma {:induction false} NoHeads<T>(lists: seq<seq<T>>)
    ensures Heads(lists, 0) == []
  {
    if lists != [] { NoHeads(lists[..|lists| - 1]); }
  }

  lemma {:induction false} RowsAreHeads<T>(lists: seq<seq<T>>, n: nat)
    ensures multiset(Rows(lists, n)) == multiset(Heads(lists, n))
  {
    hide Heads, RowOf;
    if n == 0 {
      NoHeads(lists);
    } else {
      RowsAreHeads(lists, n - 1);
      NextRow(lists, n - 1);
    }
  }

  function Joined<T>(lists: seq<seq<T>>): seq<T> {
    if lists == [] then [] else Joined(lists[..|lists| - 1]) + lists[|lists| - 1]
  }

  lemma {:induction false} LongHeads<T>(lists: seq<seq<T>>, n: nat)
    requires forall l :: l in lists ==> |l| <= n
    ensures Heads(lists, n) == Joined(lists)
  {
    if lists != [] {
      var last := lists[|lists| - 1];
      LongHeads(lists[..|lists| - 1], n);
      assert last in lists && last[..|last|] == last;
    }
  }

  /** Every candidate comes out exactly as often as the tables hold it. */
  lemma NothingIsLost<T>(lists: seq<seq<T>>)
    ensures multiset(Interleaved(lists)) == multiset(Joined(lists))
  {
    RowsAreHeads(lists, Longest(lists));
    LongHeads(lists, Longest(lists));
  }

  // ------------------------------------------------------------------ the order

  /** Where template k of table i comes out. */
  function Position<T>(lists: seq<seq<T>>, i: nat, k: nat): nat
    requires i <= |lists|
  {
    |Rows(lists, k)| + |RowOf(lists[..i], k)|
  }

  lemma {:induction false} RowAt<T>(lists: seq<seq<T>>, i: nat, k: nat)
    requires i < |lists| && k < |lists[i]|
    ensures |RowOf(lists[..i], k)| < |RowOf(lists, k)| && RowOf(lists, k)[|RowOf(lists[..i], k)|] == lists[i][k]
  {
    var n := |lists| - 1;
    if i < n {
      assert lists[..n][..i] == lists[..i] && lists[..n][i] == lists[i];
      RowAt(lists[..n], i, k);
    }
  }

  lemma {:induction false} RowsGrow<T>(lists: seq<seq<T>>, m: nat, n: nat)
    requires m <= n
    ensures Rows(lists, m) <= Rows(lists, n)
  {
    if m < n { RowsGrow(lists, m, n - 1); }
  }

  /** Template k of table i stands at its position, and positions are ordered by template
      number first and table second: no table gets a second turn before every table that has
      a template left got its first. */
  lemma TurnsAreFair<T>(lists: seq<seq<T>>, i: nat, k: nat, j: nat, l: nat)
    requires i < |lists| && k < |lists[i]| && j < |lists| && l < |lists[j]|
    ensures Position(lists, i, k) < |Interleaved(lists)| && Interleaved(lists)[Position(lists, i, k)] == lists[i][k]
    ensures Position(lists, i, k) < Position(lists, j, l) <==> k < l || (k == l && i < j)
  {
    hide RowOf;
    assert lists[i] in lists && lists[j] in lists;
    RowAt(lists, i, k);
    RowAt(lists, j, l);
    RowsGrow(lists, k + 1, Longest(lists));
    Before(lists, i, k, j, l);
    Before(lists, j, l, i, k);
  }

  lemma Before<T>(lists: seq<seq<T>>, i: nat, k: nat, j: nat, l: nat)
    requires i < |lists| && k < |lists[i]| && j < |lists| && l < |lists[j]|
    ensures k < l || (k == l && i < j) ==> Position(lists, i, k) < Position(lists, j, l)
  {
    hide RowOf;
    RowAt(lists, i, k);
    if k < l {
      RowsGrow(lists, k + 1, l);
    } else if k == l && i < j {
      assert lists[..j][..i] == lists[..i] && lists[..j][i] == lists[i];
      RowAt(lists[..j], i, k);
    }
  }
}
