/** The split of the training set (`split_records`): by class, shuffled, a share for evaluation. */
module Split {
  import opened Dataset

  type Shuffle = (string, seq<nat>) -> seq<nat>

  /** The positions of the records of one class, in order. */
  function Positions(rs: seq<Record>, c: string): seq<nat> {
    if rs == [] then []
    else
      var n := |rs| - 1;
      Positions(rs[..n], c) + if rs[n].vulnClass == c then [n] else []
  }

  /** `int(x)` */
  function Truncated(x: real): int {
    if x >= 0.0 then x.Floor else -((-x).Floor)
  }

  /** `max(1, int(n * eval_ratio))`, in exact arithmetic. */
  function EvalSize(n: nat, ratio: real): (k: nat)
    ensures k >= 1
  {
    var share := Truncated(n as real * ratio);
    if share > 1 then share else 1
  }

  /** The share of the default ratio is a fifth, rounded down. */
  lemma DefaultShare(n: nat)
    ensures EvalSize(n, 0.2) == if n / 5 > 1 then n / 5 else 1
  {
    var q, r := n / 5, n % 5;
    assert n as real * 0.2 == q as real + r as real * 0.2;
    assert 0.0 <= r as real * 0.2 < 1.0;
  }

  function ForEval(items: seq<nat>, ratio: real): seq<nat> {
    if EvalSize(|items|, ratio) <= |items| then items[..EvalSize(|items|, ratio)] else items
  }

  ghost predicate Shuffles(shuffle: Shuffle) {
    forall c: string, s: seq<nat> :: multiset(shuffle(c, s)) == multiset(s)
  }

  /** The record as the split leaves it. */
  function Placed(rs: seq<Record>, shuffle: Shuffle, ratio: real, k: nat): Record
    requires k < |rs|
  {
    var items := shuffle(rs[k].vulnClass, Positions(rs, rs[k].vulnClass));
    rs[k].(split := if k in ForEval(items, ratio) then "eval" else "train")
  }

  lemma {:induction false} PositionsAre(rs: seq<Record>, c: string)
    ensures forall k: nat :: k in Positions(rs, c) <==> k < |rs| && rs[k].vulnClass == c
    ensures forall i, j :: 0 <= i < j < |Positions(rs, c)| ==> Positions(rs, c)[i] < Positions(rs, c)[j]
  {
    if rs != [] {
      var n := |rs| - 1;
      PositionsAre(rs[..n], c);
      var p, q := Positions(rs[..n], c), Positions(rs, c);
      forall k: nat ensures k in q <==> k < |rs| && rs[k].vulnClass == c {
        assert k in q <==> k in p || (k == n && rs[n].vulnClass == c);
      }
      forall i, j | 0 <= i < j < |q| ensures q[i] < q[j] {
        if j == |p| { assert q[i] in p; }
      }
    }
  }

  /** A shuffled list has the same elements, each once. */
  lemma ItemsAre(rs: seq<Record>, shuffle: Shuffle, c: string)
    requires Shuffles(shuffle)
    ensures var items := shuffle(c, Positions(rs, c));
            && |items| == |Positions(rs, c)|
            && (forall k: nat :: k in items <==> k < |rs| && rs[k].vulnClass == c)
            && (forall i, j :: 0 <= i < j < |items| ==> items[i] != items[j])
  {
    var p := Positions(rs, c);
    var items := shuffle(c, p);
    PositionsAre(rs, c);
    assert |multiset(items)| == |items| && |multiset(p)| == |p|;
    forall k: nat ensures k in items <==> k in p { assert k in multiset(items) <==> k in multiset(p); }
    NoRepeats(p);
    Repeats(items);
  }

  lemma {:induction false} NoRepeats(s: seq<nat>)
    requires forall i, j :: 0 <= i < j < |s| ==> s[i] < s[j]
    ensures forall k :: multiset(s)[k] <= 1
  {
    if s != [] {
      var n := |s| - 1;
      NoRepeats(s[..n]);
      assert s == s[..n] + [s[n]];
      assert s[n] !in s[..n];
      assert multiset(s) == multiset(s[..n]) + multiset{s[n]};
    }
  }

  lemma Repeats(s: seq<nat>)
    ensures (forall k :: multiset(s)[k] <= 1) ==> forall i, j :: 0 <= i < j < |s| ==> s[i] != s[j]
  {
    forall i, j | 0 <= i < j < |s| && s[i] == s[j] ensures multiset(s)[s[i]] >= 2 {
      assert s == s[..j] + s[j..];
      assert s[i] in s[..j] && s[j] in s[j..];
      assert multiset(s) == multiset(s[..j]) + multiset(s[j..]);
    }
  }

  method SplitRecords(records: array<Record>, shuffle: Shuffle, ratio: real)
    requires Shuffles(shuffle)
    modifies records
    ensures forall k :: 0 <= k < records.Length ==> records[k] == Placed(old(records[..]), shuffle, ratio, k)
  {
    hide Placed, Positions;
    ghost var rs := records[..];
    var classes, byClass := Group(records);
    var j := 0;
    while j < |classes|
      invariant 0 <= j <= |classes|
      invariant forall k :: 0 <= k < records.Length ==>
        records[k] == if rs[k].vulnClass in classes[..j] then Placed(rs, shuffle, ratio, k) else rs[k]
    {
      var c := classes[j];
      assert c in byClass;
      ItemsAre(rs, shuffle, c);
      MarkClass(records, rs, shuffle, ratio, c, shuffle(c, byClass[c]), classes[..j]);
      assert classes[..j + 1] == classes[..j] + [c];
      j := j + 1;
    }
    assert classes[..|classes|] == classes;
    forall k | 0 <= k < records.Length ensures records[k] == Placed(rs, shuffle, ratio, k) {
      assert rs[k] in rs;
    }
  }

  lemma LastPosition(rs: seq<Record>, i: nat, c: string)
    requires i < |rs|
    ensures Positions(rs[..i + 1], c) == Positions(rs[..i], c) + if rs[i].vulnClass == c then [i] else []
  {
    assert rs[..i + 1][..i] == rs[..i];
  }

  ghost predicate Grouped(rs: seq<Record>, classes: seq<string>, byClass: map<string, seq<nat>>) {
    && (forall c :: c in classes <==> c in byClass)
    && (forall i, j :: 0 <= i < j < |classes| ==> classes[i] != classes[j])
    && (forall c :: Positions(rs, c) == if c in byClass then byClass[c] else [])
    && (forall r :: r in rs ==> r.vulnClass in byClass)
  }

  lemma GroupedStep(rs: seq<Record>, i: nat, classes: seq<string>, byClass: map<string, seq<nat>>)
    requires i < |rs| && Grouped(rs[..i], classes, byClass)
    ensures var c := rs[i].vulnClass;
            Grouped(rs[..i + 1], if c in byClass then classes else classes + [c],
                    byClass[c := (if c in byClass then byClass[c] else []) + [i]])
  {
    hide Positions;
    assert rs[..i + 1] == rs[..i] + [rs[i]];
    forall d ensures Positions(rs[..i + 1], d) == Positions(rs[..i], d) + if d == rs[i].vulnClass then [i] else [] {
      LastPosition(rs, i, d);
    }
  }

  /** `by_class`: the classes in order of first appearance, and their records. */
  method Group(records: array<Record>) returns (classes: seq<string>, byClass: map<string, seq<nat>>)
    ensures Grouped(records[..], classes, byClass)
  {
    classes, byClass := [], map[];
    var i := 0;
    assert Grouped(records[..0], [], map[]);
    hide Grouped;
    while i < records.Length
      invariant 0 <= i <= records.Length
      invariant Grouped(records[..i], classes, byClass)
    {
      var c := records[i].vulnClass;
      GroupedStep(records[..], i, classes, byClass);
      assert records[..][..i] == records[..i] && records[..][..i + 1] == records[..i + 1];
      if c !in byClass { classes := classes + [c]; }
      byClass := byClass[c := (if c in byClass then byClass[c] else []) + [i]];
      i := i + 1;
    }
    assert records[..records.Length] == records[..];
  }

  lemma PlacedAt(rs: seq<Record>, shuffle: Shuffle, ratio: real, items: seq<nat>, i: nat)
    requires i < |items| && items[i] < |rs|
    requires items == shuffle(rs[items[i]].vulnClass, Positions(rs, rs[items[i]].vulnClass))
    requires forall i, j :: 0 <= i < j < |items| ==> items[i] != items[j]
    ensures Placed(rs, shuffle, ratio, items[i])
         == rs[items[i]].(split := if i < EvalSize(|items|, ratio) then "eval" else "train")
  {
    assert items[i] in ForEval(items, ratio) <==> i < EvalSize(|items|, ratio);
  }

  /** The inner loop over one shuffled class. */
  method MarkClass(records: array<Record>, ghost rs: seq<Record>, shuffle: Shuffle, ratio: real, c: string,
                   items: seq<nat>, ghost done: seq<string>)
    requires |rs| == records.Length && c !in done
    requires items == shuffle(c, Positions(rs, c))
    requires forall k: nat :: k in items <==> k < |rs| && rs[k].vulnClass == c
    requires forall i, j :: 0 <= i < j < |items| ==> items[i] != items[j]
    requires forall k :: 0 <= k < |rs| ==>
      records[k] == if rs[k].vulnClass in done then Placed(rs, shuffle, ratio, k) else rs[k]
    modifies records
    ensures forall k :: 0 <= k < |rs| ==>
      records[k] == if rs[k].vulnClass in done + [c] then Placed(rs, shuffle, ratio, k) else rs[k]
  {
    hide Placed;
    var n := EvalSize(|items|, ratio);
    var i := 0;
    while i < |items|
      invariant 0 <= i <= |items|
      invariant forall k :: 0 <= k < |rs| ==>
        records[k] == if rs[k].vulnClass in done || k in items[..i] then Placed(rs, shuffle, ratio, k) else rs[k]
    {
      var k := items[i];
      assert k in items;
      assert items[..i + 1] == items[..i] + [k];
      PlacedAt(rs, shuffle, ratio, items, i);
      records[k] := records[k].(split := if i < n then "eval" else "train");
      i := i + 1;
    }
    assert items[..|items|] == items;
  }

  function InEval(rs: seq<Record>, shuffle: Shuffle, ratio: real, c: string): set<nat> {
    set k | 0 <= k < |rs| && rs[k].vulnClass == c && Placed(rs, shuffle, ratio, k).split == "eval"
  }

  function Elements(s: seq<nat>): set<nat> {
    set k | k in s
  }

  lemma {:induction false} DistinctSize(s: seq<nat>)
    requires forall i, j :: 0 <= i < j < |s| ==> s[i] != s[j]
    ensures |Elements(s)| == |s|
  {
    if s != [] {
      var n := |s| - 1;
      DistinctSize(s[..n]);
      assert s[n] !in Elements(s[..n]);
      forall k ensures k in Elements(s) <==> k in Elements(s[..n]) + {s[n]} {
        assert s == s[..n] + [s[n]];
      }
      assert Elements(s) == Elements(s[..n]) + {s[n]};
    }
  }

  /** Under any shuffle, a class of n records gets exactly `EvalSize(n, ratio)` for evaluation, or
      all it has; so a class of one record has nothing left for training. */
  lemma EvalShare(rs: seq<Record>, shuffle: Shuffle, ratio: real, c: string)
    requires Shuffles(shuffle)
    ensures var n := |Positions(rs, c)|;
            |InEval(rs, shuffle, ratio, c)| == if EvalSize(n, ratio) <= n then EvalSize(n, ratio) else n
  {
    ItemsAre(rs, shuffle, c);
    var items := shuffle(c, Positions(rs, c));
    var picked := ForEval(items, ratio);
    forall k ensures k in InEval(rs, shuffle, ratio, c) <==> k in Elements(picked) {
      if k in picked { assert k in items; }
    }
    assert InEval(rs, shuffle, ratio, c) == Elements(picked);
    DistinctSize(picked);
  }

  /** A record is marked `eval` if it is one of the first of its shuffled class, as many as the
      share says, and `train` otherwise; nothing else of it changes. */
  lemma PlacedIs(rs: seq<Record>, shuffle: Shuffle, ratio: real, k: nat)
    requires k < |rs|
    ensures var items := shuffle(rs[k].vulnClass, Positions(rs, rs[k].vulnClass));
            var picked := exists i :: 0 <= i < |items| && i < EvalSize(|items|, ratio) && items[i] == k;
      Placed(rs, shuffle, ratio, k) == rs[k].(split := if picked then "eval" else "train")
  {
    var items := shuffle(rs[k].vulnClass, Positions(rs, rs[k].vulnClass));
    if i :| 0 <= i < |items| && i < EvalSize(|items|, ratio) && items[i] == k {
      assert ForEval(items, ratio)[i] == k;
    }
    if i :| 0 <= i < |ForEval(items, ratio)| && ForEval(items, ratio)[i] == k {
      assert items[i] == k;
    }
  }

  /** The share is n times the ratio, rounded down, but at least one. */
  lemma EvalSizeIs(n: nat, ratio: real)
    ensures var k, share := EvalSize(n, ratio), n as real * ratio;
      k >= 1 && share < k as real + 1.0 && (k as real <= share || k == 1)
  {
    var share := n as real * ratio;
    assert share.Floor as real <= share < share.Floor as real + 1.0;
  }
}
