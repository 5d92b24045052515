/** What the client's cache guarantees: a batch is as good as single calls, and in every
    interleaving of the threads what is cached and returned is what the backend says. */
module EmbeddingsProperties {
  import opened Contracts
  import opened Text
  import opened Embeddings

  ghost predicate Consistent(model: string, backend: string -> Vector, cache: Cache) {
    forall t: string :: Key(model, t) in cache ==> cache[Key(model, t)] == backend(t)
  }

  /** Vectors in the reply are the backend's vectors of the texts they are paired with. */
  ghost predicate Honest(backend: string -> Vector, asked: seq<string>, reply: Reply) {
    match CallHf(reply)
    case None => true
    case Some(rows) => forall j :: 0 <= j < |rows| && j < |asked| && rows[j].Some? ==> rows[j].value == backend(asked[j])
  }

  /** The reply has a vector for every text. */
  ghost predicate Full(asked: seq<string>, reply: Reply) {
    match CallHf(reply)
    case None => false
    case Some(rows) => |asked| <= |rows| && forall j :: 0 <= j < |asked| ==> rows[j].Some?
  }

  function Ideal(backend: string -> Vector, text: string): Option<Vector> {
    if Blank(text) then None else Some(backend(text))
  }

  // ------------------------------------------------------------------ keys

  lemma KeyInjective(model: string, t: string, u: string)
    ensures Key(model, t) == Key(model, u) <==> t == u
  {
    if Key(model, t) == Key(model, u) {
      var p := model + "::";
      assert Key(model, t)[|p|..] == t && Key(model, u)[|p|..] == u;
    }
  }

  /** Clients with different models share keys exactly if one model's prefix starts the other's. */
  lemma KeysCollide(m: string, n: string)
    ensures (exists t, u :: Key(m, t) == Key(n, u)) <==> m + "::" <= n + "::" || n + "::" <= m + "::"
  {
    var p, q := m + "::", n + "::";
    forall t, u | Key(m, t) == Key(n, u) ensures p <= q || q <= p {
      assert Key(m, t)[..|p|] == p && Key(n, u)[..|q|] == q;
      if |p| <= |q| { assert p == q[..|p|]; } else { assert q == p[..|q|]; }
    }
    if p <= q { assert Key(m, q[|p|..]) == Key(n, ""); }
    if q <= p { assert Key(m, "") == Key(n, p[|q|..]); }
  }

  lemma StoreIsConsistent(model: string, backend: string -> Vector, s: Shared, text: string)
    requires Consistent(model, backend, s.cache)
    ensures Consistent(model, backend, Stored(model, s, text, backend(text)).cache)
  {
    forall t ensures Key(model, t) == Key(model, text) <==> t == text { KeyInjective(model, t, text); }
  }

  // ------------------------------------------------------------------ one batch, many single calls

  /** The state after single calls, one by one. */
  function EmbedEach(model: string, available: bool, hf: seq<string> -> Reply, s: Shared, texts: seq<string>): Shared {
    if texts == [] then s
    else
      var n := |texts| - 1;
      Embedded(model, available, hf, EmbedEach(model, available, hf, s, texts[..n]), texts[n]).1
  }

  ghost predicate Served(backend: string -> Vector, hf: seq<string> -> Reply, texts: seq<string>) {
    forall asked: seq<string> :: (forall t :: t in asked ==> t in texts)
      ==> Honest(backend, asked, hf(asked)) && Full(asked, hf(asked))
  }

  lemma EmbedIs(model: string, available: bool, hf: seq<string> -> Reply, backend: string -> Vector,
                s: Shared, text: string)
    requires Consistent(model, backend, s.cache)
    requires Honest(backend, [text], hf([text])) && Full([text], hf([text]))
    ensures var (r, t) := Embedded(model, available, hf, s, text);
            && r == (if available then Ideal(backend, text) else Lookup(model, s.cache, text))
            && t == (if available && Misses(model, s.cache, text) then Stored(model, s, text, backend(text)) else s)
            && Consistent(model, backend, t.cache)
  {
    if !Blank(text) && Key(model, text) in s.cache {
      assert s.cache[Key(model, text)] == backend(text);
    }
    StoreIsConsistent(model, backend, s, text);
  }

  ghost predicate Paired(missing: seq<(nat, string)>, texts: seq<string>) {
    forall k :: 0 <= k < |missing| ==> missing[k].0 < |texts| && missing[k].1 == texts[missing[k].0]
  }

  lemma {:induction false} FillIs(model: string, backend: string -> Vector, texts: seq<string>,
                                  missing: seq<(nat, string)>, rows: seq<Option<Vector>>, n: nat,
                                  out: seq<Option<Vector>>, s: Shared, i: nat)
    requires Paired(missing, texts) && |out| == |texts| && i < |texts| && n <= |missing| && n <= |rows|
    requires forall j :: 0 <= j < n && rows[j].Some? ==> rows[j].value == backend(missing[j].1)
    ensures forall m :: m in missing ==> m.0 < |out|
    ensures var o := Fill(model, missing, rows, n, out, s).0;
            o[i] == if exists k :: 0 <= k < n && missing[k].0 == i && rows[k].Some?
                    then Some(backend(texts[i])) else out[i]
  {
    if n > 0 { FillIs(model, backend, texts, missing, rows, n - 1, out, s, i); }
  }

  function StoreEach(model: string, backend: string -> Vector, s: Shared, missing: seq<(nat, string)>): Shared {
    if missing == [] then s
    else
      var n := |missing| - 1;
      Stored(model, StoreEach(model, backend, s, missing[..n]), missing[n].1, backend(missing[n].1))
  }

  lemma {:induction false} StoreEachIs(model: string, backend: string -> Vector, s: Shared, missing: seq<(nat, string)>)
    requires Consistent(model, backend, s.cache)
    ensures var r := StoreEach(model, backend, s, missing);
            && Consistent(model, backend, r.cache) && s.cache.Keys <= r.cache.Keys
            && (missing != [] ==> r.dirty) && (missing == [] ==> r == s)
  {
    if missing != [] {
      var n := |missing| - 1;
      StoreEachIs(model, backend, s, missing[..n]);
      StoreIsConsistent(model, backend, StoreEach(model, backend, s, missing[..n]), missing[n].1);
    }
  }

  lemma {:induction false} FillStoresEach(model: string, backend: string -> Vector, missing: seq<(nat, string)>,
                                          rows: seq<Option<Vector>>, n: nat, out: seq<Option<Vector>>, s: Shared)
    requires n <= |missing| && n <= |rows| && forall m :: m in missing ==> m.0 < |out|
    requires forall j :: 0 <= j < n ==> rows[j] == Some(backend(missing[j].1))
    ensures Fill(model, missing, rows, n, out, s).1 == StoreEach(model, backend, s, missing[..n])
  {
    if n > 0 {
      FillStoresEach(model, backend, missing, rows, n - 1, out, s);
      assert missing[..n][..n - 1] == missing[..n - 1];
    }
  }

  lemma {:induction false} SinglesStoreMissing(model: string, hf: seq<string> -> Reply, backend: string -> Vector,
                                               s: Shared, texts: seq<string>)
    requires Consistent(model, backend, s.cache) && Served(backend, hf, texts)
    ensures EmbedEach(model, true, hf, s, texts) == StoreEach(model, backend, s, Missing(model, s.cache, texts))
  {
    if texts != [] {
      var n := |texts| - 1;
      var t, pre := texts[n], Missing(model, s.cache, texts[..n]);
      SinglesStoreMissing(model, hf, backend, s, texts[..n]);
      var S := StoreEach(model, backend, s, pre);
      StoreEachIs(model, backend, s, pre);
      EmbedIs(model, true, hf, backend, S, t);
      if Misses(model, s.cache, t) {
        var all := pre + [(n, t)];
        assert all[..|all| - 1] == pre && StoreEach(model, backend, s, all) == Stored(model, S, t, backend(t));
        StoringAgain(model, backend, s, S, t);
      } else {
        assert Missing(model, s.cache, texts) == pre;
        assert Blank(t) || Key(model, t) in S.cache.Keys;
      }
    }
  }

  /** Storing a text that was stored since s changes nothing. */
  lemma StoringAgain(model: string, backend: string -> Vector, s: Shared, t: Shared, text: string)
    requires Consistent(model, backend, t.cache) && (t == s || t.dirty) && Key(model, text) !in s.cache
    ensures Key(model, text) in t.cache ==> Stored(model, t, text, backend(text)) == t
  {
    var k := Key(model, text);
    if k in t.cache {
      assert t.cache[k] == backend(text);
      assert t.cache[k := backend(text)] == t.cache;
    }
  }

  /** One batch request is as good as one call after another: the same vectors for duplicates
      and blanks too, and the same cache, dirty mark and disk. Without a token both only read
      the cache. */
  lemma BatchIsManyCalls(model: string, available: bool, hf: seq<string> -> Reply, backend: string -> Vector,
                         s: Shared, texts: seq<string>)
    requires Consistent(model, backend, s.cache) && Served(backend, hf, texts)
    ensures var (out, t) := EmbeddedBatch(model, available, hf, s, texts);
            && |out| == |texts|
            && (forall i :: 0 <= i < |texts| ==> out[i] == Embedded(model, available, hf, s, texts[i]).0)
            && t == EmbedEach(model, available, hf, s, texts)
  {
    var missing := Missing(model, s.cache, texts);
    MissingIs(model, s.cache, texts);
    if available {
      SinglesStoreMissing(model, hf, backend, s, texts);
    } else {
      SinglesOnlyRead(model, hf, s, texts);
    }
    BatchState(model, available, hf, backend, s, texts);
    forall i | 0 <= i < |texts|
      ensures EmbeddedBatch(model, available, hf, s, texts).0[i] == Embedded(model, available, hf, s, texts[i]).0
    {
      EmbedIs(model, available, hf, backend, s, texts[i]);
      BatchEntry(model, available, hf, backend, s, texts, i);
    }
  }

  lemma {:induction false} SinglesOnlyRead(model: string, hf: seq<string> -> Reply, s: Shared, texts: seq<string>)
    ensures EmbedEach(model, false, hf, s, texts) == s
  {
    if texts != [] { SinglesOnlyRead(model, hf, s, texts[..|texts| - 1]); }
  }

  lemma BatchState(model: string, available: bool, hf: seq<string> -> Reply, backend: string -> Vector,
                   s: Shared, texts: seq<string>)
    requires Served(backend, hf, texts)
    ensures EmbeddedBatch(model, available, hf, s, texts).1
         == if available then StoreEach(model, backend, s, Missing(model, s.cache, texts)) else s
  {
    var missing := Missing(model, s.cache, texts);
    MissingIs(model, s.cache, texts);
    if missing != [] && available {
      var rows := AnswerTo(backend, hf, missing, texts);
      FillStoresEach(model, backend, missing, rows, |missing|, Hits(model, s.cache, texts), s);
      assert missing[..|missing|] == missing;
    }
  }

  lemma AnswerTo(backend: string -> Vector, hf: seq<string> -> Reply, missing: seq<(nat, string)>, texts: seq<string>)
    returns (rows: seq<Option<Vector>>)
    requires Served(backend, hf, texts) && forall m :: m in missing ==> m.0 < |texts| && m.1 == texts[m.0]
    ensures CallHf(hf(TextsOf(missing))) == Some(rows) && |missing| <= |rows|
    ensures forall j :: 0 <= j < |missing| ==> rows[j] == Some(backend(missing[j].1))
  {
    var asked := TextsOf(missing);
    forall t | t in asked ensures t in texts {
      var j :| 0 <= j < |asked| && asked[j] == t;
      assert missing[j] in missing;
    }
    rows := CallHf(hf(asked)).value;
  }

  lemma BatchEntry(model: string, available: bool, hf: seq<string> -> Reply, backend: string -> Vector,
                   s: Shared, texts: seq<string>, i: nat)
    requires Consistent(model, backend, s.cache) && Served(backend, hf, texts) && i < |texts|
    ensures EmbeddedBatch(model, available, hf, s, texts).0[i]
         == if available then Ideal(backend, texts[i]) else Lookup(model, s.cache, texts[i])
  {
    var missing := Missing(model, s.cache, texts);
    MissingIs(model, s.cache, texts);
    if Misses(model, s.cache, texts[i]) { assert (i, texts[i]) in missing; }
    if missing != [] && available {
      var rows := AnswerTo(backend, hf, missing, texts);
      forall k | 0 <= k < |missing| ensures missing[k] in missing {}
      FillIs(model, backend, texts, missing, rows, |missing|, Hits(model, s.cache, texts), s, i);
    }
  }
}
