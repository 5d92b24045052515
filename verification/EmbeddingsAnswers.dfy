/** What the client answers and keeps, for every reply of the backend: none, a bare vector, or a
    list of any length with gaps; and what a later client finds on disk. */
module EmbeddingsAnswers {
  import opened Contracts
  import opened Text
  import opened Embeddings

  /** The vectors in a reply: a bare vector that is not empty counts as a list of one. */
  function RowsIn(reply: Reply): seq<Option<Vector>> {
    match reply
    case NoReply => []
    case Bare(v) => if v == [] then [] else [Some(v)]
    case Rows(rows) => rows
  }

  /** One call: a blank text has no vector and changes nothing; a cached one is answered without
      the backend; otherwise the first vector of the reply, if there is one, is returned and
      cached under the model and the text, and the cache is marked. */
  lemma EmbedSays(model: string, available: bool, hf: seq<string> -> Reply, s: Shared, text: string)
    ensures var (r, t) := Embedded(model, available, hf, s, text);
            var key, rows := model + "::" + text, RowsIn(hf([text]));
      if Blank(text) then r == None && t == s
      else if key in s.cache then r == Some(s.cache[key]) && t == s
      else if available && rows != [] && rows[0].Some? then
        r == rows[0] && t.cache == s.cache[key := rows[0].value] && t.dirty && t.disk == s.disk
      else r == None && t == s
  {}

  // ------------------------------------------------------------------ a batch

  /** The last of the first n rows that is a vector for index i. */
  function LastAt(missing: seq<(nat, string)>, rows: seq<Option<Vector>>, n: nat, i: nat): Option<Vector>
    requires n <= |missing| && n <= |rows|
  {
    if n == 0 then None
    else if missing[n - 1].0 == i && rows[n - 1].Some? then rows[n - 1]
    else LastAt(missing, rows, n - 1, i)
  }

  /** The last of the first n rows that is a vector for a text with this key. */
  function LastFor(model: string, missing: seq<(nat, string)>, rows: seq<Option<Vector>>, n: nat, key: string): Option<Vector>
    requires n <= |missing| && n <= |rows|
  {
    if n == 0 then None
    else if model + "::" + missing[n - 1].1 == key && rows[n - 1].Some? then rows[n - 1]
    else LastFor(model, missing, rows, n - 1, key)
  }

  lemma {:induction false} FillEntry(model: string, missing: seq<(nat, string)>, rows: seq<Option<Vector>>, n: nat,
                                     out: seq<Option<Vector>>, s: Shared, i: nat)
    requires n <= |missing| && n <= |rows| && i < |out| && forall m :: m in missing ==> m.0 < |out|
    ensures var row := LastAt(missing, rows, n, i);
            Fill(model, missing, rows, n, out, s).0[i] == if row.Some? then row else out[i]
  {
    if n > 0 {
      assert missing[n - 1] in missing;
      FillEntry(model, missing, rows, n - 1, out, s, i);
    }
  }

  lemma {:induction false} OnlyRow(missing: seq<(nat, string)>, rows: seq<Option<Vector>>, n: nat, j: nat)
    requires n <= |missing| && n <= |rows| && j < |missing|
    requires forall l :: 0 <= l < |missing| && l != j ==> missing[l].0 != missing[j].0
    ensures LastAt(missing, rows, n, missing[j].0) == if j < n then rows[j] else None
  {
    if n > 0 { OnlyRow(missing, rows, n - 1, j); }
  }

  lemma {:induction false} NoRow(missing: seq<(nat, string)>, rows: seq<Option<Vector>>, n: nat, i: nat)
    requires n <= |missing| && n <= |rows| && forall l :: 0 <= l < |missing| ==> missing[l].0 != i
    ensures LastAt(missing, rows, n, i) == None
  {
    if n > 0 { NoRow(missing, rows, n - 1, i); }
  }

  /** Every text of a batch: blank, cached, or asked for at its own place j in the request; what
      comes back at place j is its vector, and beyond the end of the reply there is none. */
  lemma BatchSays(model: string, available: bool, hf: seq<string> -> Reply, s: Shared, texts: seq<string>, i: nat)
    returns (j: nat)
    requires i < |texts|
    ensures var out := EmbeddedBatch(model, available, hf, s, texts).0;
            var key, missing := model + "::" + texts[i], Missing(model, s.cache, texts);
      && |out| == |texts|
      && (if Blank(texts[i]) then out[i] == None
          else if key in s.cache then out[i] == Some(s.cache[key])
          else
            var rows := RowsIn(hf(TextsOf(missing)));
            && j < |missing| && missing[j] == (i, texts[i])
            && out[i] == (if available && j < |rows| then rows[j] else None))
  {
    var missing, hits := Missing(model, s.cache, texts), Hits(model, s.cache, texts);
    MissingIs(model, s.cache, texts);
    j := 0;
    var rows := RowsIn(hf(TextsOf(missing)));
    var n := Min(|missing|, |rows|);
    if Misses(model, s.cache, texts[i]) {
      assert (i, texts[i]) in missing;
      j :| 0 <= j < |missing| && missing[j] == (i, texts[i]);
      OncePerIndex(model, s.cache, texts, j);
      hide Missing, Hits, Fill, TextsOf;
      OnlyRow(missing, rows, n, j);
    } else {
      forall l | 0 <= l < |missing| ensures missing[l].0 != i { assert missing[l] in missing; }
      hide Missing, Hits, Fill, TextsOf;
      NoRow(missing, rows, n, i);
    }
    FillEntry(model, missing, rows, n, hits, s, i);
  }

  lemma OncePerIndex(model: string, cache: Cache, texts: seq<string>, j: nat)
    requires j < |Missing(model, cache, texts)|
    ensures var missing := Missing(model, cache, texts);
            forall l :: 0 <= l < |missing| && l != j ==> missing[l].0 != missing[j].0
  {
    var missing := Missing(model, cache, texts);
    forall l | 0 <= l < |missing| && l != j ensures missing[l].0 != missing[j].0 {
      if l < j { MissingInOrder(model, cache, texts, l, j); } else { MissingInOrder(model, cache, texts, j, l); }
    }
  }

  lemma {:induction false} FillCache(model: string, missing: seq<(nat, string)>, rows: seq<Option<Vector>>, n: nat,
                                     out: seq<Option<Vector>>, s: Shared, key: string)
    requires n <= |missing| && n <= |rows| && forall m :: m in missing ==> m.0 < |out|
    ensures var row, t := LastFor(model, missing, rows, n, key), Fill(model, missing, rows, n, out, s).1;
      && t.disk == s.disk && (t == s || t.dirty) && (row.Some? ==> t.dirty)
      && (key in t.cache <==> key in s.cache || row.Some?)
      && (key in t.cache ==> t.cache[key] == if row.Some? then row.value else s.cache[key])
  {
    if n > 0 {
      FillCache(model, missing, rows, n - 1, out, s, key);
    }
  }

  /** What a batch caches: under every key the last vector that came back for it, and nothing
      else; the cache is marked if a vector came back. */
  lemma BatchStores(model: string, available: bool, hf: seq<string> -> Reply, s: Shared, texts: seq<string>, key: string)
    ensures var missing := Missing(model, s.cache, texts);
            var rows := if available && missing != [] then RowsIn(hf(TextsOf(missing))) else [];
            var n := if |missing| < |rows| then |missing| else |rows|;
            var row, t := LastFor(model, missing, rows, n, key), EmbeddedBatch(model, available, hf, s, texts).1;
      && t.disk == s.disk && (t == s || t.dirty) && (row.Some? ==> t.dirty)
      && (key in t.cache <==> key in s.cache || row.Some?)
      && (key in t.cache ==> t.cache[key] == if row.Some? then row.value else s.cache[key])
  {
    var missing, hits := Missing(model, s.cache, texts), Hits(model, s.cache, texts);
    MissingIs(model, s.cache, texts);
    var rows := if available && missing != [] then RowsIn(hf(TextsOf(missing))) else [];
    hide Missing, Hits, Fill, TextsOf;
    FillCache(model, missing, rows, Min(|missing|, |rows|), hits, s, key);
  }

  // ------------------------------------------------------------------ what is kept

  /** A text that was given a vector has it in every later call, whatever the backend says then
      and whether it can be reached. */
  lemma AnsweredForGood(model: string, available: bool, hf: seq<string> -> Reply, s: Shared, text: string,
                        later: bool, hf': seq<string> -> Reply)
    requires Embedded(model, available, hf, s, text).0.Some?
    ensures var (r, t) := Embedded(model, available, hf, s, text);
            Embedded(model, later, hf', t, text) == (r, t)
  {}

  /** After a save, the state is clean and the disk holds the cache; so a new client that starts
      from this disk answers as the old one does, without the backend. A client is always marked
      or in agreement with its disk. */
  lemma SavedIsLoaded(model: string, hf: seq<string> -> Reply, s: Shared, text: string)
    requires s.dirty || Loaded(s.disk) == s.cache
    ensures var t := Saved(s);
            var anew := Shared(Loaded(t.disk), false, t.disk);
      && !t.dirty && t.cache == s.cache && Loaded(t.disk) == s.cache
      && (!Blank(text) && model + "::" + text in s.cache ==>
            Embedded(model, false, hf, anew, text) == (Some(s.cache[model + "::" + text]), anew))
  {}

  lemma {:induction false} AlwaysMarkedOrSaved(model: string, available: bool, hf: seq<string> -> Reply, s: Shared,
                                               text: string, texts: seq<string>)
    requires s.dirty || Loaded(s.disk) == s.cache
    ensures var t := Embedded(model, available, hf, s, text).1; t.dirty || Loaded(t.disk) == t.cache
    ensures var t := EmbeddedBatch(model, available, hf, s, texts).1; t.dirty || Loaded(t.disk) == t.cache
    ensures var t := Saved(s); t.dirty || Loaded(t.disk) == t.cache
  {
    BatchStores(model, available, hf, s, texts, "");
  }
}
