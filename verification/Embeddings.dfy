/** The embeddings client: a cache in memory in front of a remote backend, written to disk on
    demand. Several threads share one client; a lock guards each look at the cache, each store
    and each save, but not the request in between. */
module Embeddings {
  import opened Contracts
  import opened Text

  type Vector = seq<real>
  type Cache = map<string, Vector>

  /** What the threads share. `disk` is the decoded cache file, if there is a readable one. */
  datatype Shared = Shared(cache: Cache, dirty: bool, disk: Option<Cache>)

  /** The backend's answer: none at all, one bare vector, or a list whose entries may fail to
      be vectors. */
  datatype Reply = NoReply | Bare(v: Vector) | Rows(rows: seq<Option<Vector>>)

  function Loaded(disk: Option<Cache>): Cache {
    match disk
    case Some(c) => c
    case None => map[]
  }

  function Key(model: string, text: string): string {
    model + "::" + text
  }

  /** `_call_hf`: a bare non-empty vector is wrapped; `None` stands for a failed request. */
  function CallHf(reply: Reply): Option<seq<Option<Vector>>> {
    match reply
    case NoReply => None
    case Bare(v) => Some(if v == [] then [] else [Some(v)])
    case Rows(rows) => Some(rows)
  }

  function Lookup(model: string, cache: Cache, text: string): Option<Vector> {
    if !Blank(text) && Key(model, text) in cache then Some(cache[Key(model, text)]) else None
  }

  function Stored(model: string, s: Shared, text: string, v: Vector): Shared {
    s.(cache := s.cache[Key(model, text) := v], dirty := true)
  }

  function Saved(s: Shared): Shared {
    if s.dirty then s.(dirty := false, disk := Some(s.cache)) else s
  }

  function Misses(model: string, cache: Cache, text: string): bool {
    !Blank(text) && Key(model, text) !in cache
  }

  /** The (index, text) pairs that a batch asks the backend for. */
  function Missing(model: string, cache: Cache, texts: seq<string>): (r: seq<(nat, string)>)
  {
    if texts == [] then []
    else
      var n := |texts| - 1;
      Missing(model, cache, texts[..n]) + if Misses(model, cache, texts[n]) then [(n, texts[n])] else []
  }

  function Hits(model: string, cache: Cache, texts: seq<string>): (r: seq<Option<Vector>>)
    ensures |r| == |texts|
  {
    seq(|texts|, i requires 0 <= i < |texts| => Lookup(model, cache, texts[i]))
  }

  /** The zip loop of `embed_batch`, on its first n rounds. */
  function Fill(model: string, missing: seq<(nat, string)>, rows: seq<Option<Vector>>, n: nat,
                out: seq<Option<Vector>>, s: Shared): (r: (seq<Option<Vector>>, Shared))
    requires n <= |missing| && n <= |rows|
    requires forall m :: m in missing ==> m.0 < |out|
    ensures |r.0| == |out|
  {
    if n == 0 then (out, s)
    else
      var (o, t) := Fill(model, missing, rows, n - 1, out, s);
      match rows[n - 1]
      case Some(v) => (o[missing[n - 1].0 := Some(v)], Stored(model, t, missing[n - 1].1, v))
      case None => (o, t)
  }

  function Embedded(model: string, available: bool, hf: seq<string> -> Reply, s: Shared, text: string)
    : (Option<Vector>, Shared)
  {
    if Blank(text) then (None, s)
    else if Key(model, text) in s.cache then (Some(s.cache[Key(model, text)]), s)
    else if !available then (None, s)
    else match CallHf(hf([text]))
      case None => (None, s)
      case Some(rows) =>
        if rows != [] && rows[0].Some? then (rows[0], Stored(model, s, text, rows[0].value)) else (None, s)
  }

  function Min(a: nat, b: nat): nat { if a < b then a else b }

  function TextsOf(missing: seq<(nat, string)>): (r: seq<string>)
    ensures |r| == |missing| && forall j :: 0 <= j < |r| ==> r[j] == missing[j].1
  {
    seq(|missing|, j requires 0 <= j < |missing| => missing[j].1)
  }

  lemma MissingLast(model: string, cache: Cache, texts: seq<string>)
    requires texts != []
    ensures var n := |texts| - 1;
            Missing(model, cache, texts)
              == Missing(model, cache, texts[..n]) + if Misses(model, cache, texts[n]) then [(n, texts[n])] else []
  {}

  lemma {:induction false} MissingIs(model: string, cache: Cache, texts: seq<string>)
    ensures forall m :: m in Missing(model, cache, texts)
                   <==> m.0 < |texts| && m.1 == texts[m.0] && Misses(model, cache, m.1)
    ensures Missing(model, cache, texts) == []
            <==> forall t :: t in texts ==> !Misses(model, cache, t)
  {
    if texts != [] {
      hide Missing, Misses;
      var n := |texts| - 1;
      MissingLast(model, cache, texts);
      MissingIs(model, cache, texts[..n]);
      forall m ensures m in Missing(model, cache, texts)
                   <==> m.0 < |texts| && m.1 == texts[m.0] && Misses(model, cache, m.1)
      {
        assert m in Missing(model, cache, texts)
          <==> m in Missing(model, cache, texts[..n]) || (m == (n, texts[n]) && Misses(model, cache, texts[n]));
      }
      assert texts == texts[..n] + [texts[n]];
    }
  }

  /** Each missing text stands once, in the order of the texts. */
  lemma {:induction false} MissingInOrder(model: string, cache: Cache, texts: seq<string>, i: nat, j: nat)
    requires i < j < |Missing(model, cache, texts)|
    ensures Missing(model, cache, texts)[i].0 < Missing(model, cache, texts)[j].0
  {
    hide Missing, Misses;
    if texts == [] {
      MissingIs(model, cache, texts);
    } else {
      var before := Missing(model, cache, texts[..|texts| - 1]);
      MissingLast(model, cache, texts);
      MissingIs(model, cache, texts[..|texts| - 1]);
      if j < |before| { MissingInOrder(model, cache, texts[..|texts| - 1], i, j); } else { assert before[i] in before; }
    }
  }

  class EmbeddingsClient {
    const model: string
    const available: bool
    var cache: Cache
    var dirty: bool
    var disk: Option<Cache>

    constructor (model: string, available: bool, disk: Option<Cache>)
      ensures this.model == model && this.available == available
      ensures State() == Shared(Loaded(disk), false, disk)
    {
      this.model, this.available, this.disk, this.cache, this.dirty := model, available, disk, Loaded(disk), false;
    }

    ghost function State(): Shared
      reads this
    {
      Shared(cache, dirty, disk)
    }

    method Store(text: string, v: Vector)
      modifies this
      ensures State() == Stored(model, old(State()), text, v)
    {
      cache := cache[Key(model, text) := v];
      dirty := true;
    }

    method Embed(text: string, hf: seq<string> -> Reply) returns (r: Option<Vector>)
      modifies this
      ensures (r, State()) == Embedded(model, available, hf, old(State()), text)
    {
      if Blank(text) { return None; }
      if Key(model, text) in cache { return Some(cache[Key(model, text)]); }
      if !available { return None; }
      var rows := CallHf(hf([text]));
      if rows.Some? && rows.value != [] && rows.value[0].Some? {
        Store(text, rows.value[0].value);
        return rows.value[0];
      }
      return None;
    }

    /** The locked section at the top of `embed_batch`. */
    method LookUpAll(texts: seq<string>) returns (out: seq<Option<Vector>>, missing: seq<(nat, string)>)
      ensures out == Hits(model, cache, texts) && missing == Missing(model, cache, texts)
    {
      out := seq(|texts|, _ => None);
      missing := [];
      var i := 0;
      while i < |texts|
        invariant 0 <= i <= |texts| == |out|
        invariant forall j :: 0 <= j < |texts| ==> out[j] == if j < i then Lookup(model, cache, texts[j]) else None
        invariant missing == Missing(model, cache, texts[..i])
      {
        assert texts[..i + 1][..i] == texts[..i];
        if !Blank(texts[i]) {
          if Key(model, texts[i]) in cache {
            out := out[i := Some(cache[Key(model, texts[i])])];
          } else {
            missing := missing + [(i, texts[i])];
          }
        }
        i := i + 1;
      }
      assert texts[..|texts|] == texts;
    }

    /** The zip loop: the shorter list ends it. */
    method StoreAll(missing: seq<(nat, string)>, rows: seq<Option<Vector>>, hits: seq<Option<Vector>>)
      returns (out: seq<Option<Vector>>)
      requires forall m :: m in missing ==> m.0 < |hits|
      modifies this
      ensures (out, State()) == Fill(model, missing, rows, Min(|missing|, |rows|), hits, old(State()))
    {
      out := hits;
      var k := 0;
      while k < |missing| && k < |rows|
        invariant 0 <= k <= |missing| && k <= |rows|
        invariant (out, State()) == Fill(model, missing, rows, k, hits, old(State()))
      {
        assert missing[k] in missing;
        if rows[k].Some? {
          out := out[missing[k].0 := rows[k]];
          Store(missing[k].1, rows[k].value);
        }
        k := k + 1;
      }
    }

    method EmbedBatch(texts: seq<string>, hf: seq<string> -> Reply) returns (out: seq<Option<Vector>>)
      modifies this
      ensures (out, State()) == EmbeddedBatch(model, available, hf, old(State()), texts)
    {
      var missing;
      out, missing := LookUpAll(texts);
      MissingIs(model, cache, texts);
      if missing != [] && available {
        var vs := CallHf(hf(TextsOf(missing)));
        if vs.Some? { out := StoreAll(missing, vs.value, out); }
      }
    }

    method SaveCache()
      modifies this
      ensures State() == Saved(old(State()))
      ensures !dirty && cache == old(cache)
      ensures disk == if old(dirty) then Some(cache) else old(disk)
    {
      if !dirty { return; }
      disk := Some(cache);
      dirty := false;
    }
  }

  function EmbeddedBatch(model: string, available: bool, hf: seq<string> -> Reply, s: Shared, texts: seq<string>)
    : (r: (seq<Option<Vector>>, Shared))
  {
    var hits, missing := Hits(model, s.cache, texts), Missing(model, s.cache, texts);
    MissingIs(model, s.cache, texts);
    if missing == [] || !available then (hits, s)
    else match CallHf(hf(TextsOf(missing)))
      case None => (hits, s)
      case Some(rows) => Fill(model, missing, rows, Min(|missing|, |rows|), hits, s)
  }
}
