/** Threads sharing one embeddings client, interleaved at every point where none of them holds
    the lock: after a look at the cache, while a request is out, between two stores. */
module EmbeddingThreads {
  import opened Contracts
  import opened Text
  import opened Embeddings
  import opened EmbeddingsProperties

  /** One call in progress. `full` records that the call had no miss the backend left open. */
  datatype Call =
    | One(text: string)
    | OneAsked(text: string)
    | OneAnswered(text: string, v: Vector)
    | OneDone(text: string, result: Option<Vector>, full: bool)
    | Many(texts: seq<string>)
    | ManyAsked(texts: seq<string>, out: seq<Option<Vector>>, missing: seq<(nat, string)>)
    | ManyStoring(texts: seq<string>, out: seq<Option<Vector>>, missing: seq<(nat, string)>,
                  rows: seq<Option<Vector>>, k: nat, full: bool)
    | ManyDone(texts: seq<string>, out: seq<Option<Vector>>, full: bool)
    | Saving
    | SaveDone

  datatype World = World(shared: Shared, calls: map<nat, Call>)

  datatype Step =
    | Begin(id: nat, call: Call)
    | Advance(id: nat, reply: Reply)

  predicate Fresh(c: Call) {
    c.One? || c.Many? || c.Saving?
  }

  predicate Enabled(w: World, a: Step) {
    match a
    case Begin(id, c) => id !in w.calls && Fresh(c)
    case Advance(id, _) => id in w.calls && InRange(w.calls[id])
  }

  predicate InRange(c: Call) {
    c.ManyStoring? ==> forall m :: m in c.missing ==> m.0 < |c.out|
  }

  /** One call runs up to the next point where another thread can get in. */
  function Move(model: string, available: bool, s: Shared, c: Call, reply: Reply): (Shared, Call)
    requires InRange(c)
  {
    match c
    case One(t) =>
      if !Misses(model, s.cache, t) then (s, OneDone(t, Lookup(model, s.cache, t), true))
      else (s, if available then OneAsked(t) else OneDone(t, None, false))
    case OneAsked(t) =>
      (match CallHf(reply)
       case Some(rows) =>
         if rows != [] && rows[0].Some? then (s, OneAnswered(t, rows[0].value)) else (s, OneDone(t, None, false))
       case None => (s, OneDone(t, None, false)))
    case OneAnswered(t, v) => (Stored(model, s, t, v), OneDone(t, Some(v), true))
    case Many(ts) =>
      var hits, missing := Hits(model, s.cache, ts), Missing(model, s.cache, ts);
      (s, if missing == [] || !available then ManyDone(ts, hits, missing == []) else ManyAsked(ts, hits, missing))
    case ManyAsked(ts, out, missing) =>
      (match CallHf(reply)
       case Some(rows) => (s, ManyStoring(ts, out, missing, rows, 0, AllAnswered(missing, rows)))
       case None => (s, ManyDone(ts, out, false)))
    case ManyStoring(ts, out, missing, rows, k, full) =>
      if k < |missing| && k < |rows| then
        assert missing[k] in missing;
        match rows[k]
        case Some(v) =>
          (Stored(model, s, missing[k].1, v),
           ManyStoring(ts, out[missing[k].0 := Some(v)], missing, rows, k + 1, full))
        case None => (s, ManyStoring(ts, out, missing, rows, k + 1, full))
      else (s, ManyDone(ts, out, full))
    case Saving => (Saved(s), SaveDone)
    case _ => (s, c)
  }

  predicate AllAnswered(missing: seq<(nat, string)>, rows: seq<Option<Vector>>) {
    |missing| <= |rows| && forall j :: 0 <= j < |missing| ==> rows[j].Some?
  }

  function Apply(model: string, available: bool, w: World, a: Step): World
    requires Enabled(w, a)
  {
    match a
    case Begin(id, c) => w.(calls := w.calls[id := c])
    case Advance(id, reply) =>
      var (s, c) := Move(model, available, w.shared, w.calls[id], reply);
      World(s, w.calls[id := c])
  }

  /** The backend speaks the truth where it speaks. */
  ghost predicate HonestStep(backend: string -> Vector, w: World, a: Step) {
    a.Advance? && a.id in w.calls ==> HonestReply(backend, w.calls[a.id], a.reply)
  }

  ghost predicate HonestReply(backend: string -> Vector, c: Call, reply: Reply) {
    match c
    case OneAsked(t) => Honest(backend, [t], reply)
    case ManyAsked(_, _, missing) => Honest(backend, TextsOf(missing), reply)
    case _ => true
  }

  ghost predicate Runs(model: string, available: bool, backend: string -> Vector, w: World, steps: seq<Step>, w': World)
    decreases |steps|
  {
    if steps == [] then w == w'
    else
      && Enabled(w, steps[0]) && HonestStep(backend, w, steps[0])
      && Runs(model, available, backend, Apply(model, available, w, steps[0]), steps[1..], w')
  }

  // ------------------------------------------------------------------ what every step keeps

  ghost predicate SharedInv(model: string, backend: string -> Vector, s: Shared) {
    && Consistent(model, backend, s.cache)
    && Consistent(model, backend, Loaded(s.disk))
    && (s.dirty || Loaded(s.disk) == s.cache)
  }

  ghost predicate Partial(backend: string -> Vector, texts: seq<string>, out: seq<Option<Vector>>) {
    |out| == |texts| && forall i :: 0 <= i < |out| && out[i].Some? ==> out[i] == Ideal(backend, texts[i])
  }

  ghost predicate Asking(texts: seq<string>, missing: seq<(nat, string)>) {
    forall j :: 0 <= j < |missing| ==>
      missing[j].0 < |texts| && missing[j].1 == texts[missing[j].0] && !Blank(missing[j].1)
  }

  /** Every text still without a vector, unless blank, is at position k or later of `missing`. */
  ghost predicate Covered(texts: seq<string>, out: seq<Option<Vector>>, missing: seq<(nat, string)>, k: nat) {
    |out| == |texts| && forall i :: 0 <= i < |out| && out[i].None? ==>
      Blank(texts[i]) || exists j :: k <= j < |missing| && missing[j].0 == i
  }

  ghost predicate CallInv(backend: string -> Vector, c: Call) {
    match c
    case OneAsked(t) => !Blank(t)
    case OneAnswered(t, v) => !Blank(t) && v == backend(t)
    case OneDone(t, r, full) => (r.Some? || full ==> r == Ideal(backend, t))
    case ManyAsked(ts, out, missing) =>
      Partial(backend, ts, out) && Asking(ts, missing) && Covered(ts, out, missing, 0)
    case ManyStoring(ts, out, missing, rows, k, full) =>
      && Partial(backend, ts, out) && Asking(ts, missing)
      && (forall j :: 0 <= j < |missing| && j < |rows| && rows[j].Some? ==> rows[j].value == backend(missing[j].1))
      && (full ==> AllAnswered(missing, rows) && Covered(ts, out, missing, k))
    case ManyDone(ts, out, full) =>
      && Partial(backend, ts, out)
      && (full ==> forall i :: 0 <= i < |ts| ==> out[i] == Ideal(backend, ts[i]))
    case _ => true
  }

  ghost predicate Inv(model: string, backend: string -> Vector, w: World) {
    SharedInv(model, backend, w.shared) && forall id :: id in w.calls ==> CallInv(backend, w.calls[id])
  }

  /** Nothing cached is lost or changed. */
  ghost predicate Grows(c: Cache, d: Cache) {
    forall k :: k in c ==> k in d && d[k] == c[k]
  }

  lemma StoreInv(model: string, backend: string -> Vector, s: Shared, text: string)
    requires SharedInv(model, backend, s)
    ensures SharedInv(model, backend, Stored(model, s, text, backend(text)))
    ensures Grows(s.cache, Stored(model, s, text, backend(text)).cache)
  {
    StoreIsConsistent(model, backend, s, text);
  }

  lemma ScanInv(model: string, backend: string -> Vector, cache: Cache, texts: seq<string>)
    requires Consistent(model, backend, cache)
    ensures var hits, missing := Hits(model, cache, texts), Missing(model, cache, texts);
            Partial(backend, texts, hits) && Asking(texts, missing) && Covered(texts, hits, missing, 0)
  {
    var hits, missing := Hits(model, cache, texts), Missing(model, cache, texts);
    MissingIs(model, cache, texts);
    forall j | 0 <= j < |missing|
      ensures missing[j].0 < |texts| && missing[j].1 == texts[missing[j].0] && !Blank(missing[j].1)
    {
      assert missing[j] in missing;
    }
    forall i | 0 <= i < |hits| && hits[i].None?
      ensures Blank(texts[i]) || exists j :: 0 <= j < |missing| && missing[j].0 == i
    {
      if !Blank(texts[i]) { assert (i, texts[i]) in missing; }
    }
  }

  lemma StoringInv(backend: string -> Vector, c: Call)
    requires c.ManyStoring? && InRange(c) && CallInv(backend, c) && c.k < |c.missing| && c.k < |c.rows|
    ensures c.rows[c.k].Some? ==> c.rows[c.k].value == backend(c.missing[c.k].1)
    ensures c.missing[c.k] in c.missing
    ensures CallInv(backend, match c.rows[c.k]
                             case Some(v) => c.(out := c.out[c.missing[c.k].0 := Some(v)], k := c.k + 1)
                             case None => c.(k := c.k + 1))
  {
    assert c.missing[c.k] in c.missing;
  }

  lemma MoveInv(model: string, available: bool, backend: string -> Vector, s: Shared, c: Call, reply: Reply)
    requires SharedInv(model, backend, s) && CallInv(backend, c) && InRange(c) && HonestReply(backend, c, reply)
    ensures var (t, d) := Move(model, available, s, c, reply);
            SharedInv(model, backend, t) && CallInv(backend, d) && Grows(s.cache, t.cache)
  {
    match c
    case One(t) => if !Misses(model, s.cache, t) && !Blank(t) { assert s.cache[Key(model, t)] == backend(t); }
    case OneAnswered(t, v) => StoreInv(model, backend, s, t);
    case Many(ts) =>
      ScanInv(model, backend, s.cache, ts);
    case ManyAsked(ts, out, missing) =>
    case ManyStoring(ts, out, missing, rows, k, full) =>
      if k < |missing| && k < |rows| {
        StoringInv(backend, c);
        StoreInv(model, backend, s, missing[k].1);
      }
    case _ =>
  }

  lemma StepInv(model: string, available: bool, backend: string -> Vector, w: World, a: Step)
    requires Inv(model, backend, w) && Enabled(w, a) && HonestStep(backend, w, a)
    ensures Inv(model, backend, Apply(model, available, w, a))
    ensures Grows(w.shared.cache, Apply(model, available, w, a).shared.cache)
  {
    if a.Advance? { MoveInv(model, available, backend, w.shared, w.calls[a.id], a.reply); }
  }

  /** In every interleaving: the cache and the file hold only the backend's vectors, so does
      every result; a clean cache is what the file says; nothing cached is ever lost. */
  lemma {:induction false} EveryInterleaving(model: string, available: bool, backend: string -> Vector,
                                             w: World, steps: seq<Step>, w': World)
    requires Inv(model, backend, w) && Runs(model, available, backend, w, steps, w')
    ensures Inv(model, backend, w') && Grows(w.shared.cache, w'.shared.cache)
    decreases |steps|
  {
    if steps != [] {
      StepInv(model, available, backend, w, steps[0]);
      EveryInterleaving(model, available, backend, Apply(model, available, w, steps[0]), steps[1..], w');
    }
  }

  /** A batch that the backend answered in full returns, whatever the other threads did in
      between, exactly what single calls return that were answered. */
  lemma BatchAgreesWithSingles(model: string, available: bool, backend: string -> Vector,
                               disk: Option<Cache>, steps: seq<Step>, w: World, many: nat, i: nat, one: nat)
    requires Consistent(model, backend, Loaded(disk))
    requires Runs(model, available, backend, World(Shared(Loaded(disk), false, disk), map[]), steps, w)
    requires many in w.calls && w.calls[many].ManyDone? && i < |w.calls[many].texts|
    requires one in w.calls && w.calls[one].OneDone? && w.calls[one].text == w.calls[many].texts[i]
    ensures |w.calls[many].out| == |w.calls[many].texts|
    ensures w.calls[many].full && w.calls[one].full ==> w.calls[many].out[i] == w.calls[one].result
    ensures w.calls[many].out[i].Some? && w.calls[one].result.Some? ==> w.calls[many].out[i] == w.calls[one].result
  {
    EveryInterleaving(model, available, backend, World(Shared(Loaded(disk), false, disk), map[]), steps, w);
    assert CallInv(backend, w.calls[many]) && CallInv(backend, w.calls[one]);
  }

  /** The guard that `Enabled` puts on a batch in its zip loop never stops one. */
  lemma NeverBlocked(model: string, backend: string -> Vector, w: World, id: nat, reply: Reply)
    requires Inv(model, backend, w) && id in w.calls
    ensures Enabled(w, Advance(id, reply))
  {
    var c := w.calls[id];
    if c.ManyStoring? {
      assert CallInv(backend, c);
      forall m | m in c.missing ensures m.0 < |c.out| {
        var j :| 0 <= j < |c.missing| && c.missing[j] == m;
      }
    }
  }

  // ------------------------------------------------------------------ a call left alone

  /** The backend's answer to a call that waits for one. */
  function AnswerTo(hf: seq<string> -> Reply, c: Call): Reply {
    match c
    case OneAsked(t) => hf([t])
    case ManyAsked(_, _, missing) => hf(TextsOf(missing))
    case _ => NoReply
  }

  /** n moves of one call with no other thread in between. */
  function Alone(model: string, available: bool, hf: seq<string> -> Reply, s: Shared, c: Call, n: nat): (Shared, Call)
    decreases n
  {
    if n == 0 || !InRange(c) then (s, c)
    else
      var (t, d) := Move(model, available, s, c, AnswerTo(hf, c));
      Alone(model, available, hf, t, d, n - 1)
  }

  lemma {:induction false} AloneOnceMore(model: string, available: bool, hf: seq<string> -> Reply,
                                         s: Shared, c: Call, n: nat)
    ensures var (t, d) := Alone(model, available, hf, s, c, n);
            Alone(model, available, hf, s, c, n + 1) == Alone(model, available, hf, t, d, 1)
    decreases n
  {
    if n > 0 && InRange(c) {
      var (t, d) := Move(model, available, s, c, AnswerTo(hf, c));
      AloneOnceMore(model, available, hf, t, d, n - 1);
    }
  }

  /** Alone, the zip loop is the `Fill` that `EmbedBatch` is proved against. */
  lemma {:induction false} AloneIsFill(model: string, available: bool, hf: seq<string> -> Reply,
                                       s: Shared, c: Call, n: nat)
    requires InRange(c) && c.ManyStoring? && c.k == 0 && n <= |c.missing| && n <= |c.rows|
    ensures var (out, t) := Fill(model, c.missing, c.rows, n, c.out, s);
            Alone(model, available, hf, s, c, n) == (t, c.(out := out, k := n))
  {
    if n > 0 {
      AloneIsFill(model, available, hf, s, c, n - 1);
      AloneOnceMore(model, available, hf, s, c, n - 1);
      var (t, d) := Alone(model, available, hf, s, c, n - 1);
      assert Alone(model, available, hf, t, d, 1) == Move(model, available, t, d, NoReply);
    }
  }

  /** Alone, a batch, from the look at the cache to the end of its zip loop, is the
      `EmbeddedBatch` that `EmbedBatch` is proved against. */
  lemma AloneIsBatch(model: string, available: bool, hf: seq<string> -> Reply, s: Shared, texts: seq<string>)
    returns (n: nat, full: bool)
    ensures var (out, t) := EmbeddedBatch(model, available, hf, s, texts);
            Alone(model, available, hf, s, Many(texts), n) == (t, ManyDone(texts, out, full))
  {
    var hits, missing := Hits(model, s.cache, texts), Missing(model, s.cache, texts);
    MissingIs(model, s.cache, texts);
    hide Hits, Missing, Fill;
    if missing == [] || !available {
      n, full := 1, missing == [];
    } else {
      var asked := ManyAsked(texts, hits, missing);
      match CallHf(hf(TextsOf(missing)))
      case None =>
        n, full := 2, false;
        assert Alone(model, available, hf, s, asked, 1) == (s, ManyDone(texts, hits, false));
      case Some(rows) =>
        full := AllAnswered(missing, rows);
        var storing := ManyStoring(texts, hits, missing, rows, 0, full);
        var m := Min(|missing|, |rows|);
        AloneIsFill(model, available, hf, s, storing, m);
        AloneOnceMore(model, available, hf, s, storing, m);
        n := m + 3;
        TwoMoves(model, available, hf, s, texts, m + 1);
    }
  }

  lemma TwoMoves(model: string, available: bool, hf: seq<string> -> Reply, s: Shared, texts: seq<string>, n: nat)
    requires Missing(model, s.cache, texts) != [] && available
    requires CallHf(hf(TextsOf(Missing(model, s.cache, texts)))).Some?
    ensures var missing := Missing(model, s.cache, texts);
            var rows := CallHf(hf(TextsOf(missing))).value;
            Alone(model, available, hf, s, Many(texts), n + 2)
              == Alone(model, available, hf, s, ManyStoring(texts, Hits(model, s.cache, texts), missing, rows, 0,
                                                           AllAnswered(missing, rows)), n)
  {
    var missing := Missing(model, s.cache, texts);
    var asked := ManyAsked(texts, Hits(model, s.cache, texts), missing);
    assert Alone(model, available, hf, s, Many(texts), n + 2) == Alone(model, available, hf, s, asked, n + 1);
  }

  /** Alone, a single call is the `Embedded` that `Embed` is proved against. */
  lemma AloneIsEmbedded(model: string, available: bool, hf: seq<string> -> Reply, s: Shared, text: string)
    ensures var (t, c) := Alone(model, available, hf, s, One(text), 3);
            c.OneDone? && (c.result, t) == Embedded(model, available, hf, s, text)
  {
    var (t1, c1) := Alone(model, available, hf, s, One(text), 1);
    AloneOnceMore(model, available, hf, s, One(text), 1);
    AloneOnceMore(model, available, hf, s, One(text), 2);
  }
}
