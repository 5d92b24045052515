/** The reflection memory (`reflector.py`): one lesson per vulnerability class, in
    insertion order, cut to a window. */
module Reflection {
  import opened Contracts

  /** The lesson templates: each is filed under its own rule id. */
  type Templates = m: map<string, Lesson> | forall c :: c in m ==> m[c].ruleId == c
    witness map[]

  const NO_EXAMPLE := "(см. предыдущий запрос)"
  const REPHRASE := "переформулируй так, чтобы избежать этого класса"

  function FallbackLesson(v: Vulnerability): Lesson {
    Lesson(v.vulnClass,
           if v.description != "" then v.description else "Аудитор отметил " + v.vulnClass + ".",
           NO_EXAMPLE,
           if v.recommendation != "" then v.recommendation else REPHRASE)
  }

  function LessonFor(templates: Templates, v: Vulnerability): (l: Lesson)
    ensures l.ruleId == v.vulnClass
  {
    if v.vulnClass in templates then templates[v.vulnClass] else FallbackLesson(v)
  }

  function LessonsFor(templates: Templates, vs: seq<Vulnerability>): (ls: seq<Lesson>)
    ensures |ls| == |vs|
    ensures forall k :: 0 <= k < |vs| ==> ls[k] == LessonFor(templates, vs[k])
  {
    seq(|vs|, k requires 0 <= k < |vs| => LessonFor(templates, vs[k]))
  }

  // ------------------------------------------------------------------ the ordered dict

  function Ids(ls: seq<Lesson>): (ids: seq<string>)
    ensures |ids| == |ls|
    ensures forall k :: 0 <= k < |ls| ==> ids[k] == ls[k].ruleId
  {
    seq(|ls|, k requires 0 <= k < |ls| => ls[k].ruleId)
  }

  predicate Distinct(ids: seq<string>) {
    forall i, j :: 0 <= i < j < |ids| ==> ids[i] != ids[j]
  }

  /** `combined[l.rule_id] = l`: overwrite in place, or append. */
  function Put(dict: seq<Lesson>, l: Lesson): seq<Lesson> {
    if dict == [] then [l]
    else if dict[0].ruleId == l.ruleId then [l] + dict[1..]
    else [dict[0]] + Put(dict[1..], l)
  }

  function PutAll(dict: seq<Lesson>, ls: seq<Lesson>): seq<Lesson> {
    if ls == [] then dict else Put(PutAll(dict, ls[..|ls| - 1]), ls[|ls| - 1])
  }

  /** `xs[-window:]`, for every window. */
  function Window(xs: seq<Lesson>, window: int): (r: seq<Lesson>)
    ensures |r| <= |xs| && r == xs[|xs| - |r|..]
  {
    if window > 0 then (if |xs| <= window then xs else xs[|xs| - window..])
    else if -window <= |xs| then xs[-window..] else []
  }

  function Absorb(window: int, prev: seq<Lesson>, newer: seq<Lesson>): seq<Lesson> {
    Window(PutAll([], prev + newer), window)
  }

  function Reflect(templates: Templates, window: int, vs: seq<Vulnerability>, prev: seq<Lesson>): seq<Lesson> {
    Absorb(window, prev, LessonsFor(templates, vs))
  }

  class Reflector {
    const templates: Templates
    const window: int

    constructor (templates: Templates, window: int)
      ensures this.templates == templates && this.window == window
    {
      this.templates := templates;
      this.window := window;
    }

    method Run(audit: AuditResult, prev: seq<Lesson>) returns (r: seq<Lesson>)
      ensures r == Reflect(templates, window, audit.vulnerabilities, prev)
    {
      var newer: seq<Lesson> := [];
      for i := 0 to |audit.vulnerabilities|
        invariant newer == LessonsFor(templates, audit.vulnerabilities)[..i]
      {
        newer := newer + [LessonFor(templates, audit.vulnerabilities[i])];
      }
      assert newer == LessonsFor(templates, audit.vulnerabilities);
      var all := prev + newer;
      var combined: seq<Lesson> := [];
      for i := 0 to |all|
        invariant combined == PutAll([], all[..i])
      {
        assert all[..i + 1][..i] == all[..i];
        combined := Put(combined, all[i]);
      }
      assert all[..|all|] == all;
      r := Window(combined, window);
    }
  }

  // ------------------------------------------------------------------ what Put does

  /** Class names in the order in which they first occur. */
  function Firsts(ids: seq<string>): seq<string> {
    if ids == [] then []
    else
      var r := Firsts(ids[..|ids| - 1]);
      if ids[|ids| - 1] in r then r else r + [ids[|ids| - 1]]
  }

  lemma {:induction false} PutIds(dict: seq<Lesson>, l: Lesson)
    ensures Ids(Put(dict, l)) == if l.ruleId in Ids(dict) then Ids(dict) else Ids(dict) + [l.ruleId]
  {
    if dict == [] {
    } else if dict[0].ruleId == l.ruleId {
      assert Ids(dict)[0] == l.ruleId;
    } else {
      PutIds(dict[1..], l);
      assert Ids(dict) == [dict[0].ruleId] + Ids(dict[1..]);
      assert Ids(Put(dict, l)) == [dict[0].ruleId] + Ids(Put(dict[1..], l));
    }
  }

  lemma {:induction false} PutLookup(dict: seq<Lesson>, l: Lesson, k: int)
    requires 0 <= k < |Put(dict, l)|
    ensures Distinct(Ids(dict)) ==>
              Put(dict, l)[k] == l || (Put(dict, l)[k] in dict && Put(dict, l)[k].ruleId != l.ruleId)
  {
    if dict == [] {
    } else if dict[0].ruleId == l.ruleId {
      if k > 0 && Distinct(Ids(dict)) {
        assert Ids(dict)[0] != Ids(dict)[k];
      }
    } else if k > 0 {
      if Distinct(Ids(dict)) {
        DistinctTail(dict);
        PutLookup(dict[1..], l, k - 1);
      }
    }
  }

  lemma {:induction false} FirstsAre(ids: seq<string>)
    ensures Distinct(Firsts(ids))
    ensures forall c :: c in Firsts(ids) <==> c in ids
  {
    if ids != [] {
      var front, last := ids[..|ids| - 1], ids[|ids| - 1];
      FirstsAre(front);
      assert ids == front + [last];
    }
  }

  /** The keys of the combined dict are the ids in order of first insertion. */
  lemma {:induction false} PutAllIds(ls: seq<Lesson>)
    ensures Ids(PutAll([], ls)) == Firsts(Ids(ls))
  {
    if ls != [] {
      var front := ls[..|ls| - 1];
      PutAllIds(front);
      PutIds(PutAll([], front), ls[|ls| - 1]);
      assert Ids(ls)[..|ls| - 1] == Ids(front);
    }
  }

  /** l is the last lesson of its id in ls, and stands at k. */
  ghost predicate LastAt(ls: seq<Lesson>, l: Lesson, k: int) {
    0 <= k < |ls| && ls[k] == l && forall i :: k < i < |ls| ==> ls[i].ruleId != l.ruleId
  }

  lemma LastInFront(a: seq<Lesson>, b: seq<Lesson>, l: Lesson, k: int)
    requires LastAt(a, l, k)
    requires forall i :: 0 <= i < |b| ==> b[i].ruleId != l.ruleId
    ensures LastAt(a + b, l, k)
  {}

  lemma PutAllDistinctIds(ls: seq<Lesson>)
    ensures Distinct(Ids(PutAll([], ls)))
  {
    PutAllIds(ls);
    FirstsAre(Ids(ls));
  }

  lemma LastPut(ls: seq<Lesson>, l: Lesson)
    requires l in PutAll([], ls)
    ensures ls != []
    ensures l == ls[|ls| - 1] || (l in PutAll([], ls[..|ls| - 1]) && ls[|ls| - 1].ruleId != l.ruleId)
  {
    var n := |ls| - 1;
    var d := PutAll([], ls[..n]);
    PutAllDistinctIds(ls[..n]);
    hide PutAll, Distinct, Ids;
    var i :| 0 <= i < |Put(d, ls[n])| && Put(d, ls[n])[i] == l;
    PutLookup(d, ls[n], i);
  }

  /** Every value of the combined dict is the last one written for its key. */
  lemma {:induction false} PutAllLast(ls: seq<Lesson>, l: Lesson) returns (k: int)
    requires l in PutAll([], ls)
    ensures LastAt(ls, l, k)
  {
    hide PutAll;
    LastPut(ls, l);
    k := |ls| - 1;
    if l != ls[k] {
      var n := k;
      k := PutAllLast(ls[..n], l);
      LastInFront(ls[..n], [ls[n]], l, k);
      assert ls[..n] + [ls[n]] == ls;
    }
  }

  // ------------------------------------------------------------------ one reflection

  lemma AbsorbShape(window: int, prev: seq<Lesson>, newer: seq<Lesson>)
    ensures Distinct(Ids(Absorb(window, prev, newer)))
    ensures window >= 1 ==> |Absorb(window, prev, newer)| <= window
  {
    var d := PutAll([], prev + newer);
    PutAllIds(prev + newer);
    FirstsAre(Ids(prev + newer));
    var r := Window(d, window);
    forall i, j | 0 <= i < j < |r| ensures Ids(r)[i] != Ids(r)[j] {
      assert Ids(d)[|d| - |r| + i] != Ids(d)[|d| - |r| + j];
    }
  }

  lemma AbsorbLatest(window: int, prev: seq<Lesson>, newer: seq<Lesson>, l: Lesson) returns (k: int)
    requires l in Absorb(window, prev, newer)
    ensures LastAt(prev + newer, l, k)
  {
    k := PutAllLast(prev + newer, l);
  }

  lemma AbsorbAll(window: int, prev: seq<Lesson>, newer: seq<Lesson>)
    requires |Firsts(Ids(prev) + Ids(newer))| <= window || window == 0
    ensures Ids(Absorb(window, prev, newer)) == Firsts(Ids(prev) + Ids(newer))
  {
    IdsConcat(prev, newer);
    PutAllIds(prev + newer);
    hide PutAll, Firsts, Ids;
    var d := PutAll([], prev + newer);
    assert Window(d, window) == d;
  }

  /** One reflection keeps a class exactly when fewer than `window` ids follow it in the
      combined order, in which an old class keeps its old place. */
  lemma KeptIff(window: int, prev: seq<Lesson>, newer: seq<Lesson>, c: string)
    requires window >= 1
    ensures var order := Firsts(Ids(prev) + Ids(newer));
            c in Ids(Absorb(window, prev, newer))
            <==> exists k :: 0 <= k < |order| && order[k] == c && |order| - 1 - k < window
  {
    IdsConcat(prev, newer);
    PutAllIds(prev + newer);
    var d := PutAll([], prev + newer);
    WindowIds(d, window);
    hide Ids, Firsts, Window, PutAll;
    LastOnes(Ids(d), window, c);
  }

  lemma IdsConcat(a: seq<Lesson>, b: seq<Lesson>)
    ensures Ids(a + b) == Ids(a) + Ids(b)
  {}

  lemma WindowIds(d: seq<Lesson>, window: int)
    requires window >= 1
    ensures Ids(Window(d, window)) == Ids(d)[if |d| > window then |d| - window else 0..]
  {}

  lemma LastOnes<T>(s: seq<T>, window: int, c: T)
    requires window >= 1
    ensures c in s[if |s| > window then |s| - window else 0..]
            <==> exists k :: 0 <= k < |s| && s[k] == c && |s| - 1 - k < window
  {
    var n := if |s| > window then |s| - window else 0;
    if k :| 0 <= k < |s| && s[k] == c && |s| - 1 - k < window { assert s[n..][k - n] == c; }
    if c in s[n..] {
      var j :| 0 <= j < |s| - n && s[n..][j] == c;
      assert s[n + j] == c;
    }
  }

  lemma {:induction false} PutKnown(dict: seq<Lesson>, l: Lesson)
    requires l in dict && Distinct(Ids(dict))
    ensures Put(dict, l) == dict
  {
    DistinctTail(dict);
    hide Ids, Distinct;
    assert dict == [dict[0]] + dict[1..];
    if dict[0] != l { PutKnown(dict[1..], l); }
  }

  lemma DistinctTail(dict: seq<Lesson>)
    requires dict != [] && Distinct(Ids(dict))
    ensures Distinct(Ids(dict[1..])) && forall l :: l in dict[1..] ==> l.ruleId != dict[0].ruleId
  {
    forall i, j | 0 <= i < j < |dict| - 1 ensures Ids(dict[1..])[i] != Ids(dict[1..])[j] {
      assert Ids(dict)[i + 1] != Ids(dict)[j + 1];
    }
    forall l | l in dict[1..] ensures l.ruleId != dict[0].ruleId {
      var k :| 0 <= k < |dict| - 1 && dict[1..][k] == l;
      assert Ids(dict)[0] != Ids(dict)[k + 1];
    }
  }

  lemma {:induction false} PutNew(dict: seq<Lesson>, l: Lesson)
    requires l.ruleId !in Ids(dict)
    ensures Put(dict, l) == dict + [l]
  {
    if dict != [] {
      assert Ids(dict)[0] == dict[0].ruleId;
      forall i | 0 <= i < |dict| - 1 ensures Ids(dict[1..])[i] == Ids(dict)[i + 1] {}
      PutNew(dict[1..], l);
    }
  }

  lemma {:induction false} PutAllDistinct(ls: seq<Lesson>)
    requires Distinct(Ids(ls))
    ensures PutAll([], ls) == ls
  {
    if ls != [] {
      var n := |ls| - 1;
      assert Ids(ls[..n]) == Ids(ls)[..n];
      PutAllDistinct(ls[..n]);
      PutNew(ls[..n], ls[n]);
    }
  }

  lemma PutAllSnoc(ls: seq<Lesson>, l: Lesson)
    ensures PutAll([], ls + [l]) == Put(PutAll([], ls), l)
  {
    assert (ls + [l])[..|ls|] == ls;
  }

  lemma Unsplit<T>(a: seq<T>, b: seq<T>)
    requires b != []
    ensures a + b[..|b| - 1] + [b[|b| - 1]] == a + b
  {}

  lemma {:induction false} PutAllKnown(prev: seq<Lesson>, newer: seq<Lesson>)
    requires Distinct(Ids(prev)) && forall l :: l in newer ==> l in prev
    ensures PutAll([], prev + newer) == prev
  {
    if newer == [] {
      assert prev + newer == prev;
      PutAllDistinct(prev);
    } else {
      var n := |newer| - 1;
      hide PutAll, Put, Ids;
      PutAllKnown(prev, newer[..n]);
      PutKnown(prev, newer[n]);
      PutAllSnoc(prev + newer[..n], newer[n]);
      Unsplit(prev, newer);
    }
  }

  /** Lessons that are all in memory already leave the memory as it is. */
  lemma KnownLessonsSettle(window: int, prev: seq<Lesson>, newer: seq<Lesson>)
    requires Distinct(Ids(prev)) && |prev| <= window && forall l :: l in newer ==> l in prev
    ensures Absorb(window, prev, newer) == prev
  {
    PutAllKnown(prev, newer);
  }

  // ------------------------------------------------------------------ runs of the memory

  /** The memory after a run of reflections, given the lessons each of them formed. */
  function Memory(window: int, run: seq<seq<Lesson>>): seq<Lesson> {
    if run == [] then []
    else Absorb(window, Memory(window, run[..|run| - 1]), run[|run| - 1])
  }

  /** Every lesson written in a run, in order. */
  function Written(run: seq<seq<Lesson>>): seq<Lesson> {
    if run == [] then [] else Written(run[..|run| - 1]) + run[|run| - 1]
  }

  /** Rule ids in memory are distinct, and at most `window` lessons are kept when window >= 1. */
  lemma MemoryShape(window: int, run: seq<seq<Lesson>>)
    ensures Distinct(Ids(Memory(window, run)))
    ensures window >= 1 ==> |Memory(window, run)| <= window
  {
    if run != [] {
      AbsorbShape(window, Memory(window, run[..|run| - 1]), run[|run| - 1]);
    }
  }

  /** Each lesson in memory is the last one written for its class over the whole run. */
  lemma {:induction false} MemoryIsLatest(window: int, run: seq<seq<Lesson>>, l: Lesson) returns (k: int)
    requires l in Memory(window, run)
    ensures LastAt(Written(run), l, k)
  {
    hide Absorb;
    var before, newer := run[..|run| - 1], run[|run| - 1];
    var prev := Memory(window, before);
    var m := AbsorbLatest(window, prev, newer, l);
    if m < |prev| {
      assert prev[m] == l;
      k := MemoryIsLatest(window, before, l);
      AfterPrefix(prev, newer, l, m);
      LastInFront(Written(before), newer, l, k);
    } else {
      k := |Written(before)| + (m - |prev|);
      LastBehind(prev, Written(before), newer, l, m);
    }
  }

  lemma AfterPrefix(a: seq<Lesson>, b: seq<Lesson>, l: Lesson, k: int)
    requires LastAt(a + b, l, k) && k < |a|
    ensures forall i :: 0 <= i < |b| ==> b[i].ruleId != l.ruleId
  {
    forall i | 0 <= i < |b| ensures b[i].ruleId != l.ruleId {
      assert (a + b)[|a| + i] == b[i];
    }
  }

  lemma LastBehind(a: seq<Lesson>, c: seq<Lesson>, b: seq<Lesson>, l: Lesson, k: int)
    requires LastAt(a + b, l, k) && k >= |a|
    ensures LastAt(c + b, l, |c| + (k - |a|))
  {
    var n := |c| + (k - |a|);
    forall i | n < i < |c + b| ensures (c + b)[i].ruleId != l.ruleId {
      assert (a + b)[i - |c| + |a|] == (c + b)[i];
    }
  }

  lemma {:induction false} FirstsAppend(a: seq<string>, b: seq<string>)
    ensures Firsts(Firsts(a) + b) == Firsts(a + b)
    ensures Firsts(a) <= Firsts(a + b)
  {
    if b == [] {
      FirstsAre(a);
      FirstsOfDistinct(Firsts(a));
      assert Firsts(a) + b == Firsts(a) && a + b == a;
    } else {
      var front, last := b[..|b| - 1], b[|b| - 1];
      FirstsAppend(a, front);
      assert (Firsts(a) + b)[..|Firsts(a) + b| - 1] == Firsts(a) + front;
      assert (a + b)[..|a + b| - 1] == a + front;
    }
  }

  lemma {:induction false} FirstsOfDistinct(ids: seq<string>)
    requires Distinct(ids)
    ensures Firsts(ids) == ids
  {
    if ids != [] {
      var front := ids[..|ids| - 1];
      FirstsOfDistinct(front);
      assert forall i :: 0 <= i < |front| ==> ids[i] != ids[|ids| - 1];
    }
  }

  /** As long as at most `window` classes have been flagged, the memory holds all of them,
      in the order in which they were first flagged. */
  lemma {:induction false} MemoryIsComplete(window: int, run: seq<seq<Lesson>>)
    requires |Firsts(Ids(Written(run)))| <= window
    ensures Ids(Memory(window, run)) == Firsts(Ids(Written(run)))
  {
    if run != [] {
      var before, newer := run[..|run| - 1], run[|run| - 1];
      var a, b := Ids(Written(before)), Ids(newer);
      assert Ids(Written(run)) == a + b;
      FirstsAppend(a, b);
      MemoryIsComplete(window, before);
      AbsorbAll(window, Memory(window, before), newer);
    }
  }

  /** What a memory keeps of the lessons written so far. */
  ghost predicate GoodMemory(window: int, written: seq<Lesson>, memory: seq<Lesson>) {
    && Distinct(Ids(memory))
    && (window >= 1 ==> |memory| <= window)
    && (forall l :: l in memory ==> exists k :: LastAt(written, l, k))
    && (|Firsts(Ids(written))| <= window ==> Ids(memory) == Firsts(Ids(written)))
  }

  lemma MemoryIsGood(window: int, run: seq<seq<Lesson>>)
    ensures GoodMemory(window, Written(run), Memory(window, run))
  {
    var written, memory := Written(run), Memory(window, run);
    MemoryShape(window, run);
    forall l | l in memory ensures exists k :: LastAt(written, l, k) {
      var k := MemoryIsLatest(window, run, l);
    }
    if |Firsts(Ids(written))| <= window { MemoryIsComplete(window, run); }
  }

  /** The window is not "the last lessons written": a class flagged again keeps its old place.
      With a full memory of any size, five classes say, whose oldest class is flagged again
      together with a new one, the lesson that was just rewritten is the one that is dropped. */
  lemma JustFlaggedIsDropped(prev: seq<Lesson>, a: Lesson, b: Lesson)
    requires prev != [] && Distinct(Ids(prev)) && a.ruleId == prev[0].ruleId && b.ruleId !in Ids(prev)
    ensures a.ruleId !in Ids(Absorb(|prev|, prev, [a, b]))
  {
    var p, x, y := Ids(prev), a.ruleId, b.ruleId;
    KeptIff(|prev|, prev, [a, b], x);
    assert Ids([a, b]) == [x, y];
    assert p[0] == x && p + [x, y] == p + [x] + [y];
    hide Ids;
    FirstsOfDistinct(p);
    assert x in p;
    FirstsSnoc(p, x);
    FirstsSnoc(p + [x], y);
  }

  lemma FirstsSnoc(ids: seq<string>, c: string)
    ensures Firsts(ids + [c]) == if c in Firsts(ids) then Firsts(ids) else Firsts(ids) + [c]
  {
    assert (ids + [c])[..|ids|] == ids;
  }

  /** Window 0 keeps everything: `xs[-0:]` is the whole list. */
  lemma WindowZeroKeepsAll(prev: seq<Lesson>, newer: seq<Lesson>)
    ensures Ids(Absorb(0, prev, newer)) == Firsts(Ids(prev) + Ids(newer))
  {
    AbsorbAll(0, prev, newer);
  }

  /** A negative window drops that many of the oldest classes instead: `xs[-window:]` again. */
  lemma WindowBelowZero(window: int, prev: seq<Lesson>, newer: seq<Lesson>)
    requires window < 0
    ensures var order := Firsts(Ids(prev) + Ids(newer));
            Ids(Absorb(window, prev, newer)) == if -window <= |order| then order[-window..] else []
  {
    IdsConcat(prev, newer);
    PutAllIds(prev + newer);
    hide PutAll, Firsts;
  }

  /** A class that was flagged and is kept is remembered with the lesson of its last finding: the
      template filed under the class, or else the finding's own words. */
  lemma FlaggedIsRemembered(templates: Templates, window: int, vs: seq<Vulnerability>, prev: seq<Lesson>, k: nat)
    requires k < |vs| && forall i :: k < i < |vs| ==> vs[i].vulnClass != vs[k].vulnClass
    requires vs[k].vulnClass in Ids(Reflect(templates, window, vs, prev))
    ensures var v := vs[k];
      (if v.vulnClass in templates then templates[v.vulnClass]
       else Lesson(v.vulnClass,
                   if v.description == "" then "Аудитор отметил " + v.vulnClass + "." else v.description,
                   "(см. предыдущий запрос)",
                   if v.recommendation == "" then "переформулируй так, чтобы избежать этого класса" else v.recommendation))
      in Reflect(templates, window, vs, prev)
  {
    var newer, r := LessonsFor(templates, vs), Reflect(templates, window, vs, prev);
    var i :| 0 <= i < |Ids(r)| && Ids(r)[i] == vs[k].vulnClass;
    var m := AbsorbLatest(window, prev, newer, r[i]);
    hide Absorb;
    assert (prev + newer)[|prev| + k] == newer[k];
    assert m >= |prev| + k;
    assert (prev + newer)[m] == newer[m - |prev|];
    assert m == |prev| + k;
  }

  // ------------------------------------------------------------------ equal up to advice

  lemma {:induction false} PutSame(d1: seq<Lesson>, d2: seq<Lesson>, l1: Lesson, l2: Lesson)
    requires SameLessons(d1, d2) && SameLesson(l1, l2)
    ensures SameLessons(Put(d1, l1), Put(d2, l2))
  {
    if d1 != [] && d1[0].ruleId != l1.ruleId {
      PutSame(d1[1..], d2[1..], l1, l2);
    }
  }

  lemma {:induction false} PutAllSame(ls: seq<Lesson>, ms: seq<Lesson>)
    requires SameLessons(ls, ms)
    ensures SameLessons(PutAll([], ls), PutAll([], ms))
  {
    if ls != [] {
      var n := |ls| - 1;
      PutAllSame(ls[..n], ms[..n]);
      PutSame(PutAll([], ls[..n]), PutAll([], ms[..n]), ls[n], ms[n]);
    }
  }

  /** Advice reaches only the examples of a lesson, never the text a prompt shows. */
  lemma ReflectIgnoresAdvice(templates: Templates, window: int,
                             vs: seq<Vulnerability>, ws: seq<Vulnerability>, p: seq<Lesson>, q: seq<Lesson>)
    requires SameFindings(vs, ws) && SameLessons(p, q)
    ensures SameLessons(Reflect(templates, window, vs, p), Reflect(templates, window, ws, q))
  {
    var ls, ms := p + LessonsFor(templates, vs), q + LessonsFor(templates, ws);
    forall k | 0 <= k < |ls| ensures SameLesson(ls[k], ms[k]) {
      if k >= |p| { assert SameButAdvice(vs[k - |p|], ws[k - |p|]); }
    }
    PutAllSame(ls, ms);
  }
}
