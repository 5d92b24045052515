/** What every run of the loop guarantees, whatever its nodes do. */
module LoopProperties {
  import opened Text
  import opened Contracts
  import opened Pipeline

  datatype Outcome = ApprovedEnd | NonSqlEnd | Exhausted

  /** The language of event traces, read against the iteration log they belong to: rejected
      blocks, each announcing the lessons the next one starts with, then one of three ends. */
  ghost predicate LoopTrace(t: seq<Event>, log: seq<IterationLog>, it: int, max: int,
                            lessons: seq<string>, out: Outcome)
    decreases |t|
  {
    if it > max then t == [] && log == [] && out == Exhausted
    else
      && |t| >= 4 && log != [] && log[0].round == it
      && t[0] == IterStart(it)
      && t[1] == GeneratorStart(it, lessons)
      && t[2] == GeneratorDone(it, log[0].sql)
      && var a := log[0].audit;
         match t[3]
         case NonSqlOutput(i, text) =>
           && i == it && text == Take(log[0].sql, 500) && a == FAKE_AUDIT
           && |t| == 4 && |log| == 1 && out == NonSqlEnd
         case AuditorStart(i) =>
           && i == it && |t| >= 5
           && t[4] == AuditorDone(it, a.approved, a.risk, ShowAll(a.vulnerabilities))
           && (if a.approved then |t| == 5 && |log| == 1 && out == ApprovedEnd
               else
                 && |t| >= 7 && t[5] == ReflectorStart(it)
                 && t[6].ReflectorDone? && t[6].round == it
                 && LoopTrace(t[7..], log[1..], it + 1, max, t[6].lessons, out))
         case _ => false
  }

  lemma RoundEvents(n: Nodes, it: int, s: RunState) returns (t: seq<Event>, il: IterationLog)
    ensures Round(n, it, s).events == s.events + t && Round(n, it, s).log == s.log + [il]
    ensures il.round == it && il.sql == NextSql(n, it, s) == Round(n, it, s).lastSql
    ensures il.audit == if n.hasKeyword(il.sql) then n.audit(it, il.sql) else FAKE_AUDIT
    ensures if !n.hasKeyword(il.sql) then
              && t == [IterStart(it), GeneratorStart(it, Render(s.reflection)), GeneratorDone(it, il.sql),
                       NonSqlOutput(it, Take(il.sql, 500))]
              && Round(n, it, s).stopped
            else
              && Round(n, it, s).stopped == il.audit.approved
              && t == [IterStart(it), GeneratorStart(it, Render(s.reflection)), GeneratorDone(it, il.sql),
                       AuditorStart(it), AuditorDone(it, il.audit.approved, il.audit.risk, ShowAll(il.audit.vulnerabilities))]
                      + (if il.audit.approved then []
                         else [ReflectorStart(it), ReflectorDone(it, Render(Round(n, it, s).reflection))])
  {
    var r := Round(n, it, s);
    t, il := r.events[|s.events|..], r.log[|s.log|];
  }

  lemma Halves<T>(a: seq<T>, b: seq<T>)
    ensures (a + b)[|a|..] == b && forall k :: 0 <= k < |a| ==> (a + b)[k] == a[k]
  {}

  lemma TraceBlock(t1: seq<Event>, t2: seq<Event>, il: IterationLog, l2: seq<IterationLog>, it: int, max: int,
                   lessons: seq<string>, next: seq<string>, out: Outcome)
    requires it <= max && il.round == it && !il.audit.approved
    requires t1 == [IterStart(it), GeneratorStart(it, lessons), GeneratorDone(it, il.sql), AuditorStart(it),
                    AuditorDone(it, il.audit.approved, il.audit.risk, ShowAll(il.audit.vulnerabilities)),
                    ReflectorStart(it), ReflectorDone(it, next)]
    requires LoopTrace(t2, l2, it + 1, max, next, out)
    ensures LoopTrace(t1 + t2, [il] + l2, it, max, lessons, out)
  {
    hide LoopTrace, ShowAll;
    var t, l := t1 + t2, [il] + l2;
    Halves(t1, t2);
    Halves([il], l2);
    assert t[0] == t1[0] && t[1] == t1[1] && t[2] == t1[2] && t[3] == t1[3] && t[4] == t1[4] && t[5] == t1[5];
    assert t[6] == t1[6] && l[0] == il;
    TraceStep(t, l, it, max, lessons, next, out);
  }

  lemma TraceStep(t: seq<Event>, l: seq<IterationLog>, it: int, max: int,
                  lessons: seq<string>, next: seq<string>, out: Outcome)
    requires it <= max && |t| >= 7 && l != [] && l[0].round == it && !l[0].audit.approved
    requires t[0] == IterStart(it) && t[1] == GeneratorStart(it, lessons) && t[2] == GeneratorDone(it, l[0].sql)
    requires t[3] == AuditorStart(it)
    requires t[4] == AuditorDone(it, false, l[0].audit.risk, ShowAll(l[0].audit.vulnerabilities))
    requires t[5] == ReflectorStart(it) && t[6] == ReflectorDone(it, next)
    requires LoopTrace(t[7..], l[1..], it + 1, max, next, out)
    ensures LoopTrace(t, l, it, max, lessons, out)
  {}

  /** From any state of the loop on, the emitted events and the log grow by a word of the
      trace language and the log it tells. */
  lemma {:induction false} TraceFrom(n: Nodes, it: int, s: RunState)
    returns (t: seq<Event>, log: seq<IterationLog>, out: Outcome)
    requires !s.stopped
    ensures var r := Rounds(n, it, s);
      && r.events == s.events + t && r.log == s.log + log
      && LoopTrace(t, log, it, n.max, Render(s.reflection), out)
      && out == (if !r.stopped then Exhausted
                 else if n.hasKeyword(r.lastSql) then ApprovedEnd else NonSqlEnd)
    decreases n.max - it
  {
    if it > n.max {
      t, log, out := [], [], Exhausted;
    } else {
      var s1 := Round(n, it, s);
      var t1, il := RoundEvents(n, it, s);
      if s1.stopped {
        t, log, out := t1, [il], if n.hasKeyword(il.sql) then ApprovedEnd else NonSqlEnd;
        assert Rounds(n, it, s) == Rounds(n, it + 1, s1) == s1;
      } else {
        var t2, l2;
        t2, l2, out := TraceFrom(n, it + 1, s1);
        t, log := t1 + t2, [il] + l2;
        TraceBlock(t1, t2, il, l2, it, n.max, Render(s.reflection), Render(s1.reflection), out);
        Assoc(s.events, t1, t2);
        Assoc(s.log, [il], l2);
        assert Rounds(n, it, s) == Rounds(n, it + 1, s1);
      }
    }
  }

  /** The events of a whole run are one word of the trace language, telling its log. */
  lemma RunTrace(n: Nodes) returns (out: Outcome)
    ensures var r := Final(n);
      && LoopTrace(r.events, r.log, 1, n.max, [], out)
      && out == (if !r.stopped then Exhausted
                 else if n.hasKeyword(r.lastSql) then ApprovedEnd else NonSqlEnd)
  {
    var t, log;
    t, log, out := TraceFrom(n, 1, START);
    assert [] + t == t && [] + log == log;
    assert Render([]) == [];
  }

  // ------------------------------------------------------------------ the log

  /** The log entry k is what the nodes answered in round k + 1. */
  ghost predicate EntryOk(n: Nodes, log: seq<IterationLog>, history: seq<string>, k: int)
    requires 0 <= k < |log| == |history|
  {
    && log[k].round == k + 1
    && log[k].sql == history[k]
    && log[k].audit == (if n.hasKeyword(history[k]) then n.audit(k + 1, history[k]) else FAKE_AUDIT)
  }

  /** An iteration the loop goes on after. */
  ghost predicate GoesOn(n: Nodes, il: IterationLog) {
    n.hasKeyword(il.sql) && !il.audit.approved
  }

  ghost predicate LogOk(n: Nodes, s: RunState) {
    && |s.history| == |s.log|
    && (forall k :: 0 <= k < |s.log| ==> EntryOk(n, s.log, s.history, k))
    && (forall k :: 0 <= k < |s.log| - 1 ==> GoesOn(n, s.log[k]))
    && (s.log == [] ==> s.lastAudit == None && s.lastSql == "" && !s.stopped)
    && (s.log != [] ==>
          var last := s.log[|s.log| - 1];
          && s.lastAudit == Some(last.audit) && s.lastSql == last.sql
          && (s.stopped <==> !GoesOn(n, last)))
  }

  lemma RoundKeepsLog(n: Nodes, it: int, s: RunState)
    requires LogOk(n, s) && !s.stopped && |s.log| == it - 1
    ensures LogOk(n, Round(n, it, s)) && |Round(n, it, s).log| == it
  {
    var t, il := RoundEvents(n, it, s);
    var r := Round(n, it, s);
    assert r.history == s.history + [il.sql];
    forall k | 0 <= k < |r.log| ensures EntryOk(n, r.log, r.history, k) {
      if k < |s.log| { assert EntryOk(n, s.log, s.history, k); }
    }
    forall k | 0 <= k < |r.log| - 1 ensures GoesOn(n, r.log[k]) {
      assert r.log[k] == s.log[k];
    }
  }

  lemma {:induction false} RoundsKeepLog(n: Nodes, it: int, s: RunState)
    requires LogOk(n, s) && (|s.log| == it - 1 || s.stopped)
    ensures LogOk(n, Rounds(n, it, s))
    ensures !Rounds(n, it, s).stopped ==> |Rounds(n, it, s).log| >= n.max
    ensures |Rounds(n, it, s).log| <= if n.max > |s.log| then n.max else |s.log|
    decreases n.max - it
  {
    if it <= n.max && !s.stopped {
      RoundKeepsLog(n, it, s);
      RoundsKeepLog(n, it + 1, Round(n, it, s));
    }
  }

  /** The result of a run: the log is numbered 1..n with n = iterations_used within the
      limit, every entry but the last was rejected and SQL-like, a run that ends early ends
      with an approved or non-SQL entry, and query and approval are those of the last entry. */
  lemma RunResult(n: Nodes)
    ensures var r := Result(Final(n));
      && LogOk(n, Final(n))
      && r.iterationsUsed == |r.log| <= (if n.max > 0 then n.max else 0)
      && (n.max > 0 ==> r.log != [])
      && (r.iterationsUsed < n.max ==> !GoesOn(n, r.log[|r.log| - 1]))
      && (r.log != [] ==> r.approved == r.log[|r.log| - 1].audit.approved && r.finalSql == r.log[|r.log| - 1].sql)
      && (r.log == [] ==> !r.approved && r.finalSql == "")
      && |r.riskTrajectory| == r.iterationsUsed
  {
    RoundsKeepLog(n, 1, START);
  }

  /** The early-exit flag is raised by a non-SQL ending, and otherwise only by an auditor
      that itself reports the class NOT_A_QUERY. */
  lemma EarlyExitIff(n: Nodes)
    ensures var r := Result(Final(n));
      r.earlyExit <==> (r.log != [] && !n.hasKeyword(r.finalSql))
                       || (exists k :: 0 <= k < |r.log| && n.hasKeyword(r.log[k].sql)
                             && exists v :: v in r.log[k].audit.vulnerabilities && v.vulnClass == "NOT_A_QUERY")
  {
    RunResult(n);
    var s := Final(n);
    assert REFUSAL in FAKE_AUDIT.vulnerabilities;
    forall k | 0 <= k < |s.log| && !n.hasKeyword(s.log[k].sql)
      ensures k == |s.log| - 1 && FlaggedNotAQuery(s.log[k])
    {
      assert EntryOk(n, s.log, s.history, k);
      assert k < |s.log| - 1 ==> GoesOn(n, s.log[k]);
    }
    hide LogOk, EntryOk;
    if exists il :: il in s.log && FlaggedNotAQuery(il) {
      var il :| il in s.log && FlaggedNotAQuery(il);
      var k :| 0 <= k < |s.log| && s.log[k] == il;
      assert !n.hasKeyword(s.log[k].sql) ==> k == |s.log| - 1;
    }
    if k :| 0 <= k < |s.log| && n.hasKeyword(s.log[k].sql) && FlaggedNotAQuery(s.log[k]) {
      assert s.log[k] in s.log;
    }
  }

  // ------------------------------------------------------------------ the lessons

  /** The lessons announced last in a trace. */
  function Announced(t: seq<Event>): seq<string> {
    if t == [] then []
    else if t[|t| - 1].ReflectorDone? then t[|t| - 1].lessons
    else Announced(t[..|t| - 1])
  }

  lemma {:induction false} NothingAnnounced(a: seq<Event>, t: seq<Event>)
    requires forall e :: e in t ==> !e.ReflectorDone?
    ensures Announced(a + t) == Announced(a)
  {
    if t == [] {
      assert a + t == a;
    } else {
      NothingAnnounced(a, t[..|t| - 1]);
      assert (a + t)[..|a + t| - 1] == a + t[..|t| - 1];
    }
  }

  lemma RoundAnnounces(n: Nodes, it: int, s: RunState)
    requires Render(s.reflection) == Announced(s.events)
    ensures Render(Round(n, it, s).reflection) == Announced(Round(n, it, s).events)
  {
    var t, il := RoundEvents(n, it, s);
    var r := Round(n, it, s);
    if n.hasKeyword(il.sql) && !il.audit.approved {
      assert r.events[|r.events| - 1] == t[|t| - 1];
    } else {
      NothingAnnounced(s.events, t);
    }
  }

  lemma {:induction false} RoundsAnnounce(n: Nodes, it: int, s: RunState)
    requires Render(s.reflection) == Announced(s.events)
    ensures Render(Rounds(n, it, s).reflection) == Announced(Rounds(n, it, s).events)
    decreases n.max - it
  {
    if it <= n.max && !s.stopped {
      RoundAnnounces(n, it, s);
      RoundsAnnounce(n, it + 1, Round(n, it, s));
    }
  }

  /** The final lessons of the result are those announced last in the event trace, and the risk
      trajectory is the risks of the log, one by one. */
  lemma MetadataTellsTheRun(n: Nodes)
    ensures var s, r := Final(n), Result(Final(n));
      && r.reflectionFinal == Announced(s.events)
      && |r.riskTrajectory| == |r.log| && forall k :: 0 <= k < |r.log| ==> r.riskTrajectory[k] == r.log[k].audit.risk
  {
    assert Render([]) == [];
    RoundsAnnounce(n, 1, START);
  }

  // ------------------------------------------------------------------ two runs

  /** Nodes that differ only in the advice they attach to their findings. */
  ghost predicate DifferInAdvice(n: Nodes, m: Nodes) {
    && n.max == m.max && n.hasKeyword == m.hasKeyword
    && (forall h, f, g, it, p, q :: SameFeedback(f, g) && SameLessons(p, q)
          ==> n.generate(h, f, it, p) == m.generate(h, g, it, q))
    && (forall it, sql :: SameVerdict(n.audit(it, sql), m.audit(it, sql)))
    && (forall it, a, b, p, q :: SameVerdict(a, b) && SameLessons(p, q)
          ==> SameLessons(n.reflect(it, a, p), m.reflect(it, b, q)))
  }

  ghost predicate AlikeLogs(l: seq<IterationLog>, m: seq<IterationLog>) {
    |l| == |m| && forall k :: 0 <= k < |l| ==>
      l[k].round == m[k].round && l[k].sql == m[k].sql && l[k].revision == m[k].revision
      && SameVerdict(l[k].audit, m[k].audit)
  }

  ghost predicate Alike(s: RunState, t: RunState) {
    && s.history == t.history && s.lastSql == t.lastSql && s.stopped == t.stopped
    && s.events == t.events
    && SameFeedback(s.lastAudit, t.lastAudit) && SameLessons(s.reflection, t.reflection)
    && AlikeLogs(s.log, t.log)
  }

  lemma ShowIgnoresAdvice(vs: seq<Vulnerability>, ws: seq<Vulnerability>)
    requires SameFindings(vs, ws)
    ensures ShowAll(vs) == ShowAll(ws)
  {
    forall k | 0 <= k < |vs| ensures ShowAll(vs)[k] == ShowAll(ws)[k] { assert SameButAdvice(vs[k], ws[k]); }
  }

  lemma RenderIgnoresAdvice(p: seq<Lesson>, q: seq<Lesson>)
    requires SameLessons(p, q)
    ensures Render(p) == Render(q) && RevisionOf(p) == RevisionOf(q)
  {
    forall k | 0 <= k < |p| ensures Render(p)[k] == Render(q)[k] { assert SameLesson(p[k], q[k]); }
    forall k | 0 <= k < |p| ensures p[k].ruleId == q[k].ruleId { assert SameLesson(p[k], q[k]); }
    if p != [] {
      assert RevisionOf(p).ids == RevisionOf(q).ids;
    }
  }

  lemma AlikeRound(n: Nodes, m: Nodes, it: int, s: RunState, t: RunState)
    requires DifferInAdvice(n, m) && Alike(s, t)
    ensures Alike(Round(n, it, s), Round(m, it, t))
  {
    RenderIgnoresAdvice(s.reflection, t.reflection);
    var sql := NextSql(n, it, s);
    assert sql == NextSql(m, it, t);
    if n.hasKeyword(sql) {
      var a, b := n.audit(it, sql), m.audit(it, sql);
      assert SameVerdict(a, b);
      ShowIgnoresAdvice(a.vulnerabilities, b.vulnerabilities);
      var p, q := n.reflect(it, a, s.reflection), m.reflect(it, b, t.reflection);
      assert SameLessons(p, q);
      RenderIgnoresAdvice(p, q);
    }
  }

  lemma {:induction false} AlikeRounds(n: Nodes, m: Nodes, it: int, s: RunState, t: RunState)
    requires DifferInAdvice(n, m) && Alike(s, t)
    ensures Alike(Rounds(n, it, s), Rounds(m, it, t))
    decreases n.max - it
  {
    if it <= n.max && !s.stopped {
      AlikeRound(n, m, it, s, t);
      AlikeRounds(n, m, it + 1, Round(n, it, s), Round(m, it, t));
    }
  }

  /** Two runs that differ in advice only have the same queries, events, verdicts and lessons. */
  lemma SameRun(n: Nodes, m: Nodes)
    requires DifferInAdvice(n, m)
    ensures Alike(Final(n), Final(m))
    ensures var r, q := Result(Final(n)), Result(Final(m));
      && r.finalSql == q.finalSql && r.approved == q.approved && r.iterationsUsed == q.iterationsUsed
      && r.riskTrajectory == q.riskTrajectory && r.reflectionFinal == q.reflectionFinal
      && r.earlyExit == q.earlyExit
  {
    AlikeRounds(n, m, 1, START, START);
    var s, t := Final(n), Final(m);
    RenderIgnoresAdvice(s.reflection, t.reflection);
    forall k | 0 <= k < |s.log| ensures FlaggedNotAQuery(s.log[k]) == FlaggedNotAQuery(t.log[k]) {
      SameFlags(s.log[k], t.log[k]);
      SameFlags(t.log[k], s.log[k]);
    }
  }

  lemma SameFlags(l: IterationLog, m: IterationLog)
    requires SameVerdict(l.audit, m.audit)
    ensures FlaggedNotAQuery(l) ==> FlaggedNotAQuery(m)
  {
    if v :| v in l.audit.vulnerabilities && v.vulnClass == NOT_A_QUERY {
      var k :| 0 <= k < |l.audit.vulnerabilities| && l.audit.vulnerabilities[k] == v;
      assert SameButAdvice(v, m.audit.vulnerabilities[k]);
    }
  }

  // ------------------------------------------------------------------ going in circles

  /** Nodes without a memory of their own: what they answer depends on the last query, the
      verdict on it and the lessons, not on the round. */
  ghost predicate Steady(n: Nodes) {
    && (forall h, k, f, g, i, j, p, q ::
          h != [] && k != [] && h[|h| - 1] == k[|k| - 1] && SameFeedback(f, g) && SameLessons(p, q)
          ==> n.generate(h, f, i, p) == n.generate(k, g, j, q))
    && (forall i, j, sql :: SameVerdict(n.audit(i, sql), n.audit(j, sql)))
    && (forall i, j, a, b, p, q :: SameVerdict(a, b) && SameLessons(p, q)
          ==> SameLessons(n.reflect(i, a, p), n.reflect(j, b, q)))
  }

  /** The query q has just been rejected, its rejection teaches nothing new, and the
      generator answers q again. */
  ghost predicate Stuck(n: Nodes, it: int, s: RunState, q: string) {
    && !s.stopped && s.history != [] && s.history[|s.history| - 1] == q && n.hasKeyword(q)
    && s.lastAudit.Some? && SameVerdict(s.lastAudit.value, n.audit(it, q)) && !n.audit(it, q).approved
    && SameLessons(n.reflect(it, n.audit(it, q), s.reflection), s.reflection)
    && NextSql(n, it, s) == q
  }

  lemma SameLessonsChain(a: seq<Lesson>, b: seq<Lesson>, c: seq<Lesson>)
    requires SameLessons(a, b) && SameLessons(c, b)
    ensures SameLessons(a, c)
  {
    forall k | 0 <= k < |a| ensures SameLesson(a[k], c[k]) {
      assert SameLesson(a[k], b[k]) && SameLesson(c[k], b[k]);
    }
  }

  lemma StuckRound(n: Nodes, it: int, s: RunState, q: string)
    requires Steady(n) && Stuck(n, it, s, q)
    ensures Stuck(n, it + 1, Round(n, it, s), q)
    ensures Round(n, it, s).history == s.history + [q] && |Round(n, it, s).log| == |s.log| + 1
  {
    var r := Round(n, it, s);
    var a, b := n.audit(it, q), n.audit(it + 1, q);
    assert r.history == s.history + [q] && r.lastAudit == Some(a) && r.reflection == n.reflect(it, a, s.reflection);
    assert SameVerdict(a, b);
    assert SameLessons(n.reflect(it + 1, b, r.reflection), n.reflect(it, a, s.reflection));
    SameLessonsChain(n.reflect(it + 1, b, r.reflection), r.reflection, r.reflection) by {
      assert SameLessons(r.reflection, r.reflection);
    }
    assert n.generate(r.history, r.lastAudit, it + 1, r.reflection)
        == n.generate(s.history, s.lastAudit, it, s.reflection);
  }

  /** Once stuck, the loop repeats the same query until the limit and ends unapproved. */
  lemma {:induction false} StuckForever(n: Nodes, it: int, s: RunState, q: string)
    requires Steady(n) && Stuck(n, it, s, q) && it <= n.max + 1
    ensures var r := Rounds(n, it, s);
      && !r.stopped && r.lastAudit.Some? && !r.lastAudit.value.approved
      && |r.log| == |s.log| + (n.max + 1 - it)
      && |r.history| == |s.history| + (n.max + 1 - it) && s.history <= r.history
      && forall k :: |s.history| <= k < |r.history| ==> r.history[k] == q
    decreases n.max - it
  {
    if it <= n.max {
      StuckRound(n, it, s, q);
      hide Round, Stuck;
      StuckForever(n, it + 1, Round(n, it, s), q);
    }
  }
}
