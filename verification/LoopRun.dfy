/** The run of the loop, told round by round by the answers of its nodes. */
module LoopRun {
  import opened Contracts
  import opened Pipeline

  function Queries(log: seq<IterationLog>): (qs: seq<string>)
    ensures |qs| == |log| && forall k :: 0 <= k < |log| ==> qs[k] == log[k].sql
  {
    seq(|log|, k requires 0 <= k < |log| => log[k].sql)
  }

  /** The audit made up for a reply that is not SQL. */
  predicate Refusal(a: AuditResult) {
    !a.approved && a.risk == 10.0 && |a.vulnerabilities| == 1
    && a.vulnerabilities[0].vulnClass == "NOT_A_QUERY" && a.vulnerabilities[0].risk == 10.0
  }

  /** The revision note names the lessons held, one by one. */
  predicate Notes(r: Revision, lessons: seq<Lesson>) {
    if lessons == [] then r == Initial
    else
      r.AfterLessons? && |r.ids| == |lessons| && forall j :: 0 <= j < |lessons| ==> r.ids[j] == lessons[j].ruleId
  }

  /** The loop goes on after an entry that is SQL-like and rejected, and after no other. */
  ghost predicate SentBack(n: Nodes, il: IterationLog) {
    n.hasKeyword(il.sql) && !il.audit.approved
  }

  /** Entry k: the generator is called with the queries before it, the audit before it and the
      lessons held; the auditor with its reply, if that is SQL-like; the reflector with the
      audit, if that is a rejection. */
  ghost predicate RoundIs(n: Nodes, log: seq<IterationLog>, lessons: seq<seq<Lesson>>, k: nat)
    requires k < |log| && |lessons| == |log| + 1
  {
    var il := log[k];
    && il.round == k + 1
    && il.sql == n.generate(Queries(log)[..k], if k == 0 then None else Some(log[k - 1].audit), k + 1, lessons[k])
    && (if n.hasKeyword(il.sql) then
          && il.audit == n.audit(k + 1, il.sql)
          && Notes(il.revision, lessons[k])
        else Refusal(il.audit) && il.revision == EarlyExit)
    && lessons[k + 1] == (if SentBack(n, il) then n.reflect(k + 1, il.audit, lessons[k]) else lessons[k])
  }

  /** `lessons[k]` are those held when round k + 1 begins. */
  ghost predicate Told(n: Nodes, log: seq<IterationLog>, lessons: seq<seq<Lesson>>) {
    && |lessons| == |log| + 1 && lessons[0] == []
    && (forall k :: 0 <= k < |log| ==> RoundIs(n, log, lessons, k))
    && (forall k :: 0 <= k < |log| - 1 ==> SentBack(n, log[k]))
  }

  ghost predicate ToldState(n: Nodes, s: RunState, lessons: seq<seq<Lesson>>) {
    && Told(n, s.log, lessons)
    && s.history == Queries(s.log) && s.reflection == lessons[|s.log|]
    && (s.log == [] ==> s.lastAudit == None && s.lastSql == "" && !s.stopped)
    && (s.log != [] ==>
          var last := s.log[|s.log| - 1];
          s.lastAudit == Some(last.audit) && s.lastSql == last.sql && (s.stopped <==> !SentBack(n, last)))
  }

  lemma EarlierRound(n: Nodes, log: seq<IterationLog>, lessons: seq<seq<Lesson>>, k: nat,
                     il: IterationLog, next: seq<Lesson>)
    requires k < |log| && |lessons| == |log| + 1 && RoundIs(n, log, lessons, k)
    ensures RoundIs(n, log + [il], lessons + [next], k)
  {
    assert Queries(log + [il])[..k] == Queries(log)[..k];
  }

  lemma OneRound(n: Nodes, it: int, s: RunState) returns (il: IterationLog)
    ensures var r := Round(n, it, s);
      && r.log == s.log + [il] && r.history == s.history + [il.sql]
      && r.lastAudit == Some(il.audit) && r.lastSql == il.sql
      && il.round == it && il.sql == n.generate(s.history, s.lastAudit, it, s.reflection)
      && il.audit == (if n.hasKeyword(il.sql) then n.audit(it, il.sql) else FAKE_AUDIT)
      && il.revision == (if n.hasKeyword(il.sql) then RevisionOf(s.reflection) else EarlyExit)
      && r.reflection == (if SentBack(n, il) then n.reflect(it, il.audit, s.reflection) else s.reflection)
      && (r.stopped <==> !SentBack(n, il))
  {
    il := Round(n, it, s).log[|s.log|];
  }

  lemma LastRound(n: Nodes, s: RunState, lessons: seq<seq<Lesson>>, il: IterationLog, next: seq<Lesson>)
    requires ToldState(n, s, lessons)
    requires il.round == |s.log| + 1 && il.sql == n.generate(s.history, s.lastAudit, |s.log| + 1, s.reflection)
    requires il.audit == if n.hasKeyword(il.sql) then n.audit(|s.log| + 1, il.sql) else FAKE_AUDIT
    requires il.revision == if n.hasKeyword(il.sql) then RevisionOf(s.reflection) else EarlyExit
    requires next == if SentBack(n, il) then n.reflect(|s.log| + 1, il.audit, s.reflection) else s.reflection
    ensures RoundIs(n, s.log + [il], lessons + [next], |s.log|)
  {
    assert Queries(s.log + [il])[..|s.log|] == s.history;
    assert Refusal(FAKE_AUDIT) by { assert FAKE_AUDIT.vulnerabilities == [REFUSAL]; }
  }

  lemma NextRound(n: Nodes, it: int, s: RunState, lessons: seq<seq<Lesson>>) returns (longer: seq<seq<Lesson>>)
    requires ToldState(n, s, lessons) && !s.stopped && |s.log| == it - 1
    ensures ToldState(n, Round(n, it, s), longer) && |Round(n, it, s).log| == it
  {
    var r := Round(n, it, s);
    var il := OneRound(n, it, s);
    longer := lessons + [r.reflection];
    LastRound(n, s, lessons, il, r.reflection);
    hide Round, RevisionOf;
    assert Queries(r.log) == Queries(s.log) + [il.sql];
    forall k | 0 <= k < |r.log| ensures RoundIs(n, r.log, longer, k) {
      if k < |s.log| { EarlierRound(n, s.log, lessons, k, il, r.reflection); }
    }
    hide RoundIs;
    forall k | 0 <= k < |r.log| - 1 ensures SentBack(n, r.log[k]) {
      assert r.log[k] == s.log[k];
    }
  }

  lemma {:induction false} RoundsAreTold(n: Nodes, it: int, s: RunState, lessons: seq<seq<Lesson>>)
    returns (longer: seq<seq<Lesson>>)
    requires ToldState(n, s, lessons) && (|s.log| == it - 1 || s.stopped)
    ensures ToldState(n, Rounds(n, it, s), longer)
    ensures |Rounds(n, it, s).log| <= if n.max > |s.log| then n.max else |s.log|
    ensures !Rounds(n, it, s).stopped ==> |Rounds(n, it, s).log| >= n.max
    decreases n.max - it
  {
    longer := lessons;
    if it <= n.max && !s.stopped {
      var l := NextRound(n, it, s, lessons);
      hide Round, ToldState;
      longer := RoundsAreTold(n, it + 1, Round(n, it, s), l);
    }
  }

  /** Every run: the log is told by the nodes, round by round, as above; it ends with the first
      entry that is approved or not SQL-like, and at the limit otherwise; and the result
      repeats what the log and the lessons say. */
  lemma RunIsTold(n: Nodes) returns (lessons: seq<seq<Lesson>>)
    ensures var r := Result(Final(n));
      && Told(n, r.log, lessons)
      && |r.log| <= (if n.max > 0 then n.max else 0)
      && (|r.log| < n.max ==> r.log != [] && !SentBack(n, r.log[|r.log| - 1]))
    ensures var r := Result(Final(n));
      && r.iterationsUsed == |r.log|
      && (if r.log == [] then r.finalSql == "" && !r.approved
          else r.finalSql == r.log[|r.log| - 1].sql && r.approved == r.log[|r.log| - 1].audit.approved)
      && |r.riskTrajectory| == |r.log|
      && (forall k :: 0 <= k < |r.log| ==> r.riskTrajectory[k] == r.log[k].audit.risk)
    ensures var r := Result(Final(n));
      && |r.reflectionFinal| == |lessons[|r.log|]|
      && (forall j :: 0 <= j < |r.reflectionFinal| ==>
            r.reflectionFinal[j] == "[" + lessons[|r.log|][j].ruleId + "] " + lessons[|r.log|][j].lesson)
      && (r.earlyExit <==> exists k, v :: 0 <= k < |r.log| && v in r.log[k].audit.vulnerabilities
                                          && v.vulnClass == "NOT_A_QUERY")
  {
    lessons := RoundsAreTold(n, 1, START, [[]]);
    hide RoundIs, Round, Rounds;
    var s, r := Final(n), Result(Final(n));
    assert r.log == s.log;
    if k, v :| 0 <= k < |r.log| && v in r.log[k].audit.vulnerabilities && v.vulnClass == "NOT_A_QUERY" {
      assert r.log[k] in s.log && FlaggedNotAQuery(r.log[k]);
    }
  }
}
