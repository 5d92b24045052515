/** Runs of the assembled system, round by round: what reaches the model, and what comes of it. */
module SystemRun {
  import opened Contracts
  import opened Auditor
  import opened Generator
  import opened Reflection
  import opened Pipeline
  import opened LoopRun
  import opened SecuritySystem

  function Before(log: seq<IterationLog>, k: nat): Option<AuditResult>
    requires k <= |log|
  {
    if k == 0 then None else Some(log[k - 1].audit)
  }

  /** Round k + 1 of a run with log entries `log`: the query is what the LLM generator makes of
      the queries and the audit before it and of the lessons held; it is audited in full; and a
      rejection turns into lessons. */
  ghost predicate SystemRound(p: Parts, judge: Judge, log: seq<IterationLog>, lessons: seq<seq<Lesson>>, k: nat)
    requires k < |log| && |lessons| == |log| + 1
  {
    var il := log[k];
    && il.sql == Generate(p.gen, p.task, Queries(log)[..k], Before(log, k), k + 1, lessons[k])
    && (if p.hasKeyword(il.sql) then il.audit == Audit(p.auditor, judge, k + 1, il.sql) else Refusal(il.audit))
    && lessons[k + 1] == (if p.hasKeyword(il.sql) && !il.audit.approved
                          then Reflect(p.templates, p.window, il.audit.vulnerabilities, lessons[k])
                          else lessons[k])
    && (k < |log| - 1 ==> p.hasKeyword(il.sql) && !il.audit.approved)
  }

  /** A whole run; `lessons[k]` are those held when round k + 1 begins. */
  ghost predicate SystemTold(p: Parts, judge: Judge, log: seq<IterationLog>, lessons: seq<seq<Lesson>>) {
    && |lessons| == |log| + 1 && lessons[0] == []
    && (forall k :: 0 <= k < |log| ==> SystemRound(p, judge, log, lessons, k))
    && |log| <= (if p.max > 0 then p.max else 0)
    && (|log| < p.max ==> log != [] && (!p.hasKeyword(log[|log| - 1].sql) || log[|log| - 1].audit.approved))
  }

  lemma SystemIsTold(p: Parts, judge: Judge) returns (lessons: seq<seq<Lesson>>)
    ensures SystemTold(p, judge, Result(Final(Assemble(p, judge))).log, lessons)
  {
    var n := Assemble(p, judge);
    lessons := RunIsTold(n);
    var log := Result(Final(n)).log;
    hide Generate, Audit, Reflect, Final, Result;
    forall k | 0 <= k < |log| ensures SystemRound(p, judge, log, lessons, k) {
      assert RoundIs(n, log, lessons, k);
      if k < |log| - 1 { assert SentBack(n, log[k]); }
    }
  }

  /** The two prompts that reach the model in round k + 1. */
  function RoundSystem(p: Parts, log: seq<IterationLog>, lessons: seq<seq<Lesson>>, k: nat): string
    requires k < |log| && k < |lessons|
  {
    SentSystem(p.gen, p.task, Queries(log)[..k], Before(log, k), k + 1, lessons[k])
  }

  function RoundRequest(p: Parts, log: seq<IterationLog>, lessons: seq<seq<Lesson>>, k: nat): string
    requires k < |log| && k < |lessons|
  {
    SentRequest(p.gen, p.task, Queries(log)[..k], Before(log, k), k + 1, lessons[k])
  }

  /** In every round of every run the query is what is extracted from the model's reply to these
      prompts, and the system prompt holds every lesson the reflector has formed and still keeps. */
  lemma LessonsReachTheModel(p: Parts, judge: Judge, log: seq<IterationLog>, lessons: seq<seq<Lesson>>, k: nat)
    requires SystemTold(p, judge, log, lessons) && k < |log|
    ensures log[k].sql == p.gen.fence(p.gen.llm(k + 1, RoundSystem(p, log, lessons, k), RoundRequest(p, log, lessons, k)))
    ensures p.gen.wording.preamble + p.gen.shots(p.task) <= RoundSystem(p, log, lessons, k)
    ensures forall l :: l in lessons[k] ==> Holds(RoundSystem(p, log, lessons, k), "- [" + l.ruleId + "] " + l.lesson)
  {
    assert SystemRound(p, judge, log, lessons, k);
    hide Generate, Audit, Reflect, SentSystem, SentRequest, Holds;
    SystemIsSent(p.gen, p.task, Queries(log)[..k], Before(log, k), k + 1, lessons[k]);
  }

  /** The request is the task alone in the first round; afterwards it begins with the task and
      holds the query just rejected and, for everything the rules and checkers found in it, a
      line with the class and the message. */
  lemma FeedbackReachesTheModel(p: Parts, judge: Judge, log: seq<IterationLog>, lessons: seq<seq<Lesson>>, k: nat)
    requires SystemTold(p, judge, log, lessons) && k < |log|
    ensures var user := RoundRequest(p, log, lessons, k);
            if k == 0 then user == p.task
            else
              && p.task <= user && Holds(user, log[k - 1].sql)
              && forall f :: f in Phase1(p.auditor, log[k - 1].sql) ==>
                   Holds(user, "  - " + f.vulnClass + ": " + f.message)
  {
    hide Generate, Audit, Reflect, SentRequest, Phase1, Holds;
    if k > 0 {
      assert SystemRound(p, judge, log, lessons, k - 1);
      hide SystemRound;
      RejectionIsSent(p, judge, k, log[k - 1], Queries(log)[..k], lessons[k]);
    } else {
      RequestIsSent(p.gen, p.task, Queries(log)[..k], None, k + 1, lessons[k], []);
    }
  }

  lemma RejectionIsSent(p: Parts, judge: Judge, k: nat, il: IterationLog, history: seq<string>, lessons: seq<Lesson>)
    requires history != [] && history[|history| - 1] == il.sql
    requires il.audit == Audit(p.auditor, judge, k, il.sql) && !il.audit.approved
    ensures var user := SentRequest(p.gen, p.task, history, Some(il.audit), k + 1, lessons);
      && p.task <= user && Holds(user, il.sql)
      && forall f :: f in Phase1(p.auditor, il.sql) ==> Holds(user, "  - " + f.vulnClass + ": " + f.message)
  {
    var user, vs, fs := SentRequest(p.gen, p.task, history, Some(il.audit), k + 1, lessons),
                        il.audit.vulnerabilities, Phase1(p.auditor, il.sql);
    AuditTellsFindings(p.auditor, judge, k, il.sql);
    hide Audit, Phase1, SentRequest, Holds;
    RequestIsSent(p.gen, p.task, history, Some(il.audit), k + 1, lessons,
                  seq(|vs|, j requires 0 <= j < |vs| => "  - " + vs[j].vulnClass + ": " + vs[j].description));
    FindingsStand(user, fs, vs);
  }

  /** A text with a line for every report has a line for every finding. */
  lemma FindingsStand(user: string, fs: seq<Finding>, vs: seq<Vulnerability>)
    requires |vs| == |fs|
    requires forall j :: 0 <= j < |fs| ==> vs[j].vulnClass == fs[j].vulnClass && fs[j].message <= vs[j].description
    requires forall v :: v in vs ==> Holds(user, "  - " + v.vulnClass + ": " + v.description)
    ensures forall f :: f in fs ==> Holds(user, "  - " + f.vulnClass + ": " + f.message)
  {
    hide Holds;
    forall f | f in fs ensures Holds(user, "  - " + f.vulnClass + ": " + f.message) {
      var j :| 0 <= j < |fs| && fs[j] == f;
      assert vs[j] in vs;
      HoldsShorter(user, "  - " + f.vulnClass + ": ", f.message, vs[j].description);
    }
  }

  lemma HoldsShorter(text: string, head: string, a: string, b: string)
    requires Holds(text, head + b) && a <= b
    ensures Holds(text, head + a)
  {
    var front, back :| text == front + (head + b) + back;
    assert b == a + b[|a|..];
    assert text == front + (head + a) + (b[|a|..] + back);
  }
}
