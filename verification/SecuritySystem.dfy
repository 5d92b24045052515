/** The assembled system: the LLM generator, the hybrid auditor and the reflector as the
    nodes of the loop (`run_pipeline`), and what whole runs of it guarantee. */
module SecuritySystem {
  import opened Contracts
  import opened Auditor
  import opened Generator
  import opened Reflection
  import opened Pipeline
  import opened LoopProperties

  /** Everything but the judge. */
  datatype Parts = Parts(
    gen: LLMGenerator, auditor: Config, templates: Templates, window: int,
    hasKeyword: string -> bool, max: int, task: string)

  function GeneratorNode(p: Parts): (seq<string>, Option<AuditResult>, int, seq<Lesson>) -> string {
    (h, f, it, l) => Generate(p.gen, p.task, h, f, it, l)
  }

  function AuditorNode(p: Parts, judge: Judge): (int, string) -> AuditResult {
    (it, sql) => Audit(p.auditor, judge, it, sql)
  }

  function ReflectorNode(p: Parts): (int, AuditResult, seq<Lesson>) -> seq<Lesson> {
    (it: int, a: AuditResult, prev: seq<Lesson>) => Reflect(p.templates, p.window, a.vulnerabilities, prev)
  }

  function Assemble(p: Parts, judge: Judge): Nodes {
    Nodes(GeneratorNode(p), p.hasKeyword, AuditorNode(p, judge), ReflectorNode(p), p.max)
  }

  // ------------------------------------------------------------------ the judge

  lemma JudgesDifferInAdvice(p: Parts, j1: Judge, j2: Judge)
    ensures DifferInAdvice(Assemble(p, j1), Assemble(p, j2))
  {
    var n, m := Assemble(p, j1), Assemble(p, j2);
    forall h, f, g, it, l, q | SameFeedback(f, g) && SameLessons(l, q)
      ensures n.generate(h, f, it, l) == m.generate(h, g, it, q)
    {
      PromptsIgnoreAdvice(p.gen, p.task, h, it, f, g, l, q);
    }
    forall it, sql ensures SameVerdict(n.audit(it, sql), m.audit(it, sql)) {
      JudgeHasNoSay(p.auditor, j1, j2, it, it, sql);
    }
    forall it, a, b, l, q | SameVerdict(a, b) && SameLessons(l, q)
      ensures SameLessons(n.reflect(it, a, l), m.reflect(it, b, q))
    {
      ReflectIgnoresAdvice(p.templates, p.window, a.vulnerabilities, b.vulnerabilities, l, q);
    }
  }

  /** Judge non-interference over whole runs: two runs of the system that differ only in the
      judge (its replies, how they parse, or whether there is one) produce the same queries,
      the same event trace, the same approval, iteration count and risk trajectory, the same
      lessons as shown in prompts, and logs that differ in advice and summary at most. */
  lemma JudgeNonInterference(p: Parts, j1: Judge, j2: Judge)
    ensures var s, t := Final(Assemble(p, j1)), Final(Assemble(p, j2));
      && s.history == t.history && s.events == t.events && AlikeLogs(s.log, t.log)
    ensures var r, q := Result(Final(Assemble(p, j1))), Result(Final(Assemble(p, j2)));
      && r.finalSql == q.finalSql && r.approved == q.approved && r.iterationsUsed == q.iterationsUsed
      && r.riskTrajectory == q.riskTrajectory && r.reflectionFinal == q.reflectionFinal
      && r.earlyExit == q.earlyExit
  {
    JudgesDifferInAdvice(p, j1, j2);
    SameRun(Assemble(p, j1), Assemble(p, j2));
  }

  // ------------------------------------------------------------------ the memory of a run

  /** The lessons formed after each rejected audit of a log. */
  function Batches(templates: Templates, hasKeyword: string -> bool, log: seq<IterationLog>): seq<seq<Lesson>> {
    if log == [] then []
    else
      var il := log[|log| - 1];
      Batches(templates, hasKeyword, log[..|log| - 1])
      + (if hasKeyword(il.sql) && !il.audit.approved then [LessonsFor(templates, il.audit.vulnerabilities)] else [])
  }

  ghost predicate ReflectsBy(n: Nodes, templates: Templates, window: int) {
    forall it, a, l :: n.reflect(it, a, l) == Absorb(window, l, LessonsFor(templates, a.vulnerabilities))
  }

  ghost predicate Remembers(n: Nodes, templates: Templates, window: int, s: RunState) {
    s.reflection == Memory(window, Batches(templates, n.hasKeyword, s.log))
  }

  lemma RoundReflection(n: Nodes, it: int, s: RunState) returns (il: IterationLog)
    ensures var r := Round(n, it, s);
      && r.log == s.log + [il]
      && r.reflection == if n.hasKeyword(il.sql) && !il.audit.approved
                         then n.reflect(it, il.audit, s.reflection) else s.reflection
  {
    var t;
    t, il := RoundEvents(n, it, s);
  }

  lemma BatchesSnoc(templates: Templates, hasKeyword: string -> bool, log: seq<IterationLog>, il: IterationLog)
    ensures Batches(templates, hasKeyword, log + [il])
            == if hasKeyword(il.sql) && !il.audit.approved
               then Batches(templates, hasKeyword, log) + [LessonsFor(templates, il.audit.vulnerabilities)]
               else Batches(templates, hasKeyword, log)
  {
    assert (log + [il])[..|log|] == log;
    assert Batches(templates, hasKeyword, log) + [] == Batches(templates, hasKeyword, log);
  }

  lemma MemorySnoc(window: int, run: seq<seq<Lesson>>, newer: seq<Lesson>)
    ensures Memory(window, run + [newer]) == Absorb(window, Memory(window, run), newer)
  {
    assert (run + [newer])[..|run|] == run;
  }

  lemma RoundRemembers(n: Nodes, templates: Templates, window: int, it: int, s: RunState)
    requires ReflectsBy(n, templates, window) && Remembers(n, templates, window, s)
    ensures Remembers(n, templates, window, Round(n, it, s))
  {
    var il := RoundReflection(n, it, s);
    BatchesSnoc(templates, n.hasKeyword, s.log, il);
    MemorySnoc(window, Batches(templates, n.hasKeyword, s.log), LessonsFor(templates, il.audit.vulnerabilities));
  }

  lemma {:induction false} RoundsRemember(n: Nodes, templates: Templates, window: int, it: int, s: RunState)
    requires ReflectsBy(n, templates, window) && Remembers(n, templates, window, s)
    ensures Remembers(n, templates, window, Rounds(n, it, s))
    decreases n.max - it
  {
    if it <= n.max && !s.stopped {
      RoundRemembers(n, templates, window, it, s);
      RoundsRemember(n, templates, window, it + 1, Round(n, it, s));
    }
  }

  /** After any run the reflection memory has distinct rule ids, at most `window` of them
      (window >= 1), each with the last lesson written for it in the run; and while no more
      than `window` classes have been flagged it holds all of them in order of first flagging. */
  lemma RunMemory(p: Parts, judge: Judge)
    ensures var s := Final(Assemble(p, judge));
            GoodMemory(p.window, Written(Batches(p.templates, p.hasKeyword, s.log)), s.reflection)
  {
    var n := Assemble(p, judge);
    ReflectorReflects(p, judge);
    RoundsRemember(n, p.templates, p.window, 1, START);
    MemoryIsGood(p.window, Batches(p.templates, p.hasKeyword, Final(n).log));
  }

  lemma ReflectorReflects(p: Parts, judge: Judge)
    ensures ReflectsBy(Assemble(p, judge), p.templates, p.window)
  {}

  // ------------------------------------------------------------------ going in circles

  /** The generator's model answers the same prompts the same way in every round. */
  ghost predicate Deterministic(gen: LLMGenerator) {
    forall i, j, a, b :: gen.llm(i, a, b) == gen.llm(j, a, b)
  }

  lemma DeterministicIsSteady(p: Parts, judge: Judge)
    requires Deterministic(p.gen)
    ensures Steady(Assemble(p, judge))
  {
    var n := Assemble(p, judge);
    forall h, k, f, g, i, j, l, q |
        h != [] && k != [] && h[|h| - 1] == k[|k| - 1] && SameFeedback(f, g) && SameLessons(l, q)
      ensures n.generate(h, f, i, l) == n.generate(k, g, j, q)
    {
      PromptsIgnoreAdvice(p.gen, p.task, h, i, f, g, l, q);
      LastQueryOnly(p.gen, p.task, h, k, g, i, j, q);
    }
    forall i, j, sql ensures SameVerdict(n.audit(i, sql), n.audit(j, sql)) {
      JudgeHasNoSay(p.auditor, judge, judge, i, j, sql);
    }
    forall i, j, a, b, l, q | SameVerdict(a, b) && SameLessons(l, q)
      ensures SameLessons(n.reflect(i, a, l), n.reflect(j, b, q))
    {
      ReflectIgnoresAdvice(p.templates, p.window, a.vulnerabilities, b.vulnerabilities, l, q);
    }
  }

  lemma LastQueryOnly(gen: LLMGenerator, task: string, h: seq<string>, k: seq<string>, f: Option<AuditResult>,
                      i: int, j: int, l: seq<Lesson>)
    requires Deterministic(gen) && h != [] && k != [] && h[|h| - 1] == k[|k| - 1]
    ensures Generate(gen, task, h, f, i, l) == Generate(gen, task, k, f, j, l)
  {
    assert RetryBlock(gen, h, f) == RetryBlock(gen, k, f);
  }

  /** The query q was rejected in round it - 1, all lessons it can teach are known, and the
      generator answers q again. */
  ghost predicate RepeatsKnown(n: Nodes, templates: Templates, window: int, it: int, s: RunState, q: string) {
    && !s.stopped && s.history != [] && s.history[|s.history| - 1] == q && n.hasKeyword(q)
    && s.lastAudit == Some(n.audit(it - 1, q)) && !n.audit(it - 1, q).approved
    && Distinct(Ids(s.reflection)) && |s.reflection| <= window
    && (forall l :: l in LessonsFor(templates, n.audit(it, q).vulnerabilities) ==> l in s.reflection)
    && NextSql(n, it, s) == q
  }

  lemma RepeatsKnownIsStuck(n: Nodes, templates: Templates, window: int, it: int, s: RunState, q: string)
    requires Steady(n) && ReflectsBy(n, templates, window) && RepeatsKnown(n, templates, window, it, s, q)
    ensures Stuck(n, it, s, q)
  {
    var a := n.audit(it, q);
    assert SameVerdict(n.audit(it - 1, q), a);
    KnownLessonsSettle(window, s.reflection, LessonsFor(templates, a.vulnerabilities));
    assert n.reflect(it, a, s.reflection) == s.reflection;
  }

  /** With a deterministic model, a query that is repeated after a rejection whose lessons
      were all known is repeated in every remaining round, and the run ends unapproved. */
  lemma RepeatedQueryIsForever(p: Parts, judge: Judge, it: int, s: RunState, q: string)
    requires Deterministic(p.gen) && it <= p.max + 1
    requires RepeatsKnown(Assemble(p, judge), p.templates, p.window, it, s, q)
    ensures var r := Rounds(Assemble(p, judge), it, s);
      && !Result(r).approved && |r.log| == |s.log| + (p.max + 1 - it)
      && forall k :: |s.history| <= k < |r.history| ==> r.history[k] == q
  {
    var n := Assemble(p, judge);
    DeterministicIsSteady(p, judge);
    ReflectorReflects(p, judge);
    RepeatsKnownIsStuck(n, p.templates, p.window, it, s, q);
    StuckForever(n, it, s, q);
  }
}
