/** The generator -> auditor -> reflector loop (`pipeline.py`), for every choice of nodes. */
module Pipeline {
  import opened Text
  import opened Contracts

  const DEFAULT_MAX_ITERATIONS := 5
  const NOT_A_QUERY := "NOT_A_QUERY"

  datatype Shown = Shown(vulnClass: string, risk: real, description: string)

  /** The events handed to `on_event`. */
  datatype Event =
    | IterStart(round: int)
    | GeneratorStart(round: int, lessons: seq<string>)
    | GeneratorDone(round: int, sql: string)
    | NonSqlOutput(round: int, text: string)
    | AuditorStart(round: int)
    | AuditorDone(round: int, approved: bool, risk: real, findings: seq<Shown>)
    | ReflectorStart(round: int)
    | ReflectorDone(round: int, lessons: seq<string>)

  datatype Revision = Initial | AfterLessons(ids: seq<string>) | EarlyExit
  datatype IterationLog = IterationLog(round: int, sql: string, audit: AuditResult, revision: Revision)

  datatype SystemResult = SystemResult(
    finalSql: string, approved: bool, iterationsUsed: nat, log: seq<IterationLog>,
    riskTrajectory: seq<real>, reflectionFinal: seq<string>, earlyExit: bool)

  /** The nodes of one run: each answers as a function of its inputs and the round, which
      covers any node, stateful or not, since it is called at most once a round.
      `hasKeyword` is the SQL-keyword test. */
  datatype Nodes = Nodes(
    generate: (seq<string>, Option<AuditResult>, int, seq<Lesson>) -> string,
    hasKeyword: string -> bool,
    audit: (int, string) -> AuditResult,
    reflect: (int, AuditResult, seq<Lesson>) -> seq<Lesson>,
    max: int)

  /** `max_iterations or DEFAULT`: absent and 0 both mean the default. */
  function Limit(requested: Option<int>): int {
    if requested.None? || requested.value == 0 then DEFAULT_MAX_ITERATIONS else requested.value
  }

  // ------------------------------------------------------------------ specification

  datatype RunState = RunState(
    history: seq<string>, log: seq<IterationLog>, reflection: seq<Lesson>,
    lastSql: string, lastAudit: Option<AuditResult>, events: seq<Event>, stopped: bool)

  const START := RunState([], [], [], "", None, [], false)

  function ShowAll(vs: seq<Vulnerability>): (shown: seq<Shown>)
    ensures |shown| == |vs| && forall k :: 0 <= k < |vs| ==>
      shown[k].vulnClass == vs[k].vulnClass && shown[k].risk == vs[k].risk && shown[k].description == vs[k].description
  {
    seq(|vs|, k requires 0 <= k < |vs| => Shown(vs[k].vulnClass, vs[k].risk, vs[k].description))
  }

  const NOT_SQL_DESCRIPTION :=
    "Модель не вернула SQL — ответ похож на свободный текст. Из этого запроса нельзя построить SQL, нужно больше контекста или переформулировать задачу."
  const NOT_SQL_ADVICE :=
    "Опиши конкретно, какие данные нужны: «покажи …», «сколько …», «топ-N … по …». Укажи таблицу/сущность, если знаешь."

  const REFUSAL := Vulnerability(NOT_A_QUERY, 10.0,
    NOT_SQL_DESCRIPTION, NOT_SQL_ADVICE, 0)

  /** The audit result made up for a reply that is not SQL. */
  const FAKE_AUDIT := AuditResult(false, [REFUSAL], 10.0, NotAQuery)

  function RevisionOf(reflection: seq<Lesson>): Revision {
    if reflection == [] then Initial
    else AfterLessons(seq(|reflection|, k requires 0 <= k < |reflection| => reflection[k].ruleId))
  }

  function NextSql(n: Nodes, it: int, s: RunState): string {
    n.generate(s.history, s.lastAudit, it, s.reflection)
  }

  /** The state after the generator has answered. */
  function Generated(it: int, sql: string, s: RunState): RunState {
    s.(history := s.history + [sql],
       events := s.events + [IterStart(it)] + [GeneratorStart(it, Render(s.reflection))] + [GeneratorDone(it, sql)])
  }

  /** The reply is not SQL: the loop ends here. */
  function Refused(it: int, sql: string, s: RunState): RunState {
    s.(log := s.log + [IterationLog(it, sql, FAKE_AUDIT, EarlyExit)],
       lastSql := sql, lastAudit := Some(FAKE_AUDIT),
       events := s.events + [NonSqlOutput(it, Take(sql, 500))], stopped := true)
  }

  /** The reply has been audited; an approval ends the loop. */
  function Audited(it: int, sql: string, a: AuditResult, s: RunState): RunState {
    s.(log := s.log + [IterationLog(it, sql, a, RevisionOf(s.reflection))],
       lastSql := sql, lastAudit := Some(a), stopped := a.approved,
       events := s.events + [AuditorStart(it)] + [AuditorDone(it, a.approved, a.risk, ShowAll(a.vulnerabilities))])
  }

  function Reflected(it: int, lessons: seq<Lesson>, s: RunState): RunState {
    s.(reflection := lessons,
       events := s.events + [ReflectorStart(it)] + [ReflectorDone(it, Render(lessons))])
  }

  /** One iteration. */
  function Round(n: Nodes, it: int, s: RunState): RunState {
    var sql := NextSql(n, it, s);
    var s1 := Generated(it, sql, s);
    if !n.hasKeyword(sql) then Refused(it, sql, s1)
    else
      var a := n.audit(it, sql);
      var s2 := Audited(it, sql, a, s1);
      if a.approved then s2 else Reflected(it, n.reflect(it, a, s.reflection), s2)
  }

  /** The iterations from `it` up to the limit. */
  function Rounds(n: Nodes, it: int, s: RunState): RunState
    decreases n.max - it
  {
    if it > n.max || s.stopped then s else Rounds(n, it + 1, Round(n, it, s))
  }

  function Final(n: Nodes): RunState {
    Rounds(n, 1, START)
  }

  predicate FlaggedNotAQuery(il: IterationLog) {
    exists v :: v in il.audit.vulnerabilities && v.vulnClass == NOT_A_QUERY
  }

  function Result(s: RunState): SystemResult {
    SystemResult(s.lastSql, s.lastAudit.Some? && s.lastAudit.value.approved, |s.log|, s.log,
                 seq(|s.log|, k requires 0 <= k < |s.log| => s.log[k].audit.risk),
                 Render(s.reflection),
                 exists il :: il in s.log && FlaggedNotAQuery(il))
  }

  lemma ResultReadsNoEvents(s: RunState)
    ensures Result(s) == Result(s.(events := [], stopped := false))
  {}

  // ------------------------------------------------------------------ the loop

  /** The receiver of events, e.g. `events.append`. */
  class EventLog {
    var events: seq<Event>

    constructor ()
      ensures events == []
    {
      events := [];
    }

    method Emit(e: Event)
      modifies this
      ensures events == old(events) + [e]
    {
      events := events + [e];
    }
  }

  lemma LaterEvents(prior: seq<Event>, run: seq<Event>, a: Event, b: Event)
    ensures prior + run + [a] + [b] == prior + (run + [a] + [b])
  {}

  class SQLSecurityPipeline {
    const nodes: Nodes

    constructor (nodes: Nodes, maxIterations: Option<int>)
      ensures this.nodes == nodes.(max := this.nodes.max)
      ensures this.nodes.max == if maxIterations.None? || maxIterations.value == 0 then 5 else maxIterations.value
    {
      this.nodes := nodes.(max := Limit(maxIterations));
    }

    method Run(sink: EventLog) returns (r: SystemResult)
      modifies sink
      ensures r == Result(Final(nodes))
      ensures sink.events == old(sink.events) + Final(nodes).events
    {
      hide Render, ShowAll, Result, Take, RevisionOf;
      var history, log, reflection, lastSql := [], [], [], "";
      var lastAudit: Option<AuditResult> := None;
      var it := 1;
      ghost var s, prior := START, sink.events;
      while it <= nodes.max
        invariant s == RunState(history, log, reflection, lastSql, lastAudit, s.events, false)
        invariant sink.events == prior + s.events
        invariant Final(nodes) == Rounds(nodes, it, s)
        decreases nodes.max - it
      {
        sink.Emit(IterStart(it));
        sink.Emit(GeneratorStart(it, Render(reflection)));
        var sql := nodes.generate(history, lastAudit, it, reflection);
        history := history + [sql];
        sink.Emit(GeneratorDone(it, sql));
        ghost var s1 := Generated(it, sql, s);
        LaterEvents(prior, s.events, IterStart(it), GeneratorStart(it, Render(reflection)));
        Assoc(prior, s.events + [IterStart(it)] + [GeneratorStart(it, Render(reflection))], [GeneratorDone(it, sql)]);
        if !nodes.hasKeyword(sql) {
          Assoc(prior, s1.events, [NonSqlOutput(it, Take(sql, 500))]);
          sink.Emit(NonSqlOutput(it, Take(sql, 500)));
          log := log + [IterationLog(it, sql, FAKE_AUDIT, EarlyExit)];
          lastSql, lastAudit, s := sql, Some(FAKE_AUDIT), Refused(it, sql, s1);
          break;
        }
        sink.Emit(AuditorStart(it));
        var audit := nodes.audit(it, sql);
        lastSql, lastAudit := sql, Some(audit);
        sink.Emit(AuditorDone(it, audit.approved, audit.risk, ShowAll(audit.vulnerabilities)));
        log := log + [IterationLog(it, sql, audit, RevisionOf(reflection))];
        ghost var s2 := Audited(it, sql, audit, s1);
        LaterEvents(prior, s1.events, AuditorStart(it),
                    AuditorDone(it, audit.approved, audit.risk, ShowAll(audit.vulnerabilities)));
        if audit.approved {
          s := s2;
          break;
        }
        sink.Emit(ReflectorStart(it));
        reflection := nodes.reflect(it, audit, reflection);
        sink.Emit(ReflectorDone(it, Render(reflection)));
        LaterEvents(prior, s2.events, ReflectorStart(it), ReflectorDone(it, Render(reflection)));
        s := Reflected(it, reflection, s2);
        it := it + 1;
      }
      r := Result(RunState(history, log, reflection, lastSql, lastAudit, [], false));
      ResultReadsNoEvents(s);
    }
  }
}
