/** The hybrid auditor (`auditor.py`): Phase 1 runs fixed rules on the comment-free text,
    Phase 2 asks a judge for advice and decorates the findings with it. */
module Auditor {
  import opened Text
  import opened Contracts
  import opened SqlComments

  /** One note of a judge's verdict; `Verdict` is the parsed, non-empty JSON reply. */
  datatype Note = Note(vulnClass: string, recommendation: string)
  datatype Verdict = Verdict(summary: string, notes: seq<Note>)
  datatype Knowledge = Knowledge(evidence: set<string>, why: string, fix: string)

  /** Everything of the auditor except the judge. A rule is a total function of the text;
      a checker may raise, which `run_phase1` turns into no findings (`None`). */
  datatype Config = Config(
    rules: seq<string -> seq<Finding>>,
    checkers: seq<string -> Option<seq<Finding>>>,
    threshold: real,
    lookup: string -> Option<Knowledge>,
    renderSources: set<string> -> string)

  /** The judge: its reply to a query and its findings in a given round, and the JSON
      that can be read out of a reply. */
  datatype Judge =
    | NoJudge
    | Judge(reply: (int, string, seq<Finding>) -> string, parse: string -> Option<Verdict>)

  // ------------------------------------------------------------------ specification

  function RuleFindings(rules: seq<string -> seq<Finding>>, text: string): seq<Finding> {
    if rules == [] then []
    else RuleFindings(rules[..|rules| - 1], text) + rules[|rules| - 1](text)
  }

  function Checked(c: string -> Option<seq<Finding>>, text: string): seq<Finding> {
    match c(text) case Some(fs) => fs case None => []
  }

  function CheckerFindings(checkers: seq<string -> Option<seq<Finding>>>, text: string): seq<Finding> {
    if checkers == [] then []
    else CheckerFindings(checkers[..|checkers| - 1], text) + Checked(checkers[|checkers| - 1], text)
  }

  function Phase1(cfg: Config, sql: string): seq<Finding> {
    var text := StripComments(sql);
    RuleFindings(cfg.rules, text) + CheckerFindings(cfg.checkers, text)
  }

  /** What the judge says about a query: a general comment and advice by class. */
  datatype Advice = Advice(comment: string, byClass: map<string, string>)

  function Collect(notes: seq<Note>): map<string, string> {
    if notes == [] then map[]
    else
      var m, n := Collect(notes[..|notes| - 1]), notes[|notes| - 1];
      if n.vulnClass != "" && n.recommendation != "" then m[n.vulnClass := Strip(n.recommendation)] else m
  }

  function Consult(judge: Judge, round: int, sql: string, findings: seq<Finding>): Advice {
    if judge.NoJudge? || findings == [] then Advice("", map[])
    else
      var text := judge.reply(round, sql, findings);
      match judge.parse(text)
      case Some(v) => Advice(Strip(v.summary), Collect(v.notes))
      case None => Advice(Take(Strip(text), 200), map[])
  }

  function Join(parts: seq<string>): string {
    if parts == [] then ""
    else if |parts| == 1 then parts[0]
    else parts[0] + " " + Join(parts[1..])
  }

  /** A finding as it is reported: grounded in the knowledge base, decorated with advice. */
  function Report(cfg: Config, adv: Advice, f: Finding): Vulnerability {
    var kn := cfg.lookup(f.vulnClass);
    var sources := f.evidence + (if kn.Some? then kn.value.evidence else {});
    var said := if f.vulnClass in adv.byClass && adv.byClass[f.vulnClass] != ""
                then [adv.byClass[f.vulnClass]] else [];
    var fix := if kn.Some? && kn.value.fix != "" then [kn.value.fix] else [];
    var refs := if sources != {} then [cfg.renderSources(sources)] else [];
    var parts := said + fix + refs;
    var text := if parts != [] then Join(parts) else if adv.comment != "" then adv.comment else DEFAULT_ADVICE;
    var v := f.ToVulnerability(text);
    if kn.Some? && kn.value.why != "" then v.(description := f.message + " — " + kn.value.why) else v
  }

  function Reports(cfg: Config, adv: Advice, fs: seq<Finding>): (vs: seq<Vulnerability>)
    ensures |vs| == |fs|
    ensures forall k :: 0 <= k < |fs| ==> vs[k] == Report(cfg, adv, fs[k])
  {
    seq(|fs|, k requires 0 <= k < |fs| => Report(cfg, adv, fs[k]))
  }

  /** `max(..., default=0.0)` over the reported risks. */
  function MaxRisk(vs: seq<Vulnerability>): real {
    if vs == [] then 0.0
    else if |vs| == 1 then vs[0].risk
    else
      var m, r := MaxRisk(vs[..|vs| - 1]), vs[|vs| - 1].risk;
      if m < r then r else m
  }

  function Classes(vs: seq<Vulnerability>): set<string> {
    set v | v in vs :: v.vulnClass
  }

  function Conclude(cfg: Config, comment: string, vs: seq<Vulnerability>): AuditResult {
    var risk := MaxRisk(vs);
    var ok := risk < cfg.threshold;
    AuditResult(ok, vs, risk,
                if ok then Accepted(comment) else Rejected(risk, cfg.threshold, Classes(vs), comment))
  }

  /** Phase 2, given what Phase 1 found. */
  function Phase2(cfg: Config, judge: Judge, round: int, sql: string, findings: seq<Finding>): AuditResult {
    var adv := Consult(judge, round, sql, findings);
    Conclude(cfg, adv.comment, Reports(cfg, adv, findings))
  }

  function Audit(cfg: Config, judge: Judge, round: int, sql: string): AuditResult {
    Phase2(cfg, judge, round, sql, Phase1(cfg, sql))
  }

  // ------------------------------------------------------------------ the node

  class HybridAuditor {
    const cfg: Config
    const judge: Judge

    constructor (cfg: Config, judge: Judge)
      ensures this.cfg == cfg && this.judge == judge
    {
      this.cfg := cfg;
      this.judge := judge;
    }

    method RunPhase1(sql: string) returns (findings: seq<Finding>)
      ensures findings == Phase1(cfg, sql)
    {
      var clean := StripComments(sql);
      var byRule := ApplyRules(cfg.rules, clean);
      var byChecker := ApplyCheckers(cfg.checkers, clean);
      findings := byRule + byChecker;
    }

    method Run(round: int, sql: string) returns (r: AuditResult)
      ensures r == Audit(cfg, judge, round, sql)
    {
      var findings := RunPhase1(sql);
      var adv := AskJudge(judge, round, sql, findings);
      var vulns := Decorate(cfg, adv, findings);
      r := Conclude(cfg, adv.comment, vulns);
    }
  }

  method ApplyRules(rules: seq<string -> seq<Finding>>, text: string) returns (findings: seq<Finding>)
    ensures findings == RuleFindings(rules, text)
  {
    findings := [];
    for i := 0 to |rules|
      invariant findings == RuleFindings(rules[..i], text)
    {
      assert rules[..i + 1][..i] == rules[..i];
      findings := findings + rules[i](text);
    }
    assert rules[..|rules|] == rules;
  }

  method ApplyCheckers(checkers: seq<string -> Option<seq<Finding>>>, text: string) returns (findings: seq<Finding>)
    ensures findings == CheckerFindings(checkers, text)
  {
    findings := [];
    for i := 0 to |checkers|
      invariant findings == CheckerFindings(checkers[..i], text)
    {
      assert checkers[..i + 1][..i] == checkers[..i];
      findings := findings + Checked(checkers[i], text);
    }
    assert checkers[..|checkers|] == checkers;
  }

  method AskJudge(judge: Judge, round: int, sql: string, findings: seq<Finding>) returns (adv: Advice)
    ensures adv == Consult(judge, round, sql, findings)
  {
    if judge.NoJudge? || findings == [] {
      return Advice("", map[]);
    }
    var text := judge.reply(round, sql, findings);
    match judge.parse(text) {
      case Some(v) =>
        var recs := TakeNotes(v.notes);
        adv := Advice(Strip(v.summary), recs);
      case None =>
        adv := Advice(Take(Strip(text), 200), map[]);
    }
  }

  method TakeNotes(notes: seq<Note>) returns (recs: map<string, string>)
    ensures recs == Collect(notes)
  {
    recs := map[];
    for i := 0 to |notes|
      invariant recs == Collect(notes[..i])
    {
      assert notes[..i + 1][..i] == notes[..i];
      if notes[i].vulnClass != "" && notes[i].recommendation != "" {
        recs := recs[notes[i].vulnClass := Strip(notes[i].recommendation)];
      }
    }
    assert notes[..|notes|] == notes;
  }

  method Decorate(cfg: Config, adv: Advice, findings: seq<Finding>) returns (vulns: seq<Vulnerability>)
    ensures vulns == Reports(cfg, adv, findings)
  {
    vulns := [];
    for i := 0 to |findings|
      invariant vulns == Reports(cfg, adv, findings)[..i]
    {
      vulns := vulns + [Report(cfg, adv, findings[i])];
    }
  }

  // ------------------------------------------------------------------ properties

  /** The judge decorates and nothing more: whatever two judges reply in whatever rounds,
      approval, risk, classes, scores, descriptions and positions are the same. */
  lemma JudgeHasNoSay(cfg: Config, j1: Judge, j2: Judge, r1: int, r2: int, sql: string)
    ensures SameVerdict(Audit(cfg, j1, r1, sql), Audit(cfg, j2, r2, sql))
  {
    SameFindingsSameVerdict(cfg, j1, j2, r1, r2, sql, sql, Phase1(cfg, sql));
  }

  lemma SameFindingsSameVerdict(cfg: Config, j1: Judge, j2: Judge, r1: int, r2: int,
                                s: string, t: string, fs: seq<Finding>)
    ensures SameVerdict(Phase2(cfg, j1, r1, s, fs), Phase2(cfg, j2, r2, t, fs))
  {
    var a1, a2 := Consult(j1, r1, s, fs), Consult(j2, r2, t, fs);
    var vs, ws := Reports(cfg, a1, fs), Reports(cfg, a2, fs);
    forall k | 0 <= k < |fs| ensures SameButAdvice(vs[k], ws[k]) {
      AdviceOnly(cfg, a1, a2, fs[k]);
    }
    SameFindingsSameRisk(vs, ws);
  }

  lemma AdviceOnly(cfg: Config, a1: Advice, a2: Advice, f: Finding)
    ensures SameButAdvice(Report(cfg, a1, f), Report(cfg, a2, f))
    ensures Report(cfg, a1, f).risk == f.risk && Report(cfg, a1, f).vulnClass == f.vulnClass
  {}

  lemma {:induction false} SameFindingsSameRisk(vs: seq<Vulnerability>, ws: seq<Vulnerability>)
    requires SameFindings(vs, ws)
    ensures MaxRisk(vs) == MaxRisk(ws)
  {
    if |vs| > 1 {
      SameFindingsSameRisk(vs[..|vs| - 1], ws[..|ws| - 1]);
    }
  }

  /** The judge's advice for a class is its last complete note about that class. */
  lemma {:induction false} LastNoteWins(notes: seq<Note>, k: int)
    requires 0 <= k < |notes| && notes[k].vulnClass != "" && notes[k].recommendation != ""
    requires forall i :: k < i < |notes| && notes[i].vulnClass == notes[k].vulnClass ==> notes[i].recommendation == ""
    ensures notes[k].vulnClass in Collect(notes)
    ensures Collect(notes)[notes[k].vulnClass] == Strip(notes[k].recommendation)
  {
    var front := notes[..|notes| - 1];
    if k < |front| {
      assert front[k] == notes[k];
      LastNoteWins(front, k);
    }
  }

  /** The overall risk is the worst single finding, not diluted by the others. */
  lemma {:induction false} RiskIsWorst(vs: seq<Vulnerability>)
    requires vs != []
    ensures forall k :: 0 <= k < |vs| ==> vs[k].risk <= MaxRisk(vs)
    ensures exists k :: 0 <= k < |vs| && vs[k].risk == MaxRisk(vs)
  {
    if |vs| > 1 {
      var front := vs[..|vs| - 1];
      RiskIsWorst(front);
      var k :| 0 <= k < |front| && front[k].risk == MaxRisk(front);
      assert vs[k] == front[k] && vs[|vs| - 1].risk == vs[|vs| - 1].risk;
    } else {
      assert vs[0].risk == MaxRisk(vs);
    }
  }

  /** A query is approved exactly when every rule finding stays below the threshold
      (and an empty report only under a positive threshold). */
  lemma ApprovedIff(cfg: Config, judge: Judge, round: int, sql: string)
    ensures Audit(cfg, judge, round, sql).approved
            <==> (if Phase1(cfg, sql) == [] then 0.0 < cfg.threshold
                  else forall f :: f in Phase1(cfg, sql) ==> f.risk < cfg.threshold)
  {
    ApprovedByFindings(cfg, judge, round, sql, Phase1(cfg, sql));
  }

  lemma ApprovedByFindings(cfg: Config, judge: Judge, round: int, sql: string, fs: seq<Finding>)
    ensures Phase2(cfg, judge, round, sql, fs).approved
            <==> (if fs == [] then 0.0 < cfg.threshold
                  else forall f :: f in fs ==> f.risk < cfg.threshold)
  {
    if fs != [] {
      var adv := Consult(judge, round, sql, fs);
      var vs := Reports(cfg, adv, fs);
      RiskIsWorst(vs);
      forall k | 0 <= k < |fs| ensures vs[k].risk == fs[k].risk { AdviceOnly(cfg, adv, adv, fs[k]); }
      var w :| 0 <= w < |vs| && vs[w].risk == MaxRisk(vs);
      assert fs[w] in fs;
    }
  }

  /** The report tells the findings one by one: class, risk and position as found, the message
      at the head of the description; the overall risk is the worst of them, or 0 without any,
      and a rejection names exactly their classes. */
  lemma {:induction false} AuditTellsFindings(cfg: Config, judge: Judge, round: int, sql: string)
    ensures var fs, r := Phase1(cfg, sql), Audit(cfg, judge, round, sql);
      && |r.vulnerabilities| == |fs|
      && (forall k :: 0 <= k < |fs| ==>
            && r.vulnerabilities[k].vulnClass == fs[k].vulnClass && r.vulnerabilities[k].risk == fs[k].risk
            && r.vulnerabilities[k].line == fs[k].line && fs[k].message <= r.vulnerabilities[k].description)
      && (fs == [] ==> r.risk == 0.0)
      && (fs != [] ==> (forall f :: f in fs ==> f.risk <= r.risk) && exists f :: f in fs && f.risk == r.risk)
      && (!r.approved ==> r.summary.Rejected? && r.summary.classes == set f | f in fs :: f.vulnClass)
  {
    hide Phase1;
    FindingsAreTold(cfg, judge, round, sql, Phase1(cfg, sql));
  }

  lemma {:induction false} FindingsAreTold(cfg: Config, judge: Judge, round: int, sql: string, fs: seq<Finding>)
    ensures var r := Phase2(cfg, judge, round, sql, fs);
      && |r.vulnerabilities| == |fs|
      && (forall k :: 0 <= k < |fs| ==>
            && r.vulnerabilities[k].vulnClass == fs[k].vulnClass && r.vulnerabilities[k].risk == fs[k].risk
            && r.vulnerabilities[k].line == fs[k].line && fs[k].message <= r.vulnerabilities[k].description)
      && (fs == [] ==> r.risk == 0.0)
      && (fs != [] ==> (forall f :: f in fs ==> f.risk <= r.risk) && exists f :: f in fs && f.risk == r.risk)
      && (!r.approved ==> r.summary.Rejected? && r.summary.classes == set f | f in fs :: f.vulnClass)
  {
    var adv := Consult(judge, round, sql, fs);
    var vs := Reports(cfg, adv, fs);
    forall k | 0 <= k < |fs|
      ensures vs[k].vulnClass == fs[k].vulnClass && vs[k].risk == fs[k].risk && vs[k].line == fs[k].line
      ensures fs[k].message <= vs[k].description
    {
      FindingIsTold(cfg, adv, fs[k]);
    }
    hide Report, Consult;
    if fs != [] {
      RiskIsWorst(vs);
      var w :| 0 <= w < |vs| && vs[w].risk == MaxRisk(vs);
      assert fs[w] in fs;
    }
    SameClasses(vs, fs);
  }

  lemma FindingIsTold(cfg: Config, adv: Advice, f: Finding)
    ensures var v := Report(cfg, adv, f);
            v.vulnClass == f.vulnClass && v.risk == f.risk && v.line == f.line && f.message <= v.description
  {}

  lemma SameClasses(vs: seq<Vulnerability>, fs: seq<Finding>)
    requires |vs| == |fs| && forall k :: 0 <= k < |fs| ==> vs[k].vulnClass == fs[k].vulnClass
    ensures Classes(vs) == set f | f in fs :: f.vulnClass
  {}

  /** For any rules and checkers, Phase 1 finds the same behind a closed block comment, and behind
      a line comment in which no block comment stays open. */
  lemma {:induction false} CommentsHideNothing(cfg: Config, comment: string, sql: string)
    ensures !HasClose(comment) ==> Phase1(cfg, OPEN + comment + CLOSE + sql) == Phase1(cfg, sql)
    ensures '\n' !in comment && !HasOpen(StripBlocks(comment)) ==>
              Phase1(cfg, DASHES + comment + "\n" + sql) == Phase1(cfg, sql)
  {
    hide StripComments, StripBlocks;
    if !HasClose(comment) { BlockPrefix(comment, sql); }
    if '\n' !in comment && !HasOpen(StripBlocks(comment)) {
      LinePrefix(comment);
      assert Invisible(DASHES + comment + "\n", sql);
    }
  }

  /** And that condition on line comments is exact: any other one changes the findings of some
      query under some rule. */
  lemma LineCommentHidesNothingIff(line: string, f: Finding)
    requires '\n' !in line
    ensures (forall cfg, sql :: Phase1(cfg, DASHES + line + "\n" + sql) == Phase1(cfg, sql))
            <==> !HasOpen(StripBlocks(line))
  {
    if HasOpen(StripBlocks(line)) {
      hide StripComments, StripBlocks;
      LinePrefix(line);
      var sql :| !Invisible(DASHES + line + "\n", sql);
      TellTale(DASHES + line + "\n", sql, f);
    } else {
      forall cfg, sql ensures Phase1(cfg, DASHES + line + "\n" + sql) == Phase1(cfg, sql) {
        CommentsHideNothing(cfg, line, sql);
      }
    }
  }

  /** A prefix that changes the stripped text changes what some rule finds. */
  lemma TellTale(prefix: string, sql: string, f: Finding)
    requires !Invisible(prefix, sql)
    ensures exists cfg :: Phase1(cfg, prefix + sql) != Phase1(cfg, sql)
  {
    hide StripComments;
    var text := StripComments(sql);
    var cfg := Config([t => if t == text then [f] else []], [], 4.0, _ => None, _ => "");
    OneRule(cfg, prefix + sql);
    OneRule(cfg, sql);
    assert Phase1(cfg, prefix + sql) != Phase1(cfg, sql);
  }

  lemma OneRule(cfg: Config, sql: string)
    requires |cfg.rules| == 1 && cfg.checkers == []
    ensures Phase1(cfg, sql) == cfg.rules[0](StripComments(sql))
  {
    assert cfg.rules[..0] == [];
    var text := StripComments(sql);
    assert RuleFindings(cfg.rules, text) == [] + cfg.rules[0](text);
    assert CheckerFindings(cfg.checkers, text) == [];
  }

  /** A closed block comment, or a line comment in which no block comment stays open, never
      changes the verdict, whoever judges. */
  lemma {:induction false} VerdictIgnoresComments(cfg: Config, j1: Judge, j2: Judge, r1: int, r2: int,
                               comment: string, sql: string)
    ensures !HasClose(comment) ==>
              SameVerdict(Audit(cfg, j1, r1, OPEN + comment + CLOSE + sql), Audit(cfg, j2, r2, sql))
    ensures '\n' !in comment && !HasOpen(StripBlocks(comment)) ==>
              SameVerdict(Audit(cfg, j1, r1, DASHES + comment + "\n" + sql), Audit(cfg, j2, r2, sql))
  {
    if !HasClose(comment) {
      CommentsHideNothing(cfg, comment, sql);
      SameFindingsSameVerdict(cfg, j1, j2, r1, r2, OPEN + comment + CLOSE + sql, sql, Phase1(cfg, sql));
    }
    if '\n' !in comment && !HasOpen(StripBlocks(comment)) {
      CommentsHideNothing(cfg, comment, sql);
      SameFindingsSameVerdict(cfg, j1, j2, r1, r2, DASHES + comment + "\n" + sql, sql, Phase1(cfg, sql));
    }
  }
}
