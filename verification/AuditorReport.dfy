/** What an audit finds and what it reports, told by the rules, the checkers, the judge's reply
    and the knowledge base themselves. */
module AuditorReport {
  import opened Text
  import opened Contracts
  import opened SqlComments
  import opened Auditor

  // ------------------------------------------------------------------ Phase 1

  function ByRule(rules: seq<string -> seq<Finding>>, text: string): (ps: seq<seq<Finding>>)
    ensures |ps| == |rules| && forall i :: 0 <= i < |rules| ==> ps[i] == rules[i](text)
  {
    seq(|rules|, i requires 0 <= i < |rules| => rules[i](text))
  }

  /** A checker that raises finds nothing. */
  function ByChecker(checkers: seq<string -> Option<seq<Finding>>>, text: string): (ps: seq<seq<Finding>>)
    ensures |ps| == |checkers|
    ensures forall i :: 0 <= i < |checkers| ==>
      ps[i] == if checkers[i](text).Some? then checkers[i](text).value else []
  {
    seq(|checkers|, i requires 0 <= i < |checkers| =>
      if checkers[i](text).Some? then checkers[i](text).value else [])
  }

  function Flatten<T>(ps: seq<seq<T>>): seq<T> {
    if ps == [] then [] else ps[0] + Flatten(ps[1..])
  }

  lemma {:induction false} FlattenConcat<T>(a: seq<seq<T>>, b: seq<seq<T>>)
    ensures Flatten(a + b) == Flatten(a) + Flatten(b)
  {
    if a == [] {
      assert a + b == b;
    } else {
      assert (a + b)[1..] == a[1..] + b;
      FlattenConcat(a[1..], b);
    }
  }

  lemma FlattenOne<T>(p: seq<T>)
    ensures Flatten([p]) == p
  {
    assert Flatten([p]) == p + Flatten([p][1..]);
  }

  lemma {:induction false} InFlatten<T>(ps: seq<seq<T>>, x: T)
    ensures x in Flatten(ps) <==> exists i :: 0 <= i < |ps| && x in ps[i]
  {
    if ps != [] {
      InFlatten(ps[1..], x);
      assert Flatten(ps) == ps[0] + Flatten(ps[1..]);
      if i :| 0 <= i < |ps| && x in ps[i] { assert i > 0 ==> x in ps[1..][i - 1]; }
      if i :| 0 <= i < |ps[1..]| && x in ps[1..][i] { assert x in ps[i + 1]; }
    }
  }

  lemma {:induction false} RuleParts(rules: seq<string -> seq<Finding>>, text: string)
    ensures RuleFindings(rules, text) == Flatten(ByRule(rules, text))
  {
    if rules != [] {
      var n := |rules| - 1;
      RuleParts(rules[..n], text);
      FlattenConcat(ByRule(rules[..n], text), [rules[n](text)]);
      FlattenOne(rules[n](text));
      assert ByRule(rules, text) == ByRule(rules[..n], text) + [rules[n](text)];
    }
  }

  lemma {:induction false} CheckerParts(checkers: seq<string -> Option<seq<Finding>>>, text: string)
    ensures CheckerFindings(checkers, text) == Flatten(ByChecker(checkers, text))
  {
    if checkers != [] {
      var n := |checkers| - 1;
      var last := if checkers[n](text).Some? then checkers[n](text).value else [];
      CheckerParts(checkers[..n], text);
      FlattenConcat(ByChecker(checkers[..n], text), [last]);
      FlattenOne(last);
      assert ByChecker(checkers, text) == ByChecker(checkers[..n], text) + [last];
    }
  }

  /** The findings are those of every rule and then of every checker on the stripped text, one
      part behind the other, and nothing else. */
  lemma FindingsAreTheParts(cfg: Config, sql: string)
    ensures var t := StripComments(sql);
            Phase1(cfg, sql) == Flatten(ByRule(cfg.rules, t) + ByChecker(cfg.checkers, t))
  {
    var t := StripComments(sql);
    RuleParts(cfg.rules, t);
    CheckerParts(cfg.checkers, t);
    FlattenConcat(ByRule(cfg.rules, t), ByChecker(cfg.checkers, t));
  }

  ghost predicate RuleFinds(cfg: Config, text: string, i: int, f: Finding) {
    0 <= i < |cfg.rules| && f in cfg.rules[i](text)
  }

  ghost predicate CheckerFinds(cfg: Config, text: string, i: int, f: Finding) {
    0 <= i < |cfg.checkers| && cfg.checkers[i](text).Some? && f in cfg.checkers[i](text).value
  }

  /** A finding is reported exactly if some rule or some checker finds it in the stripped text. */
  lemma FoundIff(cfg: Config, sql: string, f: Finding)
    ensures var t := StripComments(sql);
            f in Phase1(cfg, sql) <==> (exists i :: RuleFinds(cfg, t, i, f)) || exists i :: CheckerFinds(cfg, t, i, f)
  {
    var t, n := StripComments(sql), |cfg.rules|;
    var ps := ByRule(cfg.rules, t) + ByChecker(cfg.checkers, t);
    FindingsAreTheParts(cfg, sql);
    InFlatten(ps, f);
    hide Phase1, StripComments, Flatten;
    if i :| 0 <= i < |ps| && f in ps[i] {
      if i < n { assert RuleFinds(cfg, t, i, f); } else { assert CheckerFinds(cfg, t, i - n, f); }
    }
    if i :| RuleFinds(cfg, t, i, f) { assert f in ps[i]; }
    if i :| CheckerFinds(cfg, t, i, f) { assert f in ps[n + i]; }
  }

  /** One finding at or above the threshold, of whatever rule or checker, rejects the query. */
  lemma OneCheckRejects(cfg: Config, judge: Judge, round: int, sql: string, i: int, f: Finding)
    requires RuleFinds(cfg, StripComments(sql), i, f) || CheckerFinds(cfg, StripComments(sql), i, f)
    requires f.risk >= cfg.threshold
    ensures !Audit(cfg, judge, round, sql).approved
  {
    FoundIff(cfg, sql, f);
    ApprovedIff(cfg, judge, round, sql);
  }

  /** A text in which nothing is found by any of them is approved under a positive threshold. */
  lemma NoFindingApproves(cfg: Config, judge: Judge, round: int, sql: string)
    requires forall i, f :: !RuleFinds(cfg, StripComments(sql), i, f) && !CheckerFinds(cfg, StripComments(sql), i, f)
    requires cfg.threshold > 0.0
    ensures Audit(cfg, judge, round, sql).approved && Audit(cfg, judge, round, sql).vulnerabilities == []
  {
    var fs := Phase1(cfg, sql);
    if fs != [] {
      assert fs[0] in fs;
      FoundIff(cfg, sql, fs[0]);
    }
    ApprovedIff(cfg, judge, round, sql);
  }

  // ------------------------------------------------------------------ Phase 2

  /** The last complete note about a class, stripped; without one, nothing. */
  function LastNote(notes: seq<Note>, c: string): string {
    if notes == [] then ""
    else
      var n := notes[|notes| - 1];
      if n.vulnClass == c && c != "" && n.recommendation != "" then Strip(n.recommendation)
      else LastNote(notes[..|notes| - 1], c)
  }

  lemma {:induction false} CollectIs(notes: seq<Note>, c: string)
    ensures LastNote(notes, c) == if c in Collect(notes) then Collect(notes)[c] else ""
  {
    if notes != [] { CollectIs(notes[..|notes| - 1], c); }
  }

  /** What the judge advises on a class. It is asked only if there is a finding. */
  function Said(judge: Judge, round: int, sql: string, fs: seq<Finding>, c: string): string {
    if judge.NoJudge? || fs == [] then ""
    else
      var verdict := judge.parse(judge.reply(round, sql, fs));
      if verdict.Some? then LastNote(verdict.value.notes, c) else ""
  }

  /** What it says in general: the summary, or the first 200 characters of a reply that is no JSON. */
  function Remark(judge: Judge, round: int, sql: string, fs: seq<Finding>): string {
    if judge.NoJudge? || fs == [] then ""
    else
      var text := judge.reply(round, sql, fs);
      var verdict := judge.parse(text);
      if verdict.Some? then Strip(verdict.value.summary)
      else if |Strip(text)| <= 200 then Strip(text) else Strip(text)[..200]
  }

  /** Two parts of an advice, with a blank between them if there are both. */
  function Both(a: string, b: string): string {
    if a == "" then b else if b == "" then a else a + " " + b
  }

  lemma AdviceIs(judge: Judge, round: int, sql: string, fs: seq<Finding>, c: string)
    ensures var adv := Consult(judge, round, sql, fs);
      && adv.comment == Remark(judge, round, sql, fs)
      && Said(judge, round, sql, fs, c) == if c in adv.byClass then adv.byClass[c] else ""
  {
    hide Strip;
    if judge.Judge? && fs != [] {
      var verdict := judge.parse(judge.reply(round, sql, fs));
      if verdict.Some? { CollectIs(verdict.value.notes, c); }
    }
  }

  function Present(a: string): seq<string> {
    if a != "" then [a] else []
  }

  lemma JoinIsBoth(a: string, b: string, c: string)
    ensures Join(Present(a) + Present(b) + Present(c)) == Both(a, Both(b, c))
  {
    assert Present(a) + Present(b) + Present(c)
        == if a == "" then (if b == "" then Present(c) else if c == "" then [b] else [b, c])
           else if b == "" then (if c == "" then [a] else [a, c])
           else if c == "" then [a, b] else [a, b, c];
    JoinTwo(a, b);
    JoinTwo(a, c);
    JoinTwo(b, c);
    assert [a, b, c][1..] == [b, c];
  }

  lemma JoinTwo(a: string, b: string)
    ensures Join([a, b]) == a + " " + b
  {
    assert [a, b][1..] == [b];
  }

  /** The report on finding k: what was found, then why it matters; and as recommendation the
      judge's advice on the class, the fix and the sources of the knowledge base, in this order;
      where there is none of them the judge's remark, and without one a stock sentence. */
  lemma ReportSays(cfg: Config, judge: Judge, round: int, sql: string, k: nat)
    requires k < |Phase1(cfg, sql)| && forall sources :: cfg.renderSources(sources) != ""
    ensures var fs := Phase1(cfg, sql);
            var f, v, kn := fs[k], Audit(cfg, judge, round, sql).vulnerabilities[k], cfg.lookup(fs[k].vulnClass);
            var why, fix := if kn.Some? then kn.value.why else "", if kn.Some? then kn.value.fix else "";
            var sources := f.evidence + if kn.Some? then kn.value.evidence else {};
            var grounds := if sources == {} then "" else cfg.renderSources(sources);
            var text := Both(Said(judge, round, sql, fs, f.vulnClass), Both(fix, grounds));
            var remark := Remark(judge, round, sql, fs);
      && v.description == (if why == "" then f.message else f.message + " — " + why)
      && v.recommendation == (if text != "" then text else if remark != "" then remark else "См. рекомендации по классу.")
  {
    var fs := Phase1(cfg, sql);
    var f, kn := fs[k], cfg.lookup(fs[k].vulnClass);
    AdviceIs(judge, round, sql, fs, f.vulnClass);
    var sources := f.evidence + if kn.Some? then kn.value.evidence else {};
    JoinIsBoth(Said(judge, round, sql, fs, f.vulnClass), if kn.Some? then kn.value.fix else "",
               if sources == {} then "" else cfg.renderSources(sources));
    hide Phase1, Consult, Said, Remark, Join;
  }

  /** The verdict line carries the remark, and for a rejection the worst risk, the threshold it
      reaches and the classes found. */
  lemma SummarySays(cfg: Config, judge: Judge, round: int, sql: string)
    ensures var fs, r := Phase1(cfg, sql), Audit(cfg, judge, round, sql);
            var remark := Remark(judge, round, sql, fs);
      r.summary == if r.approved then Accepted(remark)
                   else Rejected(r.risk, cfg.threshold, set f | f in fs :: f.vulnClass, remark)
  {
    var fs := Phase1(cfg, sql);
    AdviceIs(judge, round, sql, fs, "");
    AuditTellsFindings(cfg, judge, round, sql);
    hide Phase1, Consult, Remark;
  }
}
