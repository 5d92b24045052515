/** The values that travel between the nodes of the loop (`baseline1.py`, `contracts.py`). */
module Contracts {
  datatype Option<+T> = None | Some(value: T)

  const DEFAULT_ADVICE := "См. рекомендации по классу."

  datatype Vulnerability = Vulnerability(
    vulnClass: string, risk: real, description: string, recommendation: string, line: int)

  datatype Finding = Finding(
    ruleId: string, vulnClass: string, severity: string, risk: real, message: string,
    evidence: set<string>, line: int)
  {
    function ToVulnerability(advice: string): Vulnerability {
      Vulnerability(vulnClass, risk, message, if advice == "" then DEFAULT_ADVICE else advice, line)
    }
  }

  /** The verdict line of an audit; `comment` is the judge's contribution. */
  datatype Summary =
    | Accepted(comment: string)
    | Rejected(risk: real, threshold: real, classes: set<string>, comment: string)
    | NotAQuery

  datatype AuditResult = AuditResult(
    approved: bool, vulnerabilities: seq<Vulnerability>, risk: real, summary: Summary)

  datatype Lesson = Lesson(ruleId: string, lesson: string, exampleBad: string, exampleGood: string) {
    function ToString(): string {
      "[" + ruleId + "] " + lesson
    }
  }

  function Render(lessons: seq<Lesson>): (r: seq<string>)
    ensures |r| == |lessons|
    ensures forall k :: 0 <= k < |r| ==> r[k] == "[" + lessons[k].ruleId + "] " + lessons[k].lesson
  {
    seq(|lessons|, k requires 0 <= k < |lessons| => lessons[k].ToString())
  }

  // ------------------------------------------------------------------ equal up to advice

  /** Two findings as reported, equal in everything the judge has no say in. */
  predicate SameButAdvice(v: Vulnerability, w: Vulnerability) {
    v.vulnClass == w.vulnClass && v.risk == w.risk && v.description == w.description && v.line == w.line
  }

  predicate SameFindings(vs: seq<Vulnerability>, ws: seq<Vulnerability>) {
    |vs| == |ws| && forall k :: 0 <= k < |vs| ==> SameButAdvice(vs[k], ws[k])
  }

  predicate SameVerdict(a: AuditResult, b: AuditResult) {
    a.approved == b.approved && a.risk == b.risk && SameFindings(a.vulnerabilities, b.vulnerabilities)
  }

  /** Two lessons that read the same in a prompt. */
  predicate SameLesson(l: Lesson, m: Lesson) {
    l.ruleId == m.ruleId && l.lesson == m.lesson
  }

  predicate SameLessons(ls: seq<Lesson>, ms: seq<Lesson>) {
    |ls| == |ms| && forall k :: 0 <= k < |ls| ==> SameLesson(ls[k], ms[k])
  }

  predicate SameFeedback(a: Option<AuditResult>, b: Option<AuditResult>) {
    (a.None? && b.None?) || (a.Some? && b.Some? && SameVerdict(a.value, b.value))
  }
}
