/** Prompt assembly of the generator (`generator.py`): what of an audit reaches the next prompt. */
module Generator {
  import opened Contracts

  /** The fixed wording of the prompts. `preamble` is the instruction text with the
      calibration hints and the schema block. */
  datatype Wording = Wording(
    preamble: string, memoryHeader: string, rejectedHeader: string, problemsHeader: string, closing: string)

  /** `llm` answers a pair of prompts in a given round; `fence` extracts SQL from a reply. */
  datatype LLMGenerator = LLMGenerator(
    wording: Wording,
    shots: string -> string,
    llm: (int, string, string) -> string,
    fence: string -> string)

  function Lines(ls: seq<string>): string {
    if ls == [] then ""
    else if |ls| == 1 then ls[0]
    else ls[0] + "\n" + Lines(ls[1..])
  }

  /** The lines of the reflection block: they read `str(lesson)` and nothing else. */
  function Bullets(lessons: seq<Lesson>): seq<string> {
    seq(|lessons|, k requires 0 <= k < |lessons| => "- " + lessons[k].ToString())
  }

  function SystemPrompt(g: LLMGenerator, reflection: seq<Lesson>, task: string): string {
    g.wording.preamble + g.shots(task)
    + (if reflection == [] then "" else g.wording.memoryHeader + Lines(Bullets(reflection)))
  }

  /** The lines of the retry block: class and description of each finding. */
  function Problems(vs: seq<Vulnerability>): seq<string> {
    seq(|vs|, k requires 0 <= k < |vs| => "  - " + vs[k].vulnClass + ": " + vs[k].description)
  }

  function RetryBlock(g: LLMGenerator, history: seq<string>, feedback: Option<AuditResult>): string {
    if feedback.None? || feedback.value.approved then ""
    else
      g.wording.rejectedHeader + (if history == [] then "" else history[|history| - 1])
      + g.wording.problemsHeader + Lines(Problems(feedback.value.vulnerabilities)) + g.wording.closing
  }

  function Generate(g: LLMGenerator, task: string, history: seq<string>, feedback: Option<AuditResult>,
                    round: int, reflection: seq<Lesson>): string {
    g.fence(g.llm(round, SystemPrompt(g, reflection, task), task + RetryBlock(g, history, feedback)))
  }

  /** Feedback and lessons that differ only in advice give the same prompts, hence the same SQL. */
  lemma PromptsIgnoreAdvice(g: LLMGenerator, task: string, history: seq<string>, round: int,
                            f1: Option<AuditResult>, f2: Option<AuditResult>, l1: seq<Lesson>, l2: seq<Lesson>)
    requires SameFeedback(f1, f2) && SameLessons(l1, l2)
    ensures Generate(g, task, history, f1, round, l1) == Generate(g, task, history, f2, round, l2)
  {
    forall k | 0 <= k < |l1| ensures Bullets(l1)[k] == Bullets(l2)[k] {
      assert SameLesson(l1[k], l2[k]);
    }
    assert Bullets(l1) == Bullets(l2);
    if f1.Some? && !f1.value.approved {
      var vs, ws := f1.value.vulnerabilities, f2.value.vulnerabilities;
      forall k | 0 <= k < |vs| ensures Problems(vs)[k] == Problems(ws)[k] {
        assert SameButAdvice(vs[k], ws[k]);
      }
      assert Problems(vs) == Problems(ws);
    }
  }

  // ------------------------------------------------------------------ what the prompts carry

  ghost predicate Holds(text: string, part: string) {
    exists front: string, back: string :: text == front + part + back
  }

  lemma HoldsIn(a: string, b: string, c: string, part: string)
    requires Holds(b, part)
    ensures Holds(a + b + c, part)
  {
    var front, back :| b == front + part + back;
    assert a + b + c == (a + front) + part + (back + c);
  }

  lemma HoldsItself(a: string, b: string)
    ensures Holds(a + b, a) && Holds(a, a)
  {
    assert a + b == "" + a + b;
    assert a == "" + a + "";
  }

  lemma {:induction false} LinesHold(ls: seq<string>, k: nat)
    requires k < |ls|
    ensures Holds(Lines(ls), ls[k])
  {
    if |ls| == 1 {
      HoldsItself(ls[0], "");
    } else if k == 0 {
      HoldsItself(ls[0], "\n" + Lines(ls[1..]));
      assert ls[0] + "\n" + Lines(ls[1..]) == ls[0] + ("\n" + Lines(ls[1..]));
    } else {
      LinesHold(ls[1..], k - 1);
      HoldsIn(ls[0] + "\n", Lines(ls[1..]), "", ls[k]);
      assert ls[0] + "\n" + Lines(ls[1..]) + "" == ls[0] + "\n" + Lines(ls[1..]);
    }
  }

  /** Every lesson in memory is in the system prompt, as the page shows it. */
  lemma PromptCarriesLessons(g: LLMGenerator, reflection: seq<Lesson>, task: string, k: nat)
    requires k < |reflection|
    ensures Holds(SystemPrompt(g, reflection, task), "- [" + reflection[k].ruleId + "] " + reflection[k].lesson)
  {
    LinesHold(Bullets(reflection), k);
    var head, lines, bullet := g.wording.preamble + g.shots(task), Lines(Bullets(reflection)), Bullets(reflection)[k];
    Bracketed(reflection[k]);
    assert SystemPrompt(g, reflection, task) == head + (g.wording.memoryHeader + lines);
    hide Bullets, SystemPrompt, Holds, Lines;
    HoldsIn(head + g.wording.memoryHeader, lines, "", bullet);
    TwoParts(head, g.wording.memoryHeader, lines);
  }

  lemma Bracketed(l: Lesson)
    ensures "- " + l.ToString() == "- [" + l.ruleId + "] " + l.lesson
  {
    assert "- " + ("[" + l.ruleId + "] " + l.lesson) == "- [" + l.ruleId + "] " + l.lesson;
  }

  lemma TwoParts(a: string, b: string, c: string)
    ensures a + (b + c) == a + b + c + ""
  {}

  /** After a rejection the request carries the rejected query and every finding with its class
      and description; otherwise it is the task alone. */
  lemma RequestCarriesRejection(g: LLMGenerator, task: string, history: seq<string>, feedback: Option<AuditResult>)
    ensures feedback.None? || feedback.value.approved ==> task + RetryBlock(g, history, feedback) == task
    ensures feedback.Some? && !feedback.value.approved && history != [] ==>
              Holds(RetryBlock(g, history, feedback), history[|history| - 1])
    ensures feedback.Some? && !feedback.value.approved ==>
              forall v :: v in feedback.value.vulnerabilities ==>
                Holds(RetryBlock(g, history, feedback), "  - " + v.vulnClass + ": " + v.description)
  {
    if feedback.Some? && !feedback.value.approved {
      var w, vs := g.wording, feedback.value.vulnerabilities;
      var last, lines := if history == [] then "" else history[|history| - 1], Lines(Problems(vs));
      var rest := w.problemsHeader + lines + w.closing;
      var block := RetryBlock(g, history, feedback);
      Parts(w.rejectedHeader, last, w.problemsHeader, lines, w.closing);
      HoldsItself(last, "");
      HoldsIn(w.rejectedHeader, last, rest, last);
      forall v | v in vs ensures Holds(block, "  - " + v.vulnClass + ": " + v.description) {
        var k :| 0 <= k < |vs| && vs[k] == v;
        LinesHold(Problems(vs), k);
        HoldsIn(w.rejectedHeader + last + w.problemsHeader, lines, w.closing, Problems(vs)[k]);
      }
    }
  }

  lemma Parts(a: string, b: string, c: string, d: string, e: string)
    ensures a + b + c + d + e == a + b + (c + d + e)
  {}

  // ------------------------------------------------------------------ what is sent

  /** The system prompt that reaches the model: the answer of a model that returns it. */
  function SentSystem(g: LLMGenerator, task: string, history: seq<string>, feedback: Option<AuditResult>,
                      round: int, lessons: seq<Lesson>): string {
    Generate(g.(llm := (_, s, _) => s, fence := x => x), task, history, feedback, round, lessons)
  }

  /** The request that reaches the model. */
  function SentRequest(g: LLMGenerator, task: string, history: seq<string>, feedback: Option<AuditResult>,
                       round: int, lessons: seq<Lesson>): string {
    Generate(g.(llm := (_, _, u) => u, fence := x => x), task, history, feedback, round, lessons)
  }

  /** The node answers with what `fence` extracts from the model's reply, in this round, to the
      two prompts sent. The first begins with the instructions and the examples for the task and
      holds every lesson in memory; without lessons it is no more than that. */
  lemma SystemIsSent(g: LLMGenerator, task: string, history: seq<string>, feedback: Option<AuditResult>,
                     round: int, lessons: seq<Lesson>)
    ensures var system, user := SentSystem(g, task, history, feedback, round, lessons),
                                SentRequest(g, task, history, feedback, round, lessons);
            Generate(g, task, history, feedback, round, lessons) == g.fence(g.llm(round, system, user))
    ensures var system := SentSystem(g, task, history, feedback, round, lessons);
            && g.wording.preamble + g.shots(task) <= system
            && (lessons == [] ==> system == g.wording.preamble + g.shots(task))
            && (lessons != [] ==> Holds(system, g.wording.memoryHeader))
            && forall l :: l in lessons ==> Holds(system, "- [" + l.ruleId + "] " + l.lesson)
  {
    var system, head := SentSystem(g, task, history, feedback, round, lessons), g.wording.preamble + g.shots(task);
    assert system == SystemPrompt(g, lessons, task);
    if lessons != [] {
      var tail := Lines(Bullets(lessons));
      assert system == head + (g.wording.memoryHeader + tail);
      assert system == head + g.wording.memoryHeader + tail;
      assert Holds(system, g.wording.memoryHeader);
    }
    forall l | l in lessons ensures Holds(system, "- [" + l.ruleId + "] " + l.lesson) {
      var k :| 0 <= k < |lessons| && lessons[k] == l;
      PromptCarriesLessons(g, lessons, task, k);
    }
  }

  /** The request is the task alone in the first round and after an approval. After a rejection
      it is the task, the query rejected last, one line for every finding in their order, and
      the fixed wording between and behind. */
  lemma RequestIsSent(g: LLMGenerator, task: string, history: seq<string>, feedback: Option<AuditResult>,
                      round: int, lessons: seq<Lesson>, lines: seq<string>)
    requires var vs := if feedback.Some? then feedback.value.vulnerabilities else [];
             |lines| == |vs| && forall k :: 0 <= k < |vs| ==> lines[k] == "  - " + vs[k].vulnClass + ": " + vs[k].description
    ensures var user := SentRequest(g, task, history, feedback, round, lessons);
            && task <= user
            && (feedback.None? || feedback.value.approved ==> user == task)
            && (feedback.Some? && !feedback.value.approved ==>
                  user == task + g.wording.rejectedHeader + (if history == [] then "" else history[|history| - 1])
                          + g.wording.problemsHeader + Lines(lines) + g.wording.closing)
    ensures var user := SentRequest(g, task, history, feedback, round, lessons);
            feedback.Some? && !feedback.value.approved ==>
              && (history != [] ==> Holds(user, history[|history| - 1]))
              && forall v :: v in feedback.value.vulnerabilities ==> Holds(user, "  - " + v.vulnClass + ": " + v.description)
  {
    var user, block := SentRequest(g, task, history, feedback, round, lessons), RetryBlock(g, history, feedback);
    assert user == task + block;
    RequestCarriesRejection(g, task, history, feedback);
    if feedback.Some? && !feedback.value.approved {
      assert lines == Problems(feedback.value.vulnerabilities);
      var w, last := g.wording, if history == [] then "" else history[|history| - 1];
      InFront(task, w.rejectedHeader, last, w.problemsHeader, Lines(lines), w.closing);
      if history != [] { HoldsBehind(task, block, last); }
      forall v | v in feedback.value.vulnerabilities ensures Holds(user, "  - " + v.vulnClass + ": " + v.description) {
        HoldsBehind(task, block, "  - " + v.vulnClass + ": " + v.description);
      }
    }
  }

  lemma HoldsBehind(a: string, b: string, part: string)
    requires Holds(b, part)
    ensures Holds(a + b, part)
  {
    HoldsIn(a, b, "", part);
    assert a + b + "" == a + b;
  }

  lemma InFront(t: string, a: string, b: string, c: string, d: string, e: string)
    ensures t + (a + b + c + d + e) == t + a + b + c + d + e
  {}

  /** One line more is one line break and the line. */
  lemma {:induction false} LinesSnoc(ls: seq<string>, x: string)
    ensures Lines(ls + [x]) == if ls == [] then x else Lines(ls) + "\n" + x
  {
    if |ls| >= 1 {
      assert (ls + [x])[1..] == ls[1..] + [x];
      LinesSnoc(ls[1..], x);
      if |ls| > 1 { InFront(ls[0], "\n", Lines(ls[1..]), "\n", x, ""); }
    }
  }
}
