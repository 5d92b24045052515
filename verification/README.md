# Verified model of the NL-to-SQL security system

A Dafny 4.11 model of the natural-language-to-SQL generator with its security auditor, and
proofs of what its parts promise. `dafny verify dfyconfig.toml` checks the whole project.

## What is modelled

**The generator, auditor, reflector loop.** `Auditor`, `Reflection`, `Generator` and
`Pipeline` follow the nodes and the loop of the source. `LoopRun` tells every run round by round
by the answers of the nodes, `LoopProperties` holds what runs guarantee whatever the nodes do,
`SystemRun` and `SecuritySystem` what reaches the model in runs of the assembled system and what
they guarantee; `AuditorReport` says what an audit finds and reports. Language models, rules,
checkers, the knowledge base and the lesson templates are arbitrary functions. The generator's
model is a function of the round and the prompts, the judge of the round, the query and its
findings, so two runs can differ in the judge only.

**The event stream.** `ChatStream` is the protocol between the worker thread, the callbacks
of the event loop and the consumer, one step at a time in any order; the worker may raise at
any point before its verdict. `StreamRuns` says which streams there are, `StreamedRun` joins the
protocol to the loop. `Sse` is the framing and the page's incremental decoder (a restriction of
section 9.2, Server-sent events, of the WHATWG HTML Living Standard).

**Scanners and trees.** `SqlComments` is the auditor's comment stripping, `SafeSelect` the
scanner in front of the SQL sandbox, with `AcceptedTexts` for the texts it accepts and rejects,
`UnchangedVerdict` for comments in front of a query and `OptionWords` for the words behind EXPLAIN;
`PlanTree` is the flattening of query plans.

**Caches, arithmetic, counters.** `Embeddings` is the client with its cache on disk,
`EmbeddingsAnswers` says what every reply leads to and what a later client finds on disk,
`EmbeddingsProperties` compares batches with single calls, `EmbeddingThreads` interleaves
threads at every point where none holds the lock; `Cosine` works over the reals with a square
root known only by its defining equation. `Checksums` has the Luhn and SNILS checks, `Ranking`
and `FewShot` the two rankings and the example store, `Histogram` the metric.

**Batching and the training set.** `Batching` is the batching server as a protocol and as the
server's own loop; `Dataset`, `DatasetSources`, `DatasetProperties` and `Split` are the assembly
of the records and their split, `RoundRobin` the order of the safe candidates.

Code that updates state is modelled by classes and methods with loops, each proved against a
function whose properties are the lemmas listed below.

## Where the code and its documentation differ

The model follows the code.

- The reflector's window is described as the last N lessons. The code keeps the last N keys of
  a dictionary in which a class flagged again keeps its old place: `KeptIff` says which classes
  stay, `JustFlaggedIsDropped` that the class just flagged again can be the one to go; a
  window of 0 keeps everything (`WindowZeroKeepsAll`).
- The sandbox scanner's comment says the value behind FORMAT is dropped with the word. It is
  dropped exactly if it begins with an option word itself (`ExplainFormatIff`), which none of
  FORMAT's values does (`FormatValueStays`).
- The scanner ends an option word at a blank only. Other white space keeps the verdict of every
  text exactly if there is a blank in it (`ExplainSeparatorIff`); behind a bare line break a
  query is rejected (`QueryRejected`) and a text that is no query accepted (`OtherAccepted`).
- The scanner looks for a closing mark from the opening mark on, so it takes three characters
  for a whole comment when a body begins with a slash (`CutIsExact`); `SlashInFront` is a query
  rejected for that, `ClosedCommentInFront` says exactly which closed comments keep all verdicts.
- The records builder calls a pair atomic. A candidate whose two versions differ in white space
  only is taken, and its vulnerable record stays alone (`LonelyRecord`). That takes a seed
  pair written by hand that way. `TwinsFollow` has the exact condition.
- `early_exit` is inferred from a class name, so an auditor that reports NOT_A_QUERY itself
  raises it as well (`EarlyExitIff`). No rule or checker of this repository reports that class:
  the second case needs another auditor.

## Model

| member | source | states |
|---|---|---|
| `Pipeline.SQLSecurityPipeline.Run` | src/case3/pipeline.py:62-182 | the loop over iterations, with its history, log, lessons and emitted events: the result and everything appended to the sink are those of the run `Final(nodes)`, for every generator, auditor and reflector |
| `Pipeline.SQLSecurityPipeline.constructor` | src/case3/pipeline.py:54-60 | no limit, or a limit of 0, means the default of 5; any other limit, negative ones too, is taken as it is |
| `LoopRun.RunIsTold` | src/case3/pipeline.py:62-182 | every run is told round by round by its nodes: query k + 1 is the generator's answer to the queries before, the audit before and the lessons held, which start empty and are the reflector's answer to each rejection; the audit is the auditor's, or the refusal with NOT_A_QUERY at risk 10; the run ends with the first entry approved or not SQL-like, or at the limit; every field of the result repeats the log, the lessons and the classes in it |
| `LoopProperties.RunTrace` | src/case3/pipeline.py:77-161 | every run emits one word of the trace language: rejected blocks, each announcing the lessons the next one starts with, then an approved end, a non-SQL end or the limit; the word tells the log entry by entry |
| `LoopProperties.RunResult` | src/case3/pipeline.py:141-182 | log numbers are 1..n with n = iterations_used within the limit; every entry but the last is SQL-like and rejected; a run shorter than the limit ends approved or non-SQL; final query and approval are the last entry's |
| `LoopProperties.EarlyExitIff` | src/case3/pipeline.py:166-181 | early_exit is set exactly by a non-SQL ending or by an auditor that itself reports NOT_A_QUERY (the source infers it from the class name) |
| `LoopProperties.MetadataTellsTheRun` | src/case3/pipeline.py:157-181 | reflection_final is what the event trace announced last, and the risk trajectory is the log's risks one by one |
| `LoopProperties.SameRun` | src/case3/pipeline.py:77-161 | two sets of nodes that differ only in the advice attached to findings give runs with equal queries, events, verdicts, risks and shown lessons |
| `LoopProperties.StuckForever` | src/case3/pipeline.py:77-161 | nodes without hidden state that repeat a rejected query without learning repeat it in every remaining round and end unapproved |
| `SecuritySystem.JudgeNonInterference` | src/case3/pipeline.py:206-249 | runs of the assembled system that differ only in the LLM judge have the same queries, event trace, approval, iteration count, risk trajectory, final lessons and early-exit flag |
| `SystemRun.SystemIsTold` | src/case3/pipeline.py:206-249 | every run of the assembled system is told by the LLM generator, the hybrid auditor and the reflector with their own settings |
| `SystemRun.LessonsReachTheModel` | src/case3/pipeline.py:77-161 | in every round of every run the query is extracted from the model's reply in that round, and the system prompt sent holds the instructions, the examples and every lesson formed and kept |
| `SystemRun.FeedbackReachesTheModel` | src/case3/pipeline.py:77-161 | the request sent is the task alone in the first round; in every later round it begins with the task and holds the query just rejected and, for every finding of the rules and checkers in it, a line with class and message |
| `SecuritySystem.RunMemory` | src/case3/pipeline.py:157-161 | after any run the lesson memory has distinct rule ids, at most `window` of them (window of at least 1), each with the last lesson written for it; while no more than `window` classes have been flagged it holds all of them in order of first flagging |
| `SecuritySystem.RepeatedQueryIsForever` | src/case3/pipeline.py:206-249 | with a deterministic model, a query repeated after a rejection whose lessons were all known is repeated until the limit |
| `Auditor.HybridAuditor.RunPhase1` | src/case3/nodes/auditor.py:250-280 | all rules on the comment-free text, then the checkers that do not raise, in order |
| `AuditorReport.FindingsAreTheParts` | src/case3/nodes/auditor.py:250-280 | the findings are what each rule and then each checker finds in the stripped text, one part behind the other; a raising checker contributes nothing |
| `AuditorReport.FoundIff` | src/case3/nodes/auditor.py:250-280 | a finding is reported exactly if some rule or some checker finds it in the stripped text |
| `AuditorReport.OneCheckRejects` | src/case3/nodes/auditor.py:250-370 | one finding at or above the threshold, of any rule or any checker, rejects the query |
| `AuditorReport.NoFindingApproves` | src/case3/nodes/auditor.py:250-370 | a query in which no check finds anything is approved with an empty report under a positive threshold |
| `Auditor.HybridAuditor.Run` | src/case3/nodes/auditor.py:315-385 | Phase 1, the judge's advice, decoration, worst risk and threshold give the specified result |
| `Auditor.JudgeHasNoSay` | src/case3/nodes/auditor.py:319-385 | whatever two judges reply, approval, risk and all fields of the findings but the recommendation are the same |
| `Auditor.AuditTellsFindings` | src/case3/nodes/auditor.py:351-385 | the report has one entry per Phase 1 finding, in order, with its class, risk and position and its message at the head of the description; the overall risk is the worst of them or 0; a rejection names exactly their classes |
| `Auditor.ApprovedIff` | src/case3/nodes/auditor.py:369-370 | a query is approved exactly when every Phase 1 finding is below the threshold; with no finding, when the threshold is positive |
| `Auditor.RiskIsWorst` | src/case3/nodes/auditor.py:369-369 | the overall risk is an upper bound of the findings' risks and is attained |
| `Auditor.LastNoteWins` | src/case3/nodes/auditor.py:344-346 | the judge's recommendation for a class is its last complete note about that class, stripped |
| `AuditorReport.ReportSays` | src/case3/nodes/auditor.py:319-367 | the description of a finding is its message and why it matters; its recommendation is the judge's last complete note on the class, the fix and the sources, in this order and separated by blanks; where there is none of them the judge's remark, else the stock sentence |
| `AuditorReport.SummarySays` | src/case3/nodes/auditor.py:337-378 | the verdict carries the judge's summary, or the first 200 characters of a reply that is no JSON; a rejection also the worst risk, the threshold and the classes |
| `Auditor.CommentsHideNothing` | src/case3/nodes/auditor.py:238-280 | behind a closed block comment, or a line comment in which no block comment stays open, the Phase 1 findings of every query are the same, for any rules and checkers |
| `Auditor.LineCommentHidesNothingIff` | src/case3/nodes/auditor.py:238-280 | a line comment in front leaves the findings of every query under all rules and checkers alone if and only if removing its closed block comments leaves no opening mark in it |
| `Auditor.VerdictIgnoresComments` | src/case3/nodes/auditor.py:238-280 | a closed block comment, or a line comment in which no block comment stays open, in front of a query never changes its verdict |
| `SqlComments.OutputIsCommentFree` | src/case3/nodes/auditor.py:245-247 | the stripped text holds no `--` and no closed block comment |
| `SqlComments.StripIdempotent` | src/case3/nodes/auditor.py:238-247 | stripping twice is stripping once |
| `SqlComments.PlainIsTrimmed` | src/case3/nodes/auditor.py:238-247 | a text with neither a closed block comment nor two dashes is only trimmed |
| `SqlComments.BlockIsBlank` | src/case3/nodes/auditor.py:245-245 | the first closed block comment of a text counts as one blank, wherever it stands |
| `SqlComments.DashesAreBlank` | src/case3/nodes/auditor.py:246-246 | two dashes and the rest of their line become one blank |
| `Text.StripFacts` | src/case3/nodes/auditor.py:247-247 | trimming takes off the white space at both ends, all of it and nothing else |
| `SqlComments.BlockPrefix` | src/case3/nodes/auditor.py:245-247 | prepending a closed block comment changes nothing, whatever follows |
| `SqlComments.LinePrefix` | src/case3/nodes/auditor.py:245-247 | prepending a line comment changes nothing for every text that follows, if and only if removing its closed block comments leaves no opening mark in it |
| `Reflection.Reflector.Run` | src/case3/nodes/reflector.py:94-110 | the two loops compute the specified memory: overwrite by rule id in place, then the window |
| `Reflection.PutAllIds` | src/case3/nodes/reflector.py:107-109 | the keys of the combined dictionary are the rule ids in order of first insertion |
| `Reflection.PutAllLast` | src/case3/nodes/reflector.py:107-109 | every value of the combined dictionary is the last lesson written for its id |
| `Reflection.KeptIff` | src/case3/nodes/reflector.py:106-110 | a class is kept exactly when fewer than `window` ids follow it in the combined order, in which an old class keeps its old place |
| `Reflection.JustFlaggedIsDropped` | src/case3/nodes/reflector.py:106-110 | the comment's `last N lessons` is not what the code keeps: for every full memory of any window, the oldest class flagged again together with a new one is the one that is dropped |
| `Reflection.WindowZeroKeepsAll` | src/case3/nodes/reflector.py:110-110 | window 0 keeps everything |
| `Reflection.WindowBelowZero` | src/case3/nodes/reflector.py:110-110 | a negative window drops that many of the oldest classes |
| `Reflection.FlaggedIsRemembered` | src/case3/nodes/reflector.py:75-110 | a flagged class that is kept is remembered with the lesson of its last finding: the template of the class, or else the finding's own description and recommendation, each with its stock text when empty |
| `Reflection.KnownLessonsSettle` | src/case3/nodes/reflector.py:101-110 | lessons that are all in memory leave it as it is |
| `Reflection.MemoryIsGood` | src/case3/nodes/reflector.py:94-110 | over any sequence of reflections: distinct ids, at most `window`, latest lessons, and completeness up to `window` classes |
| `Reflection.ReflectIgnoresAdvice` | src/case3/nodes/reflector.py:75-110 | findings that differ only in recommendation give lessons with the same id and text |
| `Generator.PromptsIgnoreAdvice` | src/case3/nodes/generator.py:206-269 | feedback and lessons that differ only in advice give the same prompts, hence the same SQL |
| `Generator.SystemIsSent` | src/case3/nodes/generator.py:199-269 | what `generate` returns is what is extracted from the model's reply to the two prompts sent; the system prompt sent begins with the instructions and examples, ends there without lessons, and holds the id and text of every lesson in memory |
| `Generator.RequestIsSent` | src/case3/nodes/generator.py:229-269 | the request sent is the task alone without a rejection; after one it is the task, the query rejected last, one line with class and description for every finding in order, and the fixed wording, and nothing else |
| `Generator.LinesSnoc` | src/case3/nodes/generator.py:221-263 | lines are joined by line breaks |
| `Sse.Receive` | src/case3/infra/service.py:1134-1144 | the client's chunk loop, with its rest buffer, decodes the stream as a whole, however it was cut |
| `Sse.DrainAppend` | src/case3/infra/service.py:1138-1144 | decoding can stop after any chunk and go on with the rest buffer |
| `Sse.RoundTrip` | src/case3/infra/service.py:1971-1983 | the encoded payloads decode to themselves with an empty rest, if and only if every payload is framable: no blank line in it and no line break at its end |
| `Sse.OnTheWire` | src/case3/infra/service.py:1973-1983 | an event on the wire is `data: `, the payload and a blank line, and decodes to the payload whatever follows |
| `Sse.RoundTripChunked` | src/case3/infra/service.py:1134-1144 | payloads without line breaks survive every chunking |
| `Sse.ForeignChunkSkipped` | src/case3/infra/service.py:1143-1143 | a complete chunk that is not a data field is skipped |
| `ChatStream.InvReachable` | src/case3/infra/service.py:1930-1983 | in every interleaving, what was yielded, queued and scheduled is together exactly what the worker posted, in order |
| `ChatStream.StoppedIsComplete` | src/case3/infra/service.py:1934-1983 | when the consumer stops it has yielded warnings, pipeline events and exactly one of final/error, which comes last (final only after the whole run); nothing follows the sentinel |
| `StreamRuns.StreamSays` | src/case3/infra/service.py:1930-1983 | event by event: the warnings first exactly if there are any, then the pipeline's events in order, then the result of the complete run, or an error that was raised with this message |
| `StreamRuns.EveryStreamHappens` | src/case3/infra/service.py:1930-1983 | every such stream is yielded by some interleaving: the complete run, and an error with any message behind any number of events |
| `ChatStream.YieldedIsPrefix` | src/case3/infra/service.py:1971-1983 | at any moment of any interleaving what has been yielded is a prefix of a full stream |
| `ChatStream.NoDeadlock` | src/case3/infra/service.py:1934-1983 | until the consumer stops, some participant can take a step |
| `ChatStream.RunsAreBounded` | src/case3/infra/service.py:1934-1983 | every interleaving is finite, with an explicit bound |
| `ChatStream.ClientSeesTheStream` | src/case3/infra/service.py:1971-1983 | whatever the interleaving and the chunking, the page decodes the complete stream and nothing else |
| `StreamedRun.FinalTellsTheRun` | src/case3/infra/service.py:1938-1969 | a stream that ends in final holds every event of the loop's run, in the trace language, and the run's own result |
| `SafeSelect.IsSafeSelect` | src/case3/infra/service.py:2095-2131 | the scanner's loops end on every text and judge exactly the text `Judged`; with neither comment nor EXPLAIN in front, the answer is whether the trimmed text starts with `select` or `with` and a blank, letter by letter in either case |
| `SafeSelect.TrimIs` | src/case3/infra/service.py:2100-2100 | trimming takes off the white space on the left, and on the right white space and then semicolons, all of them and nothing else |
| `AcceptedTexts.SelectIsAccepted` | src/case3/infra/service.py:2130-2131 | `select` in any letter case is accepted whatever follows |
| `AcceptedTexts.WithIsAccepted` | src/case3/infra/service.py:2130-2131 | `with` and a blank in any letter case is accepted if and only if anything but white space follows |
| `AcceptedTexts.OthersAreRejected` | src/case3/infra/service.py:2130-2131 | a text that begins with the letter of no query, EXPLAIN or comment is rejected |
| `AcceptedTexts.ChangesAreRejected` | src/case3/infra/service.py:2130-2131 | texts that begin with insert, update, delete, drop, truncate, alter, create or grant in any letter case are rejected |
| `AcceptedTexts.OpenCommentIsRejected` | src/case3/infra/service.py:2102-2108 | a comment in front that does not end hides everything, and nothing is accepted |
| `AcceptedTexts.OptionWordIsDropped` | src/case3/infra/service.py:2122-2129 | each of the seven option words, in any letter case, is dropped behind EXPLAIN |
| `AcceptedTexts.OptionWordIff` | src/case3/infra/service.py:2122-2122 | there are no other option words |
| `AcceptedTexts.OpenParenthesisIsRejected` | src/case3/infra/service.py:2112-2121 | a parenthesis behind EXPLAIN that is never closed is left, and nothing is accepted |
| `SafeSelect.JudgedIsSuffix` | src/case3/infra/service.py:2100-2131 | the text judged is a suffix of the trimmed query |
| `SafeSelect.CutIsExact` | src/case3/infra/service.py:2106-2108 | the first cut after a block comment ends where the comment ends, for every text behind it, exactly when its body does not begin with a slash: the closing mark is looked for from the opening mark on |
| `SafeSelect.LineCommentInFront` | src/case3/infra/service.py:2102-2105 | a line comment in front never changes the verdict |
| `UnchangedVerdict.ClosedCommentInFront` | src/case3/infra/service.py:2102-2131 | a closed block comment in front preserves the verdict of every query if and only if the scanner consumes all of it as comments, as it does whenever the body does not begin with a slash |
| `UnchangedVerdict.SlashInFront` | src/case3/infra/service.py:2106-2108 | the comment `/*/ */` is not consumed: `select` is accepted, and behind that comment it is rejected like every other text |
| `SafeSelect.ExplainWrapper` | src/case3/infra/service.py:2110-2129 | EXPLAIN in any letter case, any or no white space, balanced options in parentheses and any or no white space in front of any text: judged is the trimmed text, less any option words |
| `SafeSelect.ExplainKeepsVerdict` | src/case3/infra/service.py:2110-2131 | every such wrapper preserves what is judged for texts that begin with none of comment, EXPLAIN and option word |
| `OptionWords.SeparatorIff` | src/case3/infra/service.py:2122-2129 | white space behind an option word separates the word from what follows, for every text, if and only if it holds a blank |
| `OptionWords.ExplainSeparatorIff` | src/case3/infra/service.py:2095-2131 | the same for the whole scanner, however EXPLAIN is spelled and spaced: the verdict behind `EXPLAIN <word><white space>` is the one on the text less further option words, for every text, if and only if the white space holds a blank |
| `OptionWords.JudgedBehindFirstBlank` | src/case3/infra/service.py:2122-2129 | an option word runs on to the first blank of the text: everything up to there is cut off and the rest alone is judged |
| `OptionWords.QueryRejected` | src/case3/infra/service.py:2122-2131 | `SELECT id FROM t` is accepted, and rejected behind EXPLAIN ANALYZE and a line break |
| `OptionWords.OtherAccepted` | src/case3/infra/service.py:2122-2131 | a text that is no query and is rejected is accepted behind EXPLAIN ANALYZE and a line break |
| `OptionWords.ValueIsDroppedIff` | src/case3/infra/service.py:2122-2129 | a value behind an option word is dropped, for every text behind it, if and only if it begins with an option word itself |
| `OptionWords.ExplainFormatIff` | src/case3/infra/service.py:2095-2131 | the same for the whole scanner on `EXPLAIN <word> <value> <text>`, the word being FORMAT or any other option word |
| `OptionWords.FormatValueStays` | src/case3/infra/service.py:2095-2131 | the comment says JSON/TEXT behind FORMAT is dropped; no text behind `EXPLAIN FORMAT` and JSON, TEXT, XML or YAML, in any letter case, is accepted |
| `PlanTree.WalkPlan` | src/case3/infra/service.py:2245-2256 | the walk appends the rows of the children in order, one level deeper |
| `PlanTree.RowsShowNodes` | src/case3/infra/service.py:2245-2256 | one row for every node of the plan in preorder, with the node's type, relation, cost and rows, or the stock value for a missing one |
| `PlanTree.DecodeWalk` | src/case3/infra/service.py:2245-2256 | a decoder rebuilds exactly the labelled tree from the depth-labelled list |
| `PlanTree.WalkInjective` | src/case3/infra/service.py:2245-2256 | two plans give the same list exactly when their labelled trees are the same |
| `PlanTree.WalkShape` | src/case3/infra/service.py:2245-2256 | one row per node; each depth is at most the previous one plus one and none is at the root's again |
| `PlanTree.WellShapedIsWalk` | src/case3/infra/service.py:2245-2256 | every list of that shape is the flattening of a labelled tree |
| `Batching.MockVLLMServer.Cycle` | scripts/batching_demo.py:65-88 | one turn of the server loop, in any environment of arrivals and timeouts, is a run of the protocol and makes one pass |
| `Batching.MockVLLMServer.Infer` | scripts/batching_demo.py:90-94 | a client's call is one submission |
| `Batching.Reachable` | scripts/batching_demo.py:65-94 | in every reachable state each request is in exactly one of resolved, in hand and queued, in order of arrival; batches have 1 to max(1, max_batch) requests; the counters are right; a future is decided exactly by its request's pass |
| `Batching.FateOfARequest` | scripts/batching_demo.py:65-94 | in every reachable state the submissions are accounted for in order; a future is cancelled exactly if its client gave up, has its result exactly if it did not and the pass is over, and is pending otherwise |
| `Batching.PassesBound` | scripts/batching_demo.py:78-79 | passes <= served <= passes * max(1, max_batch) |
| `Batching.PatientIsOptimal` | scripts/batching_demo.py:97-106 | n waiting requests served without an early timeout take ceil(n / max(1, max_batch)) passes: p passes suffice for n and p - 1 do not |
| `Batching.ServerProgress` | scripts/batching_demo.py:65-88 | while anything is queued or in hand the server can move and gets closer to idle; idle, nothing is pending |
| `Embeddings.EmbeddingsClient.Embed` | src/case3/llm/embeddings.py:83-100 | one call: blank, hit, no token, failed request and stored answer, as specified |
| `Embeddings.EmbeddingsClient.EmbedBatch` | src/case3/llm/embeddings.py:102-127 | the scan and the zip loop over the shorter list give the specified vectors and cache |
| `Embeddings.EmbeddingsClient.SaveCache` | src/case3/llm/embeddings.py:129-137 | after a save the mark is cleared, the cache is as before, and the disk holds it if there was something to write |
| `EmbeddingsAnswers.SavedIsLoaded` | src/case3/llm/embeddings.py:60-137 | after a save a new client that starts from the disk answers every cached text as the old one did, without the backend |
| `EmbeddingsAnswers.AlwaysMarkedOrSaved` | src/case3/llm/embeddings.py:83-137 | every call leaves the client marked or in agreement with its disk |
| `EmbeddingsAnswers.AnsweredForGood` | src/case3/llm/embeddings.py:83-100 | a text that was given a vector keeps it in every later call, whatever the backend says then |
| `EmbeddingsAnswers.EmbedSays` | src/case3/llm/embeddings.py:83-100 | one call for every reply: none, a bare vector, or a list that may be empty or start with no vector; what is returned and what is cached under model and text |
| `EmbeddingsAnswers.BatchSays` | src/case3/llm/embeddings.py:102-127 | every text of a batch for every reply, short and patchy ones too: blank, cached, or the vector at its own place in the request, if there is one |
| `EmbeddingsAnswers.BatchStores` | src/case3/llm/embeddings.py:115-127 | under every key the cache holds the last vector that came back for it, and otherwise what it held before |
| `Embeddings.EmbeddingsClient.constructor` | src/case3/llm/embeddings.py:56-70 | starts with what the cache file holds, or nothing, and clean |
| `Embeddings.MissingIs` | src/case3/llm/embeddings.py:106-115 | the batch asks for exactly the texts that are neither blank nor cached, each with its own position |
| `Embeddings.MissingInOrder` | src/case3/llm/embeddings.py:106-115 | their positions strictly increase, so each stands once and duplicates of a text are asked for again |
| `EmbeddingsProperties.KeysCollide` | src/case3/llm/embeddings.py:152-153 | clients with different models share a key exactly if one model's prefix starts the other's |
| `EmbeddingsProperties.BatchIsManyCalls` | src/case3/llm/embeddings.py:83-127 | against a backend that answers, a batch gives the same vectors as single calls, for duplicates and blanks too, and the same cache, dirty mark and disk as those calls one after another |
| `EmbeddingThreads.EveryInterleaving` | src/case3/llm/embeddings.py:83-137 | in every interleaving of single calls, batches and saves: cache, file and results hold only the backend's vectors, a clean cache equals the file, nothing cached is lost or changed |
| `EmbeddingThreads.BatchAgreesWithSingles` | src/case3/llm/embeddings.py:83-127 | whatever other threads do in between, a fully answered batch returns what answered single calls return |
| `EmbeddingThreads.NeverBlocked` | src/case3/llm/embeddings.py:83-137 | in every state the interleavings reach, each call in progress can make its next move |
| `EmbeddingThreads.AloneIsFill` | src/case3/llm/embeddings.py:117-127 | without other threads the zip loop of the interleaved model is the one `EmbedBatch` is proved against |
| `EmbeddingThreads.AloneIsBatch` | src/case3/llm/embeddings.py:102-127 | without other threads a whole batch of the interleaved model, scan, request and zip loop, ends with the vectors and the cache `EmbedBatch` is proved against |
| `EmbeddingThreads.AloneIsEmbedded` | src/case3/llm/embeddings.py:83-100 | without other threads a single call of the interleaved model is the one `Embed` is proved against |
| `Cosine.CauchySchwarz` | src/case3/llm/embeddings.py:143-145 | the squared dot product is at most the product of the squared norms; in case of equality the vectors are proportional |
| `Cosine.CosineEquation` | src/case3/llm/embeddings.py:140-149 | for vectors that are not zero the similarity times both norms is the dot product |
| `Cosine.ZeroIff` | src/case3/llm/embeddings.py:140-149 | the similarity is 0 exactly for different lengths or dot product 0 |
| `Cosine.Bounded` | src/case3/llm/embeddings.py:140-149 | the similarity is in [-1, 1] for vectors of all lengths |
| `Cosine.Symmetric` | src/case3/llm/embeddings.py:140-149 | the similarity is symmetric |
| `Cosine.ScaleInvariant` | src/case3/llm/embeddings.py:140-149 | stretching a vector by a positive factor changes nothing |
| `Cosine.OneIffParallel` | src/case3/llm/embeddings.py:140-149 | the similarity is 1 exactly for non-zero vectors that are positive multiples of each other |
| `Checksums.LuhnValid` | src/case3/audit/sensitive.py:107-120 | on every text: thirteen digits or more whose sum by the standard ends in 0 |
| `Checksums.LuhnIsStandard` | src/case3/audit/sensitive.py:107-120 | the left-to-right parity loop computes the sum of ISO/IEC 7812-1 Annex B: from the right every second digit is doubled, and the decimal digits of all numbers are added |
| `Checksums.DigitsAreRead` | src/case3/audit/sensitive.py:109-109 | a text of digits is read digit by digit |
| `Checksums.LuhnCatchesSubstitution` | src/case3/audit/sensitive.py:107-120 | every change of a single digit of a valid number is rejected |
| `Checksums.LuhnSwap` | src/case3/audit/sensitive.py:107-120 | a swap of neighbours is accepted exactly for equal digits and for 0 and 9 |
| `Checksums.LuhnCheckDigit` | src/case3/audit/sensitive.py:107-120 | every body of twelve or more digits has exactly one valid check digit |
| `Checksums.SeparatorsIgnored` | src/case3/audit/sensitive.py:109-109 | a character that is no digit makes no difference |
| `Checksums.SnilsIsMod` | src/case3/audit/sensitive.py:130-139 | the branchy check is (total mod 101) mod 100 |
| `Checksums.SnilsIsStandard` | src/case3/audit/sensitive.py:123-139 | a text is accepted exactly if it holds eleven digits and the last two are the total of the first nine with weights 9 down to 1, mod 101 and then mod 100 |
| `Checksums.SnilsCompletion` | src/case3/audit/sensitive.py:123-139 | every text with nine digits is completed to a valid number by exactly one pair of digits behind it |
| `Checksums.SnilsControl` | src/case3/audit/sensitive.py:123-139 | every nine-digit body has exactly one valid control number |
| `Checksums.SnilsSubstitution` | src/case3/audit/sensitive.py:128-139 | a change of one digit goes undetected exactly at weight 1 by a step of one between residues 100 and 0 |
| `Checksums.SnilsSwap` | src/case3/audit/sensitive.py:128-139 | a swap of neighbours goes undetected exactly for equal digits, or digits one apart across residues 100 and 0 |
| `Dataset.Builder.Add` | dataset/generate_dataset.py:626-636 | a record is added exactly if its statement, up to white space, is new |
| `Dataset.Builder.Sid` | dataset/generate_dataset.py:638-640 | the next number of a prefix |
| `Dataset.Builder.Draw` | dataset/generate_dataset.py:645-657 | the candidates of one class up to its target |
| `Dataset.Builder.Fill` | dataset/generate_dataset.py:660-667 | safe candidates until the total is reached; a number is used up even if the statement is not new |
| `Dataset.BuildRecords` | dataset/generate_dataset.py:615-668 | the assembled list, cut by Python's slice, negative totals included |
| `DatasetSources.RecordsComeInOrder` | dataset/generate_dataset.py:615-668 | every record is one candidate or plain statement, field by field, with the prefix of its class; they stand in the order of the loops: class by class, candidate by candidate, the corrected version behind the vulnerable one, then the seed statements, then the pool; plain statements are numbered by their place |
| `DatasetSources.PairsAreCounted` | dataset/generate_dataset.py:638-657 | the vulnerable records of each prefix are numbered 1, 2, 3, ... in the order they stand |
| `DatasetSources.NumbersAscend` | dataset/generate_dataset.py:638-640 | numbers start at 1 and never fall under any prefix |
| `DatasetSources.NoClassIsSafe` | dataset/generate_dataset.py:638-667 | where no class is itself written `safe`, the plain statements are numbered from 1 |
| `Dataset.SpaceIsNormalised` | dataset/generate_dataset.py:628-628 | how much white space stands between two parts of a statement does not change its key |
| `Dataset.NormalKeeps` | dataset/generate_dataset.py:628-628 | a statement with single blanks and none at its ends is its own key |
| `DatasetProperties.RecordsAreDistinct` | dataset/generate_dataset.py:626-668 | no statement twice up to white space; an id shared by two records ties a vulnerable record to the safe one right after it |
| `DatasetProperties.TwinsFollow` | dataset/generate_dataset.py:642-657 | with a total of at least twice the target sum, each vulnerable record comes from a candidate of its class and is followed by that candidate's corrected version under the same id, exactly if the two versions differ in more than white space |
| `DatasetProperties.CutAtMostOnePair` | dataset/generate_dataset.py:668-668 | a smaller total separates a pair at the very end only |
| `DatasetProperties.LonelyRecord` | dataset/generate_dataset.py:642-657 | the comment's atomic pair fails for a candidate whose versions differ in white space only |
| `DatasetProperties.ClassesMeetTargets` | dataset/generate_dataset.py:645-657 | a class never exceeds its target, and misses it only when all its candidates are blocked |
| `DatasetProperties.TotalIsReached` | dataset/generate_dataset.py:659-668 | the list has the length asked for unless every safe candidate is in it |
| `Split.SplitRecords` | dataset/generate_dataset.py:671-682 | the grouping and marking loops give each record the split its place in the shuffled class says, and change nothing else |
| `Split.PlacedIs` | dataset/generate_dataset.py:671-682 | a record is `eval` exactly if it is among the first of its shuffled class, as many as the share says, else `train`; nothing else of it changes |
| `Split.EvalShare` | dataset/generate_dataset.py:671-682 | for any ratio and under any shuffle a class of n records gets max(1, int(n * ratio)) eval records, or all of them if that is more |
| `Split.EvalSizeIs` | dataset/generate_dataset.py:679-679 | the share is n times the ratio rounded down, but at least one |
| `Split.DefaultShare` | dataset/generate_dataset.py:671-679 | at the default ratio of one fifth that is max(1, n / 5 rounded down) |
| `RoundRobin.Interleave` | dataset/generate_dataset.py:313-318 | the nested loops compute the interleaving |
| `RoundRobin.NothingIsLost` | dataset/generate_dataset.py:313-318 | every candidate comes out exactly as often as the tables hold it |
| `RoundRobin.TurnsAreFair` | dataset/generate_dataset.py:313-318 | candidates come out by template number first and table second, so the first ones cover as many tables as there are |
| `Ranking.SortIs` | src/case3/retrieval/fewshot.py:112-112 | the sort is a descending permutation that keeps equal scores in pool order |
| `Ranking.SortIsUnique` | src/case3/schema/linker.py:151-151 | there is only one such order, so both spellings of the stable sort agree |
| `Ranking.CutAndFilterCommute` | src/case3/retrieval/fewshot.py:112-113 | cutting before filtering (store) equals filtering before cutting (linker) exactly if k is not negative, or all scores are positive, or none is, or the cut leaves nothing |
| `Ranking.BestAreKept` | src/case3/schema/linker.py:149-155 | what is left out beats nothing kept, and something positive is left out only if k items are kept |
| `FewShot.JaccardIs` | src/case3/retrieval/fewshot.py:40-44 | the overlap times the number of all tokens is the number of shared ones; it is in [0, 1], symmetric, positive exactly for a shared token, 1 exactly for equal non-empty sets |
| `FewShot.TokensSplit` | src/case3/retrieval/fewshot.py:36-37 | a character that is none of a token separates: the tokens are those of the two sides |
| `FewShot.WordIsToken` | src/case3/retrieval/fewshot.py:36-37 | a word of token characters is one token, lower-cased |
| `FewShot.TokenLetters` | src/case3/retrieval/fewshot.py:33-37 | token characters are Latin and Cyrillic letters except ё, digits and the underscore |
| `FewShot.FewShotStore.constructor` | src/case3/retrieval/fewshot.py:64-82 | the rows of the split go, in order, to positives or negatives by their mark |
| `FewShot.FewShotStore.Rank` | src/case3/retrieval/fewshot.py:103-113 | with the token cache the result is what it is without, for every state of the cache |
| `FewShot.FewShotStore.RetrievePositive` | src/case3/retrieval/fewshot.py:85-87 | positives only |
| `FewShot.FewShotStore.RetrieveNegative` | src/case3/retrieval/fewshot.py:90-100 | negatives of the given classes, or all negatives if there are none |
| `FewShot.RolesAreSeparate` | src/case3/retrieval/fewshot.py:85-100 | generator and judge never get each other's examples, and the judge gets the given classes whenever one has an example |
| `FewShot.RankedIs` | src/case3/retrieval/fewshot.py:103-113 | at most k examples that share a word of question or statement with the query, larger overlap first; one left out shares none, or k are returned and none overlaps less |
| `FewShot.NegativePoolIs` | src/case3/retrieval/fewshot.py:95-100 | the judge's pool is the negatives of the classes in their order, all of them, or all negatives if there are none |
| `FewShot.SelectedInOrder` | src/case3/retrieval/fewshot.py:64-82 | indexing keeps the order of the rows |
| `FewShot.SplitIsPartitioned` | src/case3/retrieval/fewshot.py:64-82 | every row of the split is indexed as often as it occurs, on one side only |
| `FewShot.LinkedTablesShareAWord` | src/case3/schema/linker.py:131-155 | for positive boosts, the lexical ranking returns only tables sharing a word with the task, and all of them while fewer than k are returned |
| `FewShot.ScoreByWord` | src/case3/schema/linker.py:128-154 | each word of the task adds the table's boost if it is among its words and twice that besides if it is in its name or comment |
| `Histogram.BoundsAreALadder` | src/case3/infra/metrics.py:116-119 | the bounds are ascending and end in +Inf for any list of bounds, sorted or not, and are the given ones, or the default ones if none are given |
| `Histogram.KeyIs` | src/case3/infra/metrics.py:51-52 | a series is filed under the values of the declared labels; a missing one counts as empty, any other makes no difference |
| `Histogram.Histogram.Observe` | src/case3/infra/metrics.py:124-135 | one observation changes its label set's series only, creating it if needed; after any calls the object's numbers are those of all observations made on it |
| `Histogram.SeriesIs` | src/case3/infra/metrics.py:124-135 | each bucket is the number of the label set's values at or below its bound, count their number, sum their total |
| `Histogram.BucketsAreCumulative` | src/case3/infra/metrics.py:124-135 | buckets never decrease along the bounds, and the +Inf bucket equals the count |
| `Histogram.OrderDoesNotMatter` | src/case3/infra/metrics.py:124-135 | the state depends only on the multiset of observations |
| `Histogram.ObjectTells` | src/case3/infra/metrics.py:116-135 | at any time the object's series are the counts and totals of what was observed on it, and two objects with the same bounds and the same observations in any order have the same series |

## Left out

- HTTP endpoints, authentication, psycopg2, docker, the page other than its decode loop, and the clarification dialogue: plumbing around the parts modelled.
- The wording of prompts, hints, few-shot and schema blocks: fixed texts or functions of the task; only the reflection and retry blocks, which carry audit data, are spelled out.
- Calls to language models and how a reply is parsed as JSON: the judge is an arbitrary function to a parsed verdict, free text, or no judge at all; node calls return and do not raise.
- The regex rules, schema checks, AST checker and knowledge base texts: arbitrary functions returning findings, or nothing where the source catches their exceptions.
- The rendered audit log, timestamps, trace ids and timings: formatting and clocks.
- Unicode white space, case folding and byte-level decoding of chunks: white space and lower-casing are ASCII (and Cyrillic for the example store's tokens), chunks are cut between characters.
- Float rounding, NaN, infinities and float formatting: reals and exact division; the split's share is taken in exact arithmetic for any ratio.
- A client that disconnects, cancellation of the server task, and the internals of `wait_for`: a get with a timeout takes the head of the queue or nothing.
- `EmbeddingsClient`: the JSON text of the cache file is modelled by its content, a save as one atomic step, cached `null` entries and replies that are not lists not at all.
- `DatasetRecord` objects: records are values in an array, so sharing of one record object between two lists is not modelled; the number in a seed id is a number, not its padded digits.
- The per-table generators, the templates of `gen_safe`, seed examples and catalogue parsing: candidate pools are arbitrary lists.
- The semantic branch of the linker's ranking, foreign-key closure, column selection and DDL text: the ranking lemmas hold for arbitrary scores, the rest is string assembly.
- Counter, Gauge, the registry and the exposition text: only easy members.
- `admin_stats`, `detect_column`, `build_dataset.py`, notebooks and stubs: not needed by the properties above.
