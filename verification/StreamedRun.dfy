/** The stream of a session that runs the loop: the two protocols put together. */
module StreamedRun {
  import opened ChatStream
  import LoopProperties
  import Pipeline

  /** For a session that streams a run of the loop: a stream that ends in `final` holds every
      event of the run, in the language of the loop, followed by the run's own result. */
  lemma FinalTellsTheRun(n: Pipeline.Nodes, x: Session, steps: seq<Step>, s: State)
    returns (out: LoopProperties.Outcome)
    requires x.script == Pipeline.Final(n).events && x.result == Pipeline.Result(Pipeline.Final(n))
    requires Reaches(x, steps, s) && s.consumer.Stopped?
    requires s.yielded != [] && s.yielded[|s.yielded| - 1].FinalEvent?
    ensures s.yielded == Greeting(x) + (ProgressOf(Pipeline.Final(n).events) + [FinalEvent(x.result)])
    ensures LoopProperties.LoopTrace(Pipeline.Final(n).events, x.result.log, 1, n.max, [], out)
  {
    var k, last := StoppedIsComplete(x, steps, s);
    assert s.yielded[|s.yielded| - 1] == last;
    assert x.script[..|x.script|] == x.script;
    out := LoopProperties.RunTrace(n);
  }
}
