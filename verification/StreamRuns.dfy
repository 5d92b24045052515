/** Which streams there are: every stream that may end is produced by some interleaving, and what
    a stopped stream says, event by event. */
module StreamRuns {
  import opened ChatStream
  import opened Text

  // ------------------------------------------------------------------ what is said

  /** A stopped stream: the warnings first, if there are any, then n events of the pipeline in
      order, then `final` with the result of the complete run, or an error; nothing else. */
  lemma StreamSays(x: Session, steps: seq<Step>, s: State) returns (g: nat, n: nat)
    requires Reaches(x, steps, s) && s.consumer.Stopped?
    ensures n <= |x.script| && |s.yielded| == g + n + 1
    ensures g == (if x.warnings == [] then 0 else 1) && (g == 1 ==> s.yielded[0] == NlWarnings(x.warnings))
    ensures forall k :: 0 <= k < n ==> s.yielded[g + k] == Progress(x.script[k])
    ensures var last := s.yielded[g + n];
      (last == FinalEvent(x.result) && n == |x.script| && Finish in steps)
      || exists message :: last == ErrorEvent(message) && Fail(message) in steps
  {
    var last;
    n, last := StoppedIsComplete(x, steps, s);
    g := FullStreamSays(x, n, last);
    hide FullStream, Reaches, Enabled, Greeting;
    assert s.yielded[g + n] == last;
    if last.ErrorEvent? { ErrorIsRaised(x, steps, s, last.message); } else { FinalIsPosted(x, steps, s); }
  }

  lemma FullStreamSays(x: Session, n: nat, last: StreamEvent) returns (g: nat)
    requires n <= |x.script|
    ensures var y := FullStream(x, n, last);
      && |y| == g + n + 1 && y[g + n] == last
      && g == (if x.warnings == [] then 0 else 1) && (g == 1 ==> y[0] == NlWarnings(x.warnings))
      && forall k :: 0 <= k < n ==> y[g + k] == Progress(x.script[k])
  {
    g := |Greeting(x)|;
  }

  /** On its way from the worker to the page, or there already. */
  ghost predicate Carries(s: State, e: StreamEvent) {
    Event(e) in s.callbacks || Event(e) in s.queue || e in s.yielded
  }

  lemma StepCarries(x: Session, a: Step, r: State, e: StreamEvent)
    requires Enabled(x, a, r) && Carries(Apply(x, a, r), e)
    ensures Carries(r, e) || (a.YieldWarnings? && e.NlWarnings?) || (a.Emit? && e.Progress?)
            || (a.Finish? && e.FinalEvent?) || (a.Fail? && e == ErrorEvent(a.message))
  {
    if a.Deliver? { assert r.callbacks == [r.callbacks[0]] + r.callbacks[1..]; }
    if a.Get? { assert r.queue == [r.queue[0]] + r.queue[1..]; }
  }

  /** An error that is shown was raised, with this message. */
  lemma {:induction false} ErrorIsRaised(x: Session, steps: seq<Step>, s: State, message: string)
    requires Reaches(x, steps, s) && Carries(s, ErrorEvent(message))
    ensures Fail(message) in steps
    decreases |steps|
  {
    if steps != [] {
      var k := |steps| - 1;
      var r :| Reaches(x, steps[..k], r) && Enabled(x, steps[k], r) && s == Apply(x, steps[k], r);
      StepCarries(x, steps[k], r, ErrorEvent(message));
      if Carries(r, ErrorEvent(message)) { ErrorIsRaised(x, steps[..k], r, message); }
    }
  }

  lemma {:induction false} FinalIsPosted(x: Session, steps: seq<Step>, s: State)
    requires Reaches(x, steps, s) && exists result :: Carries(s, FinalEvent(result))
    ensures Finish in steps
    decreases |steps|
  {
    if steps != [] {
      var k := |steps| - 1;
      var r :| Reaches(x, steps[..k], r) && Enabled(x, steps[k], r) && s == Apply(x, steps[k], r);
      var result :| Carries(s, FinalEvent(result));
      StepCarries(x, steps[k], r, FinalEvent(result));
      if Carries(r, FinalEvent(result)) { FinalIsPosted(x, steps[..k], r); }
    }
  }

  // ------------------------------------------------------------------ what can be said

  lemma OneMore(x: Session, steps: seq<Step>, r: State, a: Step)
    requires Reaches(x, steps, r) && Enabled(x, a, r)
    ensures Reaches(x, steps + [a], Apply(x, a, r))
  {
    assert (steps + [a])[..|steps|] == steps;
  }

  lemma {:induction false} AfterEmitting(x: Session, n: nat) returns (steps: seq<Step>)
    requires n <= |x.script|
    ensures Reaches(x, steps, State(Running(n), Wrap(ProgressOf(x.script[..n])), [], Draining, Greeting(x)))
  {
    if n == 0 {
      OneMore(x, [], INITIAL, YieldWarnings);
      var s := Apply(x, YieldWarnings, INITIAL);
      assert s.yielded == Greeting(x);
      OneMore(x, [] + [YieldWarnings], s, Launch);
      steps := [] + [YieldWarnings] + [Launch];
      assert Wrap(ProgressOf(x.script[..0])) == [];
    } else {
      steps := AfterEmitting(x, n - 1);
      var s := State(Running(n - 1), Wrap(ProgressOf(x.script[..n - 1])), [], Draining, Greeting(x));
      OneMore(x, steps, s, Emit);
      steps := steps + [Emit];
      assert ProgressOf(x.script[..n]) == ProgressOf(x.script[..n - 1]) + [Progress(x.script[n - 1])];
      WrapSnoc(ProgressOf(x.script[..n - 1]), Progress(x.script[n - 1]));
    }
  }

  /** After j deliveries. */
  lemma {:induction false} AfterDelivering(x: Session, steps: seq<Step>, items: seq<Item>, j: nat)
    returns (longer: seq<Step>)
    requires j <= |items| && Reaches(x, steps, State(Finished, items, [], Draining, Greeting(x)))
    ensures Reaches(x, longer, State(Finished, items[j..], items[..j], Draining, Greeting(x)))
  {
    hide Reaches, Greeting;
    if j == 0 {
      longer := steps;
      assert items[0..] == items && items[..0] == [];
    } else {
      longer := AfterDelivering(x, steps, items, j - 1);
      var s := State(Finished, items[j - 1..], items[..j - 1], Draining, Greeting(x));
      OneMore(x, longer, s, Deliver);
      longer := longer + [Deliver];
      assert items[j - 1..][1..] == items[j..] && items[..j - 1] + [items[j - 1]] == items[..j];
    }
  }

  /** After the consumer has taken j events. */
  lemma {:induction false} AfterTaking(x: Session, steps: seq<Step>, es: seq<StreamEvent>, j: nat)
    returns (longer: seq<Step>)
    requires j <= |es| && Reaches(x, steps, State(Finished, [], Wrap(es) + [Sentinel], Draining, Greeting(x)))
    ensures Reaches(x, longer, State(Finished, [], Wrap(es)[j..] + [Sentinel], Draining, Greeting(x) + es[..j]))
  {
    hide Reaches, Greeting;
    if j == 0 {
      longer := steps;
      assert Wrap(es)[0..] == Wrap(es) && Greeting(x) + es[..0] == Greeting(x);
    } else {
      longer := AfterTaking(x, steps, es, j - 1);
      var s := State(Finished, [], Wrap(es)[j - 1..] + [Sentinel], Draining, Greeting(x) + es[..j - 1]);
      assert s.queue[0] == Event(es[j - 1]) && s.queue[1..] == Wrap(es)[j..] + [Sentinel];
      OneMore(x, longer, s, Get);
      longer := longer + [Get];
      assert Greeting(x) + es[..j - 1] + [es[j - 1]] == Greeting(x) + es[..j];
    }
  }

  lemma AfterClosing(x: Session, n: nat, last: StreamEvent) returns (steps: seq<Step>)
    requires n <= |x.script| && EndsStream(x, n, last)
    ensures Reaches(x, steps, State(Finished, Wrap(ProgressOf(x.script[..n]) + [last]) + [Sentinel], [], Draining, Greeting(x)))
  {
    steps := AfterEmitting(x, n);
    var es := ProgressOf(x.script[..n]);
    var s := State(Running(n), Wrap(es), [], Draining, Greeting(x));
    var a := if last.ErrorEvent? then Fail(last.message) else Finish;
    OneMore(x, steps, s, a);
    WrapSnoc(es, last);
    var t := State(Closing, Wrap(es + [last]), [], Draining, Greeting(x));
    assert Apply(x, a, s) == t;
    OneMore(x, steps + [a], t, PostSentinel);
    steps := steps + [a] + [PostSentinel];
  }

  /** Every stream that may end does so in some interleaving: the complete run with its result,
      and an error with any message behind any number of pipeline events. */
  lemma EveryStreamHappens(x: Session, n: nat, last: StreamEvent) returns (steps: seq<Step>, s: State)
    requires n <= |x.script| && EndsStream(x, n, last)
    ensures Reaches(x, steps, s) && s.consumer.Stopped? && s.yielded == FullStream(x, n, last)
  {
    var es := ProgressOf(x.script[..n]) + [last];
    var items := Wrap(es) + [Sentinel];
    steps := AfterClosing(x, n, last);
    steps := AfterDelivering(x, steps, items, |items|);
    assert items[|items|..] == [] && items[..|items|] == items;
    steps := AfterTaking(x, steps, es, |es|);
    var t := State(Finished, [], [Sentinel], Draining, Greeting(x) + es);
    assert Wrap(es)[|es|..] + [Sentinel] == [Sentinel] && es[..|es|] == es;
    OneMore(x, steps, t, Get);
    steps, s := steps + [Get], Apply(x, Get, t);
  }
}
