/** `chat_stream` as a protocol: a worker thread posts events as callbacks of the event loop,
    the loop runs the callbacks, which put into a queue, and the consumer takes from the queue
    and yields. Every interleaving of the three is a run. */
module ChatStream {
  import opened Text
  import Pipeline
  import Sse

  /** What is yielded: warnings first, then the pipeline's own events, then one verdict. */
  datatype StreamEvent =
    | NlWarnings(codes: seq<string>)
    | Progress(event: Pipeline.Event)
    | FinalEvent(result: Pipeline.SystemResult)
    | ErrorEvent(message: string)

  datatype Item = Event(e: StreamEvent) | Sentinel

  /** One request: its warnings, and the run of the pipeline it starts. */
  datatype Session = Session(warnings: seq<string>, script: seq<Pipeline.Event>, result: Pipeline.SystemResult)

  datatype Worker =
    | NotStarted
    | Running(emitted: nat)   // this many pipeline events have been posted
    | Closing                 // `final` or `error` has been posted
    | Finished                // the sentinel has been posted

  datatype Consumer = Opening | Ready | Draining | Stopped

  datatype State = State(
    worker: Worker, callbacks: seq<Item>, queue: seq<Item>, consumer: Consumer, yielded: seq<StreamEvent>)

  const INITIAL := State(NotStarted, [], [], Opening, [])

  datatype Step =
    | YieldWarnings            // the consumer's first action; nothing is yielded without warnings
    | Launch                   // run_in_executor
    | Emit                     // the pipeline posts its next event
    | Finish                   // the run has returned: post `final`
    | Fail(message: string)    // the worker raises at any point before that: post `error`
    | PostSentinel             // the `finally` clause
    | Deliver                  // the event loop runs one callback
    | Get                      // the consumer takes one item

  predicate Enabled(x: Session, a: Step, s: State) {
    match a
    case YieldWarnings => s.consumer.Opening?
    case Launch => s.consumer.Ready?
    case Emit => s.worker.Running? && s.worker.emitted < |x.script|
    case Finish => s.worker.Running? && s.worker.emitted == |x.script|
    case Fail(_) => s.worker.Running?
    case PostSentinel => s.worker.Closing?
    case Deliver => s.callbacks != []
    case Get => s.consumer.Draining? && s.queue != []
  }

  function Apply(x: Session, a: Step, s: State): State
    requires Enabled(x, a, s)
  {
    match a
    case YieldWarnings =>
      s.(consumer := Ready, yielded := s.yielded + Greeting(x))
    case Launch =>
      s.(consumer := Draining, worker := Running(0))
    case Emit =>
      Post(Event(Progress(x.script[s.worker.emitted])), Running(s.worker.emitted + 1), s)
    case Finish =>
      Post(Event(FinalEvent(x.result)), Closing, s)
    case Fail(message) =>
      Post(Event(ErrorEvent(message)), Closing, s)
    case PostSentinel =>
      Post(Sentinel, Finished, s)
    case Deliver =>
      s.(queue := s.queue + [s.callbacks[0]], callbacks := s.callbacks[1..])
    case Get =>
      var s1 := s.(queue := s.queue[1..]);
      match s.queue[0]
      case Sentinel => s1.(consumer := Stopped)
      case Event(e) => s1.(yielded := s.yielded + [e])
  }

  /** `call_soon_threadsafe(q.put_nowait, item)`. */
  function Post(item: Item, worker: Worker, s: State): State {
    s.(callbacks := s.callbacks + [item], worker := worker)
  }

  function Greeting(x: Session): seq<StreamEvent> {
    if x.warnings == [] then [] else [NlWarnings(x.warnings)]
  }

  /** The state after a sequence of steps, if each was enabled when it was taken. */
  ghost predicate Reaches(x: Session, steps: seq<Step>, s: State)
    decreases |steps|
  {
    if steps == [] then s == INITIAL
    else
      var n := |steps| - 1;
      exists r :: Reaches(x, steps[..n], r) && Enabled(x, steps[n], r) && s == Apply(x, steps[n], r)
  }

  // ------------------------------------------------------------------ the invariant

  function Wrap(es: seq<StreamEvent>): (r: seq<Item>)
    ensures |r| == |es|
    ensures forall k :: 0 <= k < |r| ==> r[k] == Event(es[k])
  {
    seq(|es|, k requires 0 <= k < |es| => Event(es[k]))
  }

  function ProgressOf(script: seq<Pipeline.Event>): (r: seq<StreamEvent>)
    ensures |r| == |script|
    ensures forall k :: 0 <= k < |r| ==> r[k] == Progress(script[k])
  {
    seq(|script|, k requires 0 <= k < |script| => Progress(script[k]))
  }

  /** A verdict that may end the stream after n pipeline events. */
  predicate EndsStream(x: Session, n: nat, last: StreamEvent) {
    last.ErrorEvent? || (n == |x.script| && last == FinalEvent(x.result))
  }

  /** Everything the worker has posted so far, events and sentinel: n pipeline events, the
      verdict once it has one, and the sentinel once it is finished. */
  ghost predicate PostedBy(x: Session, s: State, n: nat, last: seq<StreamEvent>) {
    && n <= |x.script|
    && |last| == (if s.worker.Closing? || s.worker.Finished? then 1 else 0)
    && (last != [] ==> EndsStream(x, n, last[0]))
    && (s.worker.Running? ==> n == s.worker.emitted)
    && (s.worker.NotStarted? ==> n == 0)
  }

  function Posted(x: Session, n: nat, last: seq<StreamEvent>, finished: bool): seq<Item>
    requires n <= |x.script|
  {
    Wrap(ProgressOf(x.script[..n]) + last) + (if finished then [Sentinel] else [])
  }

  /** What the consumer has taken from the queue: the events it yielded, and the sentinel. */
  function Taken(s: State, got: seq<StreamEvent>): seq<Item> {
    Wrap(got) + (if s.consumer.Stopped? then [Sentinel] else [])
  }

  /** Nothing is lost, duplicated or reordered between the worker and the consumer. */
  ghost predicate Inv(x: Session, s: State, n: nat, last: seq<StreamEvent>, got: seq<StreamEvent>) {
    && PostedBy(x, s, n, last)
    && (s.consumer.Opening? ==> s.yielded == [] && got == [] && s.worker.NotStarted?)
    && (s.consumer.Ready? ==> got == [] && s.worker.NotStarted?)
    && (s.consumer.Draining? || s.consumer.Stopped? ==> !s.worker.NotStarted?)
    && (!s.consumer.Opening? ==> s.yielded == Greeting(x) + got)
    && Taken(s, got) + s.queue + s.callbacks == Posted(x, n, last, s.worker.Finished?)
  }

  lemma WrapSnoc(es: seq<StreamEvent>, e: StreamEvent)
    ensures Wrap(es + [e]) == Wrap(es) + [Event(e)]
  {}

  lemma Reassoc<T>(a: seq<T>, b: seq<T>, c: seq<T>, d: T)
    ensures a + b + (c + [d]) == a + b + c + [d]
    ensures a + (b + [d]) + c == a + b + ([d] + c)
    ensures a + ([d] + b) + c == (a + [d]) + b + c
  {}

  lemma InvPost(x: Session, s: State, t: State, n: nat, last: seq<StreamEvent>, got: seq<StreamEvent>, a: Step)
    returns (n': nat, last': seq<StreamEvent>)
    requires Inv(x, s, n, last, got) && Enabled(x, a, s) && t == Apply(x, a, s)
    requires a.Emit? || a.Finish? || a.Fail? || a.PostSentinel?
    ensures Inv(x, t, n', last', got)
  {
    var item := t.callbacks[|s.callbacks|];
    Reassoc(Taken(s, got), s.queue, s.callbacks, item);
    n', last' := n, last;
    var es := ProgressOf(x.script[..n]) + last;
    if a.Emit? {
      n' := n + 1;
      assert ProgressOf(x.script[..n + 1]) + [] == es + [item.e];
      WrapSnoc(es, item.e);
    } else if !a.PostSentinel? {
      last' := [item.e];
      assert ProgressOf(x.script[..n]) + [item.e] == es + [item.e];
      WrapSnoc(es, item.e);
    }
  }

  lemma InvDeliver(x: Session, s: State, n: nat, last: seq<StreamEvent>, got: seq<StreamEvent>)
    requires Inv(x, s, n, last, got) && s.callbacks != []
    ensures Inv(x, Apply(x, Deliver, s), n, last, got)
  {
    Reassoc(Taken(s, got), s.queue, s.callbacks[1..], s.callbacks[0]);
    assert s.callbacks == [s.callbacks[0]] + s.callbacks[1..];
  }

  lemma InvGet(x: Session, s: State, n: nat, last: seq<StreamEvent>, got: seq<StreamEvent>)
    returns (got': seq<StreamEvent>)
    requires Inv(x, s, n, last, got) && Enabled(x, Get, s)
    ensures Inv(x, Apply(x, Get, s), n, last, got')
  {
    hide Posted, EndsStream;
    var item, rest := s.queue[0], s.queue[1..];
    assert s.queue == [item] + rest;
    Reassoc(Taken(s, got), rest, s.callbacks, item);
    got' := got;
    if item.Event? {
      got' := got + [item.e];
      WrapSnoc(got, item.e);
      assert s.yielded + [item.e] == Greeting(x) + (got + [item.e]);
    }
  }

  lemma InvStep(x: Session, s: State, n: nat, last: seq<StreamEvent>, got: seq<StreamEvent>, a: Step)
    returns (n': nat, last': seq<StreamEvent>, got': seq<StreamEvent>)
    requires Inv(x, s, n, last, got) && Enabled(x, a, s)
    ensures Inv(x, Apply(x, a, s), n', last', got')
  {
    n', last', got' := n, last, got;
    var t := Apply(x, a, s);
    match a {
      case YieldWarnings => assert t.yielded == Greeting(x) + [];
      case Launch =>
      case Deliver => InvDeliver(x, s, n, last, got);
      case Get => got' := InvGet(x, s, n, last, got);
      case _ => n', last' := InvPost(x, s, t, n, last, got, a);
    }
  }

  lemma {:induction false} InvReachable(x: Session, steps: seq<Step>, s: State)
    returns (n: nat, last: seq<StreamEvent>, got: seq<StreamEvent>)
    requires Reaches(x, steps, s)
    ensures Inv(x, s, n, last, got)
    decreases |steps|
  {
    if steps == [] {
      n, last, got := 0, [], [];
      assert x.script[..0] == [];
    } else {
      var k := |steps| - 1;
      var r :| Reaches(x, steps[..k], r) && Enabled(x, steps[k], r) && s == Apply(x, steps[k], r);
      n, last, got := InvReachable(x, steps[..k], r);
      n, last, got := InvStep(x, r, n, last, got, steps[k]);
    }
  }

  // ------------------------------------------------------------------ main results

  /** The stream a session may yield in full: its greeting, n pipeline events, one verdict. */
  function FullStream(x: Session, n: nat, last: StreamEvent): seq<StreamEvent>
    requires n <= |x.script|
  {
    Greeting(x) + (ProgressOf(x.script[..n]) + [last])
  }

  /** When the consumer stops, it has yielded all of the stream: the greeting, the posted
      pipeline events in order and exactly one verdict, which comes last; `final` only after
      the complete run. Nothing is left in queue or loop, and nothing can be posted any more. */
  lemma StoppedIsComplete(x: Session, steps: seq<Step>, s: State) returns (n: nat, last: StreamEvent)
    requires Reaches(x, steps, s) && s.consumer.Stopped?
    ensures n <= |x.script| && EndsStream(x, n, last)
    ensures s.yielded == FullStream(x, n, last)
    ensures s.queue == [] && s.callbacks == [] && s.worker.Finished?
    ensures forall a :: !Enabled(x, a, s)
  {
    var lasts, got;
    n, lasts, got := InvReachable(x, steps, s);
    var taken, posted := Taken(s, got), Posted(x, n, lasts, s.worker.Finished?);
    SentinelIsLast(Wrap(got), s.queue + s.callbacks, ProgressOf(x.script[..n]) + lasts, s.worker.Finished?);
    assert taken + s.queue + s.callbacks == Wrap(got) + [Sentinel] + (s.queue + s.callbacks);
    UnwrapEqual(got, ProgressOf(x.script[..n]) + lasts);
    last := lasts[0];
    assert lasts == [last];
  }

  /** There is one sentinel, at the very end of what is posted. */
  lemma SentinelIsLast(front: seq<Item>, rest: seq<Item>, es: seq<StreamEvent>, finished: bool)
    requires front + [Sentinel] + rest == Wrap(es) + (if finished then [Sentinel] else [])
    ensures finished && rest == [] && front == Wrap(es)
  {
    var whole := front + [Sentinel] + rest;
    assert whole[|front|] == Sentinel;
    forall k | 0 <= k < |es| ensures whole[k].Event? { assert whole[k] == Wrap(es)[k]; }
    assert finished && |front| == |es|;
    assert front == whole[..|es|] == Wrap(es);
  }

  lemma UnwrapEqual(a: seq<StreamEvent>, b: seq<StreamEvent>)
    requires Wrap(a) == Wrap(b)
    ensures a == b
  {
    forall k | 0 <= k < |a| ensures a[k] == b[k] { assert Wrap(a)[k] == Wrap(b)[k]; }
  }

  /** At any moment of any interleaving, what has been yielded is a prefix of a full stream. */
  lemma YieldedIsPrefix(x: Session, steps: seq<Step>, s: State) returns (n: nat, last: StreamEvent)
    requires Reaches(x, steps, s)
    ensures n <= |x.script| && EndsStream(x, n, last) && s.yielded <= FullStream(x, n, last)
  {
    var lasts, got;
    n, lasts, got := InvReachable(x, steps, s);
    last := if lasts == [] then ErrorEvent("") else lasts[0];
    var es := ProgressOf(x.script[..n]) + lasts;
    var stop := if s.consumer.Stopped? then [Sentinel] else [];
    Regroup(Wrap(got), stop, s.queue, s.callbacks);
    PrefixOfPosted(got, stop + s.queue + s.callbacks, es, s.worker.Finished?);
    assert es <= ProgressOf(x.script[..n]) + [last];
    PrefixChain(Greeting(x), got, es, ProgressOf(x.script[..n]) + [last]);
  }

  lemma Regroup<T>(a: seq<T>, b: seq<T>, c: seq<T>, d: seq<T>)
    ensures a + b + c + d == a + (b + c + d)
  {}

  lemma PrefixChain(g: seq<StreamEvent>, a: seq<StreamEvent>, b: seq<StreamEvent>, c: seq<StreamEvent>)
    requires a <= b <= c
    ensures [] <= g + c && g + a <= g + c
  {}

  lemma PrefixOfPosted(got: seq<StreamEvent>, tail: seq<Item>, es: seq<StreamEvent>, finished: bool)
    requires Wrap(got) + tail == Wrap(es) + (if finished then [Sentinel] else [])
    ensures got <= es
  {
    var whole := Wrap(got) + tail;
    forall k | 0 <= k < |got| ensures whole[k] == Event(got[k]) { assert whole[k] == Wrap(got)[k]; }
    assert |es| < |whole| ==> whole[|es|] == Sentinel;
    forall k | 0 <= k < |got| ensures got[k] == es[k] { assert whole[k] == Wrap(es)[k]; }
  }

  // ------------------------------------------------------------------ progress

  /** Until the consumer stops, some participant can take a step other than failing. */
  lemma NoDeadlock(x: Session, steps: seq<Step>, s: State) returns (a: Step)
    requires Reaches(x, steps, s) && !s.consumer.Stopped?
    ensures Enabled(x, a, s) && !a.Fail?
  {
    var n, last, got := InvReachable(x, steps, s);
    a := if s.consumer.Opening? then YieldWarnings
         else if s.consumer.Ready? then Launch
         else if s.worker.Closing? then PostSentinel
         else if s.worker.Running? then (if s.worker.emitted < |x.script| then Emit else Finish)
         else if s.callbacks != [] then Deliver else Get;
    NoSentinelYet(got, ProgressOf(x.script[..n]) + last);
    assert s.callbacks == [] && s.queue == [] ==> Taken(s, got) + s.queue + s.callbacks == Wrap(got);
  }

  lemma NoSentinelYet(got: seq<StreamEvent>, es: seq<StreamEvent>)
    ensures Wrap(got) != Wrap(es) + [Sentinel]
  {
    assert (Wrap(es) + [Sentinel])[|es|] == Sentinel;
  }

  /** What is left to do; every step does some of it. */
  function Work(x: Session, s: State): int {
    (match s.consumer case Opening => 3 case Ready => 2 case Draining => 1 case Stopped => 0)
    + 3 * (match s.worker
           case NotStarted => |x.script| + 2
           case Running(k) => |x.script| - k + 2
           case Closing => 1
           case Finished => 0)
    + 2 * |s.callbacks| + |s.queue|
  }

  lemma StepsDoWork(x: Session, s: State, n: nat, last: seq<StreamEvent>, got: seq<StreamEvent>, a: Step)
    requires Inv(x, s, n, last, got) && Enabled(x, a, s)
    ensures Work(x, Apply(x, a, s)) < Work(x, s)
  {}

  /** Every interleaving is finite: no run is longer than this, so with `NoDeadlock` every
      maximal run ends with the consumer stopped. */
  lemma {:induction false} RunsAreBounded(x: Session, steps: seq<Step>, s: State)
    requires Reaches(x, steps, s)
    ensures |steps| + Work(x, s) <= 3 * |x.script| + 9
    ensures |steps| <= 3 * |x.script| + 9
    decreases |steps|
  {
    var n, last, got := InvReachable(x, steps, s);
    if steps != [] {
      var k := |steps| - 1;
      var r :| Reaches(x, steps[..k], r) && Enabled(x, steps[k], r) && s == Apply(x, steps[k], r);
      RunsAreBounded(x, steps[..k], r);
      n, last, got := InvReachable(x, steps[..k], r);
      StepsDoWork(x, r, n, last, got, steps[k]);
    }
  }

  // ------------------------------------------------------------------ over the wire

  function Dumps(dump: StreamEvent -> string, es: seq<StreamEvent>): (r: seq<string>)
    ensures |r| == |es|
    ensures forall k :: 0 <= k < |r| ==> r[k] == dump(es[k])
  {
    seq(|es|, k requires 0 <= k < |es| => dump(es[k]))
  }

  /** End to end: whatever the interleaving on the server and however the response is cut
      into chunks, the page decodes the complete stream, event by event, and nothing else. */
  lemma ClientSeesTheStream(x: Session, steps: seq<Step>, s: State,
                            dump: StreamEvent -> string, chunks: seq<string>)
    returns (n: nat, last: StreamEvent)
    requires Reaches(x, steps, s) && s.consumer.Stopped?
    requires forall e :: '\n' !in dump(e)
    requires Sse.Concat(chunks) == Sse.Encode(Dumps(dump, s.yielded))
    ensures n <= |x.script| && EndsStream(x, n, last)
    ensures Sse.Drain(Sse.Concat(chunks)) == Sse.Drained(Dumps(dump, FullStream(x, n, last)), "")
  {
    n, last := StoppedIsComplete(x, steps, s);
    Sse.RoundTripChunked(Dumps(dump, s.yielded), chunks);
  }
}
