/** The continuous-batching server (`MockVLLMServer`): clients put requests into a queue, the
    server loop gathers a batch, makes one pass for all of it and resolves the futures. */
module Batching {
  import opened Contracts

  type Request = nat

  datatype Future = Pending | Resolved | Cancelled

  datatype Phase =
    | Waiting                         // at `await self.queue.get()`
    | Gathering(batch: seq<Request>)  // in the inner loop
    | Passing(batch: seq<Request>)    // at `await asyncio.sleep(self.pass_s)`

  /** `submitted` and `done` record the history: all requests in order of arrival, and the
      batches whose futures have been resolved. */
  datatype State = State(
    queue: seq<Request>, phase: Phase, passes: nat, served: nat, futures: map<Request, Future>,
    submitted: seq<Request>, done: seq<seq<Request>>)

  const INITIAL := State([], Waiting, 0, 0, map[], [], [])

  datatype Step =
    | Submit(r: Request)   // `infer`: a new future, and the request into the queue
    | Cancel(r: Request)   // the client gives up waiting
    | First                // the server takes the first request of a batch
    | Next                 // the inner get returns the head of the queue
    | Timeout              // the inner get gives up
    | Full                 // the batch is full
    | Resolve              // the pass is over: every future not done yet gets its result

  /** The largest batch the loop can form: one request is always taken. */
  function Cap(maxBatch: int): (m: nat)
    ensures m >= 1
  {
    if maxBatch > 1 then maxBatch else 1
  }

  predicate Enabled(maxBatch: int, a: Step, s: State) {
    match a
    case Submit(r) => r !in s.futures
    case Cancel(r) => r in s.futures && s.futures[r].Pending?
    case First => s.phase.Waiting? && s.queue != []
    case Next => s.phase.Gathering? && |s.phase.batch| < maxBatch && s.queue != []
    case Timeout => s.phase.Gathering? && |s.phase.batch| < maxBatch
    case Full => s.phase.Gathering? && |s.phase.batch| >= maxBatch
    case Resolve => s.phase.Passing?
  }

  function Apply(maxBatch: int, a: Step, s: State): State
    requires Enabled(maxBatch, a, s)
  {
    match a
    case Submit(r) =>
      s.(queue := s.queue + [r], futures := s.futures[r := Pending], submitted := s.submitted + [r])
    case Cancel(r) =>
      s.(futures := s.futures[r := Cancelled])
    case First =>
      s.(queue := s.queue[1..], phase := Gathering([s.queue[0]]))
    case Next =>
      s.(queue := s.queue[1..], phase := Gathering(s.phase.batch + [s.queue[0]]))
    case Timeout => Pass(s)
    case Full => Pass(s)
    case Resolve =>
      s.(phase := Waiting, futures := SetResults(s.futures, s.phase.batch), done := s.done + [s.phase.batch])
  }

  function Pass(s: State): State
    requires s.phase.Gathering?
  {
    s.(phase := Passing(s.phase.batch), passes := s.passes + 1, served := s.served + |s.phase.batch|)
  }

  /** `if not fut.done(): fut.set_result(...)` for every request of a batch. */
  function SetResults(fs: map<Request, Future>, batch: seq<Request>): (r: map<Request, Future>)
    ensures r.Keys == fs.Keys
    ensures forall q :: q in fs ==> r[q] == if q in batch && fs[q].Pending? then Resolved else fs[q]
  {
    map q | q in fs :: if q in batch && fs[q].Pending? then Resolved else fs[q]
  }

  /** The state after a sequence of steps, if each was enabled when it was taken. */
  function Run(maxBatch: int, s: State, steps: seq<Step>): Option<State> {
    if steps == [] then Some(s)
    else
      var n := |steps| - 1;
      var r := Run(maxBatch, s, steps[..n]);
      if r.Some? && Enabled(maxBatch, steps[n], r.value) then Some(Apply(maxBatch, steps[n], r.value)) else None
  }

  // ------------------------------------------------------------------ the server object

  /** What the environment does at the server's k-th waiting point in a cycle: which new
      requests arrive, and whether the timeout fires although a request is there. */
  datatype Environment = Environment(arrivals: nat -> seq<Request>, fires: nat -> bool)

  class MockVLLMServer {
    const maxBatch: int
    var queue: seq<Request>
    var passes: nat
    var served: nat
    var futures: map<Request, Future>
    ghost var phase: Phase
    ghost var submitted: seq<Request>
    ghost var done: seq<seq<Request>>

    ghost function Snapshot(): State
      reads this
    {
      State(queue, phase, passes, served, futures, submitted, done)
    }

    constructor (maxBatch: int)
      ensures this.maxBatch == maxBatch && Snapshot() == INITIAL
    {
      this.maxBatch := maxBatch;
      queue, passes, served, futures := [], 0, 0, map[];
      phase, submitted, done := Waiting, [], [];
    }

    /** `infer` up to its `await`; a future that exists already is not created again. */
    method Infer(r: Request) returns (ghost steps: seq<Step>)
      modifies this
      ensures Run(maxBatch, old(Snapshot()), steps) == Some(Snapshot())
      ensures r !in old(futures) ==> steps == [Submit(r)]
      ensures r in old(futures) ==> steps == []
      ensures phase == old(phase) && passes == old(passes)
    {
      steps := [];
      if r !in futures {
        futures, queue := futures[r := Pending], queue + [r];
        submitted := submitted + [r];
        steps := [Submit(r)];
        RunOne(maxBatch, old(Snapshot()), Submit(r));
      }
    }

    method Arrive(rs: seq<Request>) returns (ghost steps: seq<Step>)
      modifies this
      ensures Run(maxBatch, old(Snapshot()), steps) == Some(Snapshot())
      ensures phase == old(phase) && passes == old(passes)
    {
      steps := [];
      for i := 0 to |rs|
        invariant Run(maxBatch, old(Snapshot()), steps) == Some(Snapshot())
        invariant phase == old(phase) && passes == old(passes)
      {
        ghost var before := Snapshot();
        ghost var more := Infer(rs[i]);
        RunConcat(maxBatch, old(Snapshot()), steps, more, before);
        steps := steps + more;
      }
    }

    /** Takes the head of the queue into the batch. */
    method Take(batch: seq<Request>, ghost a: Step) returns (more: seq<Request>)
      requires Enabled(maxBatch, a, Snapshot()) && queue != []
      requires (a.First? && batch == []) || (a.Next? && phase == Gathering(batch))
      modifies this
      ensures Snapshot() == Apply(maxBatch, a, old(Snapshot())) && phase == Gathering(more)
      ensures more == batch + [old(queue)[0]] && passes == old(passes)
    {
      assert [] + [queue[0]] == [queue[0]];
      more := batch + [queue[0]];
      queue, phase := queue[1..], Gathering(more);
    }

    /** One pass of the model for the whole batch. */
    method BeginPass(batch: seq<Request>, ghost a: Step)
      requires phase == Gathering(batch) && Enabled(maxBatch, a, Snapshot()) && (a.Timeout? || a.Full?)
      modifies this
      ensures Snapshot() == Apply(maxBatch, a, old(Snapshot()))
      ensures phase == Passing(batch) && passes == old(passes) + 1
    {
      passes, served, phase := passes + 1, served + |batch|, Passing(batch);
    }

    method SetBatch(batch: seq<Request>)
      requires phase == Passing(batch)
      modifies this
      ensures Snapshot() == Apply(maxBatch, Resolve, old(Snapshot()))
      ensures phase.Waiting? && passes == old(passes)
    {
      futures, phase, done := SetResults(futures, batch), Waiting, done + [batch];
    }

    /** One turn of `_loop`, in any environment: it is a run of the protocol. */
    method Cycle(env: Environment) returns (ghost steps: seq<Step>)
      requires phase.Waiting? && queue != []
      modifies this
      ensures Run(maxBatch, old(Snapshot()), steps) == Some(Snapshot())
      ensures phase.Waiting? && passes == old(passes) + 1
    {
      ghost var start := Snapshot();
      var batch := Take([], First);
      steps := [First];
      RunOne(maxBatch, start, First);
      ghost var last := Full;
      var k := 0;
      while |batch| < maxBatch
        invariant phase == Gathering(batch) && passes == old(passes) && last.Full?
        invariant Run(maxBatch, start, steps) == Some(Snapshot())
        decreases maxBatch - |batch|
      {
        steps := ArriveAfter(env.arrivals(k), start, steps);
        if env.fires(k) || queue == [] {
          last := Timeout;
          break;
        }
        RunSnoc(maxBatch, start, steps, Snapshot(), Next);
        batch := Take(batch, Next);
        steps := steps + [Next];
        k := k + 1;
      }
      RunSnoc(maxBatch, start, steps, Snapshot(), last);
      BeginPass(batch, last);
      steps := ArriveAfter(env.arrivals(k + 1), start, steps + [last]);
      RunSnoc(maxBatch, start, steps, Snapshot(), Resolve);
      SetBatch(batch);
      steps := steps + [Resolve];
    }

    method ArriveAfter(rs: seq<Request>, ghost start: State, ghost steps: seq<Step>) returns (ghost longer: seq<Step>)
      requires Run(maxBatch, start, steps) == Some(Snapshot())
      modifies this
      ensures Run(maxBatch, start, longer) == Some(Snapshot())
      ensures phase == old(phase) && passes == old(passes)
    {
      ghost var before := Snapshot();
      ghost var came := Arrive(rs);
      RunConcat(maxBatch, start, steps, came, before);
      longer := steps + came;
    }
  }

  lemma RunOne(maxBatch: int, s: State, a: Step)
    ensures Run(maxBatch, s, [a]) == if Enabled(maxBatch, a, s) then Some(Apply(maxBatch, a, s)) else None
  {
    assert [a][..0] == [];
  }

  lemma RunSnoc(maxBatch: int, s: State, steps: seq<Step>, t: State, a: Step)
    requires Run(maxBatch, s, steps) == Some(t) && Enabled(maxBatch, a, t)
    ensures Run(maxBatch, s, steps + [a]) == Some(Apply(maxBatch, a, t))
  {
    assert (steps + [a])[..|steps|] == steps;
  }

  lemma {:induction false} RunConcat(maxBatch: int, s: State, a: seq<Step>, b: seq<Step>, t: State)
    requires Run(maxBatch, s, a) == Some(t)
    ensures Run(maxBatch, s, a + b) == Run(maxBatch, t, b)
  {
    if b == [] {
      assert a + b == a;
    } else {
      var n := |b| - 1;
      RunConcat(maxBatch, s, a, b[..n], t);
      assert (a + b)[..|a| + n] == a + b[..n];
    }
  }

  // ------------------------------------------------------------------ the invariant

  function Flatten(bs: seq<seq<Request>>): seq<Request> {
    if bs == [] then [] else Flatten(bs[..|bs| - 1]) + bs[|bs| - 1]
  }

  function InHand(s: State): seq<Request> {
    if s.phase.Waiting? then [] else s.phase.batch
  }

  predicate Sized(maxBatch: int, batch: seq<Request>) {
    1 <= |batch| <= Cap(maxBatch)
  }

  /** Every submitted request is resolved, in hand or queued, in order of arrival. */
  ghost predicate Conserved(s: State) {
    s.submitted == Flatten(s.done) + InHand(s) + s.queue
  }

  ghost predicate Distinct(rs: seq<Request>) {
    forall i, j :: 0 <= i < j < |rs| ==> rs[i] != rs[j]
  }

  ghost predicate Inv(maxBatch: int, s: State) {
    && Conserved(s)
    && Distinct(s.submitted)
    && (forall r :: r in s.futures <==> r in s.submitted)
    && (forall b :: b in s.done ==> Sized(maxBatch, b))
    && (!s.phase.Waiting? ==> Sized(maxBatch, s.phase.batch))
    && s.passes == |s.done| + (if s.phase.Passing? then 1 else 0)
    && s.served == |Flatten(s.done)| + (if s.phase.Passing? then |s.phase.batch| else 0)
  }

  /** A future is decided by the end of its request's pass, and gets its result no earlier. */
  ghost predicate Answered(s: State) {
    forall r :: r in s.futures ==>
      (s.futures[r].Pending? ==> r in InHand(s) + s.queue) && (s.futures[r].Resolved? ==> r in Flatten(s.done))
  }

  lemma FlattenSnoc(bs: seq<seq<Request>>, b: seq<Request>)
    ensures Flatten(bs + [b]) == Flatten(bs) + b
  {
    assert (bs + [b])[..|bs|] == bs;
  }

  lemma Regroup<T>(a: seq<T>, b: seq<T>, c: seq<T>, x: T)
    ensures a + b + (c + [x]) == a + b + c + [x]
    ensures a + b + ([x] + c) == a + (b + [x]) + c
    ensures (a + b) + [] + c == a + b + c
  {}

  lemma ConservedStep(maxBatch: int, s: State, a: Step)
    requires Conserved(s) && Enabled(maxBatch, a, s)
    ensures Conserved(Apply(maxBatch, a, s))
  {
    var d, h := Flatten(s.done), InHand(s);
    match a {
      case Submit(r) => Regroup(d, h, s.queue, r);
      case First => HeadMoves(d, h, s.queue);
      case Next => HeadMoves(d, h, s.queue);
      case Resolve =>
        FlattenSnoc(s.done, s.phase.batch);
        assert d + h + s.queue == (d + h) + [] + s.queue;
      case _ =>
    }
  }

  lemma HeadMoves(d: seq<Request>, h: seq<Request>, q: seq<Request>)
    requires q != []
    ensures d + h + q == d + (h + [q[0]]) + q[1..]
    ensures [] + [q[0]] == [q[0]]
  {
    assert q == [q[0]] + q[1..];
  }

  lemma InvStep(maxBatch: int, s: State, a: Step)
    requires Inv(maxBatch, s) && Enabled(maxBatch, a, s)
    ensures Inv(maxBatch, Apply(maxBatch, a, s))
  {
    ConservedStep(maxBatch, s, a);
    if a.Resolve? { FlattenSnoc(s.done, s.phase.batch); }
  }

  lemma AnsweredStep(maxBatch: int, s: State, a: Step)
    requires Inv(maxBatch, s) && Answered(s) && Enabled(maxBatch, a, s)
    ensures Answered(Apply(maxBatch, a, s))
  {
    var t := Apply(maxBatch, a, s);
    hide Inv, Flatten;
    if a.Resolve? { FlattenSnoc(s.done, s.phase.batch); }
    if a.First? || a.Next? {
      HeadMoves([], InHand(s), s.queue);
      assert InHand(s) + s.queue == InHand(t) + t.queue;
    }
    forall r | r in t.futures
      ensures t.futures[r].Pending? ==> r in InHand(t) + t.queue
      ensures t.futures[r].Resolved? ==> r in Flatten(t.done)
    {
      if r in s.futures && s.futures[r].Pending? { assert r in InHand(s) + s.queue; }
    }
  }

  /** In every reachable state the invariant holds: conservation, FIFO order, batch sizes,
      the two counters, and futures decided exactly by their pass. */
  lemma {:induction false} Reachable(maxBatch: int, steps: seq<Step>, s: State)
    requires Run(maxBatch, INITIAL, steps) == Some(s)
    ensures Inv(maxBatch, s) && Answered(s)
  {
    if steps != [] {
      var n := |steps| - 1;
      var r := Run(maxBatch, INITIAL, steps[..n]).value;
      Reachable(maxBatch, steps[..n], r);
      InvStep(maxBatch, r, steps[n]);
      AnsweredStep(maxBatch, r, steps[n]);
    }
  }

  // ------------------------------------------------------------------ what became of a request

  /** The requests of the submissions of a run, in order. */
  function Submissions(steps: seq<Step>): seq<Request> {
    if steps == [] then []
    else
      var n := |steps| - 1;
      Submissions(steps[..n]) + if steps[n].Submit? then [steps[n].r] else []
  }

  lemma {:induction false} CancelledIs(maxBatch: int, steps: seq<Step>, s: State, r: Request)
    requires Run(maxBatch, INITIAL, steps) == Some(s)
    ensures s.submitted == Submissions(steps)
    ensures (r in s.futures && s.futures[r].Cancelled?) <==> Cancel(r) in steps
  {
    if steps != [] {
      var n := |steps| - 1;
      var t := Run(maxBatch, INITIAL, steps[..n]).value;
      CancelledIs(maxBatch, steps[..n], t, r);
      assert steps == steps[..n] + [steps[n]];
      hide Run, Submissions;
    }
  }

  /** In every reachable state: everything submitted is accounted for in order; a future is
      cancelled exactly if its client gave up, once and for all; otherwise it has its result
      exactly if its request's pass is over, and is pending as long as the request is queued or
      in hand. */
  lemma FateOfARequest(maxBatch: int, steps: seq<Step>, s: State, r: Request)
    requires Run(maxBatch, INITIAL, steps) == Some(s)
    ensures Submissions(steps) == Flatten(s.done) + InHand(s) + s.queue
    ensures r in Submissions(steps) <==> r in s.futures
    ensures r in s.futures ==>
      && (s.futures[r].Cancelled? <==> Cancel(r) in steps)
      && (s.futures[r].Resolved? <==> Cancel(r) !in steps && r in Flatten(s.done))
      && (s.futures[r].Pending? <==> Cancel(r) !in steps && r in InHand(s) + s.queue)
  {
    Reachable(maxBatch, steps, s);
    CancelledIs(maxBatch, steps, s, r);
    var a, b := Flatten(s.done), InHand(s) + s.queue;
    assert s.submitted == a + b;
    hide Run, Submissions, Flatten, InHand, Distinct;
    if r in s.futures { ApartFrom(s.submitted, a, b, r); }
  }

  lemma ApartFrom(all: seq<Request>, a: seq<Request>, b: seq<Request>, r: Request)
    requires Distinct(all) && all == a + b && r in all
    ensures r in a <==> r !in b
  {
    forall i, j | 0 <= i < |a| && 0 <= j < |b| ensures a[i] != b[j] {
      assert all[i] == a[i] && all[|a| + j] == b[j];
    }
  }

  // ------------------------------------------------------------------ counting passes

  lemma {:induction false} FlattenSize(maxBatch: int, bs: seq<seq<Request>>)
    requires forall b :: b in bs ==> Sized(maxBatch, b)
    ensures |bs| <= |Flatten(bs)| <= |bs| * Cap(maxBatch)
  {
    if bs != [] {
      var front := bs[..|bs| - 1];
      assert bs[|bs| - 1] in bs;
      FlattenSize(maxBatch, front);
      Scale(|front|, Cap(maxBatch));
    }
  }

  lemma Scale(n: nat, c: nat)
    ensures (n + 1) * c == n * c + c
  {}

  /** One pass serves between one and `max(1, max_batch)` requests. */
  lemma PassesBound(maxBatch: int, steps: seq<Step>, s: State)
    requires Run(maxBatch, INITIAL, steps) == Some(s)
    ensures s.passes <= s.served <= s.passes * Cap(maxBatch)
  {
    Reachable(maxBatch, steps, s);
    FlattenSize(maxBatch, s.done);
    Scale(|s.done|, Cap(maxBatch));
  }

  /** A step of a run in which all requests are there from the start and the timeout only
      fires on an empty queue. */
  predicate Patient(a: Step, s: State) {
    !a.Submit? && (a.Timeout? ==> s.queue == [])
  }

  ghost predicate PatientRun(maxBatch: int, s: State, steps: seq<Step>) {
    forall k :: 0 <= k < |steps| ==>
      Run(maxBatch, s, steps[..k]).Some? && Patient(steps[k], Run(maxBatch, s, steps[..k]).value)
  }

  /** In a patient run only the last batch can be smaller than the cap. */
  ghost predicate FullSoFar(maxBatch: int, s: State) {
    && (forall k :: 0 <= k < |s.done| - 1 ==> |s.done[k]| == Cap(maxBatch))
    && (s.done != [] && (s.queue != [] || !s.phase.Waiting?) ==> |s.done[|s.done| - 1]| == Cap(maxBatch))
    && (s.phase.Passing? && s.queue != [] ==> |s.phase.batch| == Cap(maxBatch))
  }

  lemma {:induction false} PatientKeepsFull(maxBatch: int, s: State, steps: seq<Step>, t: State)
    requires Inv(maxBatch, s) && FullSoFar(maxBatch, s)
    requires Run(maxBatch, s, steps) == Some(t) && PatientRun(maxBatch, s, steps)
    ensures Inv(maxBatch, t) && FullSoFar(maxBatch, t) && t.submitted == s.submitted
  {
    if steps != [] {
      var n := |steps| - 1;
      var r := Run(maxBatch, s, steps[..n]).value;
      forall k | 0 <= k < n
        ensures Run(maxBatch, s, steps[..n][..k]).Some?
             && Patient(steps[..n][k], Run(maxBatch, s, steps[..n][..k]).value)
      {
        assert steps[..n][..k] == steps[..k];
      }
      PatientKeepsFull(maxBatch, s, steps[..n], r);
      InvStep(maxBatch, r, steps[n]);
      PatientStep(maxBatch, r, steps[n]);
    }
  }

  lemma PatientStep(maxBatch: int, s: State, a: Step)
    requires Inv(maxBatch, s) && FullSoFar(maxBatch, s) && Enabled(maxBatch, a, s) && Patient(a, s)
    ensures FullSoFar(maxBatch, Apply(maxBatch, a, s)) && Apply(maxBatch, a, s).submitted == s.submitted
  {}

  lemma {:induction false} FullSize(m: nat, bs: seq<seq<Request>>)
    requires forall k :: 0 <= k < |bs| ==> |bs[k]| == m
    ensures |Flatten(bs)| == |bs| * m
  {
    if bs != [] {
      var front := bs[..|bs| - 1];
      FullSize(m, front);
      Scale(|front|, m);
    }
  }

  /** N waiting requests served without an early timeout take ceil(N / max(1, max_batch))
      passes: p passes are enough and p - 1 are not. That is the least number any run can
      serve them in (`PassesBound`). */
  lemma PatientIsOptimal(maxBatch: int, s: State, steps: seq<Step>, t: State)
    requires Inv(maxBatch, s) && s.phase.Waiting? && s.done == []
    requires Run(maxBatch, s, steps) == Some(t) && PatientRun(maxBatch, s, steps)
    requires t.phase.Waiting? && t.queue == []
    ensures t.served == |s.queue|
    ensures (t.passes - 1) * Cap(maxBatch) < |s.queue| <= t.passes * Cap(maxBatch)
  {
    PatientKeepsFull(maxBatch, s, steps, t);
    hide Run, PatientRun, Distinct;
    assert |s.queue| == |Flatten(t.done)|;
    assert t.done != [] ==> t.done[|t.done| - 1] in t.done;
    CeilOfBatches(Cap(maxBatch), t.done);
  }

  lemma CeilOfBatches(m: nat, bs: seq<seq<Request>>)
    requires m >= 1 && forall k :: 0 <= k < |bs| - 1 ==> |bs[k]| == m
    requires bs != [] ==> 1 <= |bs[|bs| - 1]| <= m
    ensures (|bs| - 1) * m < |Flatten(bs)| <= |bs| * m
  {
    if bs != [] {
      FullSize(m, bs[..|bs| - 1]);
      Scale(|bs| - 1, m);
    }
  }

  // ------------------------------------------------------------------ progress

  /** What the server still has to do without further requests. */
  function Work(s: State): nat {
    3 * |s.queue| + (match s.phase case Waiting => 0 case Gathering(_) => 2 case Passing(_) => 1)
  }

  /** While something is queued or in hand the server can move, and each of its moves brings
      it closer to idle; when it is idle, no submitted request is left pending. */
  lemma ServerProgress(maxBatch: int, s: State)
    requires Inv(maxBatch, s) && Answered(s)
    ensures s.queue != [] || !s.phase.Waiting? ==>
              exists a: Step :: !a.Submit? && !a.Cancel? && Enabled(maxBatch, a, s)
    ensures forall a: Step :: !a.Submit? && !a.Cancel? && Enabled(maxBatch, a, s) ==>
              Work(Apply(maxBatch, a, s)) < Work(s)
    ensures s.queue == [] && s.phase.Waiting? ==> forall r :: r in s.submitted ==> !s.futures[r].Pending?
  {
    if s.phase.Waiting? && s.queue != [] {
      assert Enabled(maxBatch, First, s);
    } else if s.phase.Passing? {
      assert Enabled(maxBatch, Resolve, s);
    } else if s.phase.Gathering? {
      assert Enabled(maxBatch, if |s.phase.batch| < maxBatch then Timeout else Full, s);
    }
  }
}
