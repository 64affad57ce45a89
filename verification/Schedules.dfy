// Schedules of ScrollPipeline, built step by step: the moves of single goroutines, and the
// schedule that blocks the producer on line 43 of list.go.
//
// It serves all hits that succeed before the first failure with one worker, loads every worker
// with one of the hits around the failing one, lets the producer offer one hit more, and then
// lets the callback fail. Everybody else finds the context cancelled at the select and leaves.
module Schedules {
  import opened ScrollPipeline

  // More hits than workers, and the callback fails on a hit other than the last one.
  predicate CanDeadlock(job: Job) {
    && |job.Hits()| > job.workers
    && exists k :: 0 <= k < |job.Hits()| - 1 && job.Fails(job.Hits()[k])
  }

  // Nothing has gone wrong, the producer is between two hits.
  ghost predicate Quiet(job: Job, s: State) {
    && Inv(job, s)
    && (s.producer.PScroll? || s.producer.PRange?)
    && s.sharedErr.None? && !s.group.cancelled && s.group.err.None?
    && s.collector.Ranging?
  }

  // The producer reaches line 43 with the next hit; nobody else moves.
  lemma OfferNext(job: Job, s: State) returns (t: State)
    requires Quiet(job, s) && |s.past.taken| < |job.Hits()|
    ensures Reaches(job, s, t) && Inv(job, t)
    ensures t.producer.PSend? && t.producer.hit == job.Hits()[|s.past.taken|]
    ensures t == s.(producer := t.producer, pages := t.pages)
    decreases |s.pages|, if s.producer.PRange? then |s.producer.page| + 1 else 0
  {
    assert s.past.taken + Unsent(s) == job.Hits();
    var p := if s.producer.PScroll? then ScrollPage
             else if s.producer.page == [] then NextPage else SelectHit;
    ReachesSelf(job, s);
    ReachesStep(job, s, s, Produce(p));
    StepInv(job, s, Produce(p));
    var s' := Produced(job, s, p);
    if p.SelectHit? {
      t := s';
    } else {
      t := OfferNext(job, s');
      ReachesThen(job, s, s', t);
    }
  }

  // The next hit goes to worker w, who is waiting.
  lemma Hand(job: Job, s: State, w: nat) returns (t: State)
    requires Quiet(job, s) && |s.past.taken| < |job.Hits()|
    requires w < |s.workers| && s.workers[w].WRecv?
    ensures Reaches(job, s, t) && Quiet(job, t)
    ensures |t.past.taken| == |s.past.taken| + 1 && t.past.dropped == s.past.dropped
    ensures t.workers == s.workers[w := WGot(job.Hits()[|s.past.taken|])]
  {
    var u := OfferNext(job, s);
    ReachesStep(job, s, u, Deliver(w));
    StepInv(job, u, Deliver(w));
    t := Delivered(u, w);
  }

  lemma WorkOn(job: Job, s: State, t: State, w: nat, k: WorkerStep)
    requires Reaches(job, s, t) && Inv(job, t) && CanWork(job, t, w, k)
    ensures Reaches(job, s, AfterWork(job, t, w, k)) && Inv(job, AfterWork(job, t, w, k))
  {
    ReachesStep(job, s, t, Work(w, k));
    StepInv(job, t, Work(w, k));
  }

  predicate AllWaiting(ws: seq<Worker>) {
    forall w :: 0 <= w < |ws| ==> ws[w].WRecv?
  }

  // The next hit is processed from end to end by worker 0.
  lemma ServeOne(job: Job, s: State) returns (t: State)
    requires Quiet(job, s) && AllWaiting(s.workers) && job.workers > 0
    requires |s.past.taken| < |job.Hits()| && !job.Fails(job.Hits()[|s.past.taken|])
    ensures Reaches(job, s, t) && Quiet(job, t) && AllWaiting(t.workers)
    ensures |t.past.taken| == |s.past.taken| + 1
  {
    var u := Hand(job, s, 0);
    t := Process(job, u, 0);
    ReachesThen(job, s, u, t);
  }

  // A worker turns a hit that does not fail into a collected value.
  lemma Process(job: Job, s: State, w: nat) returns (t: State)
    requires Quiet(job, s) && w < |s.workers| && s.workers[w].WGot? && !job.Fails(s.workers[w].hit)
    ensures Reaches(job, s, t) && Quiet(job, t)
    ensures t.workers == s.workers[w := WRecv] && t.past.taken == s.past.taken && t.past.dropped == s.past.dropped
  {
    ReachesSelf(job, s);
    t := CallbackReturns(job, s, w);
    WorkOn(job, s, t, w, Collect);
    t := AfterWork(job, t, w, Collect);
  }

  lemma CallbackReturns(job: Job, s: State, w: nat) returns (t: State)
    requires Quiet(job, s) && w < |s.workers| && s.workers[w].WGot? && !job.Fails(s.workers[w].hit)
    ensures Reaches(job, s, t) && Quiet(job, t) && t.workers[w].WSend?
    ensures |t.workers| == |s.workers| && t.workers == s.workers[w := t.workers[w]]
    ensures t.past.taken == s.past.taken && t.past.dropped == s.past.dropped
  {
    ReachesSelf(job, s);
    if job.callback.None? {
      WorkOn(job, s, s, w, SelectDefault);
      var r := AfterWork(job, s, w, SelectDefault);
      WorkOn(job, s, r, w, CallNil);
      t := AfterWork(job, r, w, CallNil);
    } else {
      var u := CallNow(job, s, s, w);
      WorkOn(job, s, u, w, TestErr);
      t := AfterWork(job, u, w, TestErr);
    }
  }

  lemma ServeMany(job: Job, s: State, n: nat) returns (t: State)
    requires Quiet(job, s) && AllWaiting(s.workers) && job.workers > 0
    requires |s.past.taken| + n <= |job.Hits()|
    requires forall i :: |s.past.taken| <= i < |s.past.taken| + n ==> !job.Fails(job.Hits()[i])
    ensures Reaches(job, s, t) && Quiet(job, t) && AllWaiting(t.workers)
    ensures |t.past.taken| == |s.past.taken| + n
    decreases n
  {
    if n == 0 {
      t := s;
      ReachesSelf(job, s);
    } else {
      var u := ServeOne(job, s);
      t := ServeMany(job, u, n - 1);
      ReachesThen(job, s, u, t);
    }
  }

  // Workers 0..m hold the last m hits taken; the others wait.
  ghost predicate Loaded(job: Job, s: State, base: nat, m: nat) {
    && Quiet(job, s)
    && m <= |s.workers|
    && |s.past.taken| == base + m <= |job.Hits()|
    && forall w :: 0 <= w < |s.workers| ==>
         s.workers[w] == if w < m then WGot(job.Hits()[base + w]) else WRecv
  }

  lemma LoadAll(job: Job, s: State, base: nat, m: nat) returns (t: State)
    requires Loaded(job, s, base, m) && base + job.workers <= |job.Hits()|
    ensures Reaches(job, s, t) && Loaded(job, t, base, job.workers)
    decreases job.workers - m
  {
    if m == job.workers {
      t := s;
      ReachesSelf(job, s);
    } else {
      var u := Hand(job, s, m);
      t := LoadAll(job, u, base, m + 1);
      ReachesThen(job, s, u, t);
    }
  }

  // After the first error everybody who holds a hit leaves at the select.
  ghost predicate Leaving(job: Job, s: State, m: nat) {
    && Inv(job, s)
    && s.producer.PSend? && s.group.cancelled
    && m <= |s.workers|
    && (forall w :: 0 <= w < m ==> s.workers[w].WGone?)
    && (forall w :: m <= w < |s.workers| ==> s.workers[w].WGot? || s.workers[w].WGone?)
  }

  lemma AllLeave(job: Job, s: State, m: nat) returns (t: State)
    requires Leaving(job, s, m)
    ensures Reaches(job, s, t) && Inv(job, t) && Stuck(t)
    decreases |s.workers| - m
  {
    ReachesSelf(job, s);
    if m == |s.workers| {
      t := s;
    } else if s.workers[m].WGone? {
      t := AllLeave(job, s, m + 1);
    } else {
      var v := OneLeaves(job, s, m);
      t := AllLeave(job, v, m + 1);
      ReachesThen(job, s, v, t);
    }
  }

  lemma OneLeaves(job: Job, s: State, w: nat) returns (t: State)
    requires Inv(job, s) && s.group.cancelled && w < |s.workers| && s.workers[w].WGot?
    ensures Reaches(job, s, t) && Inv(job, t)
    ensures t.producer == s.producer && t.group.cancelled && t.workers == s.workers[w := WGone]
  {
    ReachesSelf(job, s);
    t := WorkTwice(job, s, s, w, SelectCancelled, WorkerExit);
  }

  // Two steps of one worker.
  lemma WorkTwice(job: Job, origin: State, s: State, w: nat, k: WorkerStep, k': WorkerStep) returns (t: State)
    requires Reaches(job, origin, s) && Inv(job, s) && CanWork(job, s, w, k)
    requires CanWork(job, AfterWork(job, s, w, k), w, k')
    ensures t == AfterWork(job, AfterWork(job, s, w, k), w, k')
    ensures Reaches(job, origin, t) && Inv(job, t)
  {
    var u := AfterWork(job, s, w, k);
    WorkOn(job, origin, s, w, k);
    WorkOn(job, origin, u, w, k');
    t := AfterWork(job, u, w, k');
  }

  lemma OneFails(job: Job, s: State, w: nat) returns (t: State)
    requires Inv(job, s) && s.producer.PSend? && !s.group.cancelled && s.group.err.None? && w < |s.workers|
    requires forall v :: 0 <= v < |s.workers| ==> s.workers[v].WGot?
    requires job.Fails(s.workers[w].hit)
    ensures Reaches(job, s, t) && Leaving(job, t, 0)
  {
    ReachesSelf(job, s);
    var a := CallNow(job, s, s, w);
    t := FailureReported(job, a, w);
    ReachesThen(job, s, a, t);
  }

  lemma FailureReported(job: Job, s: State, w: nat) returns (t: State)
    requires Inv(job, s) && s.producer.PSend? && !s.group.cancelled && s.group.err.None?
    requires w < |s.workers| && s.workers[w].WCalled? && s.sharedErr.Some?
    requires forall v :: 0 <= v < |s.workers| && v != w ==> s.workers[v].WGot?
    ensures Reaches(job, s, t) && Leaving(job, t, 0)
  {
    ReachesSelf(job, s);
    WorkOn(job, s, s, w, TestErr);
    var a := AfterWork(job, s, w, TestErr);
    t := WrapAndLeave(job, s, a, w);
  }

  lemma WrapAndLeave(job: Job, origin: State, s: State, w: nat) returns (t: State)
    requires Reaches(job, origin, s) && Inv(job, s) && w < |s.workers| && s.workers[w].WWrap?
    ensures Reaches(job, origin, t) && Inv(job, t)
    ensures t == s.(workers := s.workers[w := WGone], group := s.group.Report(s.sharedErr), past := t.past)
  {
    t := WorkTwice(job, origin, s, w, WrapErr, WorkerExit);
  }

  // The schedule that blocks the producer: serve all early hits, load every worker with
  // the failing hit among theirs, offer one more hit, then let the callback fail.
  lemma ConditionImpliesStuck(job: Job) returns (t: State)
    requires job.workers > 0 && CanDeadlock(job)
    ensures Reaches(job, Init(job), t) && Stuck(t)
  {
    var k := FirstFailure(job);
    var base := if k + 1 <= job.workers then 0 else k + 1 - job.workers;
    var c := EverybodyHolds(job, base);
    var d := OneFails(job, c, k - base);
    ReachesThen(job, Init(job), c, d);
    t := AllLeave(job, d, 0);
    ReachesThen(job, Init(job), d, t);
  }

  // Every worker holds a hit, from number `base` on, and the producer offers the next.
  lemma EverybodyHolds(job: Job, base: nat) returns (t: State)
    requires job.workers > 0 && base + job.workers < |job.Hits()|
    requires forall i :: 0 <= i < base ==> !job.Fails(job.Hits()[i])
    ensures Reaches(job, Init(job), t) && Inv(job, t)
    ensures t.producer.PSend? && !t.group.cancelled && t.group.err.None?
    ensures |t.workers| == job.workers
    ensures forall w :: 0 <= w < job.workers ==> t.workers[w] == WGot(job.Hits()[base + w])
  {
    InitInv(job);
    var a := ServeMany(job, Init(job), base);
    var b := LoadAll(job, a, base, 0);
    ReachesThen(job, Init(job), a, b);
    t := OfferNext(job, b);
    ReachesThen(job, Init(job), b, t);
  }

  lemma FirstFailure(job: Job) returns (k: nat)
    requires CanDeadlock(job)
    ensures k < |job.Hits()| - 1 && job.Fails(job.Hits()[k])
    ensures forall i :: 0 <= i < k ==> !job.Fails(job.Hits()[i])
  {
    var hits := job.Hits();
    k := 0;
    while !job.Fails(hits[k])
      invariant k < |hits| - 1
      invariant forall i :: 0 <= i < k ==> !job.Fails(hits[i])
      decreases |hits| - k
    {
      k := k + 1;
    }
  }

  lemma CallNow(job: Job, origin: State, s: State, w: nat) returns (t: State)
    requires Reaches(job, origin, s) && Inv(job, s) && CanWork(job, s, w, SelectDefault) && job.callback.Some?
    ensures Reaches(job, origin, t) && Inv(job, t)
    ensures var h := s.workers[w].hit;
            t == s.(workers := s.workers[w := WCalled(h, job.Answer(h).ret)], sharedErr := job.Answer(h).err)
  {
    WorkOn(job, origin, s, w, SelectDefault);
    var r := AfterWork(job, s, w, SelectDefault);
    WorkOn(job, origin, r, w, Call);
    t := AfterWork(job, r, w, Call);
    assert s.workers[w := t.workers[w]] == r.workers[w := t.workers[w]];
  }
}
