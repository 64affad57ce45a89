// The schedule that hides failures, from any state in which the condition of Hiding holds.
//
// Free workers take hits and wait at the select. When all are busy, every callback that will
// fail is let return; then one that succeeds returns and sets `err` to nil; then everybody
// tests `err` and hands over its value. For a list that is too short, one of the failed
// workers tests `err` before the success and wraps it after. Once no failure is left, no
// schedule can go wrong any more.
module HidingSchedule {
  import opened Prelude
  import opened ScrollPipeline
  import opened Schedules
  import opened Hiding

  // --- After the last failure ---------------------------------------------------------------

  // No error is recorded anywhere, nobody can cause one any more, and somebody serves on.
  ghost predicate Undisturbed(job: Job, s: State) {
    && job.tail.None?
    && s.sharedErr.None? && s.group.err.None?
    && !ErrorLeaving(s.workers) && !ProducerFailed(s.producer)
    && !job.FailsWithin(Unsent(s))
    && Harmless(job, s.workers)
    && (!s.hitsClosed ==> SomeoneStays(s.workers))
  }

  predicate Harmless(job: Job, ws: seq<Worker>) {
    forall w :: 0 <= w < |ws| ==> !HoldsBad(job, ws[w], false) && !ws[w].WWrap?
  }

  predicate Stays(w: Worker) { !w.WExit? && !w.WGone? }

  predicate SomeoneStays(ws: seq<Worker>) {
    exists w :: 0 <= w < |ws| && Stays(ws[w])
  }

  ghost predicate Calm(job: Job, s: State) {
    Inv(job, s) && Undisturbed(job, s)
  }

  lemma StaysKept(ws: seq<Worker>, w: nat, x: Worker)
    requires w < |ws| && SomeoneStays(ws) && (Stays(ws[w]) ==> Stays(x))
    ensures SomeoneStays(ws[w := x])
  {
    var v :| 0 <= v < |ws| && Stays(ws[v]);
    assert v != w ==> ws[w := x][v] == ws[v];
    assert v == w ==> ws[w := x][v] == x;
  }

  lemma CalmDeliver(job: Job, s: State, w: nat)
    requires Undisturbed(job, s) && CanDeliver(s, w)
    ensures Undisturbed(job, Delivered(s, w))
  {
    assert !job.Fails(Unsent(s)[0]);
    assert Unsent(s)[1..] == Unsent(Delivered(s, w));
    StaysKept(s.workers, w, WGot(s.producer.hit));
  }

  lemma CalmWork(job: Job, s: State, w: nat, k: WorkerStep)
    requires ChannelInv(job, s) && Undisturbed(job, s) && CanWork(job, s, w, k)
    ensures Undisturbed(job, AfterWork(job, s, w, k))
    ensures AfterWork(job, s, w, k).past.dropped == s.past.dropped
  {
    assert !AllGone(s);
    if !s.hitsClosed { StaysKept(s.workers, w, Worked(job, s, w, k)); }
  }

  lemma CalmProduce(job: Job, s: State, p: ProducerStep)
    requires ChannelInv(job, s) && Undisturbed(job, s) && CanProduce(s, p)
    ensures Undisturbed(job, Produced(job, s, p))
  {
    var s' := Produced(job, s, p);
    if Running(s'.producer) {
      assert Unsent(s') == Unsent(s);
    }
    assert !AllGone(s);
  }

  lemma UndisturbedStep(job: Job, s: State, step: Step)
    requires ChannelInv(job, s) && Undisturbed(job, s) && Enabled(job, s, step)
    ensures Undisturbed(job, Apply(job, s, step)) && Apply(job, s, step).past.dropped == s.past.dropped
  {
    match step {
      case Produce(p) => CalmProduce(job, s, p);
      case Deliver(w) => CalmDeliver(job, s, w);
      case Work(w, k) => CalmWork(job, s, w, k);
      case Finish(f) =>
    }
  }

  lemma CalmStep(job: Job, s: State, step: Step)
    requires Calm(job, s) && Enabled(job, s, step)
    ensures Calm(job, Apply(job, s, step)) && Apply(job, s, step).past.dropped == s.past.dropped
  {
    StepInv(job, s, step);
    UndisturbedStep(job, s, step);
  }

  lemma {:induction false} CalmRun(job: Job, s: State, steps: seq<Step>)
    requires Calm(job, s) && ValidRun(job, s, steps)
    ensures Calm(job, Exec(job, s, steps)) && Exec(job, s, steps).past.dropped == s.past.dropped
    decreases |steps|
  {
    if steps != [] {
      CalmStep(job, s, steps[0]);
      CalmRun(job, Apply(job, s, steps[0]), steps[1..]);
    }
  }

  lemma CalmEnd(job: Job, s: State) returns (t: State)
    requires Calm(job, s)
    ensures Reaches(job, s, t) && Inv(job, t) && ReturnedList(t) && t.past.dropped == s.past.dropped
  {
    t := RunToEnd(job, s);
    var rest :| ValidRun(job, s, rest) && Exec(job, s, rest) == t;
    CalmRun(job, s, rest);
  }

  // --- A schedule that hides the failures ---------------------------------------------------

  // Between two hits, every worker waits or holds a hit at the select.
  ghost predicate Holding(job: Job, s: State) {
    Quiet(job, s) && forall w :: 0 <= w < |s.workers| ==> s.workers[w].WRecv? || s.workers[w].WGot?
  }

  // The same in the middle of a round, with an error in `err` or not.
  ghost predicate InRound(job: Job, s: State) {
    && Inv(job, s)
    && (s.producer.PScroll? || s.producer.PRange?)
    && !s.group.cancelled && s.group.err.None? && s.collector.Ranging?
  }

  lemma UnsentIs(job: Job, s: State)
    requires StreamInv(job, s) && Running(s.producer)
    ensures |s.past.taken| <= |job.Hits()| && Unsent(s) == job.Hits()[|s.past.taken|..]
  {
    assert (s.past.taken + Unsent(s))[|s.past.taken|..] == Unsent(s);
  }

  // A free worker takes the next hit.
  lemma Take(job: Job, s: State) returns (t: State)
    requires Holding(job, s) && Unsent(s) != []
    requires Goods(job, s.workers) + Bads(job, s.workers, false) < job.workers
    ensures Reaches(job, s, t) && Holding(job, t) && t.past.dropped == s.past.dropped
    ensures Unsent(t) == Unsent(s)[1..]
    ensures var fails := job.Fails(Unsent(s)[0]);
            && Goods(job, t.workers) == Goods(job, s.workers) + (if fails then 0 else 1)
            && Bads(job, t.workers, false) == Bads(job, s.workers, false) + (if fails then 1 else 0)
  {
    GoodsAndBads(job, s.workers, false);
    var w: nat :| w < |s.workers| && s.workers[w].WRecv?;
    UnsentIs(job, s);
    t := Hand(job, s, w);
    UnsentIs(job, t);
    GoodsUpdate(job, s.workers, w, t.workers[w]);
    BadsUpdate(job, s.workers, w, t.workers[w], false);
  }

  function Called(job: Job, w: Worker): Worker {
    if w.WGot? && job.Fails(w.hit) then WCalled(w.hit, job.Answer(w.hit).ret) else w
  }

  // All callbacks that fail return, from worker m on.
  ghost predicate FailuresCalled(job: Job, s: State, t: State, m: nat) {
    && t.producer == s.producer && t.pages == s.pages && t.past == s.past
    && |t.workers| == |s.workers|
    && (forall w :: 0 <= w < |s.workers| ==> t.workers[w] == if w < m then s.workers[w] else Called(job, s.workers[w]))
    && (t.sharedErr.Some? <== s.sharedErr.Some? || exists w :: m <= w < |s.workers| && Called(job, s.workers[w]) != s.workers[w])
  }

  lemma FailuresReturn(job: Job, s: State, m: nat) returns (t: State)
    requires InRound(job, s) && m <= |s.workers|
    ensures Reaches(job, s, t) && InRound(job, t) && FailuresCalled(job, s, t, m)
    decreases |s.workers| - m
  {
    ReachesSelf(job, s);
    if m == |s.workers| {
      t := s;
    } else if Called(job, s.workers[m]) != s.workers[m] {
      var u := CallNow(job, s, s, m);
      t := FailuresReturn(job, u, m + 1);
      ReachesThen(job, s, u, t);
    } else {
      t := FailuresReturn(job, s, m + 1);
    }
  }

  lemma {:induction false} SomeGood(job: Job, ws: seq<Worker>) returns (g: nat)
    requires Goods(job, ws) > 0
    ensures g < |ws| && HoldsGood(job, ws[g])
  {
    if HoldsGood(job, ws[0]) { return 0; }
    g := SomeGood(job, ws[1..]);
    g := g + 1;
  }

  lemma {:induction false} SomeBad(job: Job, ws: seq<Worker>) returns (b: nat)
    requires Bads(job, ws, false) > 0
    ensures b < |ws| && HoldsBad(job, ws[b], false)
  {
    if HoldsBad(job, ws[0], false) { return 0; }
    b := SomeBad(job, ws[1..]);
    b := b + 1;
  }

  lemma {:induction false} SameGoods(job: Job, ws: seq<Worker>, ws': seq<Worker>)
    requires |ws| == |ws'| && forall w :: 0 <= w < |ws| ==> HoldsGood(job, ws[w]) == HoldsGood(job, ws'[w])
    ensures Goods(job, ws) == Goods(job, ws')
  {
    if ws != [] { SameGoods(job, ws[1..], ws'[1..]); }
  }

  lemma {:induction false} BadsAre(job: Job, ws: seq<Worker>)
    ensures Bads(job, ws, false) == 0 <==> forall w :: 0 <= w < |ws| ==> !HoldsBad(job, ws[w], false)
  {
    if ws != [] {
      BadsAre(job, ws[1..]);
      assert forall w :: 1 <= w < |ws| ==> ws[w] == ws[1..][w - 1];
    }
  }

  function Flushed(w: Worker): Worker { if w.WCalled? then WRecv else w }

  ghost predicate FlushedFrom(s: State, t: State, m: nat) {
    && t.producer == s.producer && t.pages == s.pages
    && t.past.taken == s.past.taken && t.past.dropped == s.past.dropped
    && |t.workers| == |s.workers|
    && forall w :: 0 <= w < |s.workers| ==> t.workers[w] == if w < m then s.workers[w] else Flushed(s.workers[w])
  }

  lemma HandOver(job: Job, s: State, w: nat) returns (t: State)
    requires InRound(job, s) && s.sharedErr.None? && w < |s.workers| && s.workers[w].WCalled?
    ensures Reaches(job, s, t) && InRound(job, t) && t.sharedErr.None?
    ensures t.producer == s.producer && t.pages == s.pages && t.workers == s.workers[w := WRecv]
    ensures t.past.taken == s.past.taken && t.past.dropped == s.past.dropped
  {
    ReachesSelf(job, s);
    HandsOver(job, s, w);
    t := WorkTwice(job, s, s, w, TestErr, Collect);
  }

  lemma HandsOver(job: Job, s: State, w: nat)
    requires s.sharedErr.None? && !s.cClosed && s.collector.Ranging? && w < |s.workers| && s.workers[w].WCalled?
    ensures CanWork(job, s, w, TestErr)
    ensures var u := AfterWork(job, s, w, TestErr);
            CanWork(job, u, w, Collect) &&
            var t := AfterWork(job, u, w, Collect);
            && t.workers == s.workers[w := WRecv] && t.producer == s.producer && t.pages == s.pages
            && t.sharedErr == s.sharedErr && t.group == s.group && t.collector == s.collector
            && t.past.taken == s.past.taken && t.past.dropped == s.past.dropped
  {
    var u := AfterWork(job, s, w, TestErr);
    assert u.workers[w := WRecv] == s.workers[w := WRecv];
  }

  // With a nil `err`, whoever has called tests it and hands over the value.
  lemma Flush(job: Job, s: State, m: nat) returns (t: State)
    requires InRound(job, s) && s.sharedErr.None? && m <= |s.workers|
    ensures Reaches(job, s, t) && Quiet(job, t) && FlushedFrom(s, t, m)
    decreases |s.workers| - m
  {
    ReachesSelf(job, s);
    if m == |s.workers| {
      t := s;
    } else if s.workers[m].WCalled? {
      var v := HandOver(job, s, m);
      t := Flush(job, v, m + 1);
      ReachesThen(job, s, v, t);
    } else {
      t := Flush(job, s, m + 1);
    }
  }

  // All busy: one success hides the failures at hand, and everybody else is free again.
  lemma Round(job: Job, s: State) returns (t: State)
    requires Holding(job, s) && Goods(job, s.workers) > 0
    ensures Reaches(job, s, t) && Holding(job, t) && t.past.dropped == s.past.dropped && Unsent(t) == Unsent(s)
    ensures Goods(job, t.workers) == Goods(job, s.workers) - 1 && Bads(job, t.workers, false) == 0
  {
    var g := SomeGood(job, s.workers);
    BadsAre(job, s.workers);
    UnsentIs(job, s);
    if Bads(job, s.workers, false) == 0 {
      t := Process(job, s, g);
    } else {
      t := RoundOfFailures(job, s, g);
    }
    AfterRound(job, s.workers, t.workers, g);
    UnsentIs(job, t);
  }

  lemma AfterRound(job: Job, ws: seq<Worker>, ws': seq<Worker>, g: nat)
    requires |ws| == |ws'| && g < |ws| && HoldsGood(job, ws[g]) && ws'[g].WRecv?
    requires forall w :: 0 <= w < |ws| ==> ws[w].WRecv? || ws[w].WGot?
    requires forall w :: 0 <= w < |ws| && w != g ==> ws'[w] == Flushed(Called(job, ws[w])) || (ws'[w] == ws[w] && !HoldsBad(job, ws[w], false))
    ensures Goods(job, ws') == Goods(job, ws) - 1 && Bads(job, ws', false) == 0
    ensures forall w :: 0 <= w < |ws'| ==> ws'[w].WRecv? || ws'[w].WGot?
  {
    GoodsUpdate(job, ws, g, WRecv);
    SameGoods(job, ws', ws[g := WRecv]);
    BadsAre(job, ws');
  }

  lemma RoundOfFailures(job: Job, s: State, g: nat) returns (t: State)
    requires Holding(job, s) && g < |s.workers| && HoldsGood(job, s.workers[g]) && job.callback.Some?
    ensures Reaches(job, s, t) && Quiet(job, t) && t.past.dropped == s.past.dropped && t.past.taken == s.past.taken
    ensures |t.workers| == |s.workers|
    ensures forall w :: 0 <= w < |s.workers| ==>
              t.workers[w] == if w == g then WRecv else Flushed(Called(job, s.workers[w]))
  {
    var a := FailuresReturn(job, s, 0);
    var c := CallNow(job, s, a, g);
    t := Flush(job, c, 0);
    ReachesThen(job, s, c, t);
  }

  // After the last failure: one failed worker has tested `err` when a success clears it.
  // It leaves with a nil error, and its hit is gone.
  lemma SilentExit(job: Job, s: State) returns (t: State)
    requires Holding(job, s) && job.tail.None? && !job.FailsWithin(Unsent(s))
    requires Goods(job, s.workers) > 0 && Bads(job, s.workers, false) > 0
    ensures Reaches(job, s, t) && Calm(job, t)
    ensures exists h :: job.Fails(h) && t.past.dropped == s.past.dropped + [h]
  {
    var g := SomeGood(job, s.workers);
    var b := SomeBad(job, s.workers);
    var a := FailuresReturn(job, s, 0);
    assert Called(job, s.workers[b]) != s.workers[b];
    t := TestClearWrap(job, s, a, g, b);
    LeftSilently(job, s, t, g, b);
  }

  lemma TestClearWrap(job: Job, origin: State, s: State, g: nat, b: nat) returns (t: State)
    requires Reaches(job, origin, s) && InRound(job, s) && job.callback.Some? && s.sharedErr.Some?
    requires g < |s.workers| && s.workers[g].WGot? && !job.Fails(s.workers[g].hit)
    requires b < |s.workers| && s.workers[b].WCalled?
    ensures Reaches(job, origin, t) && Inv(job, t)
    ensures t.producer == s.producer && t.pages == s.pages && t.sharedErr.None? && t.group == s.group
    ensures t.past.dropped == s.past.dropped + [s.workers[b].hit]
    ensures |t.workers| == |s.workers| && t.workers[b] == WExit(None) && t.workers[g].WCalled?
    ensures forall w :: 0 <= w < |s.workers| && w != b && w != g ==> t.workers[w] == s.workers[w]
  {
    WorkOn(job, origin, s, b, TestErr);
    var c := AfterWork(job, s, b, TestErr);
    t := ClearWrap(job, origin, c, g, b);
  }

  lemma ClearWrap(job: Job, origin: State, s: State, g: nat, b: nat) returns (t: State)
    requires Reaches(job, origin, s) && Inv(job, s) && job.callback.Some? && !s.group.cancelled
    requires g < |s.workers| && s.workers[g].WGot? && !job.Fails(s.workers[g].hit)
    requires b < |s.workers| && s.workers[b].WWrap?
    ensures Reaches(job, origin, t) && Inv(job, t)
    ensures t.producer == s.producer && t.pages == s.pages && t.sharedErr.None? && t.group == s.group
    ensures t.past.dropped == s.past.dropped + [s.workers[b].hit]
    ensures |t.workers| == |s.workers| && t.workers[b] == WExit(None) && t.workers[g].WCalled?
    ensures forall w :: 0 <= w < |s.workers| && w != b && w != g ==> t.workers[w] == s.workers[w]
  {
    var d := CallNow(job, origin, s, g);
    WorkOn(job, origin, d, b, WrapErr);
    t := AfterWork(job, d, b, WrapErr);
  }

  lemma LeftSilently(job: Job, s: State, t: State, g: nat, b: nat)
    requires Holding(job, s) && job.tail.None? && !job.FailsWithin(Unsent(s)) && Inv(job, t)
    requires t.producer == s.producer && t.pages == s.pages && t.sharedErr.None? && t.group == s.group
    requires |t.workers| == |s.workers| && g < |s.workers| && b < |s.workers| && b != g
    requires t.workers[b] == WExit(None) && t.workers[g].WCalled?
    requires forall w :: 0 <= w < |s.workers| && w != b && w != g ==> t.workers[w] == Called(job, s.workers[w])
    ensures Undisturbed(job, t)
  {
    assert Unsent(t) == Unsent(s);
    assert Stays(t.workers[g]);
  }

  // The schedule for a state from which hiding is possible. With `silent` the last failure
  // to be hidden costs its hit, otherwise nothing is dropped.
  lemma {:induction false} HideRun(job: Job, s: State, silent: bool) returns (t: State)
    requires Holding(job, s) && job.tail.None? && CanHideFrom(job, s)
    requires job.FailsWithin(Unsent(s)) || Bads(job, s.workers, false) > 0
    ensures Reaches(job, s, t) && Inv(job, t) && ReturnedList(t)
    ensures silent ==> exists h :: job.Fails(h) && t.past.dropped == s.past.dropped + [h]
    ensures !silent ==> t.past.dropped == s.past.dropped
    decreases |Unsent(s)|, Goods(job, s.workers)
  {
    var u := s;
    if Unsent(s) != [] && Goods(job, s.workers) + Bads(job, s.workers, false) < job.workers {
      u := Take(job, s);
      FailureSplit(job, Unsent(s));
      t := HideRun(job, u, silent);
    } else if job.FailsWithin(Unsent(s)) {
      u := Round(job, s);
      t := HideRun(job, u, silent);
    } else {
      t := HideLast(job, s, silent);
      return;
    }
    ReachesThen(job, s, u, t);
  }

  // The last failures, when all the remaining hits succeed.
  lemma HideLast(job: Job, s: State, silent: bool) returns (t: State)
    requires Holding(job, s) && job.tail.None? && CanHideFrom(job, s)
    requires Unsent(s) == [] || Goods(job, s.workers) + Bads(job, s.workers, false) >= job.workers
    requires !job.FailsWithin(Unsent(s)) && Bads(job, s.workers, false) > 0
    ensures Reaches(job, s, t) && Inv(job, t) && ReturnedList(t)
    ensures silent ==> exists h :: job.Fails(h) && t.past.dropped == s.past.dropped + [h]
    ensures !silent ==> t.past.dropped == s.past.dropped
  {
    var u := s;
    if silent {
      u := SilentExit(job, s);
    } else {
      u := Round(job, s);
      HoldingCalm(job, u);
    }
    t := CalmEnd(job, u);
    ReachesThen(job, s, u, t);
  }

  lemma HoldingCalm(job: Job, s: State)
    requires Holding(job, s) && job.tail.None? && 0 < job.workers
    requires !job.FailsWithin(Unsent(s)) && Bads(job, s.workers, false) == 0
    ensures Calm(job, s)
  {
    BadsAre(job, s.workers);
    assert Stays(s.workers[0]);
  }

  lemma FailureSplit(job: Job, hits: seq<Hit>)
    requires hits != []
    ensures job.FailsWithin(hits) <==> job.Fails(hits[0]) || job.FailsWithin(hits[1..])
  {
    if k :| 0 < k < |hits| && job.Fails(hits[k]) {
      assert hits[1..][k - 1] == hits[k];
    }
    if k :| 0 <= k < |hits[1..]| && job.Fails(hits[1..][k]) {
      assert hits[k + 1] == hits[1..][k];
    }
  }
}
