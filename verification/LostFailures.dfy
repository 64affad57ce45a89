// The race on `err` in list.go: exactly when a failed callback can go unreported.
module LostFailures {
  import opened Prelude
  import opened ScrollPipeline
  import opened Hiding
  import opened HidingSchedule

  // A worker that succeeds sets the shared `err` to nil. Another worker that failed before and
  // has yet to test `err` then sends its value as if nothing had happened; one that has tested
  // it and is about to wrap it leaves with a nil error, and its hit is missing from the list.

  // --- A returned list: hiding was possible all along -------------------------------------------

  lemma StaysDoomed(job: Job, s: State, step: Step)
    requires Doomed(s) && Enabled(job, s, step)
    ensures Doomed(Apply(job, s, step))
  {
    match step
    case Deliver(w) => if ErrorLeaving(s.workers) { ErrorLeavingKept(s.workers, w, WGot(s.producer.hit)); }
    case Work(w, k) => StaysDoomedWork(job, s, w, k);
    case _ =>
  }

  lemma StaysDoomedWork(job: Job, s: State, w: nat, k: WorkerStep)
    requires Doomed(s) && CanWork(job, s, w, k)
    ensures Doomed(AfterWork(job, s, w, k))
  {
    if ErrorLeaving(s.workers) && !(s.workers[w].WExit? && s.workers[w].err.Some?) {
      ErrorLeavingKept(s.workers, w, Worked(job, s, w, k));
    }
  }

  lemma {:induction false} DoomedRun(job: Job, s: State, steps: seq<Step>)
    requires Doomed(s) && ValidRun(job, s, steps)
    ensures Doomed(Exec(job, s, steps))
    decreases |steps|
  {
    if steps != [] {
      StaysDoomed(job, s, steps[0]);
      DoomedRun(job, Apply(job, s, steps[0]), steps[1..]);
    }
  }

  lemma HideBackProduce(job: Job, s: State, p: ProducerStep)
    requires ChannelInv(job, s) && CanProduce(s, p) && !Doomed(Produced(job, s, p))
    requires CanHideFrom(job, Produced(job, s, p))
    ensures CanHideFrom(job, s)
  {
    var s' := Produced(job, s, p);
    assert s.group.cancelled && !s.producer.PGone? ==> s.group.err.Some?;
    assert Unsent(s') == Unsent(s);
  }

  lemma HideBackDeliver(job: Job, s: State, w: nat)
    requires ChannelInv(job, s) && CanDeliver(s, w) && CanHideFrom(job, Delivered(s, w))
    ensures CanHideFrom(job, s)
  {
    var h, rest := s.producer.hit, Unsent(Delivered(s, w));
    var good, bad := Goods(job, s.workers), Bads(job, s.workers, s.sharedErr.Some?);
    DeliverCounts(job, s, w);
    assert Unsent(s) == [h] + rest;
    TakenFirst(job, h, rest, good, bad);
  }

  lemma DeliverCounts(job: Job, s: State, w: nat)
    requires CanDeliver(s, w)
    ensures var ws, isSet, fails := Delivered(s, w).workers, s.sharedErr.Some?, job.Fails(s.producer.hit);
            && Goods(job, ws) == Goods(job, s.workers) + (if fails then 0 else 1)
            && Bads(job, ws, isSet) == Bads(job, s.workers, isSet) + (if fails then 1 else 0)
  {
    GoodsUpdate(job, s.workers, w, WGot(s.producer.hit));
    BadsUpdate(job, s.workers, w, WGot(s.producer.hit), s.sharedErr.Some?);
  }

  lemma TakenFirst(job: Job, h: Hit, rest: seq<Hit>, good: nat, bad: nat)
    requires good + bad < job.workers
    ensures CanHide(job, [h] + rest, good, bad) ==
            if job.Fails(h) then CanHide(job, rest, good, bad + 1) else CanHide(job, rest, good + 1, bad)
  {
    assert ([h] + rest)[1..] == rest;
  }

  lemma HideBackWork(job: Job, s: State, w: nat, k: WorkerStep)
    requires ChannelInv(job, s) && CanWork(job, s, w, k) && !Doomed(AfterWork(job, s, w, k))
    requires CanHideFrom(job, AfterWork(job, s, w, k))
    ensures CanHideFrom(job, s)
  {
    var s' := AfterWork(job, s, w, k);
    assert s'.workers[w] == Worked(job, s, w, k);
    WorkCounts(job, s, w, k);
    assert Unsent(s') == Unsent(s);
    var good, bad := Goods(job, s.workers), Bads(job, s.workers, s.sharedErr.Some?);
    var bad' := Bads(job, s'.workers, s'.sharedErr.Some?);
    if Succeeds(job, s, w, k) {
      SuccessHides(job, Unsent(s), good, bad, bad');
    } else if k.Call? {
      FewerIsBetter(job, Unsent(s), good, bad', bad);
    }
  }

  predicate Succeeds(job: Job, s: State, w: nat, k: WorkerStep)
    requires CanWork(job, s, w, k)
  {
    k.CallNil? || (k.Call? && !job.Fails(s.workers[w].hit))
  }

  // A success uses up a good hit, a failure can only make more failures pending, and no
  // other step matters unless it sends an error on its way.
  lemma WorkCounts(job: Job, s: State, w: nat, k: WorkerStep)
    requires |s.workers| == job.workers && CanWork(job, s, w, k)
    requires s.group.cancelled ==> !k.SelectCancelled?
    requires s.sharedErr.Some? ==> !k.WrapErr?
    ensures var s' := AfterWork(job, s, w, k);
            var good, good' := Goods(job, s.workers), Goods(job, s'.workers);
            var bad, bad' := Bads(job, s.workers, s.sharedErr.Some?), Bads(job, s'.workers, s'.sharedErr.Some?);
            && good + bad <= job.workers
            && good == (if Succeeds(job, s, w, k) then good' + 1 else good')
            && (!Succeeds(job, s, w, k) ==> bad <= bad')
            && (!k.Call? && !k.CallNil? ==> bad == bad')
  {
    var s', x := AfterWork(job, s, w, k), Worked(job, s, w, k);
    GoodsUpdate(job, s.workers, w, x);
    BadsUpdate(job, s.workers, w, x, s.sharedErr.Some?);
    BadsUpdate(job, s.workers, w, x, s'.sharedErr.Some?);
    BadsGrow(job, s.workers);
    GoodsAndBads(job, s.workers, s.sharedErr.Some?);
  }

  lemma {:induction false} HideBack(job: Job, s: State, steps: seq<Step>)
    requires Inv(job, s) && ValidRun(job, s, steps) && ReturnedList(Exec(job, s, steps))
    ensures CanHideFrom(job, s) && job.tail.None?
    decreases |steps|
  {
    if steps == [] {
      ListedAccounts(job, s);
      NobodyHolds(job, s.workers, s.sharedErr.Some?);
    } else {
      StepInv(job, s, steps[0]);
      HideBack(job, Apply(job, s, steps[0]), steps[1..]);
      NotDoomed(job, Apply(job, s, steps[0]), steps[1..]);
      HideBackStep(job, s, steps[0]);
    }
  }

  lemma NotDoomed(job: Job, s: State, steps: seq<Step>)
    requires Inv(job, s) && ValidRun(job, s, steps) && ReturnedList(Exec(job, s, steps))
    ensures !Doomed(s)
  {
    RunInv(job, s, steps);
    GoneHoldNothing(Exec(job, s, steps));
    if Doomed(s) { DoomedRun(job, s, steps); }
  }

  lemma HideBackStep(job: Job, s: State, step: Step)
    requires ChannelInv(job, s) && Enabled(job, s, step) && ChannelInv(job, Apply(job, s, step))
    requires !Doomed(Apply(job, s, step)) && CanHideFrom(job, Apply(job, s, step))
    ensures CanHideFrom(job, s)
  {
    match step
    case Produce(p) => HideBackProduce(job, s, p);
    case Deliver(w) => HideBackDeliver(job, s, w);
    case Work(w, k) => HideBackWork(job, s, w, k);
    case Finish(f) =>
  }

  // --- The theorems --------------------------------------------------------------------------

  // List can return a list with a nil error for a job with failing hits.
  ghost predicate CanReturnList(job: Job, short: bool) {
    exists s :: Reaches(job, Init(job), s) && ReturnedList(s) && (|s.collector.result.rets| < |job.Hits()| <==> short)
  }

  lemma InitHolds(job: Job)
    requires 0 < job.workers
    ensures Holding(job, Init(job)) && Unsent(Init(job)) == job.Hits()
    ensures Goods(job, Init(job).workers) == 0 && Bads(job, Init(job).workers, false) == 0
  {
    InitInv(job);
    var ws := Init(job).workers;
    BadsAre(job, ws);
    if Goods(job, ws) > 0 {
      var g := SomeGood(job, ws);
    }
  }

  // The exact condition: when a callback fails on some hit, some schedule nevertheless ends
  // with a list and a nil error if and only if the scroll itself succeeds and the failures
  // can be hidden; and then both a complete and a short list can be returned.
  lemma ListDespiteFailureIff(job: Job, short: bool)
    requires 0 < job.workers && job.FailsWithin(job.Hits())
    ensures CanReturnList(job, short) <==> job.tail.None? && CanHide(job, job.Hits(), 0, 0)
  {
    InitHolds(job);
    if CanReturnList(job, short) {
      var s :| Reaches(job, Init(job), s) && ReturnedList(s);
      var steps :| ValidRun(job, Init(job), steps) && Exec(job, Init(job), steps) == s;
      HideBack(job, Init(job), steps);
    }
    if job.tail.None? && CanHide(job, job.Hits(), 0, 0) {
      var t := HideRun(job, Init(job), short);
      ListedAll(job, t);
      ListedAccounts(job, t);
      SameSize(t.past.collected + t.past.dropped, job.Hits());
    }
  }

  // The exact condition for a list that is too short: without a failing callback none is.
  lemma ShortListIff(job: Job)
    requires 0 < job.workers
    ensures CanReturnList(job, true) <==>
            job.FailsWithin(job.Hits()) && job.tail.None? && CanHide(job, job.Hits(), 0, 0)
  {
    if job.FailsWithin(job.Hits()) {
      ListDespiteFailureIff(job, true);
    } else if s :| Reaches(job, Init(job), s) && ReturnedList(s) && |s.collector.result.rets| < |job.Hits()| {
      InitInv(job);
      ReachesInv(job, Init(job), s);
      ListedAccounts(job, s);
      ListedAll(job, s);
    }
  }

  // Otherwise every run that ends reports an error.
  lemma FailureReportedIff(job: Job)
    requires 0 < job.workers && job.FailsWithin(job.Hits())
    ensures (forall s :: Reaches(job, Init(job), s) && s.collector.Returned? ==> s.collector.result.Failed?) <==>
            !(job.tail.None? && CanHide(job, job.Hits(), 0, 0))
  {
    ListDespiteFailureIff(job, false);
    ListDespiteFailureIff(job, true);
  }

  // One worker, or no success to hide behind: failures are always reported.
  lemma ReportedWhenAloneOrAllFail(job: Job, s: State)
    requires 0 < job.workers && job.FailsWithin(job.Hits())
    requires job.workers == 1 || forall k :: 0 <= k < |job.Hits()| ==> job.Fails(job.Hits()[k])
    requires Reaches(job, Init(job), s) && s.collector.Returned?
    ensures s.collector.result.Failed?
  {
    FailureReportedIff(job);
    if job.workers == 1 { OneWorkerHidesNothing(job, job.Hits(), 0); } else { AllFailingHidesNothing(job, job.Hits(), 0); }
  }

  // A single failing hit goes unreported in some schedule exactly when there is another
  // worker and another hit, and the scroll succeeds.
  lemma OneFailureLostIff(job: Job, k: nat, short: bool)
    requires 0 < job.workers && k < |job.Hits()|
    requires forall i :: 0 <= i < |job.Hits()| ==> (job.Fails(job.Hits()[i]) <==> i == k)
    ensures CanReturnList(job, short) <==> job.tail.None? && 2 <= job.workers && 2 <= |job.Hits()|
  {
    assert job.Fails(job.Hits()[k]);
    ListDespiteFailureIff(job, short);
    if job.workers == 1 { OneWorkerHidesNothing(job, job.Hits(), 0); } else { OneFailureHidden(job, job.Hits(), 0, k); }
  }

  // Two hits, the first fails: List can return the value of the second one alone.
  lemma FirstOfTwoVanishes(job: Job, bad: Hit, good: Hit) returns (t: State)
    requires 2 <= job.workers && job.tail.None? && job.Hits() == [bad, good]
    requires job.Fails(bad) && !job.Fails(good)
    ensures Reaches(job, Init(job), t) && t.collector == Returned(Listed([job.ValueOf(good)], None))
  {
    t := OneVanishes(job, 0);
    OtherOfTwo(t.past.collected, t.past.dropped, bad, good);
    MapOne(job.ValueOf, good);
  }

  lemma MapOne<A, B>(f: A -> B, x: A)
    ensures MapSeq(f, [x]) == [f(x)]
  {
  }

  // A single failing hit, and a schedule that drops it.
  lemma OneVanishes(job: Job, k: nat) returns (t: State)
    requires 2 <= job.workers && job.tail.None? && 2 <= |job.Hits()| && k < |job.Hits()|
    requires forall i :: 0 <= i < |job.Hits()| ==> (job.Fails(job.Hits()[i]) <==> i == k)
    ensures Reaches(job, Init(job), t)
    ensures t.collector == Returned(Listed(MapSeq(job.ValueOf, t.past.collected), None))
    ensures |t.past.dropped| == 1 && job.Fails(t.past.dropped[0])
    ensures multiset(t.past.collected + t.past.dropped) == multiset(job.Hits())
  {
    InitHolds(job);
    assert job.Fails(job.Hits()[k]);
    OneFailureHidden(job, job.Hits(), 0, k);
    t := HideRun(job, Init(job), true);
    ListedAccounts(job, t);
  }

  function FailsOnBad(source: string): Outcome {
    if source == "bad" then Outcome("", Some("boom")) else Outcome(source, None)
  }

  // For instance with the ten workers of list.go.
  lemma BadHitVanishes(decode: Hit -> string) returns (job: Job, t: State)
    ensures job == Job([[Hit("1", "bad"), Hit("2", "good")]], None, 10, Some(FailsOnBad), decode)
    ensures Reaches(job, Init(job), t) && t.collector == Returned(Listed(["good"], None))
  {
    var bad, good := Hit("1", "bad"), Hit("2", "good");
    job := Job([[bad, good]], None, 10, Some(FailsOnBad), decode);
    assert job.Hits() == [bad, good] by {
      assert job.pages[1..] == [] && Flatten(job.pages[1..]) == [];
    }
    t := FirstOfTwoVanishes(job, bad, good);
  }

  lemma OtherOfTwo(xs: seq<Hit>, ys: seq<Hit>, a: Hit, b: Hit)
    requires multiset(xs + ys) == multiset([a, b]) && |ys| == 1 && ys[0] != b
    ensures xs == [b]
  {
    SameSize(xs + ys, [a, b]);
    assert xs + ys == [xs[0], ys[0]];
    assert b in multiset([a, b]);
  }
}
