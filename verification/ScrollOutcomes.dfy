// What the schedules of ScrollPipeline can end in without a failure, and exactly when the
// pipeline can deadlock.
module ScrollOutcomes {
  import opened Prelude
  import opened ScrollPipeline
  import opened Schedules

  // --- No failure: every schedule can only end with the complete list --------------

  predicate Flawless(job: Job) {
    job.tail.None? && !job.FailsWithin(job.Hits())
  }

  // Without a failing callback or scroll, a schedule that cannot be continued has
  // returned the values of all scrolled hits, each once, and a nil error.
  lemma FlawlessEnd(job: Job, steps: seq<Step>)
    requires Flawless(job) && job.workers > 0
    requires ValidRun(job, Init(job), steps)
    requires forall step :: !Enabled(job, Exec(job, Init(job), steps), step)
    ensures var s := Exec(job, Init(job), steps);
            && Completed(s)
            && s.collector.result.Listed?
            && s.collector.result.err.None?
            && multiset(s.collector.result.rets) == multiset(MapSeq(job.ValueOf, job.Hits()))
  {
    InitInv(job);
    RunInv(job, Init(job), steps);
    var s := Exec(job, Init(job), steps);
    NothingEnabledIff(job, s);
    if job.FailsWithin(s.past.taken) { PrefixFailure(job, s); }
    if Stuck(s) { StuckImpliesCondition(job, s); }
    ListedAll(job, s);
  }

  // --- The deadlock ----------------------------------------------------------------

  lemma {:induction false} CardinalityBelow(n: nat, xs: set<nat>)
    requires forall x :: 0 <= x < n ==> x in xs
    ensures n <= |xs|
  {
    if n > 0 {
      CardinalityBelow(n - 1, xs - {n - 1});
    }
  }

  lemma StuckImpliesCondition(job: Job, s: State)
    requires job.workers > 0 && Inv(job, s) && Stuck(s)
    ensures CanDeadlock(job)
  {
    CardinalityBelow(job.workers, s.past.served);
    assert s.workers[0].WGone?;
    assert job.FailsWithin(s.past.taken);
    var k :| 0 <= k < |s.past.taken| && job.Fails(s.past.taken[k]);
    assert job.Hits()[k] == s.past.taken[k];
    assert |s.past.taken| < |job.Hits()|;
  }

  // The exact condition: some schedule of List hangs with the producer on line 43 if and
  // only if there are more hits than workers and a hit before the last one fails.
  lemma DeadlockIff(job: Job)
    requires job.workers > 0
    ensures (exists s :: Reaches(job, Init(job), s) && Stuck(s)) <==> CanDeadlock(job)
  {
    InitInv(job);
    forall s | Reaches(job, Init(job), s) && Stuck(s) ensures CanDeadlock(job) {
      ReachesInv(job, Init(job), s);
      StuckImpliesCondition(job, s);
    }
    if CanDeadlock(job) {
      var t := ConditionImpliesStuck(job);
    }
  }

  // When the condition does not hold, every schedule can be continued until List has
  // returned, and none can be continued for ever.
  lemma ReturnsUnlessDeadlock(job: Job, steps: seq<Step>) returns (t: State)
    requires job.workers > 0 && !CanDeadlock(job) && ValidRun(job, Init(job), steps)
    ensures Reaches(job, Exec(job, Init(job), steps), t) && Completed(t)
    ensures |steps| <= Measure(Init(job))
  {
    InitInv(job);
    RunInv(job, Init(job), steps);
    Terminates(job, Init(job), steps);
    t := RunToEnd(job, Exec(job, Init(job), steps));
    if Stuck(t) {
      StuckImpliesCondition(job, t);
    }
  }
}
