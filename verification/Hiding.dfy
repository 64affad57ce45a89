// When the failures of callbacks can stay hidden behind the successes of other workers: a
// condition that counts hits and workers, on jobs and on states of ScrollPipeline.
module Hiding {
  import opened ScrollPipeline

  // --- The condition on a job ------------------------------------------------------------

  // Whether failures can stay hidden when `good` workers hold a hit that will succeed, `bad`
  // workers hold a failure that still has to be hidden, and `hits` are to come. Free workers
  // take the hits. When all are busy one good hit is given up: its success hides all
  // failures at hand.
  predicate CanHide(job: Job, hits: seq<Hit>, good: nat, bad: nat)
    requires good + bad <= job.workers
    decreases |hits|, good
  {
    if hits == [] then bad == 0 || good > 0
    else if good + bad == job.workers then good > 0 && CanHide(job, hits, good - 1, 0)
    else if job.Fails(hits[0]) then CanHide(job, hits[1..], good, bad + 1)
    else CanHide(job, hits[1..], good + 1, bad)
  }

  // Giving up a good hit early is never better than doing so when all are busy.
  lemma {:induction false} GiveUpLater(job: Job, hits: seq<Hit>, good: nat, bad: nat)
    requires 0 < good && good + bad <= job.workers && CanHide(job, hits, good - 1, 0)
    ensures CanHide(job, hits, good, bad)
    decreases |hits|, 0
  {
    if hits != [] && good + bad < job.workers {
      if job.Fails(hits[0]) {
        FewerIsBetter(job, hits[1..], good - 1, 1, 0);
        GiveUpLater(job, hits[1..], good, bad + 1);
      } else {
        GiveUpLater(job, hits[1..], good + 1, bad);
      }
    }
  }

  lemma {:induction false} FewerIsBetter(job: Job, hits: seq<Hit>, good: nat, bad: nat, fewer: nat)
    requires fewer <= bad && good + bad <= job.workers && CanHide(job, hits, good, bad)
    ensures CanHide(job, hits, good, fewer)
    decreases |hits|, 1
  {
    if hits != [] && fewer < bad {
      if good + bad == job.workers {
        GiveUpLater(job, hits, good, fewer);
      } else if job.Fails(hits[0]) {
        FewerIsBetter(job, hits[1..], good, bad + 1, fewer + 1);
      } else {
        FewerIsBetter(job, hits[1..], good + 1, bad, fewer);
      }
    }
  }

  // A call that succeeds with `after` failures still untouched by it.
  lemma SuccessHides(job: Job, hits: seq<Hit>, good: nat, bad: nat, after: nat)
    requires 0 < good && good + bad <= job.workers && good - 1 + after <= job.workers
    requires CanHide(job, hits, good - 1, after)
    ensures CanHide(job, hits, good, bad)
  {
    FewerIsBetter(job, hits, good - 1, after, 0);
    GiveUpLater(job, hits, good, bad);
  }

  // --- What the condition comes to in the simplest cases -----------------------------------

  lemma {:induction false} NoFailureHides(job: Job, hits: seq<Hit>, good: nat)
    requires 0 < job.workers && good <= job.workers && !job.FailsWithin(hits)
    ensures CanHide(job, hits, good, 0)
    decreases |hits|, good
  {
    if hits != [] {
      if good == job.workers {
        NoFailureHides(job, hits, good - 1);
      } else {
        assert !job.Fails(hits[0]);
        assert !job.FailsWithin(hits[1..]);
        NoFailureHides(job, hits[1..], good + 1);
      }
    }
  }

  // With one worker nothing is ever hidden.
  lemma {:induction false} OneWorkerHidesNothing(job: Job, hits: seq<Hit>, good: nat)
    requires job.workers == 1 && good <= 1 && job.FailsWithin(hits)
    ensures !CanHide(job, hits, good, 0)
    decreases |hits|, good
  {
    if good == 1 {
      OneWorkerHidesNothing(job, hits, 0);
    } else if job.Fails(hits[0]) {
      assert !CanHide(job, hits[1..], 0, 1);
    } else {
      var k :| 0 <= k < |hits| && job.Fails(hits[k]);
      assert hits[1..][k - 1] == hits[k];
      OneWorkerHidesNothing(job, hits[1..], 1);
    }
  }

  // Without a success there is nothing to hide behind.
  lemma {:induction false} AllFailingHidesNothing(job: Job, hits: seq<Hit>, bad: nat)
    requires bad <= job.workers && (hits != [] || bad > 0)
    requires forall k :: 0 <= k < |hits| ==> job.Fails(hits[k])
    ensures !CanHide(job, hits, 0, bad)
    decreases |hits|
  {
    if hits != [] && bad < job.workers {
      AllFailingHidesNothing(job, hits[1..], bad + 1);
    }
  }

  // A single failure is hidden when another hit and another worker are there.
  lemma {:induction false} OneFailureHidden(job: Job, hits: seq<Hit>, good: nat, k: nat)
    requires 2 <= job.workers && good <= job.workers && k < |hits|
    requires forall i :: 0 <= i < |hits| ==> (job.Fails(hits[i]) <==> i == k)
    ensures CanHide(job, hits, good, 0) <==> good > 0 || |hits| >= 2
    decreases |hits|, good
  {
    if good == job.workers {
      OneFailureHidden(job, hits, good - 1, k);
    } else if k == 0 {
      OthersSucceed(job, hits[1..], good);
    } else {
      assert forall i :: 0 <= i < |hits[1..]| ==> hits[1..][i] == hits[i + 1];
      OneFailureHidden(job, hits[1..], good + 1, k - 1);
    }
  }

  // The failure is held; what is still to come succeeds.
  lemma {:induction false} OthersSucceed(job: Job, hits: seq<Hit>, good: nat)
    requires 2 <= job.workers && good < job.workers && forall i :: 0 <= i < |hits| ==> !job.Fails(hits[i])
    ensures CanHide(job, hits, good, 1) <==> good > 0 || hits != []
    decreases |hits|
  {
    if hits != [] {
      if good + 1 == job.workers {
        NoFailureHides(job, hits, good - 1);
      } else {
        OthersSucceed(job, hits[1..], good + 1);
      }
    }
  }

  // --- The condition on a state ------------------------------------------------------------

  // A worker holds a hit whose callback has not been called yet and will succeed.
  predicate HoldsGood(job: Job, w: Worker) {
    (w.WGot? || w.WRunning?) && !job.Fails(w.hit)
  }

  // A worker will fail, or reads `err` again while it holds an error.
  predicate HoldsBad(job: Job, w: Worker, errSet: bool) {
    ((w.WGot? || w.WRunning?) && job.Fails(w.hit)) || (errSet && (w.WCalled? || w.WWrap?))
  }

  function Goods(job: Job, ws: seq<Worker>): nat {
    if ws == [] then 0 else (if HoldsGood(job, ws[0]) then 1 else 0) + Goods(job, ws[1..])
  }

  function Bads(job: Job, ws: seq<Worker>, errSet: bool): nat {
    if ws == [] then 0 else (if HoldsBad(job, ws[0], errSet) then 1 else 0) + Bads(job, ws[1..], errSet)
  }

  lemma {:induction false} GoodsAndBads(job: Job, ws: seq<Worker>, errSet: bool)
    ensures Goods(job, ws) + Bads(job, ws, errSet) <= |ws|
    ensures (forall w :: 0 <= w < |ws| ==> ws[w].WGot?) ==> Goods(job, ws) + Bads(job, ws, errSet) == |ws|
  {
    if ws != [] { GoodsAndBads(job, ws[1..], errSet); }
  }

  lemma {:induction false} GoodsUpdate(job: Job, ws: seq<Worker>, w: nat, x: Worker)
    requires w < |ws|
    ensures Goods(job, ws[w := x]) + (if HoldsGood(job, ws[w]) then 1 else 0)
         == Goods(job, ws) + (if HoldsGood(job, x) then 1 else 0)
  {
    if w == 0 {
      assert ws[0 := x][1..] == ws[1..];
    } else {
      assert ws[w := x][1..] == ws[1..][w - 1 := x];
      GoodsUpdate(job, ws[1..], w - 1, x);
    }
  }

  lemma {:induction false} BadsUpdate(job: Job, ws: seq<Worker>, w: nat, x: Worker, errSet: bool)
    requires w < |ws|
    ensures Bads(job, ws[w := x], errSet) + (if HoldsBad(job, ws[w], errSet) then 1 else 0)
         == Bads(job, ws, errSet) + (if HoldsBad(job, x, errSet) then 1 else 0)
  {
    if w == 0 {
      assert ws[0 := x][1..] == ws[1..];
    } else {
      assert ws[w := x][1..] == ws[1..][w - 1 := x];
      BadsUpdate(job, ws[1..], w - 1, x, errSet);
    }
  }

  lemma {:induction false} BadsGrow(job: Job, ws: seq<Worker>)
    ensures Bads(job, ws, false) <= Bads(job, ws, true)
  {
    if ws != [] { BadsGrow(job, ws[1..]); }
  }

  lemma {:induction false} NobodyHolds(job: Job, ws: seq<Worker>, errSet: bool)
    requires forall w :: 0 <= w < |ws| ==> ws[w].WGone?
    ensures Goods(job, ws) == 0 && Bads(job, ws, errSet) == 0
  {
    if ws != [] { NobodyHolds(job, ws[1..], errSet); }
  }

  // Hiding is still possible from here.
  ghost predicate CanHideFrom(job: Job, s: State)
    requires |s.workers| == job.workers
  {
    var good, bad := Goods(job, s.workers), Bads(job, s.workers, s.sharedErr.Some?);
    good + bad <= job.workers && CanHide(job, Unsent(s), good, bad)
  }

  // An error has been reported or is on its way to the errgroup.
  ghost predicate Doomed(s: State) {
    s.group.err.Some? || ErrorLeaving(s.workers) || ProducerFailed(s.producer)
  }

  predicate ReturnedList(s: State) { s.collector.Returned? && s.collector.result.Listed? }
}
