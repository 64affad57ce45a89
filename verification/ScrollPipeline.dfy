// The concurrent branch of Es.List: one producer, N workers, a closer and a collector over two
// unbuffered channels and an errgroup, as a step relation.
module ScrollPipeline {
  // The producer scrolls pages and sends their hits over `hits`; the workers receive hits,
  // run the callback and send the values over `c`; a closer goroutine waits for the errgroup
  // and closes `c`; the caller ranges over `c` and then reads the errgroup's error. A Step is
  // one scheduling point; every interleaving is a sequence of enabled steps.
  //
  // The shared variable `err` is accessed in three separate steps: the write and the test on
  // line 65, and the second read as the argument of errors.Wrap on line 66. Wrap of nil is nil.

  import opened Prelude

  datatype Hit = Hit(id: string, source: string)

  // What a callback returns: a value and an error that may be nil.
  datatype Outcome = Outcome(ret: string, err: Option<string>)

  // One call of List together with what the cluster will answer: the pages in order and
  // then either io.EOF (None) or an error. `decode` is the JSON decoding used when no
  // callback is given.
  datatype Job = Job(pages: seq<seq<Hit>>, tail: Option<string>, workers: nat,
                     callback: Option<string -> Outcome>, decode: Hit -> string)
  {
    function Hits(): seq<Hit> { Flatten(pages) }

    function ValueOf(h: Hit): string {
      match callback
      case None => decode(h)
      case Some(_) => Answer(h).ret
    }

    function Answer(h: Hit): Outcome
      requires callback.Some?
    {
      callback.value(h.source)
    }

    predicate Fails(h: Hit) {
      callback.Some? && Answer(h).err.Some?
    }

    predicate FailsWithin(hits: seq<Hit>) {
      exists k :: 0 <= k < |hits| && Fails(hits[k])
    }
  }

  datatype Producer =
    | PScroll                               // about to call scroll.Do
    | PRange(page: seq<Hit>)                // at the loop head over the current page
    | PSend(hit: Hit, page: seq<Hit>)       // blocked on hits <- hit
    | PReturn(err: Option<string>)          // returned; the deferred close is pending
    | PExit(err: Option<string>)            // the errgroup has yet to see the result
    | PGone

  datatype Worker =
    | WRecv                                 // waiting for the next hit
    | WGot(hit: Hit)                        // at the select
    | WRunning(hit: Hit)                    // past the select, the value is being computed
    | WCalled(hit: Hit, ret: string)        // err was written, not yet tested
    | WWrap(hit: Hit)                       // the test saw an error, err is about to be wrapped
    | WSend(hit: Hit, ret: string)          // blocked on c <- ret
    | WExit(err: Option<string>)
    | WGone

  datatype Closer = CWait | CClose | CGone

  datatype ListResult = Failed(cause: string) | Listed(rets: seq<string>, err: Option<string>)

  datatype Collector = Ranging | Waiting | Returned(result: ListResult)

  // Ghost record of a run: the hits received by workers in order, the hits whose values
  // reached the caller, the hits abandoned on an error, and the workers that ever
  // received a hit.
  datatype History = History(taken: seq<Hit>, collected: seq<Hit>, dropped: seq<Hit>, served: set<nat>)

  // The errgroup: its context's state and the first error it was given.
  datatype Group = Group(cancelled: bool, err: Option<string>) {
    function Report(e: Option<string>): Group {
      if e.Some? && err.None? then Group(true, e) else this
    }

    function Cancel(): Group { this.(cancelled := true) }
  }

  datatype State = State(
    pages: seq<seq<Hit>>, producer: Producer, hitsClosed: bool,
    workers: seq<Worker>, sharedErr: Option<string>, group: Group,
    closer: Closer, cClosed: bool, collector: Collector, rets: seq<string>,
    panicked: bool, past: History)

  const CANCELLED := "context canceled"

  function Init(job: Job): State {
    State(job.pages, PScroll, false, seq(job.workers, i => WRecv), None, Group(false, None),
          CWait, false, Ranging, [], false, History([], [], [], {}))
  }

  datatype ProducerStep =
    | ScrollPage | ScrollEnd | ScrollCancelled   // line 31 answers
    | NextPage | SelectHit | SelectDone          // lines 38-43
    | SendOnClosedHits | CloseHits | ProducerExit

  datatype WorkerStep =
    | RecvClosed                                 // line 53: the range ends
    | SelectCancelled | SelectDefault            // lines 54-57
    | CallNil | Call | TestErr | WrapErr         // lines 58-68: no callback, or its return, the test, the wrap
    | Collect                                    // line 69 meets line 81
    | SendOnClosedC | WorkerExit

  datatype FinalStep = GroupWaited | CloseC | RangeDone | Return

  datatype Step =
    | Produce(p: ProducerStep)
    | Deliver(w: nat)                            // line 43 meets line 53
    | Work(w: nat, k: WorkerStep)
    | Finish(f: FinalStep)

  predicate AllGone(s: State) {
    s.producer.PGone? && forall w :: 0 <= w < |s.workers| ==> s.workers[w].WGone?
  }

  predicate CanProduce(s: State, p: ProducerStep) {
    match p
    case ScrollPage => s.producer.PScroll? && s.pages != []
    case ScrollEnd => s.producer.PScroll? && s.pages == []
    case ScrollCancelled => s.producer.PScroll? && s.group.cancelled
    case NextPage => s.producer.PRange? && s.producer.page == []
    case SelectHit => s.producer.PRange? && s.producer.page != [] && !s.group.cancelled
    case SelectDone => s.producer.PRange? && s.producer.page != [] && s.group.cancelled
    case SendOnClosedHits => s.producer.PSend? && s.hitsClosed
    case CloseHits => s.producer.PReturn?
    case ProducerExit => s.producer.PExit?
  }

  function Produced(job: Job, s: State, p: ProducerStep): State
    requires CanProduce(s, p)
  {
    match p
    case ScrollPage => s.(producer := PRange(s.pages[0]), pages := s.pages[1..])
    case ScrollEnd => s.(producer := PReturn(job.tail))
    case ScrollCancelled => s.(producer := PReturn(Some(CANCELLED)))
    case NextPage => s.(producer := PScroll)
    case SelectHit => s.(producer := PSend(s.producer.page[0], s.producer.page[1..]))
    case SelectDone => s.(producer := PReturn(Some(CANCELLED)))
    case SendOnClosedHits => s.(panicked := true)
    case CloseHits =>
      if s.hitsClosed then s.(panicked := true)
      else s.(producer := PExit(s.producer.err), hitsClosed := true)
    case ProducerExit => s.(producer := PGone, group := s.group.Report(s.producer.err))
  }

  predicate CanDeliver(s: State, w: nat) {
    s.producer.PSend? && !s.hitsClosed && w < |s.workers| && s.workers[w].WRecv?
  }

  function Delivered(s: State, w: nat): State
    requires CanDeliver(s, w)
  {
    var h := s.producer.hit;
    s.(producer := PRange(s.producer.page), workers := s.workers[w := WGot(h)],
       past := s.past.(taken := s.past.taken + [h], served := s.past.served + {w}))
  }

  predicate CanWork(job: Job, s: State, w: nat, k: WorkerStep) {
    && w < |s.workers|
    && var me := s.workers[w];
       match k
       case RecvClosed => me.WRecv? && s.hitsClosed
       case SelectCancelled => me.WGot? && s.group.cancelled
       case SelectDefault => me.WGot? && !s.group.cancelled
       case CallNil => me.WRunning? && job.callback.None?
       case Call => me.WRunning? && job.callback.Some?
       case TestErr => me.WCalled?
       case WrapErr => me.WWrap?
       case Collect => me.WSend? && !s.cClosed && s.collector.Ranging?
       case SendOnClosedC => me.WSend? && s.cClosed
       case WorkerExit => me.WExit?
  }

  // What the worker turns into.
  function Worked(job: Job, s: State, w: nat, k: WorkerStep): Worker
    requires CanWork(job, s, w, k)
  {
    var me := s.workers[w];
    match k
    case RecvClosed => WExit(None)
    case SelectCancelled => WExit(Some(CANCELLED))
    case SelectDefault => WRunning(me.hit)
    case CallNil => WSend(me.hit, job.decode(me.hit))
    case Call => WCalled(me.hit, job.Answer(me.hit).ret)
    case TestErr => if s.sharedErr.Some? then WWrap(me.hit) else WSend(me.hit, me.ret)
    case WrapErr => WExit(s.sharedErr)
    case Collect => WRecv
    case SendOnClosedC => me
    case WorkerExit => WGone
  }

  function AfterWork(job: Job, s: State, w: nat, k: WorkerStep): State
    requires CanWork(job, s, w, k)
  {
    var me := s.workers[w];
    var t := s.(workers := s.workers[w := Worked(job, s, w, k)]);
    match k
    case Call => t.(sharedErr := job.Answer(me.hit).err)
    case Collect => t.(rets := s.rets + [me.ret], past := s.past.(collected := s.past.collected + [me.hit]))
    case SendOnClosedC => t.(panicked := true)
    case WorkerExit => t.(group := s.group.Report(me.err))
    case SelectCancelled => t.(past := s.past.(dropped := s.past.dropped + [me.hit]))
    case WrapErr => t.(past := s.past.(dropped := s.past.dropped + [me.hit]))
    case TestErr => t
    case RecvClosed => t
    case SelectDefault => t
    case CallNil => t
  }

  predicate CanFinish(s: State, f: FinalStep) {
    match f
    case GroupWaited => s.closer.CWait? && AllGone(s)
    case CloseC => s.closer.CClose?
    case RangeDone => s.collector.Ranging? && s.cClosed
    case Return => s.collector.Waiting? && AllGone(s)
  }

  // errgroup's Wait cancels the context once every member is gone.
  function Finished(s: State, f: FinalStep): State
    requires CanFinish(s, f)
  {
    match f
    case GroupWaited => s.(closer := CClose, group := s.group.Cancel())
    case CloseC => if s.cClosed then s.(panicked := true) else s.(closer := CGone, cClosed := true)
    case RangeDone => s.(collector := Waiting)
    case Return =>
      var result := if s.group.err.Some? then Failed(s.group.err.value) else Listed(s.rets, s.sharedErr);
      s.(collector := Returned(result), group := s.group.Cancel())
  }

  // Nothing runs after a panic.
  predicate Enabled(job: Job, s: State, step: Step) {
    && !s.panicked
    && match step
       case Produce(p) => CanProduce(s, p)
       case Deliver(w) => CanDeliver(s, w)
       case Work(w, k) => CanWork(job, s, w, k)
       case Finish(f) => CanFinish(s, f)
  }

  function Apply(job: Job, s: State, step: Step): State
    requires Enabled(job, s, step)
  {
    match step
    case Produce(p) => Produced(job, s, p)
    case Deliver(w) => Delivered(s, w)
    case Work(w, k) => AfterWork(job, s, w, k)
    case Finish(f) => Finished(s, f)
  }

  // A schedule is valid from s when each of its steps is enabled in turn.
  predicate ValidRun(job: Job, s: State, steps: seq<Step>)
    decreases |steps|
  {
    steps == [] || (Enabled(job, s, steps[0]) && ValidRun(job, Apply(job, s, steps[0]), steps[1..]))
  }

  function Exec(job: Job, s: State, steps: seq<Step>): State
    requires ValidRun(job, s, steps)
    decreases |steps|
  {
    if steps == [] then s else Exec(job, Apply(job, s, steps[0]), steps[1..])
  }

  // --- Invariants -----------------------------------------------------------------

  function HeldBy(w: Worker): multiset<Hit> {
    if w.WGot? || w.WRunning? || w.WCalled? || w.WWrap? || w.WSend? then multiset{w.hit} else multiset{}
  }

  function Held(ws: seq<Worker>): multiset<Hit> {
    if ws == [] then multiset{} else HeldBy(ws[0]) + Held(ws[1..])
  }

  // What the producer has scrolled or will scroll and has not yet handed over.
  function Unsent(s: State): seq<Hit> {
    match s.producer
    case PScroll => Flatten(s.pages)
    case PRange(page) => page + Flatten(s.pages)
    case PSend(h, page) => [h] + page + Flatten(s.pages)
    case _ => []
  }

  predicate Running(p: Producer) {
    p.PScroll? || p.PRange? || p.PSend?
  }

  // Some worker, or the producer, is on its way to report an error.
  predicate ErrorLeaving(ws: seq<Worker>) {
    exists w :: 0 <= w < |ws| && ws[w].WExit? && ws[w].err.Some?
  }

  predicate ProducerFailed(p: Producer) {
    (p.PReturn? || p.PExit?) && p.err.Some?
  }

  // Which goroutine closes what, and when.
  ghost predicate ChannelInv(job: Job, s: State) {
    && |s.workers| == job.workers
    && !s.panicked
    && (s.hitsClosed <==> s.producer.PExit? || s.producer.PGone?)
    && (s.cClosed <==> s.closer.CGone?)
    && (!s.closer.CWait? ==> AllGone(s))
    && (!s.collector.Ranging? ==> s.cClosed)
    && (s.group.cancelled ==> s.group.err.Some? || AllGone(s))
  }

  // The hits handed over are a prefix of what is scrolled, and nothing is skipped.
  ghost predicate StreamInv(job: Job, s: State) {
    && (Running(s.producer) ==> s.past.taken + Unsent(s) == job.Hits())
    && s.past.taken <= job.Hits()
  }

  // Every hit handed over is held by one worker, was collected, or was dropped.
  ghost predicate HeldInv(s: State) {
    multiset(s.past.taken) == Held(s.workers) + multiset(s.past.collected) + multiset(s.past.dropped)
  }

  // Values travel with their hits.
  ghost predicate ValueInv(job: Job, s: State) {
    && s.rets == MapSeq(job.ValueOf, s.past.collected)
    && (forall w :: 0 <= w < |s.workers| && (s.workers[w].WCalled? || s.workers[w].WSend?) ==>
          s.workers[w].ret == job.ValueOf(s.workers[w].hit))
  }

  // A hit is dropped only when the errgroup knows, or will know, about an error, or after
  // a callback failed; and the producer leaves hits unsent only because of an error.
  ghost predicate LossInv(job: Job, s: State) {
    && (s.past.dropped != [] ==>
          s.group.err.Some? || ErrorLeaving(s.workers) || job.FailsWithin(s.past.taken))
    && (!Running(s.producer) ==>
          || s.group.err.Some?
          || ProducerFailed(s.producer)
          || (s.past.taken == job.Hits() && job.tail.None?))
  }

  // Errors come from a failing callback on a received hit, or from scrolling; and nobody
  // leaves before `hits` is closed unless a callback failed.
  ghost predicate BlameInv(job: Job, s: State) {
    && (s.sharedErr.Some? || Wrapping(s.workers) ==> job.FailsWithin(s.past.taken))
    && (s.group.err.Some? || ErrorLeaving(s.workers) ==>
          job.FailsWithin(s.past.taken) || (job.tail.Some? && s.hitsClosed))
    && (ProducerFailed(s.producer) ==> job.FailsWithin(s.past.taken) || job.tail.Some?)
    && (!s.hitsClosed && SomeoneLeft(s.workers) ==> job.FailsWithin(s.past.taken))
  }

  predicate Wrapping(ws: seq<Worker>) {
    exists w :: 0 <= w < |ws| && ws[w].WWrap?
  }

  predicate SomeoneLeft(ws: seq<Worker>) {
    exists w :: 0 <= w < |ws| && (ws[w].WExit? || ws[w].WGone?)
  }

  // Whoever wrote an error to `err` is about to test or wrap it, or the error is on its
  // way out.
  predicate ErrPending(ws: seq<Worker>) {
    exists w :: 0 <= w < |ws| && (ws[w].WCalled? || ws[w].WWrap?)
  }

  ghost predicate SharedErrInv(s: State) {
    s.sharedErr.Some? ==> s.group.err.Some? || ErrorLeaving(s.workers) || ErrPending(s.workers)
  }

  ghost predicate ResultInv(s: State) {
    s.collector.Returned? ==>
      match s.collector.result
      case Failed(e) => s.group.err == Some(e)
      case Listed(r, e) => s.group.err.None? && r == s.rets && e == s.sharedErr
  }

  // A worker leaves before `hits` is closed only after it received a hit.
  ghost predicate ServedInv(job: Job, s: State) {
    && (forall w :: w in s.past.served ==> w < job.workers)
    && |s.past.served| <= |s.past.taken|
    && (!s.hitsClosed ==> forall w :: 0 <= w < |s.workers| && !s.workers[w].WRecv? ==> w in s.past.served)
  }

  ghost predicate Inv(job: Job, s: State) {
    && ChannelInv(job, s)
    && StreamInv(job, s)
    && HeldInv(s)
    && ValueInv(job, s)
    && LossInv(job, s)
    && BlameInv(job, s)
    && SharedErrInv(s)
    && ResultInv(s)
    && ServedInv(job, s)
  }

  lemma AddToBoth<T>(a: multiset<T>, b: multiset<T>, c: multiset<T>, d: multiset<T>, e: multiset<T>)
    requires a + b == c + d
    ensures (e + a) + b == (e + c) + d
  {
    assert (e + a) + b == e + (a + b);
  }

  lemma {:induction false} HeldUpdate(ws: seq<Worker>, w: nat, x: Worker)
    requires w < |ws|
    ensures Held(ws[w := x]) + HeldBy(ws[w]) == Held(ws) + HeldBy(x)
  {
    var rest := ws[1..];
    if w == 0 {
      assert ws[0 := x][1..] == rest;
    } else {
      assert ws[w := x][1..] == rest[w - 1 := x];
      HeldUpdate(rest, w - 1, x);
      AddToBoth(Held(rest[w - 1 := x]), HeldBy(ws[w]), Held(rest), HeldBy(x), HeldBy(ws[0]));
    }
  }

  // A worker receives hit h.
  lemma TookHit(taken: seq<Hit>, held: multiset<Hit>, held': multiset<Hit>, rest: multiset<Hit>, h: Hit)
    requires multiset(taken) == held + rest && held' == held + multiset{h}
    ensures multiset(taken + [h]) == held' + rest
  {
  }

  // A worker gives hit h up to those already collected, or already dropped.
  lemma GaveUpHit(held: multiset<Hit>, held': multiset<Hit>, xs: seq<Hit>, h: Hit, rest: multiset<Hit>)
    requires held' + multiset{h} == held
    ensures held + multiset(xs) + rest == held' + multiset(xs + [h]) + rest
    ensures held + rest + multiset(xs) == held' + rest + multiset(xs + [h])
  {
  }

  lemma HeldIdle(ws: seq<Worker>)
    requires forall w :: 0 <= w < |ws| ==> HeldBy(ws[w]) == multiset{}
    ensures Held(ws) == multiset{}
  {
    if ws != [] {
      HeldIdle(ws[1..]);
    }
  }

  lemma {:induction false} HeldMember(ws: seq<Worker>, w: nat)
    requires w < |ws|
    ensures HeldBy(ws[w]) <= Held(ws)
  {
    if w > 0 {
      HeldMember(ws[1..], w - 1);
    }
  }

  // The hit a worker is busy with was received earlier.
  lemma HeldWasTaken(s: State, w: nat)
    requires HeldInv(s) && w < |s.workers| && HeldBy(s.workers[w]) != multiset{}
    ensures s.workers[w].hit in s.past.taken
  {
    HeldMember(s.workers, w);
    assert s.workers[w].hit in multiset(s.past.taken);
  }

  lemma FailsWithinGrows(job: Job, hits: seq<Hit>, h: Hit)
    requires job.FailsWithin(hits)
    ensures job.FailsWithin(hits + [h])
  {
    var k :| 0 <= k < |hits| && job.Fails(hits[k]);
    assert (hits + [h])[k] == hits[k];
  }

  lemma ErrorLeavingKept(ws: seq<Worker>, w: nat, x: Worker)
    requires w < |ws| && ErrorLeaving(ws) && !(ws[w].WExit? && ws[w].err.Some?)
    ensures ErrorLeaving(ws[w := x])
  {
    var v :| 0 <= v < |ws| && ws[v].WExit? && ws[v].err.Some?;
    assert ws[w := x][v] == ws[v];
  }

  lemma ErrPendingKept(ws: seq<Worker>, w: nat, x: Worker)
    requires w < |ws| && ErrPending(ws) && !ws[w].WCalled? && !ws[w].WWrap?
    ensures ErrPending(ws[w := x])
  {
    var v :| 0 <= v < |ws| && (ws[v].WCalled? || ws[v].WWrap?);
    assert ws[w := x][v] == ws[v];
  }

  lemma DeliverShared(s: State, w: nat)
    requires SharedErrInv(s) && CanDeliver(s, w)
    ensures SharedErrInv(Delivered(s, w))
  {
    var x := WGot(s.producer.hit);
    if ErrorLeaving(s.workers) { ErrorLeavingKept(s.workers, w, x); }
    if ErrPending(s.workers) { ErrPendingKept(s.workers, w, x); }
  }

  lemma WorkShared(job: Job, s: State, w: nat, k: WorkerStep)
    requires SharedErrInv(s) && CanWork(job, s, w, k)
    ensures SharedErrInv(AfterWork(job, s, w, k))
  {
    var me, s' := s.workers[w], AfterWork(job, s, w, k);
    assert s'.workers[w] == Worked(job, s, w, k);
    if k.WrapErr? && s.sharedErr.Some? {
      assert ErrorLeaving(s'.workers);
    } else if k.Call? || (k.TestErr? && s.sharedErr.Some?) {
      assert ErrPending(s'.workers);
    } else if s.sharedErr.Some? {
      if ErrPending(s.workers) { ErrPendingKept(s.workers, w, s'.workers[w]); }
      if ErrorLeaving(s.workers) && !(me.WExit? && me.err.Some?) {
        ErrorLeavingKept(s.workers, w, s'.workers[w]);
      }
    }
  }

  lemma InitInv(job: Job)
    ensures Inv(job, Init(job))
  {
    HeldIdle(Init(job).workers);
  }

  lemma ProduceStream(job: Job, s: State, p: ProducerStep)
    requires StreamInv(job, s) && CanProduce(s, p)
    ensures StreamInv(job, Produced(job, s, p))
    ensures p.ScrollEnd? ==> s.past.taken == job.Hits()
  {
    var s' := Produced(job, s, p);
    if Running(s'.producer) {
      assert s'.past.taken + Unsent(s') == s.past.taken + Unsent(s);
    }
  }

  lemma ProduceInv(job: Job, s: State, p: ProducerStep)
    requires Inv(job, s) && CanProduce(s, p)
    ensures Inv(job, Produced(job, s, p))
  {
    ProduceStream(job, s, p);
  }

  lemma DeliverStream(job: Job, s: State, w: nat)
    requires StreamInv(job, s) && CanDeliver(s, w)
    ensures StreamInv(job, Delivered(s, w))
  {
    var s' := Delivered(s, w);
    assert s'.past.taken + Unsent(s') == s.past.taken + Unsent(s);
  }

  lemma DeliverHeld(s: State, w: nat)
    requires HeldInv(s) && CanDeliver(s, w)
    ensures HeldInv(Delivered(s, w))
  {
    var h := s.producer.hit;
    HeldUpdate(s.workers, w, WGot(h));
    TookHit(s.past.taken, Held(s.workers), Held(s.workers[w := WGot(h)]), multiset(s.past.collected) + multiset(s.past.dropped), h);
  }

  lemma DeliverErrors(job: Job, s: State, w: nat)
    requires LossInv(job, s) && BlameInv(job, s) && CanDeliver(s, w)
    ensures LossInv(job, Delivered(s, w)) && BlameInv(job, Delivered(s, w))
  {
    var h := s.producer.hit;
    if job.FailsWithin(s.past.taken) { FailsWithinGrows(job, s.past.taken, h); }
    if ErrorLeaving(s.workers) { ErrorLeavingKept(s.workers, w, WGot(h)); }
  }

  lemma DeliverRest(job: Job, s: State, w: nat)
    requires ChannelInv(job, s) && ValueInv(job, s) && ResultInv(s) && ServedInv(job, s) && CanDeliver(s, w)
    ensures var s' := Delivered(s, w);
            ChannelInv(job, s') && ValueInv(job, s') && ResultInv(s') && ServedInv(job, s')
  {
  }

  lemma DeliverInv(job: Job, s: State, w: nat)
    requires Inv(job, s) && CanDeliver(s, w)
    ensures Inv(job, Delivered(s, w))
  {
    DeliverStream(job, s, w);
    DeliverHeld(s, w);
    DeliverErrors(job, s, w);
    DeliverShared(s, w);
    DeliverRest(job, s, w);
  }

  lemma WorkHeld(job: Job, s: State, w: nat, k: WorkerStep)
    requires HeldInv(s) && CanWork(job, s, w, k)
    ensures HeldInv(AfterWork(job, s, w, k))
  {
    var me, me' := s.workers[w], Worked(job, s, w, k);
    HeldUpdate(s.workers, w, me');
    if k.Collect? || k.SelectCancelled? || k.WrapErr? {
      WorkGivesUp(job, s, w, k);
    } else {
      Cancel(Held(s.workers[w := me']), Held(s.workers), HeldBy(me));
    }
  }

  lemma WorkGivesUp(job: Job, s: State, w: nat, k: WorkerStep)
    requires HeldInv(s) && CanWork(job, s, w, k) && (k.Collect? || k.SelectCancelled? || k.WrapErr?)
    ensures HeldInv(AfterWork(job, s, w, k))
  {
    var me, me' := s.workers[w], Worked(job, s, w, k);
    var held, held' := Held(s.workers), Held(s.workers[w := me']);
    HeldUpdate(s.workers, w, me');
    if k.Collect? {
      GaveUpHit(held, held', s.past.collected, me.hit, multiset(s.past.dropped));
    } else {
      GaveUpHit(held, held', s.past.dropped, me.hit, multiset(s.past.collected));
    }
  }

  lemma WorkValue(job: Job, s: State, w: nat, k: WorkerStep)
    requires ValueInv(job, s) && CanWork(job, s, w, k)
    ensures ValueInv(job, AfterWork(job, s, w, k))
  {
    if k.Collect? {
      MapSeqSnoc(job.ValueOf, s.past.collected, s.workers[w].hit);
    }
  }

  lemma WorkLosses(job: Job, s: State, w: nat, k: WorkerStep)
    requires ChannelInv(job, s) && LossInv(job, s) && BlameInv(job, s) && CanWork(job, s, w, k)
    ensures LossInv(job, AfterWork(job, s, w, k))
  {
    var me, me' := s.workers[w], Worked(job, s, w, k);
    var ws := s.workers[w := me'];
    assert ws[w] == me';
    assert me'.WExit? && me'.err.Some? ==> ErrorLeaving(ws);
    if ErrorLeaving(s.workers) && !(me.WExit? && me.err.Some?) {
      ErrorLeavingKept(s.workers, w, me');
    }
  }

  lemma WorkBlame(job: Job, s: State, w: nat, k: WorkerStep)
    requires HeldInv(s) && ChannelInv(job, s) && BlameInv(job, s) && CanWork(job, s, w, k)
    ensures BlameInv(job, AfterWork(job, s, w, k))
  {
    if k.Call? {
      HeldWasTaken(s, w);
    }
  }

  lemma WorkRest(job: Job, s: State, w: nat, k: WorkerStep)
    requires ChannelInv(job, s) && StreamInv(job, s) && ResultInv(s) && ServedInv(job, s) && CanWork(job, s, w, k)
    ensures var s' := AfterWork(job, s, w, k);
            ChannelInv(job, s') && StreamInv(job, s') && ResultInv(s') && ServedInv(job, s')
  {
    assert !AllGone(s);
  }

  lemma WorkInv(job: Job, s: State, w: nat, k: WorkerStep)
    requires Inv(job, s) && CanWork(job, s, w, k)
    ensures Inv(job, AfterWork(job, s, w, k))
  {
    WorkHeld(job, s, w, k);
    WorkValue(job, s, w, k);
    WorkLosses(job, s, w, k);
    WorkBlame(job, s, w, k);
    WorkShared(job, s, w, k);
    WorkRest(job, s, w, k);
  }

  lemma FinishInv(job: Job, s: State, f: FinalStep)
    requires Inv(job, s) && CanFinish(s, f)
    ensures Inv(job, Finished(s, f))
  {
  }

  lemma StepInv(job: Job, s: State, step: Step)
    requires Inv(job, s) && Enabled(job, s, step)
    ensures Inv(job, Apply(job, s, step))
  {
    match step
    case Produce(p) => ProduceInv(job, s, p);
    case Deliver(w) => DeliverInv(job, s, w);
    case Work(w, k) => WorkInv(job, s, w, k);
    case Finish(f) => FinishInv(job, s, f);
  }

  lemma {:induction false} RunInv(job: Job, s: State, steps: seq<Step>)
    requires Inv(job, s) && ValidRun(job, s, steps)
    ensures Inv(job, Exec(job, s, steps))
    decreases |steps|
  {
    if steps != [] {
      StepInv(job, s, steps[0]);
      RunInv(job, Apply(job, s, steps[0]), steps[1..]);
    }
  }

  // --- Which error is reported ------------------------------------------------------

  // The callback returned this error for one of the hits.
  ghost predicate FromHit(job: Job, hits: seq<Hit>, e: string) {
    exists k :: 0 <= k < |hits| && job.callback.Some? && job.callback.value(hits[k].source).err == Some(e)
  }

  ghost predicate Origin(job: Job, hits: seq<Hit>, e: string) {
    job.tail == Some(e) || FromHit(job, hits, e)
  }

  // Until the errgroup knows of an error, whatever is on its way to it is the scroll's error
  // or the callback's for a received hit. Only after that a cancelled context is reported.
  ghost predicate CauseInv(job: Job, s: State) {
    && (s.sharedErr.Some? ==> FromHit(job, s.past.taken, s.sharedErr.value))
    && (s.group.err.Some? ==> Origin(job, s.past.taken, s.group.err.value))
    && (s.group.err.None? ==> forall w :: 0 <= w < |s.workers| && s.workers[w].WExit? && s.workers[w].err.Some? ==>
          Origin(job, s.past.taken, s.workers[w].err.value))
    && (s.group.err.None? && ProducerFailed(s.producer) ==> Origin(job, s.past.taken, s.producer.err.value))
  }

  lemma FromHitGrows(job: Job, hits: seq<Hit>, h: Hit)
    ensures forall e :: FromHit(job, hits, e) ==> FromHit(job, hits + [h], e)
  {
    assert forall k :: 0 <= k < |hits| ==> (hits + [h])[k] == hits[k];
  }

  lemma WorkCause(job: Job, s: State, w: nat, k: WorkerStep)
    requires ChannelInv(job, s) && HeldInv(s) && CauseInv(job, s) && CanWork(job, s, w, k)
    ensures CauseInv(job, AfterWork(job, s, w, k))
  {
    if k.Call? {
      HeldWasTaken(s, w);
      var i :| 0 <= i < |s.past.taken| && s.past.taken[i] == s.workers[w].hit;
    }
  }

  lemma ProduceCause(job: Job, s: State, p: ProducerStep)
    requires ChannelInv(job, s) && CauseInv(job, s) && CanProduce(s, p)
    ensures CauseInv(job, Produced(job, s, p))
  {
    assert !AllGone(s);
  }

  lemma StepCause(job: Job, s: State, step: Step)
    requires ChannelInv(job, s) && HeldInv(s) && CauseInv(job, s) && Enabled(job, s, step)
    ensures CauseInv(job, Apply(job, s, step))
  {
    match step
    case Produce(p) => ProduceCause(job, s, p);
    case Deliver(w) => FromHitGrows(job, s.past.taken, s.producer.hit);
    case Work(w, k) => WorkCause(job, s, w, k);
    case Finish(f) =>
  }

  lemma {:induction false} RunCause(job: Job, s: State, steps: seq<Step>)
    requires Inv(job, s) && CauseInv(job, s) && ValidRun(job, s, steps)
    ensures CauseInv(job, Exec(job, s, steps))
    decreases |steps|
  {
    if steps != [] {
      StepInv(job, s, steps[0]);
      StepCause(job, s, steps[0]);
      RunCause(job, Apply(job, s, steps[0]), steps[1..]);
    }
  }

  // The first error stays: no later state of the run has another one.
  lemma {:induction false} FirstErrorStays(job: Job, s: State, steps: seq<Step>, e: string)
    requires ValidRun(job, s, steps) && s.group.err == Some(e)
    ensures Exec(job, s, steps).group.err == Some(e)
    decreases |steps|
  {
    if steps != [] {
      FirstErrorStays(job, Apply(job, s, steps[0]), steps[1..], e);
    }
  }

  // Safety over every schedule, with or without errors: nothing is sent on or closed
  // twice; `hits` closes before `c`; while the producer runs every scrolled hit is in
  // exactly one place; a returned list comes with a nil error, every scrolled hit is then
  // either collected or dropped, exactly once, and nothing is dropped unless a callback
  // failed; and an error that is returned is the scroll's or one that the callback returned
  // for a hit, never that of the cancelled context.
  lemma Safety(job: Job, steps: seq<Step>)
    requires ValidRun(job, Init(job), steps)
    ensures var s := Exec(job, Init(job), steps);
            && !s.panicked
            && (s.cClosed ==> s.hitsClosed && AllGone(s))
            && (Running(s.producer) ==>
                  multiset(job.Hits()) ==
                  multiset(Unsent(s)) + Held(s.workers) + multiset(s.past.collected) + multiset(s.past.dropped))
            && |s.rets| == |s.past.collected|
            && (forall i :: 0 <= i < |s.rets| ==>
                  s.rets[i] == if job.callback.None? then job.decode(s.past.collected[i])
                               else job.callback.value(s.past.collected[i].source).ret)
            && (s.collector.Returned? && s.collector.result.Listed? ==>
                  && job.tail.None?
                  && s.collector.result.err.None?
                  && s.collector.result.rets == s.rets
                  && multiset(s.past.collected + s.past.dropped) == multiset(job.Hits())
                  && (!job.FailsWithin(job.Hits()) ==>
                        multiset(s.rets) == multiset(MapSeq(job.ValueOf, job.Hits()))))
            && (s.collector.Returned? && s.collector.result.Failed? ==>
                  var cause := s.collector.result.cause;
                  || job.tail == Some(cause)
                  || exists k :: 0 <= k < |job.Hits()| && job.callback.Some?
                                 && job.callback.value(job.Hits()[k].source).err == Some(cause))
  {
    InitInv(job);
    RunInv(job, Init(job), steps);
    RunCause(job, Init(job), steps);
    var s := Exec(job, Init(job), steps);
    if Running(s.producer) {
      StreamConserved(job, s);
    }
    if s.collector.Returned? && s.collector.result.Listed? {
      ListedAccounts(job, s);
      if !job.FailsWithin(job.Hits()) { ListedAll(job, s); }
    }
    if s.collector.Returned? && s.collector.result.Failed? {
      CauseInHits(job, s, s.collector.result.cause);
    }
  }

  lemma CauseInHits(job: Job, s: State, e: string)
    requires StreamInv(job, s) && Origin(job, s.past.taken, e)
    ensures Origin(job, job.Hits(), e)
  {
    if k :| 0 <= k < |s.past.taken| && job.callback.Some? && job.callback.value(s.past.taken[k].source).err == Some(e) {
      assert job.Hits()[k] == s.past.taken[k];
    }
  }

  lemma PrefixFailure(job: Job, s: State)
    requires StreamInv(job, s) && job.FailsWithin(s.past.taken)
    ensures job.FailsWithin(job.Hits())
  {
  }

  lemma StreamConserved(job: Job, s: State)
    requires StreamInv(job, s) && HeldInv(s) && Running(s.producer)
    ensures multiset(job.Hits()) ==
            multiset(Unsent(s)) + Held(s.workers) + multiset(s.past.collected) + multiset(s.past.dropped)
  {
  }

  lemma GoneHoldNothing(s: State)
    requires AllGone(s)
    ensures Held(s.workers) == multiset{} && !ErrorLeaving(s.workers) && !ErrPending(s.workers)
  {
    HeldIdle(s.workers);
  }

  // A returned list: all hits were received, and each was collected or dropped.
  lemma ListedAccounts(job: Job, s: State)
    requires Inv(job, s) && s.collector.Returned? && s.collector.result.Listed?
    ensures job.tail.None? && s.collector.result.err.None? && s.collector.result.rets == s.rets
    ensures s.past.taken == job.Hits() && s.rets == MapSeq(job.ValueOf, s.past.collected)
    ensures multiset(s.past.collected + s.past.dropped) == multiset(job.Hits())
    ensures s.past.dropped != [] ==> job.FailsWithin(job.Hits())
  {
    GoneHoldNothing(s);
  }

  // It is complete exactly when nothing was dropped, so in particular when no callback fails.
  lemma ListedAll(job: Job, s: State)
    requires Inv(job, s) && s.collector.Returned? && s.collector.result.Listed?
    ensures |s.rets| == |job.Hits()| <==> s.past.dropped == []
    ensures s.past.dropped == [] ==> multiset(s.rets) == multiset(MapSeq(job.ValueOf, job.Hits()))
    ensures !job.FailsWithin(job.Hits()) ==> s.past.dropped == []
  {
    ListedAccounts(job, s);
    SameSize(s.past.collected + s.past.dropped, job.Hits());
    if s.past.dropped == [] {
      assert s.past.collected + s.past.dropped == s.past.collected;
      MapSeqPermuted(job.ValueOf, s.past.collected, job.Hits());
    }
  }

  lemma SameSize<T>(xs: seq<T>, ys: seq<T>)
    requires multiset(xs) == multiset(ys)
    ensures |xs| == |ys|
  {
    assert |multiset(xs)| == |xs| && |multiset(ys)| == |ys|;
  }

  // --- Termination and progress ---------------------------------------------------

  function PagesCost(pages: seq<seq<Hit>>): nat {
    if pages == [] then 0 else 2 + 6 * |pages[0]| + PagesCost(pages[1..])
  }

  function ProducerCost(p: Producer): nat {
    match p
    case PScroll => 3
    case PRange(page) => 4 + 6 * |page|
    case PSend(_, page) => 9 + 6 * |page|
    case PReturn(_) => 2
    case PExit(_) => 1
    case PGone => 0
  }

  function WorkerCost(w: Worker): nat {
    match w
    case WRecv => 2
    case WGot(_) => 6
    case WRunning(_) => 5
    case WCalled(_, _) => 4
    case WWrap(_) => 3
    case WSend(_, _) => 3
    case WExit(_) => 1
    case WGone => 0
  }

  function WorkersCost(ws: seq<Worker>): nat {
    if ws == [] then 0 else WorkerCost(ws[0]) + WorkersCost(ws[1..])
  }

  function Measure(s: State): nat {
    PagesCost(s.pages) + ProducerCost(s.producer) + WorkersCost(s.workers)
    + (match s.closer case CWait => 2 case CClose => 1 case CGone => 0)
    + (match s.collector case Ranging => 2 case Waiting => 1 case Returned(_) => 0)
    + (if s.panicked then 0 else 1)
  }

  lemma {:induction false} WorkersCostUpdate(ws: seq<Worker>, w: nat, x: Worker)
    requires w < |ws|
    ensures WorkersCost(ws[w := x]) + WorkerCost(ws[w]) == WorkersCost(ws) + WorkerCost(x)
  {
    if w == 0 {
      assert ws[0 := x][1..] == ws[1..];
    } else {
      var rest := ws[1..];
      assert ws[w := x][1..] == rest[w - 1 := x];
      WorkersCostUpdate(rest, w - 1, x);
    }
  }

  lemma StepDescends(job: Job, s: State, step: Step)
    requires Enabled(job, s, step)
    ensures Measure(Apply(job, s, step)) < Measure(s)
  {
    match step
    case Produce(p) => ProduceDescends(job, s, p);
    case Deliver(w) => WorkersCostUpdate(s.workers, w, WGot(s.producer.hit));
    case Work(w, k) => WorkDescends(job, s, w, k);
    case Finish(f) =>
  }

  lemma ProduceDescends(job: Job, s: State, p: ProducerStep)
    requires CanProduce(s, p) && !s.panicked
    ensures Measure(Produced(job, s, p)) < Measure(s)
  {
  }

  lemma WorkDescends(job: Job, s: State, w: nat, k: WorkerStep)
    requires CanWork(job, s, w, k) && !s.panicked
    ensures Measure(AfterWork(job, s, w, k)) < Measure(s)
  {
    WorkersCostUpdate(s.workers, w, Worked(job, s, w, k));
  }

  // Every schedule is finite: its length is bounded by the number of pages, hits and workers.
  lemma {:induction false} Terminates(job: Job, s: State, steps: seq<Step>)
    requires ValidRun(job, s, steps)
    ensures |steps| + Measure(Exec(job, s, steps)) <= Measure(s)
    decreases |steps|
  {
    if steps != [] {
      StepDescends(job, s, steps[0]);
      Terminates(job, Apply(job, s, steps[0]), steps[1..]);
    }
  }

  predicate Completed(s: State) {
    AllGone(s) && s.closer.CGone? && s.collector.Returned?
  }

  // The deadlock: every worker has left while the producer waits on line 43.
  predicate Stuck(s: State) {
    s.producer.PSend? && forall w :: 0 <= w < |s.workers| ==> s.workers[w].WGone?
  }

  lemma WorkerMoves(job: Job, s: State, w: nat) returns (step: Step)
    requires Inv(job, s) && w < |s.workers| && !s.workers[w].WGone?
    requires s.hitsClosed || s.producer.PSend?
    ensures Enabled(job, s, step)
  {
    step := match s.workers[w]
            case WRecv => if s.hitsClosed then Work(w, RecvClosed) else Deliver(w)
            case WGot(_) =>
              if s.group.cancelled then Work(w, SelectCancelled) else Work(w, SelectDefault)
            case WRunning(_) =>
              if job.callback.None? then Work(w, CallNil) else Work(w, Call)
            case WCalled(_, _) => Work(w, TestErr)
            case WWrap(_) => Work(w, WrapErr)
            case WSend(_, _) => Work(w, Collect)
            case _ => Work(w, WorkerExit);
  }

  lemma ProducerMoves(job: Job, s: State) returns (step: Step)
    requires Inv(job, s) && !s.producer.PGone? && !s.producer.PSend?
    ensures Enabled(job, s, step)
  {
    step := match s.producer
            case PScroll => Produce(if s.pages == [] then ScrollEnd else ScrollPage)
            case PRange(page) =>
              Produce(if page == [] then NextPage else if s.group.cancelled then SelectDone else SelectHit)
            case PReturn(_) => Produce(CloseHits)
            case _ => Produce(ProducerExit);
  }

  lemma Progress(job: Job, s: State) returns (next: Option<Step>)
    requires Inv(job, s)
    ensures next.Some? ==> Enabled(job, s, next.value)
    ensures next.None? ==> Completed(s) || Stuck(s)
  {
    if !s.producer.PGone? && !s.producer.PSend? {
      var step := ProducerMoves(job, s);
      return Some(step);
    }
    if w: nat :| w < |s.workers| && !s.workers[w].WGone? {
      var step := WorkerMoves(job, s, w);
      return Some(step);
    }
    if s.producer.PSend? { return None; }
    next := match s.closer
            case CWait => Some(Finish(GroupWaited))
            case CClose => Some(Finish(CloseC))
            case CGone =>
              match s.collector
              case Ranging => Some(Finish(RangeDone))
              case Waiting => Some(Finish(Return))
              case Returned(_) => None;
  }

  // In a reachable state nothing can run exactly when List has returned and everybody
  // is gone, or the deadlock was reached.
  lemma NothingEnabledIff(job: Job, s: State)
    requires Inv(job, s)
    ensures (forall step :: !Enabled(job, s, step)) <==> Completed(s) || Stuck(s)
  {
    var next := Progress(job, s);
    if next.Some? {
      assert Enabled(job, s, next.value);
      assert !(Completed(s) || Stuck(s)) by {
        match next.value {
          case Produce(p) => case Deliver(w) => case Work(w, k) => case Finish(f) =>
        }
      }
    } else {
      forall step ensures !Enabled(job, s, step) {
        match step {
          case Produce(p) => case Deliver(w) => case Work(w, k) => case Finish(f) =>
        }
      }
    }
  }

  ghost predicate Reaches(job: Job, s: State, t: State) {
    exists steps :: ValidRun(job, s, steps) && Exec(job, s, steps) == t
  }

  lemma ReachesSelf(job: Job, s: State)
    ensures Reaches(job, s, s)
  {
    assert ValidRun(job, s, []) && Exec(job, s, []) == s;
  }

  lemma {:induction false} RunThen(job: Job, s: State, a: seq<Step>, b: seq<Step>)
    requires ValidRun(job, s, a) && ValidRun(job, Exec(job, s, a), b)
    ensures ValidRun(job, s, a + b) && Exec(job, s, a + b) == Exec(job, Exec(job, s, a), b)
    decreases |a|
  {
    if a == [] {
      assert a + b == b;
    } else {
      assert (a + b)[1..] == a[1..] + b;
      RunThen(job, Apply(job, s, a[0]), a[1..], b);
    }
  }

  lemma ReachesThen(job: Job, s: State, t: State, u: State)
    requires Reaches(job, s, t) && Reaches(job, t, u)
    ensures Reaches(job, s, u)
  {
    var a :| ValidRun(job, s, a) && Exec(job, s, a) == t;
    var b :| ValidRun(job, t, b) && Exec(job, t, b) == u;
    RunThen(job, s, a, b);
  }

  lemma ReachesStep(job: Job, s: State, t: State, step: Step)
    requires Reaches(job, s, t) && Enabled(job, t, step)
    ensures Reaches(job, s, Apply(job, t, step))
  {
    var steps := [step];
    assert steps[0] == step && steps[1..] == [];
    assert ValidRun(job, Apply(job, t, step), steps[1..]);
    assert Exec(job, Apply(job, t, step), steps[1..]) == Apply(job, t, step);
    assert ValidRun(job, t, steps) && Exec(job, t, steps) == Apply(job, t, step);
    ReachesThen(job, s, t, Apply(job, t, step));
  }

  lemma ReachesInv(job: Job, s: State, t: State)
    requires Inv(job, s) && Reaches(job, s, t)
    ensures Inv(job, t)
  {
    var a :| ValidRun(job, s, a) && Exec(job, s, a) == t;
    RunInv(job, s, a);
  }

  // Any run can be continued until nothing is enabled.
  lemma RunToEnd(job: Job, s: State) returns (t: State)
    requires Inv(job, s)
    ensures Reaches(job, s, t) && Inv(job, t)
    ensures Completed(t) || Stuck(t)
    decreases Measure(s)
  {
    ReachesSelf(job, s);
    var next := Progress(job, s);
    if next.None? { return s; }
    var s' := Apply(job, s, next.value);
    ReachesStep(job, s, s, next.value);
    StepInv(job, s, next.value);
    StepDescends(job, s, next.value);
    t := RunToEnd(job, s');
    ReachesThen(job, s, s', t);
  }
}
