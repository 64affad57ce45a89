// svc/http/client.go SelectServer: an atomic add followed by a plain store on a counter
// that concurrent callers share.
module RoundRobin {

  const WRAP: nat := 0x1_0000_0000_0000_0000

  // A caller between its two steps holds the index it chose.
  datatype Caller = Idle | Chosen(next: nat)

  datatype State = State(current: nat, callers: seq<Caller>)

  // Add is lines 96-100: the discovered list has n nodes and caller c adds one. Store is
  // line 101 and the return of the chosen node.
  datatype Step = Add(c: nat, n: nat) | Store(c: nat)

  // With an empty list line 100 divides by zero.
  predicate Enabled(s: State, step: Step) {
    match step
    case Add(c, n) => c < |s.callers| && s.callers[c].Idle? && n > 0
    case Store(c) => c < |s.callers| && s.callers[c].Chosen?
  }

  function Apply(s: State, step: Step): State
    requires Enabled(s, step)
  {
    match step
    case Add(c, n) =>
      var added := (s.current + 1) % WRAP;
      State(added, s.callers[c := Chosen(added % n)])
    case Store(c) => State(s.callers[c].next, s.callers[c := Idle])
  }

  function Between(callers: seq<Caller>): nat {
    if callers == [] then 0 else (if callers[0].Chosen? then 1 else 0) + Between(callers[1..])
  }

  lemma {:induction false} BetweenUpdate(callers: seq<Caller>, c: nat, x: Caller)
    requires c < |callers|
    ensures Between(callers[c := x]) ==
            Between(callers) - (if callers[c].Chosen? then 1 else 0) + (if x.Chosen? then 1 else 0)
  {
    if c == 0 {
      assert callers[0 := x][1..] == callers[1..];
    } else {
      assert callers[c := x][1..] == callers[1..][c - 1 := x];
      BetweenUpdate(callers[1..], c - 1, x);
    }
  }

  lemma {:induction false} BetweenBound(callers: seq<Caller>)
    ensures Between(callers) <= |callers|
  {
    if callers != [] { BetweenBound(callers[1..]); }
  }

  // The counter runs ahead of the largest index by at most the callers between their steps.
  predicate Inv(s: State, max: nat) {
    && s.current <= max - 1 + Between(s.callers)
    && forall c :: 0 <= c < |s.callers| && s.callers[c].Chosen? ==> s.callers[c].next < max
  }

  predicate ValidRun(s: State, steps: seq<Step>, max: nat)
    decreases |steps|
  {
    steps == [] ||
    (Enabled(s, steps[0]) && (steps[0].Add? ==> steps[0].n <= max) && ValidRun(Apply(s, steps[0]), steps[1..], max))
  }

  function Exec(s: State, steps: seq<Step>, max: nat): State
    requires ValidRun(s, steps, max)
    decreases |steps|
  {
    if steps == [] then s else Exec(Apply(s, steps[0]), steps[1..], max)
  }

  lemma StepInv(s: State, step: Step, max: nat)
    requires 0 < max && max - 1 + |s.callers| < WRAP
    requires Inv(s, max) && Enabled(s, step) && (step.Add? ==> step.n <= max)
    ensures Inv(Apply(s, step), max) && |Apply(s, step).callers| == |s.callers|
    ensures step.Add? ==> Apply(s, step).current == s.current + 1
    ensures step.Add? ==> Apply(s, step).callers[step.c].next < step.n
  {
    var s' := Apply(s, step);
    BetweenUpdate(s.callers, step.c, s'.callers[step.c]);
    BetweenBound(s'.callers);
  }

  // Any number of callers, any interleaving, non-empty lists of changing length up to max:
  // every chosen index is in range of the list it was chosen from, and the counter never
  // wraps while max plus the callers stays below 2^64.
  lemma {:induction false} RunInv(s: State, steps: seq<Step>, max: nat)
    requires 0 < max && max - 1 + |s.callers| < WRAP
    requires Inv(s, max) && ValidRun(s, steps, max)
    ensures Inv(Exec(s, steps, max), max)
    ensures Exec(s, steps, max).current < WRAP
    decreases |steps|
  {
    if steps != [] {
      StepInv(s, steps[0], max);
      RunInv(Apply(s, steps[0]), steps[1..], max);
    } else {
      BetweenBound(s.callers);
    }
  }

  // --- One caller at a time ----------------------------------------------------------------

  // The provider's counter; every call finds n nodes.
  class Provider {
    var current: nat

    constructor (current: nat)
      ensures this.current == current
    {
      this.current := current;
    }

    method SelectServer(n: nat) returns (next: nat)
      requires n > 0
      modifies this
      ensures next == Next(old(current), n) && current == next
      ensures old(current) + 1 < 0x1_0000_0000_0000_0000 ==> next == (old(current) + 1) % n
    {
      current := (current + 1) % WRAP;
      next := current % n;
      current := next;
    }

    // Several selections in a row.
    method SelectMany(n: nat, count: nat) returns (chosen: seq<nat>)
      requires n > 0
      modifies this
      ensures chosen == Selections(old(current), n, count)
      ensures n < WRAP ==> Balanced(chosen, n)
    {
      chosen := [];
      ghost var start := current;
      for i := 0 to count
        invariant chosen + Selections(current, n, count - i) == Selections(start, n, count)
      {
        ghost var before := current;
        var next := SelectServer(n);
        assert Selections(before, n, count - i) == [next] + Selections(next, n, count - i - 1);
        chosen := chosen + [next];
      }
      if n < WRAP { SelectionsBalanced(start, n, count); }
    }
  }

  function Next(current: nat, n: nat): (next: nat)
    requires n > 0
    ensures next < n
  {
    (current + 1) % WRAP % n
  }

  function Selections(current: nat, n: nat, count: nat): (chosen: seq<nat>)
    requires n > 0
    ensures |chosen| == count && forall i :: 0 <= i < count ==> chosen[i] < n
    decreases count
  {
    if count == 0 then [] else [Next(current, n)] + Selections(Next(current, n), n, count - 1)
  }

  function Count(chosen: seq<nat>, node: nat): nat {
    if chosen == [] then 0 else (if chosen[0] == node then 1 else 0) + Count(chosen[1..], node)
  }

  lemma {:induction false} CountConcat(a: seq<nat>, b: seq<nat>, node: nat)
    ensures Count(a + b, node) == Count(a, node) + Count(b, node)
    decreases |a|
  {
    if a == [] {
      assert a + b == b;
    } else {
      assert (a + b)[1..] == a[1..] + b;
      CountConcat(a[1..], b, node);
    }
  }

  function UpFrom(from: nat, count: nat): (s: seq<nat>)
    ensures |s| == count && forall i :: 0 <= i < count ==> s[i] == from + i
    decreases count
  {
    if count == 0 then [] else [from] + UpFrom(from + 1, count - 1)
  }

  lemma NextBelow(current: nat, n: nat)
    requires current < n < WRAP
    ensures Next(current, n) == if current == n - 1 then 0 else current + 1
  {
    var added := current + 1;
    assert added % WRAP == added;
    if added == n { SelfMod(n); } else { SmallMod(added, n); }
  }

  lemma SmallMod(a: nat, n: nat)
    requires a < n
    ensures a % n == a
  {
  }

  lemma SelfMod(n: nat)
    requires n > 0
    ensures n % n == 0
  {
  }

  // From a counter below n, the selections go up to n - 1 and start again at 0.
  lemma {:induction false} Upward(current: nat, n: nat, count: nat)
    requires 0 < n < WRAP && current + count < n
    ensures Selections(current, n, count) == UpFrom(current + 1, count)
    decreases count
  {
    if count > 0 {
      NextBelow(current, n);
      Upward(current + 1, n, count - 1);
    }
  }

  lemma {:induction false} CountRange(from: nat, count: nat, node: nat)
    ensures Count(UpFrom(from, count), node) == if from <= node < from + count then 1 else 0
    decreases count
  {
    if count > 0 {
      CountRange(from + 1, count - 1, node);
    }
  }

  function LastOf(current: nat, n: nat, count: nat): nat
    requires n > 0
  {
    if count == 0 then current else Selections(current, n, count)[count - 1]
  }

  lemma {:induction false} SelectionsConcat(current: nat, n: nat, a: nat, b: nat)
    requires n > 0
    ensures Selections(current, n, a + b) == Selections(current, n, a) + Selections(LastOf(current, n, a), n, b)
    decreases a
  {
    if a > 0 {
      var next := Next(current, n);
      SelectionsConcat(next, n, a - 1, b);
      assert LastOf(next, n, a - 1) == LastOf(current, n, a);
    }
  }

  // n selections in a row choose every node once, from any counter value.
  lemma OneRound(current: nat, n: nat, node: nat)
    requires node < n < WRAP
    ensures Count(Selections(current, n, n), node) == 1
  {
    var r := Next(current, n);
    RestOfRound(n, r, node);
    assert Selections(current, n, n) == [r] + Selections(r, n, n - 1);
    assert Selections(current, n, n)[1..] == Selections(r, n, n - 1);
  }

  // After node r come the nodes above it and then those below.
  lemma RestOfRound(n: nat, r: nat, node: nat)
    requires r < n < WRAP && node < n
    ensures Count(Selections(r, n, n - 1), node) == if node == r then 0 else 1
  {
    var up := n - 1 - r;
    SelectionsConcat(r, n, up, r);
    ToTheTop(n, r, node);
    CountConcat(Selections(r, n, up), Selections(n - 1, n, r), node);
    FromTheTop(n, r, node);
  }

  lemma ToTheTop(n: nat, r: nat, node: nat)
    requires r < n < WRAP && node < n
    ensures Count(Selections(r, n, n - 1 - r), node) == if node > r then 1 else 0
    ensures LastOf(r, n, n - 1 - r) == n - 1
  {
    Upward(r, n, n - 1 - r);
    CountRange(r + 1, n - 1 - r, node);
  }

  lemma FromTheTop(n: nat, r: nat, node: nat)
    requires r < n < WRAP
    ensures Count(Selections(n - 1, n, r), node) == if node < r then 1 else 0
  {
    if r > 0 {
      FromTheTopUp(n, r);
      CountRange(0, r, node);
    }
  }

  lemma FromTheTopUp(n: nat, r: nat)
    requires 0 < r < n < WRAP
    ensures Selections(n - 1, n, r) == UpFrom(0, r)
  {
    NextBelow(n - 1, n);
    Upward(0, n, r - 1);
  }

  // Fairness: with n unchanging nodes and one caller at a time, any k * n consecutive
  // selections choose each node exactly k times, from any counter value.
  lemma {:induction false} Fair(current: nat, n: nat, k: nat, node: nat)
    requires node < n < WRAP
    ensures Count(Selections(current, n, k * n), node) == k
    decreases k
  {
    if k > 0 {
      OneMore(k, n);
      AfterOneRound(current, n, (k - 1) * n, node);
      Fair(LastOf(current, n, n), n, k - 1, node);
    }
  }

  lemma OneMore(k: nat, n: nat)
    requires k > 0
    ensures (k - 1) * n >= 0 && k * n == n + (k - 1) * n
  {
  }

  lemma AfterOneRound(current: nat, n: nat, rest: nat, node: nat)
    requires node < n < WRAP
    ensures Count(Selections(current, n, n + rest), node) == 1 + Count(Selections(LastOf(current, n, n), n, rest), node)
  {
    SelectionsConcat(current, n, n, rest);
    OneRound(current, n, node);
    CountConcat(Selections(current, n, n), Selections(LastOf(current, n, n), n, rest), node);
  }

  // --- Fairness under concurrency ----------------------------------------------------------

  // Every caller finds the same n nodes.
  predicate SameList(steps: seq<Step>, n: nat) {
    forall i :: 0 <= i < |steps| && steps[i].Add? ==> steps[i].n == n
  }

  predicate AllIdle(callers: seq<Caller>) {
    forall c :: 0 <= c < |callers| ==> callers[c].Idle?
  }

  function IdleCallers(m: nat): (callers: seq<Caller>)
    ensures |callers| == m && AllIdle(callers)
  {
    seq(m, i => Idle)
  }

  // The indexes chosen in a run, in the order of the additions.
  function ChosenIn(s: State, steps: seq<Step>, n: nat): seq<nat>
    requires ValidRun(s, steps, n)
    decreases |steps|
  {
    if steps == [] then []
    else
      var s' := Apply(s, steps[0]);
      (if steps[0].Add? then [s'.callers[steps[0].c].next] else []) + ChosenIn(s', steps[1..], n)
  }

  // A run of m callers on n nodes in which every selection is completed.
  predicate CompleteRun(current: nat, m: nat, n: nat, steps: seq<Step>) {
    var s := State(current, IdleCallers(m));
    ValidRun(s, steps, n) && SameList(steps, n) && AllIdle(Exec(s, steps, n).callers)
  }

  predicate WindowBalanced(chosen: seq<nat>, n: nat, i: nat, k: nat, node: nat)
    requires i + k * n <= |chosen|
  {
    Count(chosen[i..i + k * n], node) == k
  }

  // Any k * n consecutive selections choose each of the n nodes k times.
  ghost predicate Balanced(chosen: seq<nat>, n: nat) {
    forall i: nat, k: nat, node: nat :: i + k * n <= |chosen| && node < n ==> WindowBalanced(chosen, n, i, k, node)
  }

  ghost predicate AlwaysBalanced(m: nat, n: nat) {
    forall current: nat, steps :: CompleteRun(current, m, n, steps) ==>
      Balanced(ChosenIn(State(current, IdleCallers(m)), steps, n), n)
  }

  // One caller alone makes the selections of the sequential method.
  lemma {:induction false} AloneSelects(s: State, steps: seq<Step>, n: nat)
    requires n > 0 && ValidRun(s, steps, n) && SameList(steps, n)
    requires |s.callers| <= 1
    ensures var from := if s.callers != [] && s.callers[0].Chosen? then s.callers[0].next else s.current;
            var chosen := ChosenIn(s, steps, n);
            chosen == Selections(from, n, |chosen|)
    decreases |steps|
  {
    if steps != [] {
      assert forall i :: 0 <= i < |steps[1..]| ==> steps[1..][i] == steps[i + 1];
      AloneSelects(Apply(s, steps[0]), steps[1..], n);
    }
  }

  lemma {:induction false} PrefixOfSelections(current: nat, n: nat, a: nat, b: nat)
    requires n > 0
    ensures Selections(current, n, a + b)[..a] == Selections(current, n, a)
    ensures Selections(current, n, a + b)[a..] == Selections(LastOf(current, n, a), n, b)
  {
    SelectionsConcat(current, n, a, b);
  }

  lemma SelectionsBalanced(current: nat, n: nat, count: nat)
    requires 0 < n < WRAP
    ensures Balanced(Selections(current, n, count), n)
  {
    var chosen := Selections(current, n, count);
    forall i: nat, k: nat, node: nat | i + k * n <= |chosen| && node < n
      ensures WindowBalanced(chosen, n, i, k, node)
    {
      WindowFair(current, n, count, i, k, node);
    }
  }

  lemma WindowFair(current: nat, n: nat, count: nat, i: nat, k: nat, node: nat)
    requires node < n < WRAP && i + k * n <= count
    ensures Count(Selections(current, n, count)[i..i + k * n], node) == k
  {
    var size := k * n;
    var chosen := Selections(current, n, count);
    PrefixOfSelections(current, n, i, count - i);
    PrefixOfSelections(LastOf(current, n, i), n, size, count - i - size);
    assert chosen[i..i + size] == chosen[i..][..size];
    Fair(LastOf(current, n, i), n, k, node);
  }

  lemma {:induction false} OnlyNodeZero(s: State, steps: seq<Step>)
    requires ValidRun(s, steps, 1)
    ensures forall i :: 0 <= i < |ChosenIn(s, steps, 1)| ==> ChosenIn(s, steps, 1)[i] == 0
    decreases |steps|
  {
    if steps != [] { OnlyNodeZero(Apply(s, steps[0]), steps[1..]); }
  }

  lemma {:induction false} CountZeros(chosen: seq<nat>)
    requires forall i :: 0 <= i < |chosen| ==> chosen[i] == 0
    ensures Count(chosen, 0) == |chosen|
  {
    if chosen != [] { CountZeros(chosen[1..]); }
  }

  // --- The unfair schedule -----------------------------------------------------------------

  // Caller 0 makes `count` selections, one after the other.
  function Alone(n: nat, count: nat): seq<Step> {
    if count == 0 then [] else [Add(0, n), Store(0)] + Alone(n, count - 1)
  }

  lemma {:induction false} AloneRuns(s: State, n: nat, count: nat)
    requires n > 0 && s.callers != [] && AllIdle(s.callers)
    ensures SameList(Alone(n, count), n) && ValidRun(s, Alone(n, count), n)
    ensures AllIdle(Exec(s, Alone(n, count), n).callers)
    ensures ChosenIn(s, Alone(n, count), n) == Selections(s.current, n, count)
    decreases count
  {
    if count > 0 {
      var steps, rest := Alone(n, count), Alone(n, count - 1);
      var s1 := Apply(s, Add(0, n));
      var s2 := Apply(s1, Store(0));
      assert s2 == State(Next(s.current, n), s.callers);
      AloneRuns(s2, n, count - 1);
      assert steps[1..] == [Store(0)] + rest && steps[1..][1..] == rest;
      assert ValidRun(s1, steps[1..], n) && ChosenIn(s1, steps[1..], n) == ChosenIn(s2, rest, n);
    }
  }

  // Two overlapping selections, stored in the wrong order, then caller 0 alone.
  function Overlapping(n: nat): seq<Step>
    requires n > 0
  {
    [Add(0, n), Add(1, n), Store(1), Store(0)] + Alone(n, n - 1)
  }

  // What a step contributes to a run and to its choices.
  lemma StepFirst(s: State, step: Step, rest: seq<Step>, n: nat)
    requires Enabled(s, step) && (step.Add? ==> step.n == n) && ValidRun(Apply(s, step), rest, n) && SameList(rest, n)
    ensures ValidRun(s, [step] + rest, n) && SameList([step] + rest, n)
    ensures Exec(s, [step] + rest, n) == Exec(Apply(s, step), rest, n)
    ensures ChosenIn(s, [step] + rest, n)
         == (if step.Add? then [Apply(s, step).callers[step.c].next] else []) + ChosenIn(Apply(s, step), rest, n)
  {
    assert ([step] + rest)[1..] == rest;
  }

  lemma OverlappingRuns(m: nat, n: nat)
    requires 2 <= n < WRAP && 2 <= m
    ensures CompleteRun(0, m, n, Overlapping(n))
    ensures ChosenIn(State(0, IdleCallers(m)), Overlapping(n), n) == [1, 2 % n] + Selections(1, n, n - 1)
  {
    var idle, rest := IdleCallers(m), Alone(n, n - 1);
    var s0 := State(0, idle);
    var s1, s2 := State(1, idle[0 := Chosen(1)]), State(2, idle[0 := Chosen(1)][1 := Chosen(2 % n)]);
    var s3, s4 := State(2 % n, idle[0 := Chosen(1)]), State(1, idle);
    SmallMod(1, n);
    assert Apply(s0, Add(0, n)) == s1 && Apply(s1, Add(1, n)) == s2;
    assert Apply(s2, Store(1)) == s3 && Apply(s3, Store(0)) == s4;
    AloneRuns(s4, n, n - 1);
    StepFirst(s3, Store(0), rest, n);
    StepFirst(s2, Store(1), [Store(0)] + rest, n);
    StepFirst(s1, Add(1, n), [Store(1)] + ([Store(0)] + rest), n);
    StepFirst(s0, Add(0, n), [Add(1, n)] + ([Store(1)] + ([Store(0)] + rest)), n);
    assert Overlapping(n) == [Add(0, n)] + ([Add(1, n)] + ([Store(1)] + ([Store(0)] + rest)));
  }

  // Node 2 (or 0 of two) is chosen twice in a row, so the n selections from there on leave
  // some node out.
  lemma OverlappingUnfair(m: nat, n: nat)
    requires 2 <= n < WRAP && 2 <= m
    ensures !AlwaysBalanced(m, n)
  {
    OverlappingRuns(m, n);
    var chosen := ChosenIn(State(0, IdleCallers(m)), Overlapping(n), n);
    var twice := 2 % n;
    assert Selections(1, n, n - 1)[0] == Next(1, n) == twice;
    assert chosen[1] == twice && chosen[2] == twice;
    TwiceCounted(chosen[1..1 + 1 * n], twice);
    assert !WindowBalanced(chosen, n, 1, 1, twice);
  }

  lemma TwiceCounted(chosen: seq<nat>, node: nat)
    requires |chosen| >= 2 && chosen[0] == chosen[1] == node
    ensures Count(chosen, node) >= 2
  {
    assert Count(chosen[1..], node) >= 1;
  }

  // The exact condition: selections are fair in every interleaving if and only if there is
  // at most one caller or at most one node.
  lemma FairIff(m: nat, n: nat)
    requires 0 < n < WRAP
    ensures AlwaysBalanced(m, n) <==> m <= 1 || n <= 1
  {
    if m <= 1 || n <= 1 {
      forall current: nat, steps | CompleteRun(current, m, n, steps)
        ensures Balanced(ChosenIn(State(current, IdleCallers(m)), steps, n), n)
      {
        var s := State(current, IdleCallers(m));
        if m <= 1 {
          AloneSelects(s, steps, n);
          SelectionsBalanced(s.current, n, |ChosenIn(s, steps, n)|);
        } else {
          OneNodeBalanced(s, steps);
        }
      }
    } else {
      OverlappingUnfair(m, n);
    }
  }

  lemma OneNodeBalanced(s: State, steps: seq<Step>)
    requires ValidRun(s, steps, 1)
    ensures Balanced(ChosenIn(s, steps, 1), 1)
  {
    OnlyNodeZero(s, steps);
    var chosen := ChosenIn(s, steps, 1);
    forall i: nat, k: nat, node: nat | i + k * 1 <= |chosen| && node < 1
      ensures WindowBalanced(chosen, 1, i, k, node)
    {
      CountZeros(chosen[i..i + k * 1]);
    }
  }
}
