// Small shared vocabulary: optional values and sequences mapped element by element.
module Prelude {

  datatype Option<+T> = None | Some(value: T)

  function MapSeq<A, B>(f: A -> B, xs: seq<A>): (ys: seq<B>)
    ensures |ys| == |xs|
    ensures forall i :: 0 <= i < |xs| ==> ys[i] == f(xs[i])
  {
    if xs == [] then [] else [f(xs[0])] + MapSeq(f, xs[1..])
  }

  function Flatten<T>(xss: seq<seq<T>>): seq<T> {
    if xss == [] then [] else xss[0] + Flatten(xss[1..])
  }

  lemma MapSeqConcat<A, B>(f: A -> B, xs: seq<A>, ys: seq<A>)
    ensures MapSeq(f, xs + ys) == MapSeq(f, xs) + MapSeq(f, ys)
  {
  }

  lemma MapSeqSnoc<A, B>(f: A -> B, xs: seq<A>, x: A)
    ensures MapSeq(f, xs + [x]) == MapSeq(f, xs) + [f(x)]
  {
  }

  lemma SplitAt<A>(xs: seq<A>, k: nat)
    requires k < |xs|
    ensures xs == xs[..k] + [xs[k]] + xs[k + 1..]
  {
  }

  lemma RemoveAt<A>(xs: seq<A>, k: nat)
    requires k < |xs|
    ensures multiset(xs) == multiset(xs[..k] + xs[k + 1..]) + multiset{xs[k]}
  {
    assert xs == xs[..k] + ([xs[k]] + xs[k + 1..]);
  }

  lemma Cancel<T>(a: multiset<T>, b: multiset<T>, c: multiset<T>)
    requires a + c == b + c
    ensures a == b
  {
    forall x ensures a[x] == b[x] {
      assert (a + c)[x] == (b + c)[x];
    }
  }

  // Mapping two permutations of the same elements gives permutations of the same results.
  lemma {:induction false} MapSeqPermuted<A, B>(f: A -> B, xs: seq<A>, ys: seq<A>)
    requires multiset(xs) == multiset(ys)
    ensures multiset(MapSeq(f, xs)) == multiset(MapSeq(f, ys))
  {
    if xs == [] {
      assert |multiset(ys)| == 0;
    } else {
      assert xs[0] in multiset(ys);
      var k :| 0 <= k < |ys| && ys[k] == xs[0];
      var rest := ys[..k] + ys[k + 1..];
      RemoveAt(xs, 0);
      RemoveAt(ys, k);
      assert xs[..0] + xs[1..] == xs[1..];
      Cancel(multiset(xs[1..]), multiset(rest), multiset{xs[0]});
      MapSeqPermuted(f, xs[1..], rest);
      MappedRemoveAt(f, xs, 0);
      MappedRemoveAt(f, ys, k);
    }
  }

  lemma MappedBetween<A, B>(f: A -> B, xs: seq<A>, y: A, zs: seq<A>)
    ensures multiset(MapSeq(f, xs + [y] + zs)) == multiset(MapSeq(f, xs + zs)) + multiset{f(y)}
  {
    MapSeqConcat(f, xs + [y], zs);
    MapSeqSnoc(f, xs, y);
    MapSeqConcat(f, xs, zs);
  }

  lemma MappedRemoveAt<A, B>(f: A -> B, ys: seq<A>, k: nat)
    requires k < |ys|
    ensures multiset(MapSeq(f, ys)) == multiset(MapSeq(f, ys[..k] + ys[k + 1..])) + multiset{f(ys[k])}
  {
    SplitAt(ys, k);
    MappedBetween(f, ys[..k], ys[k], ys[k + 1..]);
  }

  // --- Filtering ------------------------------------------------------------------------

  function Filter<T(!new)>(p: T -> bool, xs: seq<T>): (ys: seq<T>)
    ensures forall x :: x in ys <==> x in xs && p(x)
    ensures |ys| <= |xs|
  {
    if xs == [] then []
    else if p(xs[0]) then [xs[0]] + Filter(p, xs[1..]) else Filter(p, xs[1..])
  }

  lemma {:induction false} FilterConcat<T(!new)>(p: T -> bool, xs: seq<T>, ys: seq<T>)
    ensures Filter(p, xs + ys) == Filter(p, xs) + Filter(p, ys)
    decreases |xs|
  {
    if xs == [] {
      assert xs + ys == ys;
    } else {
      assert (xs + ys)[1..] == xs[1..] + ys;
      FilterConcat(p, xs[1..], ys);
    }
  }

  lemma FilterSnoc<T(!new)>(p: T -> bool, xs: seq<T>, x: T)
    ensures Filter(p, xs + [x]) == if p(x) then Filter(p, xs) + [x] else Filter(p, xs)
  {
    FilterConcat(p, xs, [x]);
    assert [x][1..] == [];
    assert Filter(p, [x]) == if p(x) then [x] else [];
  }

  // Elements at two places of a sequence are both kept, and kept apart.
  lemma {:induction false} FilterTwo<T(!new)>(p: T -> bool, xs: seq<T>, i: nat, j: nat)
    requires i < j < |xs| && p(xs[i]) && p(xs[j])
    ensures |Filter(p, xs)| >= 2
  {
    if i == 0 {
      assert xs[1..][j - 1] == xs[j];
      assert xs[j] in Filter(p, xs[1..]);
    } else {
      FilterTwo(p, xs[1..], i - 1, j - 1);
    }
  }

  lemma {:induction false} FilterCount<T(!new)>(p: T -> bool, xs: seq<T>, x: T)
    ensures multiset(Filter(p, xs))[x] == if p(x) then multiset(xs)[x] else 0
  {
    if xs != [] {
      FilterCount(p, xs[1..], x);
      assert xs == [xs[0]] + xs[1..];
    }
  }

  lemma {:induction false} TwoFiltered<T(!new)>(p: T -> bool, xs: seq<T>) returns (i: nat, j: nat)
    requires |Filter(p, xs)| >= 2
    ensures i < j < |xs| && p(xs[i]) && p(xs[j])
  {
    if p(xs[0]) && |Filter(p, xs[1..])| == 1 {
      var x := Filter(p, xs[1..])[0];
      assert x in Filter(p, xs[1..]);
      var k :| 0 <= k < |xs[1..]| && xs[1..][k] == x;
      i, j := 0, k + 1;
    } else {
      i, j := TwoFiltered(p, xs[1..]);
      i, j := i + 1, j + 1;
    }
  }
}
