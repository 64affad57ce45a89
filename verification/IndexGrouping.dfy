// The index half of NewTableFromStruct: items grouped by index name and sorted by Order.
module IndexGrouping {
  import opened Prelude

  datatype Part = Part(column: string, order: int, sort: string)
  datatype Index = Index(unique: bool, name: string, items: seq<Part>)

  // One field's claim to belong to the index `name`.
  datatype Entry = Entry(name: string, part: Part)

  function OrderIs(order: int): Part -> bool { (p: Part) => p.order == order }

  function WithOrder(parts: seq<Part>, order: int): seq<Part> { Filter(OrderIs(order), parts) }

  // The parts of one index, in field order.
  function PartsOf(entries: seq<Entry>, name: string): (parts: seq<Part>)
    ensures forall x :: x in parts <==> exists i :: 0 <= i < |entries| && entries[i] == Entry(name, x)
  {
    if entries == [] then []
    else
      var e, before := entries[|entries| - 1], PartsOf(entries[..|entries| - 1], name);
      if e.name == name then before + [e.part] else before
  }

  function NamesOf(entries: seq<Entry>): set<string> { set i | 0 <= i < |entries| :: entries[i].name }

  // --- sort.Stable ----------------------------------------------------------------------

  predicate Ascending(parts: seq<Part>) {
    forall i, j :: 0 <= i < j < |parts| ==> parts[i].order <= parts[j].order
  }

  // The contract of sort.Stable under IndexItems.Less.
  ghost predicate IsStableSort(parts: seq<Part>, sorted: seq<Part>) {
    Ascending(sorted) && forall order :: WithOrder(sorted, order) == WithOrder(parts, order)
  }

  // Insertion behind everything that is not greater.
  function Insert(sorted: seq<Part>, p: Part): seq<Part> {
    if sorted == [] || sorted[|sorted| - 1].order <= p.order then sorted + [p]
    else Insert(sorted[..|sorted| - 1], p) + [sorted[|sorted| - 1]]
  }

  function Sorted(parts: seq<Part>): seq<Part> {
    if parts == [] then [] else Insert(Sorted(parts[..|parts| - 1]), parts[|parts| - 1])
  }

  lemma {:induction false} InsertIs(sorted: seq<Part>, p: Part)
    requires Ascending(sorted)
    ensures Ascending(Insert(sorted, p))
    ensures forall x :: x in Insert(sorted, p) <==> x in sorted || x == p
    ensures forall order :: WithOrder(Insert(sorted, p), order) == WithOrder(sorted + [p], order)
    decreases |sorted|
  {
    if sorted != [] && sorted[|sorted| - 1].order > p.order {
      var front, last := sorted[..|sorted| - 1], sorted[|sorted| - 1];
      assert sorted == front + [last];
      InsertIs(front, p);
      var middle := Insert(front, p);
      forall i | 0 <= i < |middle| ensures middle[i].order <= last.order {
        assert middle[i] in middle;
      }
      forall order ensures WithOrder(Insert(sorted, p), order) == WithOrder(sorted + [p], order) {
        var f := OrderIs(order);
        FilterSnoc(f, Insert(front, p), last);
        FilterSnoc(f, front, p);
        FilterSnoc(f, front, last);
        FilterSnoc(f, sorted, p);
        assert WithOrder(Insert(front, p), order) == WithOrder(front + [p], order);
      }
    }
  }

  lemma {:induction false} SortedIs(parts: seq<Part>)
    ensures IsStableSort(parts, Sorted(parts))
    ensures forall x :: x in Sorted(parts) <==> x in parts
  {
    if parts != [] {
      var front, last := parts[..|parts| - 1], parts[|parts| - 1];
      assert parts == front + [last];
      SortedIs(front);
      InsertIs(Sorted(front), last);
      forall order ensures WithOrder(Sorted(parts), order) == WithOrder(parts, order) {
        FilterSnoc(OrderIs(order), Sorted(front), last);
        FilterSnoc(OrderIs(order), front, last);
        assert WithOrder(Sorted(front), order) == WithOrder(front, order);
      }
    }
  }

  lemma FirstIsLeast(xs: seq<Part>, ys: seq<Part>)
    requires Ascending(xs) && xs != [] && ys != []
    requires forall order :: WithOrder(xs, order) == WithOrder(ys, order)
    ensures xs[0].order <= ys[0].order
  {
    var o := ys[0].order;
    assert ys[0] in WithOrder(ys, o);
    assert WithOrder(xs, o) == WithOrder(ys, o);
    assert ys[0] in xs;
  }

  lemma HeadHasOrder(xs: seq<Part>)
    requires xs != []
    ensures xs[0] in WithOrder(xs, xs[0].order)
  {
  }

  // The contract leaves sort.Stable no choice: sorted and stable determine the result.
  lemma {:induction false} StableSortUnique(xs: seq<Part>, ys: seq<Part>)
    requires Ascending(xs) && Ascending(ys)
    requires forall order :: WithOrder(xs, order) == WithOrder(ys, order)
    ensures xs == ys
    decreases |xs|
  {
    if xs == [] {
      if ys != [] { HeadHasOrder(ys); }
    } else {
      assert xs[0] in WithOrder(xs, xs[0].order) && WithOrder(ys, xs[0].order) == WithOrder(xs, xs[0].order);
      FirstIsLeast(xs, ys);
      FirstIsLeast(ys, xs);
      var least := xs[0].order;
      assert WithOrder(xs, least)[0] == xs[0] && WithOrder(ys, least)[0] == ys[0];
      forall order ensures WithOrder(xs[1..], order) == WithOrder(ys[1..], order) {
        assert WithOrder(xs, order) == WithOrder(ys, order);
        if order == least {
          assert WithOrder(xs, order)[1..] == WithOrder(xs[1..], order);
          assert WithOrder(ys, order)[1..] == WithOrder(ys[1..], order);
        }
      }
      StableSortUnique(xs[1..], ys[1..]);
      assert xs == [xs[0]] + xs[1..] && ys == [ys[0]] + ys[1..];
    }
  }

  // --- Grouping -------------------------------------------------------------------------

  lemma {:induction false} PartsOfNobody(entries: seq<Entry>, name: string)
    requires name !in NamesOf(entries)
    ensures PartsOf(entries, name) == []
  {
    if entries != [] {
      var front := entries[..|entries| - 1];
      assert entries[|entries| - 1].name in NamesOf(entries);
      assert forall i :: 0 <= i < |front| ==> entries[i].name in NamesOf(entries);
      PartsOfNobody(front, name);
    }
  }

  function Named(name: string): Entry -> bool { (e: Entry) => e.name == name }

  // The parts of an index keep the order of the entries.
  lemma {:induction false} PartsInOrder(entries: seq<Entry>, name: string)
    ensures PartsOf(entries, name) == MapSeq((e: Entry) => e.part, Filter(Named(name), entries))
  {
    if entries != [] {
      var front, e := entries[..|entries| - 1], entries[|entries| - 1];
      PartsInOrder(front, name);
      assert entries == front + [e];
      FilterSnoc(Named(name), front, e);
      if e.name == name { MapSeqSnoc((x: Entry) => x.part, Filter(Named(name), front), e); }
    }
  }

  lemma NamesOfSnoc(entries: seq<Entry>, e: Entry)
    ensures NamesOf(entries + [e]) == NamesOf(entries) + {e.name}
  {
    var all := entries + [e];
    assert all[|entries|] == e;
    assert forall i :: 0 <= i < |entries| ==> all[i] == entries[i];
  }

  ghost predicate Grouped(groups: map<string, seq<Part>>, entries: seq<Entry>) {
    groups.Keys == NamesOf(entries) && forall name :: name in groups ==> groups[name] == PartsOf(entries, name)
  }

  lemma GroupedMore(groups: map<string, seq<Part>>, entries: seq<Entry>, e: Entry)
    requires Grouped(groups, entries)
    ensures Grouped(groups[e.name := if e.name in groups then groups[e.name] + [e.part] else [e.part]], entries + [e])
  {
    NamesOfSnoc(entries, e);
    if e.name !in groups { PartsOfNobody(entries, e.name); }
    forall name ensures PartsOf(entries + [e], name) ==
      (if e.name == name then PartsOf(entries, name) + [e.part] else PartsOf(entries, name))
    {
    }
  }

  // Lines 369-385: the map from index names to the items of the fields that name them.
  method Group(entries: seq<Entry>) returns (groups: map<string, seq<Part>>)
    ensures Grouped(groups, entries)
  {
    groups := map[];
    for n := 0 to |entries|
      invariant Grouped(groups, entries[..n])
    {
      var e := entries[n];
      assert entries[..n + 1] == entries[..n] + [e];
      GroupedMore(groups, entries[..n], e);
      if e.name in groups {
        groups := groups[e.name := groups[e.name] + [e.part]];
      } else {
        groups := groups[e.name := [e.part]];
      }
    }
    assert entries[..|entries|] == entries;
  }

  // One index for each of the names, holding exactly its parts, by Order and then in
  // field order.
  ghost predicate DescribesSome(indexes: seq<Index>, entries: seq<Entry>, unique: bool, names: set<string>) {
    && (forall i, j :: 0 <= i < j < |indexes| ==> indexes[i].name != indexes[j].name)
    && (forall i :: 0 <= i < |indexes| ==> indexes[i].name in names)
    && (forall name :: name in names ==> exists i :: 0 <= i < |indexes| && indexes[i].name == name)
    && (forall i :: 0 <= i < |indexes| ==>
          indexes[i].unique == unique && indexes[i].items == Sorted(PartsOf(entries, indexes[i].name)))
  }

  // What the result must be, whatever the order in which the map is visited.
  ghost predicate Describes(indexes: seq<Index>, entries: seq<Entry>, unique: bool) {
    DescribesSome(indexes, entries, unique, NamesOf(entries))
  }

  lemma DescribesMore(indexes: seq<Index>, entries: seq<Entry>, unique: bool, names: set<string>, name: string)
    requires DescribesSome(indexes, entries, unique, names) && name !in names
    ensures DescribesSome(indexes + [Index(unique, name, Sorted(PartsOf(entries, name)))], entries, unique, names + {name})
  {
    var more := indexes + [Index(unique, name, Sorted(PartsOf(entries, name)))];
    assert more[|indexes|].name == name;
    forall n | n in names ensures exists i :: 0 <= i < |more| && more[i].name == n {
      var i :| 0 <= i < |indexes| && indexes[i].name == n;
      assert more[i].name == n;
    }
  }

  // Lines 389-406.
  method Collect(groups: map<string, seq<Part>>, unique: bool, ghost entries: seq<Entry>) returns (indexes: seq<Index>)
    requires Grouped(groups, entries)
    ensures Describes(indexes, entries, unique)
  {
    indexes := [];
    var todo := groups.Keys;
    while todo != {}
      invariant todo <= groups.Keys
      invariant DescribesSome(indexes, entries, unique, groups.Keys - todo)
      decreases todo
    {
      var name :| name in todo;
      DescribesMore(indexes, entries, unique, groups.Keys - todo, name);
      assert groups.Keys - (todo - {name}) == groups.Keys - todo + {name};
      indexes := indexes + [Index(unique, name, Sorted(groups[name]))];
      todo := todo - {name};
    }
    assert groups.Keys - todo == groups.Keys;
  }

  // Lines 366-408: plain indexes first, then the unique ones.
  method BuildIndexes(plain: seq<Entry>, uniques: seq<Entry>) returns (plainIndexes: seq<Index>, all: seq<Index>)
    ensures plainIndexes <= all
    ensures Describes(plainIndexes, plain, false)
    ensures Describes(all[|plainIndexes|..], uniques, true)
  {
    var uniqueMap := Group(uniques);
    var indexMap := Group(plain);
    var uniquesResult := Collect(uniqueMap, true, uniques);
    plainIndexes := Collect(indexMap, false, plain);
    all := plainIndexes + uniquesResult;
  }

  // Two runs that visit the maps in different orders build the same indexes.
  lemma OrderDoesNotMatter(xs: seq<Index>, ys: seq<Index>, entries: seq<Entry>, unique: bool)
    requires Describes(xs, entries, unique) && Describes(ys, entries, unique)
    ensures forall x :: x in xs <==> x in ys
    ensures multiset(xs) == multiset(ys)
  {
    NoDuplicates(xs);
    NoDuplicates(ys);
  }

  lemma {:induction false} NoDuplicates(xs: seq<Index>)
    requires forall i, j :: 0 <= i < j < |xs| ==> xs[i].name != xs[j].name
    ensures forall x :: multiset(xs)[x] == if x in xs then 1 else 0
    decreases |xs|
  {
    if xs != [] {
      NoDuplicates(xs[1..]);
      assert xs == [xs[0]] + xs[1..];
      assert xs[0] !in xs[1..];
    }
  }
}
