// From SHOW INDEXES rows to struct fields and back to indexes: when the forward direction
// rebuilds exactly the indexes that the reverse direction read.
//
// A field can claim one plain and one unique index, the last one that its column is in. The
// proof compares three views of an index: the rows that were read for it (PartsFor), the
// claims of the columns (EntriesFor), and the rebuilt items, which are the claims sorted by
// Order. When no column has two indexes of a kind, the claims for a name are its rows in
// another order (SameParts). Since the rows of one index have distinct, increasing orders,
// sorting the claims restores the row order (SameOrder). When some column has two, only one
// of them is claimed, and the other one lacks a column (RebuiltOnlyIf).
module IndexRoundTrip {
  import opened Prelude
  import opened Text
  import opened TagText
  import opened TagRoundTrip
  import opened IndexGrouping
  import opened IndexReverse

  function PartFor(r: Row): Part {
    Part(r.columnName, r.seqInIndex, if r.collation == "B" then DESC else ASC)
  }

  function PartsFor(rows: seq<Row>, name: string): seq<Part> { MapSeq(PartFor, RowsOf(rows, name)) }

  // The primary key is not printed as an index.
  predicate Kept(rows: seq<Row>, name: string, unique: bool) {
    name != "PRIMARY" && name in KeyNames(rows) && IsUnique(rows, name) == unique
  }

  // What MySQL guarantees of a table: its columns are distinct and contain the indexed
  // ones, an index has a name, names no column twice, and is listed in its own order.
  predicate ValidTable(rows: seq<Row>, columns: seq<string>) {
    && (forall i, j :: 0 <= i < j < |columns| ==> columns[i] != columns[j])
    && (forall i :: 0 <= i < |rows| ==> rows[i].columnName in columns && !IsBlank(rows[i].keyName))
    && (forall i, j :: 0 <= i < j < |rows| && rows[i].keyName == rows[j].keyName ==>
          rows[i].columnName != rows[j].columnName && rows[i].seqInIndex < rows[j].seqInIndex)
  }

  // Each column is in at most one plain and at most one unique index besides PRIMARY.
  predicate AtMostOne(rows: seq<Row>) {
    forall i, j :: 0 <= i < j < |rows| && rows[i].columnName == rows[j].columnName
                   && rows[i].keyName != "PRIMARY" && rows[j].keyName != "PRIMARY" ==>
      IsUnique(rows, rows[i].keyName) != IsUnique(rows, rows[j].keyName)
  }

  // A field claims an index unless its name is blank (lines 334-342 of table.go).
  function AddClaim(before: seq<Entry>, column: string, ref: Option<Ref>): seq<Entry> {
    match ref
    case None => before
    case Some(r) => if IsBlank(r.name) then before else before + [Entry(r.name, Part(column, r.order, r.sort))]
  }

  // The claims NewTableFromStruct collects from the fields: per column the last index
  // item of the kind.
  function EntriesFor(columns: seq<string>, colIdx: map<string, seq<IndexItem>>, unique: bool): seq<Entry> {
    if columns == [] then []
    else
      var c := columns[|columns| - 1];
      AddClaim(EntriesFor(columns[..|columns| - 1], colIdx, unique), c, LastRef(At(colIdx, c), unique, None))
  }

  // The rebuilt indexes of one kind are the ones that were read.
  ghost predicate SameIndexes(indexes: seq<Index>, rows: seq<Row>, unique: bool) {
    && (forall i, j :: 0 <= i < j < |indexes| ==> indexes[i].name != indexes[j].name)
    && (forall i :: 0 <= i < |indexes| ==>
          && indexes[i].unique == unique
          && Kept(rows, indexes[i].name, unique)
          && indexes[i].items == PartsFor(rows, indexes[i].name))
    && (forall name :: Kept(rows, name, unique) ==> exists i :: 0 <= i < |indexes| && indexes[i].name == name)
  }

  // --- The claim of a column -------------------------------------------------------------

  predicate Matching(i: IndexItem, unique: bool) { i.name != "PRIMARY" && i.unique == unique }

  lemma {:induction false} LastRefIs(items: seq<IndexItem>, unique: bool, before: Option<Ref>)
    ensures var r := LastRef(items, unique, before);
            || (r == before && forall i :: i in items ==> !Matching(i, unique))
            || (r.Some? && exists i :: i in items && Matching(i, unique) && r.value == RefOf(i))
    decreases |items|
  {
    if items != [] {
      var next := if Matching(items[0], unique) then Some(RefOf(items[0])) else before;
      LastRefIs(items[1..], unique, next);
      assert forall i :: i in items ==> i == items[0] || i in items[1..];
      if LastRef(items, unique, before) == next && next != before {
        assert items[0] in items && Matching(items[0], unique);
      }
    }
  }

  lemma {:induction false} MapSeqHas<A, B>(f: A -> B, xs: seq<A>, i: nat)
    requires i < |xs|
    ensures f(xs[i]) in MapSeq(f, xs)
  {
  }

  // The items filed under a column are the items of the rows for that column.
  lemma AtIff(rows: seq<Row>, indexes: seq<DbIndex>, colIdx: map<string, seq<IndexItem>>, column: string, x: IndexItem)
    requires Transposed(rows, KeyNames(rows), indexes, colIdx)
    ensures x in At(colIdx, column) <==>
            x.column == column && exists k :: 0 <= k < |rows| && x == ItemFor(rows, rows[k])
  {
    TransposeConserves(rows, indexes, colIdx, column, x);
    assert x in At(colIdx, column) <==> x in multiset(At(colIdx, column));
    assert x in Views(rows) <==> x in multiset(Views(rows));
    if x in Views(rows) {
      var k :| 0 <= k < |Views(rows)| && Views(rows)[k] == x;
      assert x == ItemFor(rows, rows[k]);
    }
    if k :| 0 <= k < |rows| && x == ItemFor(rows, rows[k]) {
      assert Views(rows)[k] == x;
    }
  }

  // A claim that a column makes stands for a row.
  lemma ClaimIsRow(rows: seq<Row>, indexes: seq<DbIndex>, colIdx: map<string, seq<IndexItem>>, column: string, unique: bool)
    returns (k: nat)
    requires Transposed(rows, KeyNames(rows), indexes, colIdx)
    requires LastRef(At(colIdx, column), unique, None).Some?
    ensures k < |rows| && Kept(rows, rows[k].keyName, unique) && rows[k].columnName == column
    ensures var r := LastRef(At(colIdx, column), unique, None).value;
            r.name == rows[k].keyName && Part(column, r.order, r.sort) == PartFor(rows[k])
  {
    var items := At(colIdx, column);
    LastRefIs(items, unique, None);
    var x :| x in items && Matching(x, unique) && LastRef(items, unique, None).value == RefOf(x);
    AtIff(rows, indexes, colIdx, column, x);
    k :| 0 <= k < |rows| && x == ItemFor(rows, rows[k]);
    SortsVisible();
  }

  lemma SortsVisible()
    ensures !IsBlank(ASC) && !IsBlank(DESC)
  {
  }

  // Every kept row makes its column claim something of its kind.
  lemma RowMakesClaim(rows: seq<Row>, indexes: seq<DbIndex>, colIdx: map<string, seq<IndexItem>>, k: nat, unique: bool)
    requires Transposed(rows, KeyNames(rows), indexes, colIdx)
    requires k < |rows| && Kept(rows, rows[k].keyName, unique)
    ensures LastRef(At(colIdx, rows[k].columnName), unique, None).Some?
  {
    var x := ItemFor(rows, rows[k]);
    AtIff(rows, indexes, colIdx, rows[k].columnName, x);
    LastRefIs(At(colIdx, rows[k].columnName), unique, None);
    assert Matching(x, unique);
  }

  // --- The claims of all columns -----------------------------------------------------------

  predicate Claims(columns: seq<string>, colIdx: map<string, seq<IndexItem>>, unique: bool, e: Entry) {
    && e.part.column in columns && !IsBlank(e.name)
    && LastRef(At(colIdx, e.part.column), unique, None) == Some(Ref(e.name, e.part.order, e.part.sort))
  }

  predicate EntriesApart(entries: seq<Entry>) {
    forall i, j :: 0 <= i < j < |entries| ==> entries[i].part.column != entries[j].part.column
  }

  lemma {:induction false} EntriesAre(columns: seq<string>, colIdx: map<string, seq<IndexItem>>, unique: bool)
    requires forall i, j :: 0 <= i < j < |columns| ==> columns[i] != columns[j]
    ensures forall e :: e in EntriesFor(columns, colIdx, unique) <==> Claims(columns, colIdx, unique, e)
    ensures EntriesApart(EntriesFor(columns, colIdx, unique))
  {
    if columns != [] {
      var front, c := columns[..|columns| - 1], columns[|columns| - 1];
      EntriesAre(front, colIdx, unique);
      var es, before := EntriesFor(columns, colIdx, unique), EntriesFor(front, colIdx, unique);
      assert forall x :: x in columns <==> x in front || x == c;
      assert c !in front;
      forall i | 0 <= i < |before| ensures before[i].part.column != c {
        assert before[i] in before;
      }
      forall e ensures e in es <==> Claims(columns, colIdx, unique, e) {
        assert e in before <==> Claims(front, colIdx, unique, e);
      }
    }
  }

  lemma ClaimIffRow(rows: seq<Row>, columns: seq<string>, indexes: seq<DbIndex>, colIdx: map<string, seq<IndexItem>>, unique: bool, e: Entry)
    requires ValidTable(rows, columns) && AtMostOne(rows) && Transposed(rows, KeyNames(rows), indexes, colIdx)
    ensures Claims(columns, colIdx, unique, e) <==>
            exists k :: 0 <= k < |rows| && Kept(rows, e.name, unique) && rows[k].keyName == e.name && PartFor(rows[k]) == e.part
  {
    if Claims(columns, colIdx, unique, e) {
      var k := ClaimIsRow(rows, indexes, colIdx, e.part.column, unique);
    }
    if k :| 0 <= k < |rows| && Kept(rows, e.name, unique) && rows[k].keyName == e.name && PartFor(rows[k]) == e.part {
      RowMakesClaim(rows, indexes, colIdx, k, unique);
      var k' := ClaimIsRow(rows, indexes, colIdx, e.part.column, unique);
      assert k == k';
    }
  }

  lemma PartsForAre(rows: seq<Row>, name: string)
    ensures forall p :: p in PartsFor(rows, name) <==> exists k :: 0 <= k < |rows| && rows[k].keyName == name && PartFor(rows[k]) == p
  {
    var own := RowsOf(rows, name);
    forall p | p in PartsFor(rows, name) ensures exists k :: 0 <= k < |rows| && rows[k].keyName == name && PartFor(rows[k]) == p {
      var i :| 0 <= i < |own| && PartsFor(rows, name)[i] == p;
      assert own[i] in own;
      var k :| 0 <= k < |rows| && rows[k] == own[i];
    }
    forall k | 0 <= k < |rows| && rows[k].keyName == name ensures PartFor(rows[k]) in PartsFor(rows, name) {
      assert rows[k] in own;
      var i :| 0 <= i < |own| && own[i] == rows[k];
      MapSeqHas(PartFor, own, i);
    }
  }

  // The parts claimed for a name are the parts that were read for it.
  lemma SameParts(rows: seq<Row>, columns: seq<string>, indexes: seq<DbIndex>, colIdx: map<string, seq<IndexItem>>, unique: bool, name: string)
    requires ValidTable(rows, columns) && AtMostOne(rows) && Transposed(rows, KeyNames(rows), indexes, colIdx)
    ensures forall p :: p in PartsOf(EntriesFor(columns, colIdx, unique), name) <==>
                        Kept(rows, name, unique) && p in PartsFor(rows, name)
  {
    var es := EntriesFor(columns, colIdx, unique);
    EntriesAre(columns, colIdx, unique);
    PartsForAre(rows, name);
    forall p ensures p in PartsOf(es, name) <==> Kept(rows, name, unique) && p in PartsFor(rows, name) {
      ClaimIffRow(rows, columns, indexes, colIdx, unique, Entry(name, p));
      assert p in PartsOf(es, name) <==> Entry(name, p) in es;
    }
  }

  // --- Order --------------------------------------------------------------------------------

  predicate Strict(parts: seq<Part>) {
    forall i, j :: 0 <= i < j < |parts| ==> parts[i].order < parts[j].order
  }

  lemma HeadIn(xs: seq<Part>)
    requires xs != []
    ensures xs[0] in xs
  {
  }

  lemma {:induction false} StrictUnique(xs: seq<Part>, ys: seq<Part>)
    requires Strict(xs) && Strict(ys) && forall p :: p in xs <==> p in ys
    ensures xs == ys
    decreases |xs|
  {
    if xs == [] {
      if ys != [] { HeadIn(ys); }
    } else {
      assert xs[0] in xs && xs[0] in ys;
      assert ys[0] in ys && ys[0] in xs;
      assert xs[0] == ys[0];
      forall p ensures p in xs[1..] <==> p in ys[1..] {
        assert p in xs[1..] <==> p in xs && p != xs[0];
        assert p in ys[1..] <==> p in ys && p != ys[0];
      }
      StrictUnique(xs[1..], ys[1..]);
    }
  }

  predicate Increasing(rows: seq<Row>, name: string) {
    forall i, j :: 0 <= i < j < |rows| && rows[i].keyName == name && rows[j].keyName == name ==>
      rows[i].seqInIndex < rows[j].seqInIndex
  }

  lemma {:induction false} RowsStrict(rows: seq<Row>, name: string)
    requires Increasing(rows, name)
    ensures Strict(PartsFor(rows, name))
    decreases |rows|
  {
    if rows != [] {
      RowsStrict(rows[1..], name);
      if rows[0].keyName == name {
        var rest := PartsFor(rows[1..], name);
        assert PartsFor(rows, name) == [PartFor(rows[0])] + rest by {
          assert RowsOf(rows, name)[1..] == RowsOf(rows[1..], name);
        }
        forall i | 0 <= i < |rest| ensures rows[0].seqInIndex < rest[i].order {
          PartsForAre(rows[1..], name);
          assert rest[i] in rest;
        }
      }
    }
  }

  predicate PartsApart(parts: seq<Part>) {
    forall i, j :: 0 <= i < j < |parts| ==> parts[i].column != parts[j].column
  }

  lemma OrderDecides(like: seq<Part>, p: Part, q: Part)
    requires Strict(like) && p in like && q in like && p.order == q.order
    ensures p == q
  {
  }

  lemma AtMostOneOfOrder(parts: seq<Part>, like: seq<Part>, order: int)
    requires Strict(like) && PartsApart(parts) && forall p :: p in parts ==> p in like
    ensures |WithOrder(parts, order)| <= 1
  {
    if |WithOrder(parts, order)| >= 2 {
      var a, b := TwoFiltered(OrderIs(order), parts);
      OrderDecides(like, parts[a], parts[b]);
    }
  }

  // No two parts of one index have the same order, so sorting leaves no tie.
  lemma SortedStrict(parts: seq<Part>, like: seq<Part>)
    requires Strict(like) && PartsApart(parts) && forall p :: p in parts ==> p in like
    ensures Strict(Sorted(parts))
  {
    SortedIs(parts);
    var sorted := Sorted(parts);
    forall i, j | 0 <= i < j < |sorted| ensures sorted[i].order < sorted[j].order {
      AtMostOneOfOrder(parts, like, sorted[i].order);
      assert WithOrder(sorted, sorted[i].order) == WithOrder(parts, sorted[i].order);
      if sorted[i].order == sorted[j].order {
        FilterTwo(OrderIs(sorted[i].order), sorted, i, j);
      }
    }
  }

  lemma {:induction false} PartsDistinct(entries: seq<Entry>, name: string)
    requires EntriesApart(entries)
    ensures PartsApart(PartsOf(entries, name))
  {
    if entries != [] {
      var front := entries[..|entries| - 1];
      PartsDistinct(front, name);
      var before := PartsOf(front, name);
      forall i | 0 <= i < |before| ensures before[i].column != entries[|entries| - 1].part.column {
        assert before[i] in before;
        var j :| 0 <= j < |front| && front[j] == Entry(name, before[i]);
        assert entries[j] == front[j];
      }
    }
  }

  lemma SortedIsLike(parts: seq<Part>, like: seq<Part>)
    requires Strict(like) && PartsApart(parts) && forall p :: p in parts <==> p in like
    ensures Sorted(parts) == like
  {
    SortedStrict(parts, like);
    SortedIs(parts);
    StrictUnique(Sorted(parts), like);
  }

  lemma SameOrder(rows: seq<Row>, columns: seq<string>, indexes: seq<DbIndex>, colIdx: map<string, seq<IndexItem>>, unique: bool, name: string)
    requires ValidTable(rows, columns) && AtMostOne(rows) && Transposed(rows, KeyNames(rows), indexes, colIdx)
    requires Kept(rows, name, unique)
    ensures Sorted(PartsOf(EntriesFor(columns, colIdx, unique), name)) == PartsFor(rows, name)
  {
    var es := EntriesFor(columns, colIdx, unique);
    EntriesAre(columns, colIdx, unique);
    PartsDistinct(es, name);
    SameParts(rows, columns, indexes, colIdx, unique, name);
    RowsStrict(rows, name);
    SortedIsLike(PartsOf(es, name), PartsFor(rows, name));
  }

  // --- The round trip -----------------------------------------------------------------------

  lemma Rebuilt(rows: seq<Row>, columns: seq<string>, indexes: seq<DbIndex>, colIdx: map<string, seq<IndexItem>>, unique: bool, built: seq<Index>)
    requires ValidTable(rows, columns) && AtMostOne(rows) && Transposed(rows, KeyNames(rows), indexes, colIdx)
    requires Describes(built, EntriesFor(columns, colIdx, unique), unique)
    ensures SameIndexes(built, rows, unique)
  {
    var es := EntriesFor(columns, colIdx, unique);
    forall name ensures name in NamesOf(es) <==> Kept(rows, name, unique) {
      ClaimedIffKept(rows, columns, indexes, colIdx, unique, name);
    }
    forall name | Kept(rows, name, unique) ensures Sorted(PartsOf(es, name)) == PartsFor(rows, name) {
      SameOrder(rows, columns, indexes, colIdx, unique, name);
    }
    DescribedIsSame(es, rows, unique, built);
  }

  lemma ClaimedIffKept(rows: seq<Row>, columns: seq<string>, indexes: seq<DbIndex>, colIdx: map<string, seq<IndexItem>>, unique: bool, name: string)
    requires ValidTable(rows, columns) && AtMostOne(rows) && Transposed(rows, KeyNames(rows), indexes, colIdx)
    ensures name in NamesOf(EntriesFor(columns, colIdx, unique)) <==> Kept(rows, name, unique)
  {
    var es := EntriesFor(columns, colIdx, unique);
    SameParts(rows, columns, indexes, colIdx, unique, name);
    NamedHasParts(es, name);
    if Kept(rows, name, unique) {
      var p := KeptHasPart(rows, name);
      assert p in PartsOf(es, name);
    }
  }

  lemma KeptHasPart(rows: seq<Row>, name: string) returns (p: Part)
    requires name in KeyNames(rows)
    ensures p in PartsFor(rows, name)
  {
    RowsOfKnown(rows, name);
    MapSeqHas(PartFor, RowsOf(rows, name), 0);
    p := PartFor(RowsOf(rows, name)[0]);
  }

  lemma DescribedIsSame(es: seq<Entry>, rows: seq<Row>, unique: bool, built: seq<Index>)
    requires Describes(built, es, unique)
    requires forall name :: name in NamesOf(es) <==> Kept(rows, name, unique)
    requires forall name :: Kept(rows, name, unique) ==> Sorted(PartsOf(es, name)) == PartsFor(rows, name)
    ensures SameIndexes(built, rows, unique)
  {
  }

  lemma NamedHasParts(entries: seq<Entry>, name: string)
    ensures name in NamesOf(entries) <==> exists p :: p in PartsOf(entries, name)
  {
    if name in NamesOf(entries) {
      var i :| 0 <= i < |entries| && entries[i].name == name;
      assert entries[i] == Entry(name, entries[i].part);
      assert entries[i].part in PartsOf(entries, name);
    }
  }

  // A column of two kept indexes of a kind claims only one of them.
  lemma RebuiltOnlyIf(rows: seq<Row>, columns: seq<string>, colIdx: map<string, seq<IndexItem>>, unique: bool, built: seq<Index>, k: nat)
    requires ValidTable(rows, columns) && k < |rows| && Kept(rows, rows[k].keyName, unique)
    requires Describes(built, EntriesFor(columns, colIdx, unique), unique) && SameIndexes(built, rows, unique)
    ensures var r := LastRef(At(colIdx, rows[k].columnName), unique, None);
            r.Some? && r.value.name == rows[k].keyName
  {
    var es := EntriesFor(columns, colIdx, unique);
    var name := rows[k].keyName;
    var i :| 0 <= i < |built| && built[i].name == name;
    PartsForAre(rows, name);
    SortedIs(PartsOf(es, name));
    assert PartFor(rows[k]) in built[i].items;
    assert PartFor(rows[k]) in PartsOf(es, name);
    EntriesAre(columns, colIdx, unique);
    assert Claims(columns, colIdx, unique, Entry(name, PartFor(rows[k])));
  }

  // The exact condition: the forward direction rebuilds the names, uniqueness, ordered
  // columns and sort directions of all indexes but PRIMARY if and only if each column is
  // in at most one plain and at most one unique index.
  lemma RoundTripIndexesIff(rows: seq<Row>, columns: seq<string>, indexes: seq<DbIndex>, colIdx: map<string, seq<IndexItem>>,
                            plain: seq<Index>, uniques: seq<Index>)
    requires ValidTable(rows, columns) && Transposed(rows, KeyNames(rows), indexes, colIdx)
    requires Describes(plain, EntriesFor(columns, colIdx, false), false)
    requires Describes(uniques, EntriesFor(columns, colIdx, true), true)
    ensures SameIndexes(plain, rows, false) && SameIndexes(uniques, rows, true) <==> AtMostOne(rows)
  {
    if AtMostOne(rows) {
      Rebuilt(rows, columns, indexes, colIdx, false, plain);
      Rebuilt(rows, columns, indexes, colIdx, true, uniques);
    }
    if SameIndexes(plain, rows, false) && SameIndexes(uniques, rows, true) {
      forall i, j | 0 <= i < j < |rows| && rows[i].columnName == rows[j].columnName
                    && rows[i].keyName != "PRIMARY" && rows[j].keyName != "PRIMARY"
        ensures IsUnique(rows, rows[i].keyName) != IsUnique(rows, rows[j].keyName)
      {
        var u, u' := IsUnique(rows, rows[i].keyName), IsUnique(rows, rows[j].keyName);
        RebuiltOnlyIf(rows, columns, colIdx, u, if u then uniques else plain, i);
        RebuiltOnlyIf(rows, columns, colIdx, u', if u' then uniques else plain, j);
      }
    }
  }
}
