// ddl/exec.go, reverse direction: SHOW INDEXES rows by index and, transposed, by column.
module IndexReverse {
  import opened Prelude
  import opened TagText

  // A row of SHOW INDEXES.
  datatype Row = Row(nonUnique: bool, keyName: string, seqInIndex: int, columnName: string, collation: string)

  datatype DbIndex = DbIndex(unique: bool, name: string, items: seq<IndexItem>)

  function KeyIs(name: string): Row -> bool { (r: Row) => r.keyName == name }
  function ColumnIs(column: string): IndexItem -> bool { (i: IndexItem) => i.column == column }

  function RowsOf(rows: seq<Row>, name: string): seq<Row> { Filter(KeyIs(name), rows) }

  function KeyNames(rows: seq<Row>): set<string> { set i | 0 <= i < |rows| :: rows[i].keyName }

  // The first row of an index decides for the whole index.
  predicate IsUnique(rows: seq<Row>, name: string) {
    RowsOf(rows, name) != [] && !RowsOf(rows, name)[0].nonUnique
  }

  function ItemFor(rows: seq<Row>, r: Row): IndexItem {
    IndexItem(IsUnique(rows, r.keyName), r.keyName, r.columnName, r.seqInIndex, if r.collation == "B" then DESC else ASC)
  }

  function ToItem(rows: seq<Row>): Row -> IndexItem { (r: Row) => ItemFor(rows, r) }

  function At(m: map<string, seq<IndexItem>>, column: string): seq<IndexItem> {
    if column in m then m[column] else []
  }

  function AllItems(indexes: seq<DbIndex>): seq<IndexItem> {
    if indexes == [] then [] else AllItems(indexes[..|indexes| - 1]) + indexes[|indexes| - 1].items
  }

  ghost predicate RowsGrouped(idxMap: map<string, seq<Row>>, rows: seq<Row>) {
    idxMap.Keys == KeyNames(rows) && forall name :: name in idxMap ==> idxMap[name] == RowsOf(rows, name)
  }

  lemma RowsGroupedMore(idxMap: map<string, seq<Row>>, rows: seq<Row>, r: Row)
    requires RowsGrouped(idxMap, rows)
    ensures RowsGrouped(idxMap[r.keyName := (if r.keyName in idxMap then idxMap[r.keyName] else []) + [r]], rows + [r])
  {
    RowsOfSnoc(rows, r);
  }

  // Lines 125-136.
  method GroupRows(rows: seq<Row>) returns (idxMap: map<string, seq<Row>>)
    ensures idxMap.Keys == KeyNames(rows)
    ensures forall name :: name in idxMap ==> idxMap[name] == RowsOf(rows, name)
  {
    idxMap := map[];
    for n := 0 to |rows|
      invariant RowsGrouped(idxMap, rows[..n])
    {
      var idx := rows[n];
      assert rows[..n + 1] == rows[..n] + [idx];
      RowsGroupedMore(idxMap, rows[..n], idx);
      assert [] + [idx] == [idx];
      if idx.keyName in idxMap {
        idxMap := idxMap[idx.keyName := idxMap[idx.keyName] + [idx]];
      } else {
        idxMap := idxMap[idx.keyName := [idx]];
      }
    }
    assert rows[..|rows|] == rows;
  }

  lemma RowsOfSnoc(rows: seq<Row>, r: Row)
    ensures KeyNames(rows + [r]) == KeyNames(rows) + {r.keyName}
    ensures forall name :: RowsOf(rows + [r], name) == if r.keyName == name then RowsOf(rows, name) + [r] else RowsOf(rows, name)
    ensures r.keyName !in KeyNames(rows) ==> RowsOf(rows, r.keyName) == []
  {
    var all := rows + [r];
    assert all[|rows|] == r;
    assert forall i :: 0 <= i < |rows| ==> all[i] == rows[i];
    forall name ensures RowsOf(all, name) == if r.keyName == name then RowsOf(rows, name) + [r] else RowsOf(rows, name) {
      FilterSnoc(KeyIs(name), rows, r);
    }
    if RowsOf(rows, r.keyName) != [] {
      var x := RowsOf(rows, r.keyName)[0];
      assert x in RowsOf(rows, r.keyName);
      assert x in rows;
    }
  }

  // What was built for the index names visited so far, and its transposition.
  ghost predicate Transposed(rows: seq<Row>, names: set<string>, indexes: seq<DbIndex>, colIdx: map<string, seq<IndexItem>>) {
    Built(rows, names, indexes) && ByColumn(colIdx, AllItems(indexes))
  }

  // One index for each of the names, with the items of its rows.
  ghost predicate Built(rows: seq<Row>, names: set<string>, indexes: seq<DbIndex>) {
    && (forall i, j :: 0 <= i < j < |indexes| ==> indexes[i].name != indexes[j].name)
    && (forall i :: 0 <= i < |indexes| ==> indexes[i].name in names && IsBuilt(rows, indexes[i]))
    && (forall name :: name in names ==> exists i :: 0 <= i < |indexes| && indexes[i].name == name)
  }

  predicate IsBuilt(rows: seq<Row>, index: DbIndex) {
    && index.unique == IsUnique(rows, index.name)
    && index.items == MapSeq(ToItem(rows), RowsOf(rows, index.name))
  }

  lemma RowsOfKnown(rows: seq<Row>, name: string)
    requires name in KeyNames(rows)
    ensures RowsOf(rows, name) != []
    ensures forall r :: r in RowsOf(rows, name) ==> r.keyName == name
  {
    var i :| 0 <= i < |rows| && rows[i].keyName == name;
    assert rows[i] in RowsOf(rows, name);
  }

  ghost predicate ByColumn(colIdx: map<string, seq<IndexItem>>, items: seq<IndexItem>) {
    forall column :: At(colIdx, column) == Filter(ColumnIs(column), items)
  }

  lemma ByColumnMore(colIdx: map<string, seq<IndexItem>>, items: seq<IndexItem>, item: IndexItem)
    requires ByColumn(colIdx, items)
    ensures ByColumn(colIdx[item.column := At(colIdx, item.column) + [item]], items + [item])
  {
    forall column ensures Filter(ColumnIs(column), items + [item]) ==
      if item.column == column then Filter(ColumnIs(column), items) + [item] else Filter(ColumnIs(column), items)
    {
      FilterSnoc(ColumnIs(column), items, item);
    }
  }

  // Lines 144-167: the items of one index, each also filed under its column.
  method FileItems(rows: seq<Row>, k: string, v: seq<Row>, colIdx: map<string, seq<IndexItem>>, ghost before: seq<IndexItem>)
    returns (items: seq<IndexItem>, colIdx': map<string, seq<IndexItem>>)
    requires k in KeyNames(rows) && v == RowsOf(rows, k)
    requires ByColumn(colIdx, before)
    ensures items == MapSeq(ToItem(rows), v)
    ensures ByColumn(colIdx', before + items)
  {
    RowsOfKnown(rows, k);
    items, colIdx' := [], colIdx;
    assert before + [] == before;
    for i := 0 to |v|
      invariant items == MapSeq(ToItem(rows), v[..i])
      invariant ByColumn(colIdx', before + items)
    {
      var idx := v[i];
      var item := IndexItem(!v[0].nonUnique, k, idx.columnName, idx.seqInIndex, if idx.collation == "B" then DESC else ASC);
      assert idx in v && item == ToItem(rows)(idx);
      assert v[..i + 1] == v[..i] + [idx];
      MapSeqSnoc(ToItem(rows), v[..i], idx);
      assert before + (items + [item]) == (before + items) + [item];
      ByColumnMore(colIdx', before + items, item);
      if idx.columnName in colIdx' {
        colIdx' := colIdx'[idx.columnName := colIdx'[idx.columnName] + [item]];
      } else {
        assert At(colIdx', idx.columnName) + [item] == [item];
        colIdx' := colIdx'[idx.columnName := [item]];
      }
      items := items + [item];
    }
    assert v[..|v|] == v;
  }

  lemma TransposedMore(rows: seq<Row>, names: set<string>, indexes: seq<DbIndex>, k: string, items: seq<IndexItem>,
                       colIdx: map<string, seq<IndexItem>>, colIdx': map<string, seq<IndexItem>>)
    requires Transposed(rows, names, indexes, colIdx) && k !in names && k in KeyNames(rows)
    requires items == MapSeq(ToItem(rows), RowsOf(rows, k))
    requires ByColumn(colIdx', AllItems(indexes) + items)
    ensures Transposed(rows, names + {k}, indexes + [DbIndex(IsUnique(rows, k), k, items)], colIdx')
  {
    var more := indexes + [DbIndex(IsUnique(rows, k), k, items)];
    BuiltMore(rows, names, indexes, more[|indexes|]);
  }

  lemma BuiltMore(rows: seq<Row>, names: set<string>, indexes: seq<DbIndex>, index: DbIndex)
    requires Built(rows, names, indexes) && index.name !in names && IsBuilt(rows, index)
    ensures Built(rows, names + {index.name}, indexes + [index])
  {
    NamesCovered(names, indexes, index);
  }

  lemma NamesCovered(names: set<string>, indexes: seq<DbIndex>, index: DbIndex)
    requires forall name :: name in names ==> exists i :: 0 <= i < |indexes| && indexes[i].name == name
    ensures var more := indexes + [index];
            forall name :: name in names + {index.name} ==> exists i :: 0 <= i < |more| && more[i].name == name
  {
    var more := indexes + [index];
    assert more[|indexes|].name == index.name;
    forall name | name in names ensures exists i :: 0 <= i < |more| && more[i].name == name {
      var i :| 0 <= i < |indexes| && indexes[i].name == name;
      assert more[i].name == name;
    }
  }

  // Lines 138-173: the indexes and the map from columns to items, for any order in which
  // idxMap is visited.
  method Transpose(rows: seq<Row>) returns (indexes: seq<DbIndex>, colIdx: map<string, seq<IndexItem>>)
    ensures Transposed(rows, KeyNames(rows), indexes, colIdx)
    ensures FlagsAgree(rows) ==> RowsShown(rows, indexes, colIdx)
  {
    var idxMap := GroupRows(rows);
    indexes, colIdx := [], map[];
    var todo := idxMap.Keys;
    while todo != {}
      invariant todo <= idxMap.Keys
      invariant Transposed(rows, idxMap.Keys - todo, indexes, colIdx)
      decreases todo
    {
      var k :| k in todo;
      var v := idxMap[k];
      RowsOfKnown(rows, k);
      var items, colIdx' := FileItems(rows, k, v, colIdx, AllItems(indexes));
      TransposedMore(rows, idxMap.Keys - todo, indexes, k, items, colIdx, colIdx');
      assert idxMap.Keys - (todo - {k}) == idxMap.Keys - todo + {k};
      indexes, colIdx := indexes + [DbIndex(!v[0].nonUnique, k, items)], colIdx';
      todo := todo - {k};
    }
    assert idxMap.Keys - todo == idxMap.Keys;
    if FlagsAgree(rows) { FlagsShown(rows, indexes, colIdx); }
  }

  // --- What a row becomes -----------------------------------------------------------------

  // All rows of an index say the same about its uniqueness.
  predicate FlagsAgree(rows: seq<Row>) {
    forall i, j :: 0 <= i < j < |rows| && rows[i].keyName == rows[j].keyName ==> rows[i].nonUnique == rows[j].nonUnique
  }

  predicate Shows(item: IndexItem, r: Row) {
    && item.unique == !r.nonUnique && item.name == r.keyName && item.column == r.columnName
    && item.order == r.seqInIndex && item.sort == if r.collation == "B" then "desc" else "asc"
  }

  predicate HasItem(items: seq<IndexItem>, r: Row) {
    exists j :: 0 <= j < |items| && Shows(items[j], r)
  }

  // Every row has an index of its name, unique unless the row's flag says otherwise, and
  // stands in it and under its column with its own texts; and nothing else stands there.
  ghost predicate RowsShown(rows: seq<Row>, indexes: seq<DbIndex>, colIdx: map<string, seq<IndexItem>>) {
    && (forall k :: 0 <= k < |rows| ==>
          && HasItem(At(colIdx, rows[k].columnName), rows[k])
          && exists i :: 0 <= i < |indexes| && indexes[i].name == rows[k].keyName && HasItem(indexes[i].items, rows[k]))
    && (forall i, k :: 0 <= i < |indexes| && 0 <= k < |rows| && rows[k].keyName == indexes[i].name ==>
          indexes[i].unique == !rows[k].nonUnique)
    && (forall i, item :: 0 <= i < |indexes| && item in indexes[i].items ==> exists k :: 0 <= k < |rows| && Shows(item, rows[k]))
    && (forall column, item :: item in At(colIdx, column) ==>
          item.column == column && exists k :: 0 <= k < |rows| && Shows(item, rows[k]))
  }

  lemma ItemShows(rows: seq<Row>, r: Row)
    requires FlagsAgree(rows) && r in rows
    ensures Shows(ItemFor(rows, r), r)
  {
    var own := RowsOf(rows, r.keyName);
    assert r in own && own[0] in own;
    var i :| 0 <= i < |rows| && rows[i] == r;
    var j :| 0 <= j < |rows| && rows[j] == own[0];
    assert i < j || j < i || i == j;
  }

  lemma BuiltItemShows(rows: seq<Row>, indexes: seq<DbIndex>, i: nat, j: nat) returns (k: nat)
    requires FlagsAgree(rows) && Built(rows, KeyNames(rows), indexes) && i < |indexes| && j < |indexes[i].items|
    ensures k < |rows| && Shows(indexes[i].items[j], rows[k]) && rows[k].keyName == indexes[i].name
  {
    var own := RowsOf(rows, indexes[i].name);
    assert own[j] in own;
    k :| k < |rows| && rows[k] == own[j];
    ItemShows(rows, rows[k]);
  }

  lemma {:induction false} InAllItems(indexes: seq<DbIndex>, item: IndexItem)
    ensures item in AllItems(indexes) <==> exists i :: 0 <= i < |indexes| && item in indexes[i].items
    decreases |indexes|
  {
    if indexes != [] {
      var front := indexes[..|indexes| - 1];
      InAllItems(front, item);
      assert forall i :: 0 <= i < |front| ==> front[i] == indexes[i];
    }
  }

  lemma RowIsBuilt(rows: seq<Row>, indexes: seq<DbIndex>, k: nat) returns (i: nat, j: nat)
    requires FlagsAgree(rows) && Built(rows, KeyNames(rows), indexes) && k < |rows|
    ensures i < |indexes| && indexes[i].name == rows[k].keyName
    ensures j < |indexes[i].items| && Shows(indexes[i].items[j], rows[k])
  {
    assert rows[k].keyName in KeyNames(rows);
    i :| i < |indexes| && indexes[i].name == rows[k].keyName;
    var own := RowsOf(rows, indexes[i].name);
    assert rows[k] in own;
    j :| j < |own| && own[j] == rows[k];
    ItemShows(rows, rows[k]);
  }

  lemma UniqueByFlag(rows: seq<Row>, name: string, k: nat)
    requires FlagsAgree(rows) && k < |rows| && rows[k].keyName == name
    ensures IsUnique(rows, name) == !rows[k].nonUnique
  {
    ItemShows(rows, rows[k]);
  }

  lemma FlagsShown(rows: seq<Row>, indexes: seq<DbIndex>, colIdx: map<string, seq<IndexItem>>)
    requires FlagsAgree(rows) && Transposed(rows, KeyNames(rows), indexes, colIdx)
    ensures RowsShown(rows, indexes, colIdx)
  {
    forall k | 0 <= k < |rows|
      ensures HasItem(At(colIdx, rows[k].columnName), rows[k])
      ensures exists i :: 0 <= i < |indexes| && indexes[i].name == rows[k].keyName && HasItem(indexes[i].items, rows[k])
    {
      var i, j := RowIsBuilt(rows, indexes, k);
      InAllItems(indexes, indexes[i].items[j]);
      assert indexes[i].items[j] in At(colIdx, rows[k].columnName);
    }
    forall i, k | 0 <= i < |indexes| && 0 <= k < |rows| && rows[k].keyName == indexes[i].name
      ensures indexes[i].unique == !rows[k].nonUnique
    {
      UniqueByFlag(rows, indexes[i].name, k);
    }
    forall i, item | 0 <= i < |indexes| && item in indexes[i].items ensures exists k :: 0 <= k < |rows| && Shows(item, rows[k]) {
      var j :| 0 <= j < |indexes[i].items| && indexes[i].items[j] == item;
      var k := BuiltItemShows(rows, indexes, i, j);
    }
    forall column, item | item in At(colIdx, column)
      ensures item.column == column && exists k :: 0 <= k < |rows| && Shows(item, rows[k])
    {
      InAllItems(indexes, item);
    }
  }

  function Views(rows: seq<Row>): seq<IndexItem> { MapSeq(ToItem(rows), rows) }

  // Rows of other indexes do not show an item of this name.
  lemma {:induction false} OwnRowsCount(f: Row -> IndexItem, rows: seq<Row>, x: IndexItem)
    requires forall r: Row :: f(r).name == r.keyName
    ensures multiset(MapSeq(f, rows))[x] == multiset(MapSeq(f, RowsOf(rows, x.name)))[x]
  {
    if rows != [] {
      OwnRowsCount(f, rows[1..], x);
      var rest, own := MapSeq(f, rows[1..]), MapSeq(f, RowsOf(rows[1..], x.name));
      assert MapSeq(f, rows) == [f(rows[0])] + rest;
      if rows[0].keyName == x.name {
        assert RowsOf(rows, x.name)[1..] == RowsOf(rows[1..], x.name);
        assert MapSeq(f, RowsOf(rows, x.name)) == [f(rows[0])] + own;
      }
    }
  }

  lemma RowsOfUnknown(rows: seq<Row>, name: string)
    ensures RowsOf(rows, name) != [] ==> name in KeyNames(rows)
  {
    if RowsOf(rows, name) != [] {
      var r := RowsOf(rows, name)[0];
      assert r in RowsOf(rows, name);
      assert r in rows;
    }
  }

  // An item can only come from the index of its own name.
  lemma {:induction false} OwnIndexCount(indexes: seq<DbIndex>, x: IndexItem)
    requires forall i, j :: 0 <= i < j < |indexes| ==> indexes[i].name != indexes[j].name
    requires forall i, item :: 0 <= i < |indexes| && item in indexes[i].items ==> item.name == indexes[i].name
    ensures forall i :: 0 <= i < |indexes| && indexes[i].name == x.name ==>
              multiset(AllItems(indexes))[x] == multiset(indexes[i].items)[x]
    ensures (forall i :: 0 <= i < |indexes| ==> indexes[i].name != x.name) ==> multiset(AllItems(indexes))[x] == 0
  {
    if indexes != [] {
      var front, last := indexes[..|indexes| - 1], indexes[|indexes| - 1];
      OwnIndexCount(front, x);
      assert AllItems(indexes) == AllItems(front) + last.items;
      assert last.name != x.name ==> x !in last.items;
    }
  }

  // Both views hold every row exactly once: the built indexes together hold one item for
  // each row, and the map holds under each column exactly the items of that column.
  lemma TransposeConserves(rows: seq<Row>, indexes: seq<DbIndex>, colIdx: map<string, seq<IndexItem>>, column: string, x: IndexItem)
    requires Transposed(rows, KeyNames(rows), indexes, colIdx)
    ensures multiset(AllItems(indexes))[x] == multiset(Views(rows))[x]
    ensures multiset(At(colIdx, column))[x] == if x.column == column then multiset(Views(rows))[x] else 0
  {
    FilterCount(ColumnIs(column), AllItems(indexes), x);
    forall i, item | 0 <= i < |indexes| && item in indexes[i].items ensures item.name == indexes[i].name {
      var own := RowsOf(rows, indexes[i].name);
      var k :| 0 <= k < |own| && indexes[i].items[k] == item;
      assert own[k] in own;
    }
    OwnIndexCount(indexes, x);
    OwnRowsCount(ToItem(rows), rows, x);
    if x.name in KeyNames(rows) {
      var i :| 0 <= i < |indexes| && indexes[i].name == x.name;
    } else {
      RowsOfUnknown(rows, x.name);
    }
  }

  lemma TransposeTotal(rows: seq<Row>, indexes: seq<DbIndex>, colIdx: map<string, seq<IndexItem>>)
    requires Transposed(rows, KeyNames(rows), indexes, colIdx)
    ensures |AllItems(indexes)| == |rows|
  {
    forall x ensures multiset(AllItems(indexes))[x] == multiset(Views(rows))[x] {
      TransposeConserves(rows, indexes, colIdx, "", x);
    }
    assert multiset(AllItems(indexes)) == multiset(Views(rows));
    assert |multiset(AllItems(indexes))| == |AllItems(indexes)|;
  }
}
