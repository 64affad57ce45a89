// The whole way from a database table to struct fields (exec.go, reverse) and from the
// fields' texts back to indexes (NewTableFromStruct).
module TableRebuild {
  import opened Prelude
  import opened Text
  import opened TagText
  import opened TagRoundTrip
  import opened IndexGrouping
  import opened IndexReverse
  import opened IndexRoundTrip

  function RefFor(p: Parsed, unique: bool): Option<Ref> { if unique then p.unique else p.index }

  // The columns and the parsed tags of the fields.
  predicate ParsedAs(fields: seq<Field>, snake: string -> string, columns: seq<string>, parsed: seq<Parsed>) {
    && |fields| == |columns| == |parsed|
    && forall i :: 0 <= i < |fields| ==> columns[i] == snake(fields[i].name) && ParseOf(fields[i], columns[i]) == Some(parsed[i])
  }

  // The claims collected from the parsed fields, in field order.
  function ClaimsOf(columns: seq<string>, parsed: seq<Parsed>, unique: bool): seq<Entry>
    requires |columns| == |parsed|
  {
    if parsed == [] then []
    else
      var n := |parsed| - 1;
      AddClaim(ClaimsOf(columns[..n], parsed[..n], unique), columns[n], RefFor(parsed[n], unique))
  }

  // NewTableFromStruct, as far as the indexes go: lines 190-357 for every field, then the
  // grouping. `snake` is strcase.ToSnake; it fails where the source panics.
  method NewTableIndexes(fields: seq<Field>, snake: string -> string)
    returns (panicked: bool, columns: seq<string>, parsed: seq<Parsed>, plainIndexes: seq<Index>, indexes: seq<Index>)
    ensures panicked <==> exists i :: 0 <= i < |fields| && ParseOf(fields[i], snake(fields[i].name)).None?
    ensures !panicked ==>
              && ParsedAs(fields, snake, columns, parsed)
              && plainIndexes <= indexes
              && Describes(plainIndexes, ClaimsOf(columns, parsed, false), false)
              && Describes(indexes[|plainIndexes|..], ClaimsOf(columns, parsed, true), true)
  {
    panicked, columns, parsed, plainIndexes, indexes := false, [], [], [], [];
    var plain: seq<Entry>, uniques: seq<Entry> := [], [];
    for n := 0 to |fields|
      invariant ParsedAs(fields[..n], snake, columns, parsed)
      invariant plain == ClaimsOf(columns, parsed, false)
      invariant uniques == ClaimsOf(columns, parsed, true)
    {
      var columnName := snake(fields[n].name);
      var result := ParseField(fields[n], columnName);
      if result.None? {
        panicked := true;
        return;
      }
      var p := result.value;
      ParsedSnoc(fields, n, snake, columns, parsed, p);
      columns, parsed := columns + [columnName], parsed + [p];
      uniques := AddClaim(uniques, columnName, p.unique);
      plain := AddClaim(plain, columnName, p.index);
    }
    assert fields[..|fields|] == fields;
    plainIndexes, indexes := BuildIndexes(plain, uniques);
  }

  lemma ParsedSnoc(fields: seq<Field>, n: nat, snake: string -> string, columns: seq<string>, parsed: seq<Parsed>, p: Parsed)
    requires n < |fields| && ParsedAs(fields[..n], snake, columns, parsed)
    requires ParseOf(fields[n], snake(fields[n].name)) == Some(p)
    ensures ParsedAs(fields[..n + 1], snake, columns + [snake(fields[n].name)], parsed + [p])
  {
    assert fields[..n + 1] == fields[..n] + [fields[n]];
  }

  function NamesOfColumns(cols: seq<Column>): seq<string> { MapSeq((c: Column) => c.name, cols) }

  // The columns the reverse direction builds. Their texts contain no semicolon and no quote
  // before a space, and their names survive the change of case.
  predicate Printable(cols: seq<Column>, colIdx: map<string, seq<IndexItem>>, camel: string -> string, snake: string -> string) {
    forall i :: 0 <= i < |cols| ==> PrintableColumn(cols[i], colIdx, camel, snake)
  }

  predicate PrintedAs(cols: seq<Column>, fields: seq<Field>, camel: string -> string) {
    |fields| == |cols| && forall i {:trigger fields[i]} :: 0 <= i < |cols| ==> FieldOf(cols[i], camel) == Some(fields[i])
  }

  predicate PrintableColumn(col: Column, colIdx: map<string, seq<IndexItem>>, camel: string -> string, snake: string -> string) {
    && col.indexes == At(colIdx, col.name)
    && CleanItems(col.indexes) && SemicolonFree(col) && UnbrokenColumn(col) && GoTypeOf(col.typ).Some?
    && snake(camel(col.name)) == col.name
  }

  lemma FieldReadBack(col: Column, field: Field, colIdx: map<string, seq<IndexItem>>, camel: string -> string, snake: string -> string)
    requires PrintableColumn(col, colIdx, camel, snake) && FieldOf(col, camel) == Some(field)
    ensures snake(field.name) == col.name
    ensures ParseOf(field, col.name).Some? && RefsOf(ParseOf(field, col.name).value, col)
  {
    IndexesParsed(col, camel, col.name);
  }

  // The parsed tag claims what the column's items say.
  predicate RefsOf(p: Parsed, col: Column) {
    p.index == LastRef(col.indexes, false, None) && p.unique == LastRef(col.indexes, true, None)
  }

  // Column by column, the name and the claims that were read are those of the column.
  predicate ReadBack(cols: seq<Column>, colIdx: map<string, seq<IndexItem>>, columns: seq<string>, parsed: seq<Parsed>) {
    && |columns| == |parsed| == |cols|
    && forall i :: 0 <= i < |cols| ==>
         columns[i] == cols[i].name && RefsOf(parsed[i], cols[i]) && cols[i].indexes == At(colIdx, columns[i])
  }

  // That is so for printed fields, whatever their texts contain besides.
  lemma TextParsed(cols: seq<Column>, fields: seq<Field>, colIdx: map<string, seq<IndexItem>>,
                   camel: string -> string, snake: string -> string, columns: seq<string>, parsed: seq<Parsed>)
    requires Printable(cols, colIdx, camel, snake) && PrintedAs(cols, fields, camel)
    requires ParsedAs(fields, snake, columns, parsed)
    ensures columns == NamesOfColumns(cols) && ReadBack(cols, colIdx, columns, parsed)
  {
    forall i | 0 <= i < |cols| ensures columns[i] == cols[i].name && RefsOf(parsed[i], cols[i]) {
      FieldReadBack(cols[i], fields[i], colIdx, camel, snake);
    }
  }

  lemma {:induction false} TextClaims(cols: seq<Column>, colIdx: map<string, seq<IndexItem>>, columns: seq<string>, parsed: seq<Parsed>, unique: bool)
    requires ReadBack(cols, colIdx, columns, parsed)
    ensures ClaimsOf(columns, parsed, unique) == EntriesFor(columns, colIdx, unique)
    decreases |cols|
  {
    if cols != [] {
      var n := |cols| - 1;
      TextClaims(cols[..n], colIdx, columns[..n], parsed[..n], unique);
      assert RefFor(parsed[n], unique) == LastRef(At(colIdx, columns[n]), unique, None);
    }
  }

  // Reverse, then forward, through parsed tags: for any order in which either direction
  // visits its maps, the rebuilt indexes are the ones read from the database if and only
  // if each column is in at most one plain and at most one unique index.
  lemma ReverseForwardIff(rows: seq<Row>, cols: seq<Column>, dbIndexes: seq<DbIndex>, colIdx: map<string, seq<IndexItem>>,
                          columns: seq<string>, parsed: seq<Parsed>, plain: seq<Index>, uniques: seq<Index>)
    requires ValidTable(rows, columns) && Transposed(rows, KeyNames(rows), dbIndexes, colIdx)
    requires ReadBack(cols, colIdx, columns, parsed)
    requires Describes(plain, ClaimsOf(columns, parsed, false), false) && Describes(uniques, ClaimsOf(columns, parsed, true), true)
    ensures SameIndexes(plain, rows, false) && SameIndexes(uniques, rows, true) <==> AtMostOne(rows)
  {
    TextClaims(cols, colIdx, columns, parsed, false);
    TextClaims(cols, colIdx, columns, parsed, true);
    RoundTripIndexesIff(rows, columns, dbIndexes, colIdx, plain, uniques);
  }

  // Printed fields never make the forward direction panic.
  lemma PrintedFieldsParse(cols: seq<Column>, fields: seq<Field>, colIdx: map<string, seq<IndexItem>>,
                           camel: string -> string, snake: string -> string)
    requires Printable(cols, colIdx, camel, snake) && PrintedAs(cols, fields, camel)
    ensures forall i :: 0 <= i < |fields| ==> ParseOf(fields[i], snake(fields[i].name)).Some?
  {
    forall i | 0 <= i < |fields| ensures ParseOf(fields[i], snake(fields[i].name)).Some? {
      FieldReadBack(cols[i], fields[i], colIdx, camel, snake);
    }
  }

  // --- Both directions in a row -----------------------------------------------------------

  // Names that a clause of the tag can carry.
  predicate CleanNames(rows: seq<Row>) {
    forall i :: 0 <= i < |rows| ==>
      Clean(rows[i].keyName) && Quoteless(rows[i].keyName) && !Has(rows[i].keyName, ',')
  }

  // What the reverse direction asks of a column before it gets its items.
  predicate PrintableText(col: Column, camel: string -> string, snake: string -> string) {
    SemicolonFree(col) && UnbrokenColumn(col) && snake(camel(col.name)) == col.name
  }

  lemma ItemClean(rows: seq<Row>, k: nat)
    requires CleanNames(rows) && k < |rows|
    ensures CleanItem(ItemFor(rows, rows[k]))
  {
  }

  ghost predicate AllClean(colIdx: map<string, seq<IndexItem>>) {
    forall column, i :: 0 <= i < |At(colIdx, column)| ==> CleanItem(At(colIdx, column)[i])
  }

  lemma FiledItemsClean(rows: seq<Row>, indexes: seq<DbIndex>, colIdx: map<string, seq<IndexItem>>)
    requires CleanNames(rows) && Transposed(rows, KeyNames(rows), indexes, colIdx)
    ensures AllClean(colIdx)
  {
    forall column, i | 0 <= i < |At(colIdx, column)| ensures CleanItem(At(colIdx, column)[i]) {
      var x := At(colIdx, column)[i];
      AtIff(rows, indexes, colIdx, column, x);
      var k :| 0 <= k < |rows| && x == ItemFor(rows, rows[k]);
      ItemClean(rows, k);
    }
  }

  // The column with the items filed under its name.
  function Dress(col: Column, colIdx: map<string, seq<IndexItem>>): Column {
    col.(indexes := At(colIdx, col.name))
  }

  function DressAll(base: seq<Column>, colIdx: map<string, seq<IndexItem>>): (cols: seq<Column>)
    ensures |cols| == |base| && forall i :: 0 <= i < |base| ==> cols[i] == Dress(base[i], colIdx)
  {
    seq(|base|, i requires 0 <= i < |base| => Dress(base[i], colIdx))
  }

  // The fields printed for the first n columns, unless one cannot be printed.
  function PrintAll(cols: seq<Column>, n: nat, show: Column -> Option<Field>): Option<seq<Field>>
    requires n <= |cols|
  {
    if n == 0 then Some([])
    else if PrintAll(cols, n - 1, show).None? || show(cols[n - 1]).None? then None
    else Some(PrintAll(cols, n - 1, show).value + [show(cols[n - 1]).value])
  }

  lemma {:induction false} PrintAllIs(cols: seq<Column>, n: nat, show: Column -> Option<Field>)
    requires n <= |cols|
    ensures PrintAll(cols, n, show).None? <==> exists i :: 0 <= i < n && show(cols[i]).None?
    ensures PrintAll(cols, n, show).Some? ==>
              var fields := PrintAll(cols, n, show).value;
              |fields| == n && forall i :: 0 <= i < n ==> show(cols[i]) == Some(fields[i])
  {
    if n > 0 { PrintAllIs(cols, n - 1, show); }
  }

  // `show` stands for FieldOf, whose definition the loop does not need.
  method PrintOne(col: Column, camel: string -> string, ghost show: Column -> Option<Field>) returns (field: Option<Field>)
    requires forall c {:trigger FieldOf(c, camel)} :: show(c) == FieldOf(c, camel)
    ensures field == show(col)
  {
    field := NewFieldFromColumn(col, camel);
  }

  // Lines 180-209: every column gets its items and is printed; None where the source panics.
  method PrintLoop(base: seq<Column>, colIdx: map<string, seq<IndexItem>>, camel: string -> string, ghost show: Column -> Option<Field>)
    returns (cols: seq<Column>, fields: Option<seq<Field>>)
    requires forall c {:trigger FieldOf(c, camel)} :: show(c) == FieldOf(c, camel)
    ensures fields.Some? ==> cols == DressAll(base, colIdx)
    ensures fields == PrintAll(DressAll(base, colIdx), |base|, show)
  {
    ghost var all := DressAll(base, colIdx);
    var printed: seq<Field> := [];
    cols := [];
    for n := 0 to |base|
      invariant cols == all[..n]
      invariant PrintAll(all, n, show) == Some(printed)
    {
      var col := base[n].(indexes := At(colIdx, base[n].name));
      assert col == all[n];
      var field := PrintOne(col, camel, show);
      if field.None? {
        PrintAllIs(all, |base|, show);
        return cols, None;
      }
      cols, printed := cols + [col], printed + [field.value];
    }
    assert all[..|base|] == all;
    return cols, Some(printed);
  }

  function Printer(camel: string -> string): Column -> Option<Field> { (c: Column) => FieldOf(c, camel) }

  method PrintFields(base: seq<Column>, colIdx: map<string, seq<IndexItem>>, camel: string -> string)
    returns (cols: seq<Column>, fields: Option<seq<Field>>)
    ensures fields.None? <==> exists i :: 0 <= i < |base| && GoTypeOf(base[i].typ).None?
    ensures fields.Some? ==> cols == DressAll(base, colIdx) && PrintedAs(cols, fields.value, camel)
  {
    cols, fields := PrintLoop(base, colIdx, camel, Printer(camel));
    PrinterIs(DressAll(base, colIdx), base, colIdx, camel);
  }

  lemma PrinterIs(cols: seq<Column>, base: seq<Column>, colIdx: map<string, seq<IndexItem>>, camel: string -> string)
    requires cols == DressAll(base, colIdx)
    ensures var fields := PrintAll(cols, |cols|, Printer(camel));
            && (fields.None? <==> exists i :: 0 <= i < |base| && GoTypeOf(base[i].typ).None?)
            && (fields.Some? ==> PrintedAs(cols, fields.value, camel))
  {
    PrintAllIs(cols, |cols|, Printer(camel));
    forall i | 0 <= i < |cols| ensures Printer(camel)(cols[i]).None? <==> GoTypeOf(base[i].typ).None? {
    }
  }

  // --- In terms of the rows alone -----------------------------------------------------------

  // The part of an index that a row describes.
  predicate DescribedBy(p: Part, r: Row) {
    p.column == r.columnName && p.order == r.seqInIndex && p.sort == if r.collation == "B" then "desc" else "asc"
  }

  predicate HasPart(indexes: seq<Index>, r: Row) {
    exists i, j :: 0 <= i < |indexes| && 0 <= j < |indexes[i].items| && indexes[i].name == r.keyName && DescribedBy(indexes[i].items[j], r)
  }

  predicate FromRow(rows: seq<Row>, name: string, p: Part, unique: bool) {
    exists k :: 0 <= k < |rows| && rows[k].keyName == name && rows[k].nonUnique == !unique && DescribedBy(p, rows[k])
  }

  // The indexes of a kind are those of the rows with the flag of that kind, except PRIMARY:
  // every row has its part in the index of its name, every part comes from a row, and the
  // parts of an index ascend.
  predicate RowsRebuilt(rows: seq<Row>, indexes: seq<Index>, unique: bool) {
    && (forall i, j :: 0 <= i < j < |indexes| ==> indexes[i].name != indexes[j].name)
    && (forall k :: 0 <= k < |rows| && rows[k].keyName != "PRIMARY" && rows[k].nonUnique == !unique ==> HasPart(indexes, rows[k]))
    && (forall i :: 0 <= i < |indexes| ==>
          && indexes[i].unique == unique && indexes[i].name != "PRIMARY" && indexes[i].items != []
          && Strict(indexes[i].items)
          && forall j :: 0 <= j < |indexes[i].items| ==> FromRow(rows, indexes[i].name, indexes[i].items[j], unique))
  }

  // No column stands in two rows of the same kind, PRIMARY aside.
  predicate OneOfKind(rows: seq<Row>) {
    forall i, j :: 0 <= i < j < |rows| && rows[i].columnName == rows[j].columnName
                   && rows[i].keyName != "PRIMARY" && rows[j].keyName != "PRIMARY" ==>
      rows[i].nonUnique != rows[j].nonUnique
  }

  lemma OneOfKindIs(rows: seq<Row>)
    requires FlagsAgree(rows)
    ensures OneOfKind(rows) <==> AtMostOne(rows)
  {
    forall k | 0 <= k < |rows| ensures IsUnique(rows, rows[k].keyName) == !rows[k].nonUnique {
      UniqueByFlag(rows, rows[k].keyName, k);
    }
  }

  lemma KeptByFlag(rows: seq<Row>, name: string, unique: bool)
    requires FlagsAgree(rows)
    ensures Kept(rows, name, unique) <==>
            name != "PRIMARY" && exists k :: 0 <= k < |rows| && rows[k].keyName == name && rows[k].nonUnique == !unique
  {
    if k :| 0 <= k < |rows| && rows[k].keyName == name { UniqueByFlag(rows, name, k); }
  }

  lemma DescribedIs(p: Part, r: Row)
    ensures DescribedBy(p, r) <==> p == PartFor(r)
  {
  }

  lemma PartFromRow(rows: seq<Row>, name: string, p: Part, unique: bool)
    requires FlagsAgree(rows) && Kept(rows, name, unique)
    ensures p in PartsFor(rows, name) <==> FromRow(rows, name, p, unique)
  {
    PartsForAre(rows, name);
    forall k | 0 <= k < |rows| && rows[k].keyName == name ensures rows[k].nonUnique == !unique {
      UniqueByFlag(rows, name, k);
    }
    forall k | 0 <= k < |rows| ensures DescribedBy(p, rows[k]) <==> p == PartFor(rows[k]) {
      DescribedIs(p, rows[k]);
    }
  }

  // One index.
  lemma IndexByRows(rows: seq<Row>, columns: seq<string>, name: string, items: seq<Part>, unique: bool)
    requires FlagsAgree(rows) && ValidTable(rows, columns) && Kept(rows, name, unique)
    ensures items == PartsFor(rows, name) <==>
            && Strict(items)
            && forall p :: p in items <==> FromRow(rows, name, p, unique)
  {
    RowsStrict(rows, name);
    forall p ensures p in PartsFor(rows, name) <==> FromRow(rows, name, p, unique) {
      PartFromRow(rows, name, p, unique);
    }
    if Strict(items) && forall p :: p in items <==> FromRow(rows, name, p, unique) {
      StrictUnique(items, PartsFor(rows, name));
    }
  }

  lemma SameIsRebuilt(rows: seq<Row>, columns: seq<string>, indexes: seq<Index>, unique: bool)
    requires FlagsAgree(rows) && ValidTable(rows, columns) && SameIndexes(indexes, rows, unique)
    ensures RowsRebuilt(rows, indexes, unique)
  {
    forall i | 0 <= i < |indexes|
      ensures indexes[i].items != [] && Strict(indexes[i].items)
      ensures forall j :: 0 <= j < |indexes[i].items| ==> FromRow(rows, indexes[i].name, indexes[i].items[j], unique)
    {
      IndexByRows(rows, columns, indexes[i].name, indexes[i].items, unique);
      var p := KeptHasPart(rows, indexes[i].name);
    }
    forall k | 0 <= k < |rows| && rows[k].keyName != "PRIMARY" && rows[k].nonUnique == !unique ensures HasPart(indexes, rows[k]) {
      KeptByFlag(rows, rows[k].keyName, unique);
      var i :| 0 <= i < |indexes| && indexes[i].name == rows[k].keyName;
      PartsForAre(rows, rows[k].keyName);
      assert PartFor(rows[k]) in indexes[i].items;
      var j :| 0 <= j < |indexes[i].items| && indexes[i].items[j] == PartFor(rows[k]);
      DescribedIs(indexes[i].items[j], rows[k]);
    }
  }

  lemma RebuiltIsSame(rows: seq<Row>, columns: seq<string>, indexes: seq<Index>, unique: bool)
    requires FlagsAgree(rows) && ValidTable(rows, columns) && RowsRebuilt(rows, indexes, unique)
    ensures SameIndexes(indexes, rows, unique)
  {
    forall i | 0 <= i < |indexes|
      ensures Kept(rows, indexes[i].name, unique) && indexes[i].items == PartsFor(rows, indexes[i].name)
    {
      RebuiltIndex(rows, columns, indexes, i, unique);
    }
    forall name | Kept(rows, name, unique) ensures exists i :: 0 <= i < |indexes| && indexes[i].name == name {
      KeptByFlag(rows, name, unique);
      var k :| 0 <= k < |rows| && rows[k].keyName == name && rows[k].nonUnique == !unique;
      assert HasPart(indexes, rows[k]);
    }
  }

  lemma RebuiltIndex(rows: seq<Row>, columns: seq<string>, indexes: seq<Index>, i: nat, unique: bool)
    requires FlagsAgree(rows) && ValidTable(rows, columns) && RowsRebuilt(rows, indexes, unique) && i < |indexes|
    ensures Kept(rows, indexes[i].name, unique) && indexes[i].items == PartsFor(rows, indexes[i].name)
  {
    var name, items := indexes[i].name, indexes[i].items;
    assert FromRow(rows, name, items[0], unique);
    KeptByFlag(rows, name, unique);
    forall p | FromRow(rows, name, p, unique) ensures p in items {
      var k :| 0 <= k < |rows| && rows[k].keyName == name && rows[k].nonUnique == !unique && DescribedBy(p, rows[k]);
      PartInIndex(rows[k], indexes, i, p);
    }
    IndexByRows(rows, columns, name, items, unique);
  }

  lemma PartInIndex(r: Row, indexes: seq<Index>, i: nat, p: Part)
    requires forall i, j :: 0 <= i < j < |indexes| ==> indexes[i].name != indexes[j].name
    requires HasPart(indexes, r) && i < |indexes| && indexes[i].name == r.keyName && DescribedBy(p, r)
    ensures p in indexes[i].items
  {
    var i', j :| 0 <= i' < |indexes| && 0 <= j < |indexes[i'].items| && indexes[i'].name == r.keyName && DescribedBy(indexes[i'].items[j], r);
    assert i' == i && indexes[i].items[j] == p;
  }

  // When the rows of each index agree on its uniqueness, the rebuilt indexes are those of
  // the rows if and only if no column stands in two rows of a kind.
  predicate FlagsRebuiltIff(rows: seq<Row>, plain: seq<Index>, uniques: seq<Index>) {
    FlagsAgree(rows) ==> (RowsRebuilt(rows, plain, false) && RowsRebuilt(rows, uniques, true) <==> OneOfKind(rows))
  }

  lemma RowsRebuiltIff(rows: seq<Row>, columns: seq<string>, plain: seq<Index>, uniques: seq<Index>)
    requires ValidTable(rows, columns)
    requires SameIndexes(plain, rows, false) && SameIndexes(uniques, rows, true) <==> AtMostOne(rows)
    ensures FlagsRebuiltIff(rows, plain, uniques)
  {
    if !FlagsAgree(rows) { return; }
    OneOfKindIs(rows);
    if OneOfKind(rows) {
      SameIsRebuilt(rows, columns, plain, false);
      SameIsRebuilt(rows, columns, uniques, true);
    }
    if RowsRebuilt(rows, plain, false) && RowsRebuilt(rows, uniques, true) {
      RebuiltIsSame(rows, columns, plain, false);
      RebuiltIsSame(rows, columns, uniques, true);
    }
  }

  lemma DressedPrintable(rows: seq<Row>, base: seq<Column>, dbIndexes: seq<DbIndex>, colIdx: map<string, seq<IndexItem>>,
                         cols: seq<Column>, fields: seq<Field>, camel: string -> string, snake: string -> string)
    requires CleanNames(rows) && Transposed(rows, KeyNames(rows), dbIndexes, colIdx)
    requires forall i :: 0 <= i < |base| ==> PrintableText(base[i], camel, snake)
    requires cols == DressAll(base, colIdx) && PrintedAs(cols, fields, camel)
    ensures Printable(cols, colIdx, camel, snake)
  {
    FiledItemsClean(rows, dbIndexes, colIdx);
    forall i | 0 <= i < |cols| ensures PrintableColumn(cols[i], colIdx, camel, snake) {
      assert cols[i] == Dress(base[i], colIdx) && PrintableText(base[i], camel, snake);
      assert FieldOf(cols[i], camel) == Some(fields[i]);
    }
  }

  lemma BothWays(rows: seq<Row>, base: seq<Column>, dbIndexes: seq<DbIndex>, colIdx: map<string, seq<IndexItem>>,
                 cols: seq<Column>, fields: seq<Field>, camel: string -> string, snake: string -> string,
                 columns: seq<string>, parsed: seq<Parsed>, plain: seq<Index>, uniques: seq<Index>)
    requires ValidTable(rows, NamesOfColumns(base)) && Transposed(rows, KeyNames(rows), dbIndexes, colIdx)
    requires cols == DressAll(base, colIdx) && PrintedAs(cols, fields, camel) && Printable(cols, colIdx, camel, snake)
    requires ParsedAs(fields, snake, columns, parsed)
    requires Describes(plain, ClaimsOf(columns, parsed, false), false) && Describes(uniques, ClaimsOf(columns, parsed, true), true)
    ensures SameIndexes(plain, rows, false) && SameIndexes(uniques, rows, true) <==> AtMostOne(rows)
    ensures FlagsRebuiltIff(rows, plain, uniques)
  {
    assert NamesOfColumns(cols) == NamesOfColumns(base);
    TextParsed(cols, fields, colIdx, camel, snake, columns, parsed);
    ReverseForwardIff(rows, cols, dbIndexes, colIdx, columns, parsed, plain, uniques);
    RowsRebuiltIff(rows, columns, plain, uniques);
  }

  // Lines 125-209 for one table, and the parsing of the fields it prints. The columns come
  // from SHOW FULL COLUMNS, still without their indexes.
  method ReverseForward(rows: seq<Row>, base: seq<Column>, camel: string -> string, snake: string -> string)
    returns (panicked: bool, plain: seq<Index>, uniques: seq<Index>)
    requires ValidTable(rows, NamesOfColumns(base)) && CleanNames(rows)
    requires forall i :: 0 <= i < |base| ==> PrintableText(base[i], camel, snake)
    ensures panicked <==> exists i :: 0 <= i < |base| && GoTypeOf(base[i].typ).None?
    ensures !panicked ==> (SameIndexes(plain, rows, false) && SameIndexes(uniques, rows, true) <==> AtMostOne(rows))
    ensures !panicked ==> FlagsRebuiltIff(rows, plain, uniques)
  {
    var dbIndexes, colIdx := Transpose(rows);
    var cols, printed := PrintFields(base, colIdx, camel);
    if printed.None? {
      return true, [], [];
    }
    var fields := printed.value;
    DressedPrintable(rows, base, dbIndexes, colIdx, cols, fields, camel, snake);
    PrintedFieldsParse(cols, fields, colIdx, camel, snake);
    var unparsed, columns, parsed, plainIndexes, all := NewTableIndexes(fields, snake);
    panicked, plain, uniques := false, plainIndexes, all[|plainIndexes|..];
    BothWays(rows, base, dbIndexes, colIdx, cols, fields, camel, snake, columns, parsed, plain, uniques);
  }
}
