// ddl/table/table.go: a column printed as a struct field with a dd tag, and the loop of
// NewTableFromStruct that parses such a field.
module TagText {
  import opened Prelude
  import opened Text

  datatype IndexItem = IndexItem(unique: bool, name: string, column: string, order: int, sort: string)

  datatype Column = Column(
    name: string, typ: string, default: Option<string>, pk: bool, nullable: bool, unsigned: bool,
    autoincrement: bool, extra: string, autoSet: bool, indexes: seq<IndexItem>)

  datatype Field = Field(name: string, typ: string, tag: string)

  const NOW := "CURRENT_TIMESTAMP"
  const ASC := "asc"
  const DESC := "desc"

  // --- Types ----------------------------------------------------------------------------

  function Lower(c: char): char {
    if 'A' <= c <= 'Z' then c + ('a' - 'A') else c
  }

  // stringutils.HasPrefixI for a lower-case prefix
  predicate HasPrefixI(s: string, prefix: string) {
    |prefix| <= |s| && forall i :: 0 <= i < |prefix| ==> Lower(s[i]) == prefix[i]
  }

  // toColumnType
  function ColumnTypeOf(goType: string): Option<string> {
    if goType == "int" || goType == "int16" || goType == "int32" then Some("INT")
    else if goType == "int64" then Some("BIGINT")
    else if goType == "float32" then Some("FLOAT")
    else if goType == "float64" then Some("DOUBLE")
    else if goType == "string" then Some("VARCHAR(255)")
    else if goType == "bool" || goType == "int8" then Some("TINYINT")
    else if goType == "time.Time" then Some("DATETIME")
    else None
  }

  // toGoType without the star: the first prefix that fits decides.
  const GO_TYPES := [
    ("int", "int"), ("bigint", "int64"), ("float", "float32"), ("double", "float64"), ("varchar", "string"),
    ("text", "string"), ("tinyint", "int8"), ("datetime", "time.Time"), ("mediumtext", "string"), ("decimal", "float32")]

  predicate TypeRow(prefix: string, goType: string) {
    prefix != "" && 'a' <= prefix[0] <= 'z' && goType != "" && goType[0] != '*' && ColumnTypeOf(goType).Some?
  }

  function FirstType(typ: string, table: seq<(string, string)>): (goType: Option<string>)
    requires forall k :: 0 <= k < |table| ==> TypeRow(table[k].0, table[k].1)
    ensures goType.Some? ==> typ != "" && !IsSpace(typ[0]) && goType.value != "" && goType.value[0] != '*'
    ensures goType.Some? ==> ColumnTypeOf(goType.value).Some?
  {
    if table == [] then None
    else if HasPrefixI(typ, table[0].0) then
      assert TypeRow(table[0].0, table[0].1) && Lower(typ[0]) == table[0].0[0];
      Some(table[0].1)
    else FirstType(typ, table[1..])
  }

  // None where the source panics.
  function GoTypeOf(typ: string): (goType: Option<string>)
    ensures goType.Some? ==> typ != "" && !IsSpace(typ[0]) && goType.value != "" && goType.value[0] != '*'
    ensures goType.Some? ==> ColumnTypeOf(goType.value).Some?
  {
    FirstType(typ, GO_TYPES)
  }

  // --- Printing -------------------------------------------------------------------------

  // ^\(.+\)$
  predicate IsParenthesised(v: string) {
    |v| >= 3 && v[0] == '(' && v[|v| - 1] == ')' && !Has(v[1..|v| - 1], '\n')
  }

  // The text the tag shows for a default.
  function DefaultText(v: string): string {
    if v == NOW || IsParenthesised(v) then v else "'" + v + "'"
  }

  function Clause(key: string, value: string): string { key + ":" + value }

  function ItemFeat(i: IndexItem): string {
    Clause(if i.unique then "unique" else "index", i.name + "," + (IntText(i.order) + "," + i.sort))
  }

  function ItemFeats(items: seq<IndexItem>): seq<string> {
    if items == [] then []
    else if items[0].name == "PRIMARY" then ItemFeats(items[1..])
    else [ItemFeat(items[0])] + ItemFeats(items[1..])
  }

  function When(cond: bool, feat: string): seq<string> { if cond then [feat] else [] }

  function DefaultFeats(default: Option<string>): seq<string> {
    match default case None => [] case Some(v) => [Clause("default", DefaultText(v))]
  }

  function HeadFeats(col: Column): seq<string> {
    When(col.pk, "pk") + When(col.autoincrement, "auto") + When(!IsBlank(col.typ), Clause("type", col.typ)) +
    DefaultFeats(col.default) + When(!IsBlank(col.extra), Clause("extra", col.extra))
  }

  function Feats(col: Column): seq<string> { HeadFeats(col) + ItemFeats(col.indexes) }

  function TagOf(feats: seq<string>): string { "dd:\"" + (Join(feats, ';') + "\"") }

  function FieldOf(col: Column, camel: string -> string): Option<Field> {
    match GoTypeOf(col.typ)
    case None => None
    case Some(goType) =>
      Some(Field(camel(col.name), if col.nullable then "*" + goType else goType, TagOf(Feats(col))))
  }

  // NewFieldFromColumn; `camel` is strcase.ToCamel, None a panic of toGoType.
  method NewFieldFromColumn(col: Column, camel: string -> string) returns (field: Option<Field>)
    ensures field == FieldOf(col, camel)
  {
    var feats: seq<string> := [];
    if col.pk {
      feats := feats + ["pk"];
    }
    if col.autoincrement {
      feats := feats + ["auto"];
    }
    assert feats == When(col.pk, "pk") + When(col.autoincrement, "auto");
    if GoTypeOf(col.typ).None? {
      return None;
    }
    var goType := if col.nullable then "*" + GoTypeOf(col.typ).value else GoTypeOf(col.typ).value;
    if col.nullable && !("*" <= goType) {
      feats := feats + ["null"];
    }
    if !IsBlank(col.typ) {
      feats := feats + [Clause("type", col.typ)];
    }
    ghost var three := When(col.pk, "pk") + When(col.autoincrement, "auto") + When(!IsBlank(col.typ), Clause("type", col.typ));
    assert feats == three;
    if col.default.Some? {
      var val := col.default.value;
      if val == NOW || IsParenthesised(val) {
        feats := feats + [Clause("default", val)];
      } else {
        feats := feats + [Clause("default", "'" + val + "'")];
      }
    }
    assert feats == three + DefaultFeats(col.default);
    if !IsBlank(col.extra) {
      feats := feats + [Clause("extra", col.extra)];
    }
    assert feats == HeadFeats(col);
    for n := 0 to |col.indexes|
      invariant feats + ItemFeats(col.indexes[n..]) == Feats(col)
    {
      var idx := col.indexes[n];
      assert col.indexes[n..][0] == idx && col.indexes[n..][1..] == col.indexes[n + 1..];
      if idx.name == "PRIMARY" {
        continue;
      }
      feats := feats + [ItemFeat(idx)];
    }
    assert feats + [] == feats;
    field := Some(Field(camel(col.name), goType, TagOf(feats)));
  }

  // --- Parsing --------------------------------------------------------------------------

  datatype Ref = Ref(name: string, order: int, sort: string)

  datatype Parsed = Parsed(
    columnType: string, columnDefault: Option<string>, nullable: bool, unsigned: bool, autoincrement: bool,
    extra: string, index: Option<Ref>, unique: Option<Ref>, pk: bool, autoSet: bool)

  const START := Parsed("", None, false, false, false, "", None, None, false, false)

  // The position of a quote followed by a space, or the length.
  function QuoteSpace(s: string): (i: nat)
    ensures i <= |s| && (i < |s| ==> i + 1 < |s|)
    ensures forall j :: 0 <= j < i && j + 1 < |s| ==> !(s[j] == '"' && s[j + 1] == ' ')
  {
    if s == "" then 0
    else if |s| > 1 && s[0] == '"' && s[1] == ' ' then 0
    else 1 + QuoteSpace(s[1..])
  }

  function SplitTags(s: string): seq<string>
    decreases |s|
  {
    var i := QuoteSpace(s);
    if i == |s| then [s] else [s[..i]] + SplitTags(s[i + 2..])
  }

  function TrimQuotes(s: string): string { TrimRightQuotes(TrimLeftQuotes(s)) }

  function TrimLeftQuotes(s: string): string {
    if s != "" && s[0] == '"' then TrimLeftQuotes(s[1..]) else s
  }

  function TrimRightQuotes(s: string): string {
    if s != "" && s[|s| - 1] == '"' then TrimRightQuotes(s[..|s| - 1]) else s
  }

  // The text of the first dd tag.
  function DdTag(tags: seq<string>): string {
    if tags == [] then ""
    else if "dd:" <= tags[0] then TrimQuotes(tags[0][3..])
    else DdTag(tags[1..])
  }

  // name,order[,sort]; None where the source panics.
  function ParseRef(value: string): Option<Ref> {
    var props := Split(value, ',');
    if |props| < 2 || Atoi(props[1]).None? then None
    else Some(Ref(props[0], Atoi(props[1]).value, if |props| < 3 || IsBlank(props[2]) then ASC else props[2]))
  }

  function FeedPair(p: Parsed, key: string, value: string): Option<Parsed> {
    if key == "type" then Some(p.(columnType := value))
    else if key == "default" then Some(p.(columnDefault := Some(value), autoSet := p.autoSet || value == NOW))
    else if key == "extra" then Some(p.(extra := value))
    else if key == "index" then
      (match ParseRef(value) case None => None case Some(r) => Some(p.(index := Some(r))))
    else if key == "unique" then
      (match ParseRef(value) case None => None case Some(r) => Some(p.(unique := Some(r))))
    else Some(p)
  }

  function FeedWord(p: Parsed, key: string, column: string): Parsed {
    if key == "pk" then p.(pk := true)
    else if key == "null" then p.(nullable := true)
    else if key == "unsigned" then p.(unsigned := true)
    else if key == "auto" then p.(autoincrement := true)
    else if key == "index" then p.(index := Some(Ref(column + "_idx", 1, ASC)))
    else if key == "unique" then p.(unique := Some(Ref(column + "_idx", 1, ASC)))
    else p
  }

  // One part of the tag: key:value, or a single word.
  function Feed(p: Parsed, kv: string, column: string): Option<Parsed> {
    var pair := Split(kv, ':');
    if |pair| > 1 then FeedPair(p, pair[0], pair[1]) else Some(FeedWord(p, pair[0], column))
  }

  function FeedAll(p: Parsed, kvs: seq<string>, column: string): Option<Parsed>
    decreases |kvs|
  {
    if kvs == [] then Some(p)
    else match Feed(p, kvs[0], column) case None => None case Some(q) => FeedAll(q, kvs[1..], column)
  }

  // The type of the field decides nullability, and the column type when the tag has none.
  function WithType(p: Parsed, typ: string): Option<Parsed> {
    var q := p.(nullable := p.nullable || "*" <= typ);
    if !IsBlank(q.columnType) then Some(q)
    else match ColumnTypeOf(TrimPrefix(typ, "*")) case None => None case Some(t) => Some(q.(columnType := t))
  }

  function Tagged(tag: string, column: string): Option<Parsed> {
    if IsBlank(tag) then Some(START)
    else
      var ddTag := DdTag(SplitTags(tag));
      if IsBlank(ddTag) then Some(START) else FeedAll(START, Split(ddTag, ';'), column)
  }

  function ParseOf(field: Field, column: string): Option<Parsed> {
    match Tagged(field.tag, column) case None => None case Some(p) => WithType(p, field.typ)
  }

  // One turn of the loop over the fields in NewTableFromStruct, up to the use of what was
  // parsed; `column` is the snake-cased field name.
  method ParseField(field: Field, column: string) returns (r: Option<Parsed>)
    ensures r == ParseOf(field, column)
  {
    var p := START;
    if !IsBlank(field.tag) {
      var tags := SplitTags(field.tag);
      var ddTag := "";
      var i := 0;
      while i < |tags|
        invariant 0 <= i <= |tags|
        invariant ddTag == ""
        invariant DdTag(tags) == DdTag(tags[i..])
      {
        assert tags[i..][0] == tags[i] && tags[i..][1..] == tags[i + 1..];
        if "dd:" <= tags[i] {
          ddTag := TrimQuotes(tags[i][3..]);
          break;
        }
        i := i + 1;
      }
      assert ddTag == DdTag(tags);
      if !IsBlank(ddTag) {
        var kvs := Split(ddTag, ';');
        for n := 0 to |kvs|
          invariant FeedAll(START, kvs, column) == FeedAll(p, kvs[n..], column)
        {
          assert kvs[n..][0] == kvs[n] && kvs[n..][1..] == kvs[n + 1..];
          var next := Feed(p, kvs[n], column);
          if next.None? {
            return None;
          }
          p := next.value;
        }
      }
    }
    r := WithType(p, field.typ);
  }
}
