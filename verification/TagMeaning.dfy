// The dd tag in plain text: what is printed for a column, what every word and clause of a
// tag sets, and which Go type stands for which column type.
//
// The theorems of this module use no constant of the printer or the parser: they spell out
// every text.
module TagMeaning {
  import opened Prelude
  import opened Text
  import opened TagText
  import opened TagRoundTrip

  // --- Types ------------------------------------------------------------------------------

  // The text starts with the lower-case word, in letters of either case.
  predicate StartsWith(s: string, word: string) {
    |word| <= |s| && forall i :: 0 <= i < |word| ==> s[i] == word[i] || ('A' <= s[i] <= 'Z' && s[i] as int + 32 == word[i] as int)
  }

  lemma PrefixRead(s: string, word: string)
    requires forall i :: 0 <= i < |word| ==> 'a' <= word[i] <= 'z'
    ensures HasPrefixI(s, word) <==> StartsWith(s, word)
  {
    if |word| <= |s| {
      forall i | 0 <= i < |word| ensures Lower(s[i]) == word[i] <==> s[i] == word[i] || ('A' <= s[i] <= 'Z' && s[i] as int + 32 == word[i] as int) {
      }
    }
  }

  lemma TypeStep(typ: string, table: seq<(string, string)>, k: nat)
    requires k < |table| && forall i :: 0 <= i < |table| ==> TypeRow(table[i].0, table[i].1)
    ensures FirstType(typ, table[k..]) == if HasPrefixI(typ, table[k].0) then Some(table[k].1) else FirstType(typ, table[k + 1..])
  {
    assert table[k..][0] == table[k] && table[k..][1..] == table[k + 1..];
  }

  // The Go type of every column type, whatever follows its name; other types make the
  // source panic.
  lemma GoTypeIs(typ: string)
    ensures GoTypeOf(typ) ==
            if StartsWith(typ, "int") then Some("int")
            else if StartsWith(typ, "bigint") then Some("int64")
            else if StartsWith(typ, "float") then Some("float32")
            else if StartsWith(typ, "double") then Some("float64")
            else if StartsWith(typ, "varchar") then Some("string")
            else if StartsWith(typ, "text") then Some("string")
            else if StartsWith(typ, "tinyint") then Some("int8")
            else if StartsWith(typ, "datetime") then Some("time.Time")
            else if StartsWith(typ, "mediumtext") then Some("string")
            else if StartsWith(typ, "decimal") then Some("float32")
            else None
  {
    MiddleTypes(typ);
    assert GO_TYPES[0..] == GO_TYPES;
    LastTypes(typ);
    TypesFrom(typ, 0);
    TypesFrom(typ, 1);
  }

  lemma MiddleTypes(typ: string)
    ensures FirstType(typ, GO_TYPES[2..]) ==
            if StartsWith(typ, "float") then Some("float32")
            else if StartsWith(typ, "double") then Some("float64")
            else if StartsWith(typ, "varchar") then Some("string")
            else FirstType(typ, GO_TYPES[5..])
  {
    TypesFrom(typ, 2);
    TypesFrom(typ, 3);
    TypesFrom(typ, 4);
  }

  lemma TypesFrom(typ: string, k: nat)
    requires k < |GO_TYPES|
    ensures FirstType(typ, GO_TYPES[k..]) ==
            if StartsWith(typ, GO_TYPES[k].0) then Some(GO_TYPES[k].1) else FirstType(typ, GO_TYPES[k + 1..])
  {
    TypeRows(GO_TYPES);
    TypeStep(typ, GO_TYPES, k);
    PrefixRead(typ, GO_TYPES[k].0);
  }

  lemma LastTypes(typ: string)
    ensures FirstType(typ, GO_TYPES[5..]) ==
            if StartsWith(typ, "text") then Some("string")
            else if StartsWith(typ, "tinyint") then Some("int8")
            else if StartsWith(typ, "datetime") then Some("time.Time")
            else if StartsWith(typ, "mediumtext") then Some("string")
            else if StartsWith(typ, "decimal") then Some("float32")
            else None
  {
    TypesFrom(typ, 5);
    TypesFrom(typ, 6);
    TypesFrom(typ, 7);
    TypesFrom(typ, 8);
    TypesFrom(typ, 9);
    assert GO_TYPES[10..] == [];
  }

  lemma TypeRows(table: seq<(string, string)>)
    requires table == GO_TYPES
    ensures forall i :: 0 <= i < |table| ==> TypeRow(table[i].0, table[i].1)
    ensures forall i :: 0 <= i < |table| ==> forall k :: 0 <= k < |table[i].0| ==> 'a' <= table[i].0[k] <= 'z'
  {
  }

  // --- The printed tag ---------------------------------------------------------------------

  // The clauses of the indexes, each behind a semicolon.
  function IndexText(items: seq<IndexItem>): string {
    if items == [] then ""
    else if items[0].name == "PRIMARY" then IndexText(items[1..])
    else
      var i := items[0];
      ";" + ((if i.unique then "unique" else "index") + ":" + (i.name + "," + (IntText(i.order) + "," + i.sort))) + IndexText(items[1..])
  }

  predicate InParentheses(v: string) {
    |v| >= 3 && v[0] == '(' && v[|v| - 1] == ')' && forall i :: 0 < i < |v| - 1 ==> v[i] != '\n'
  }

  // A default is quoted unless it is an expression in parentheses or the current time.
  function DefaultClause(default: Option<string>): string {
    match default
    case None => ""
    case Some(v) => ";" + ("default" + ":" + if v == "CURRENT_TIMESTAMP" || InParentheses(v) then v else "'" + v + "'")
  }

  // Everything the tag shows, each clause behind a semicolon.
  function ColumnText(col: Column): string {
    (if col.pk then ";" + "pk" else "") + (if col.autoincrement then ";" + "auto" else "") + (";" + ("type" + ":" + col.typ))
    + DefaultClause(col.default) + (if IsBlank(col.extra) then "" else ";" + ("extra" + ":" + col.extra)) + IndexText(col.indexes)
  }

  function Semicolons(feats: seq<string>): string {
    if feats == [] then "" else ";" + feats[0] + Semicolons(feats[1..])
  }

  lemma {:induction false} SemicolonsConcat(a: seq<string>, b: seq<string>)
    ensures Semicolons(a + b) == Semicolons(a) + Semicolons(b)
    decreases |a|
  {
    if a == [] {
      assert a + b == b;
    } else {
      assert (a + b)[1..] == a[1..] + b;
      SemicolonsConcat(a[1..], b);
    }
  }

  lemma {:induction false} SemicolonsJoin(feats: seq<string>)
    requires feats != []
    ensures Semicolons(feats) == ";" + Join(feats, ';')
  {
    if |feats| > 1 { SemicolonsJoin(feats[1..]); }
  }

  lemma {:induction false} ItemsText(items: seq<IndexItem>)
    ensures Semicolons(ItemFeats(items)) == IndexText(items)
  {
    if items != [] {
      ItemsText(items[1..]);
      if items[0].name != "PRIMARY" {
        assert ([ItemFeat(items[0])] + ItemFeats(items[1..]))[1..] == ItemFeats(items[1..]);
      }
    }
  }

  lemma DefaultClauseText(default: Option<string>)
    ensures Semicolons(DefaultFeats(default)) == DefaultClause(default)
  {
    match default {
      case None =>
      case Some(v) =>
        ParenthesesRead(v);
        OneSemicolon(Clause("default", DefaultText(v)));
    }
  }

  lemma ParenthesesRead(v: string)
    ensures IsParenthesised(v) <==> InParentheses(v)
  {
    if |v| >= 3 {
      var inner := v[1..|v| - 1];
      assert forall i :: 0 < i < |v| - 1 ==> v[i] == inner[i - 1];
    }
  }

  lemma OneSemicolon(feat: string)
    ensures Semicolons([feat]) == ";" + feat
  {
    assert [feat][1..] == [];
    assert ";" + feat + "" == ";" + feat;
  }

  lemma WhenText(cond: bool, feat: string)
    ensures Semicolons(When(cond, feat)) == if cond then ";" + feat else ""
  {
    OneSemicolon(feat);
  }

  lemma HeadText(col: Column)
    requires !IsBlank(col.typ)
    ensures Semicolons(HeadFeats(col)) ==
            (if col.pk then ";" + "pk" else "") + (if col.autoincrement then ";" + "auto" else "") + (";" + ("type" + ":" + col.typ))
            + DefaultClause(col.default) + (if IsBlank(col.extra) then "" else ";" + ("extra" + ":" + col.extra))
  {
    var pk, auto, typ := When(col.pk, "pk"), When(col.autoincrement, "auto"), When(!IsBlank(col.typ), Clause("type", col.typ));
    var default, extra := DefaultFeats(col.default), When(!IsBlank(col.extra), Clause("extra", col.extra));
    FiveParts(pk, auto, typ, default, extra);
    WhenText(col.pk, "pk");
    WhenText(col.autoincrement, "auto");
    WhenText(!IsBlank(col.typ), Clause("type", col.typ));
    WhenText(!IsBlank(col.extra), Clause("extra", col.extra));
    DefaultClauseText(col.default);
  }

  lemma FiveParts(a: seq<string>, b: seq<string>, c: seq<string>, d: seq<string>, e: seq<string>)
    ensures Semicolons(a + b + c + d + e) == Semicolons(a) + Semicolons(b) + Semicolons(c) + Semicolons(d) + Semicolons(e)
  {
    SemicolonsConcat(a, b);
    SemicolonsConcat(a + b, c);
    SemicolonsConcat(a + b + c, d);
    SemicolonsConcat(a + b + c + d, e);
  }

  // The field of a column, letter by letter.
  lemma TagIs(col: Column, camel: string -> string)
    requires FieldOf(col, camel).Some?
    ensures FieldOf(col, camel).value.tag == "dd:\"" + ColumnText(col)[1..] + "\""
  {
    HeadVisible(col);
    SemicolonsConcat(HeadFeats(col), ItemFeats(col.indexes));
    HeadText(col);
    ItemsText(col.indexes);
    SemicolonsJoin(Feats(col));
    assert ColumnText(col) == ";" + Join(Feats(col), ';');
    assert ColumnText(col)[1..] == Join(Feats(col), ';');
  }

  lemma HeadVisible(col: Column)
    requires GoTypeOf(col.typ).Some?
    ensures !IsBlank(col.typ) && Feats(col) != []
  {
    NotBlank(col.typ);
    assert Clause("type", col.typ) in HeadFeats(col);
  }

  // --- What the parser reads ---------------------------------------------------------------

  // The six words of a tag; any other word is ignored.
  lemma Words(p: Parsed, column: string, word: string)
    requires !Has(word, ':')
    ensures Feed(p, word, column) ==
            Some(if word == "pk" then p.(pk := true)
                 else if word == "auto" then p.(autoincrement := true)
                 else if word == "null" then p.(nullable := true)
                 else if word == "unsigned" then p.(unsigned := true)
                 else if word == "index" then p.(index := Some(Ref(column + "_idx", 1, "asc")))
                 else if word == "unique" then p.(unique := Some(Ref(column + "_idx", 1, "asc")))
                 else p)
  {
    WordFed(p, word, column);
  }

  lemma WordFed(p: Parsed, word: string, column: string)
    requires !Has(word, ':')
    ensures Feed(p, word, column) == Some(FeedWord(p, word, column))
  {
    SplitWord(word, ':');
  }

  // The keys of a tag, with a value that has no colon; any other key is ignored.
  lemma Pairs(p: Parsed, column: string, key: string, value: string)
    requires !Has(key, ':') && !Has(value, ':')
    ensures var r := Feed(p, key + ":" + value, column);
            if key == "type" then r == Some(p.(columnType := value))
            else if key == "default" then
              r == Some(p.(columnDefault := Some(value), autoSet := p.autoSet || value == "CURRENT_TIMESTAMP"))
            else if key == "extra" then r == Some(p.(extra := value))
            else key !in ["index", "unique"] ==> r == Some(p)
  {
    FeedClause(p, key, value, column);
  }

  // A value ends at its first colon, and what follows the sort of an index is ignored.
  lemma RestIgnored(p: Parsed, column: string, key: string, value: string, rest: string, name: string, order: int, sort: string)
    requires !Has(key, ':') && !Has(value, ':') && !Has(name, ',') && !Has(sort, ',')
    ensures Feed(p, key + ":" + (value + ":" + rest), column) == Feed(p, key + ":" + value, column)
    ensures ParseRef(name + "," + (IntText(order) + "," + (sort + "," + rest))) == ParseRef(name + "," + (IntText(order) + "," + sort))
  {
    FeedClause(p, key, value, column);
    FeedClause(p, key, value + ":" + rest, column);
    CutAt(value, rest);
    ThreeProps(name, order, sort);
    FourProps(name, order, sort, rest);
  }

  lemma CutAt(value: string, rest: string)
    requires !Has(value, ':')
    ensures Cut(value + ":" + rest) == value
  {
    var s := value + ":" + rest;
    IndexOfConcat(value, ':', rest);
    assert s == value + [':'] + rest && s[..|value|] == value;
  }

  lemma SplitFirst(a: string, b: string)
    requires !Has(a, ',')
    ensures Split(a + "," + b, ',') == [a] + Split(b, ',')
  {
    var s := a + "," + b;
    IndexOfConcat(a, ',', b);
    assert s == a + [','] + b && s[..|a|] == a && s[|a| + 1..] == b;
  }

  lemma FourProps(name: string, order: int, sort: string, rest: string)
    requires !Has(name, ',') && !Has(sort, ',')
    ensures ParseRef(name + "," + (IntText(order) + "," + (sort + "," + rest)))
         == Some(Ref(name, order, if IsBlank(sort) then "asc" else sort))
  {
    NumberLacks(order);
    AtoiIntText(order);
    SplitFirst(name, IntText(order) + "," + (sort + "," + rest));
    SplitFirst(IntText(order), sort + "," + rest);
    SplitFirst(sort, rest);
  }

  // An index clause names its order and may leave out its sort, which then is ascending; one
  // without an order makes the parser fail.
  lemma IndexPairs(p: Parsed, column: string, key: string, name: string, order: int, sort: string)
    requires !Has(name, ':') && !Has(name, ',') && !Has(sort, ':') && !Has(sort, ',')
    requires key == "index" || key == "unique"
    ensures Feed(p, key + ":" + name, column) == None
    ensures Feed(p, key + ":" + (name + "," + IntText(order)), column) == Some(Claimed(p, key, name, order, "asc"))
    ensures Feed(p, key + ":" + (name + "," + (IntText(order) + "," + sort)), column) ==
            Some(Claimed(p, key, name, order, if IsBlank(sort) then "asc" else sort))
  {
    NumberLacks(order);
    SplitWord(name, ',');
    TwoProps(name, order);
    ThreeProps(name, order, sort);
    RefFed(p, column, key, name);
    RefFed(p, column, key, name + "," + IntText(order));
    RefFed(p, column, key, name + "," + (IntText(order) + "," + sort));
  }

  function Claimed(p: Parsed, key: string, name: string, order: int, sort: string): Parsed {
    if key == "index" then p.(index := Some(Ref(name, order, sort))) else p.(unique := Some(Ref(name, order, sort)))
  }

  lemma RefFed(p: Parsed, column: string, key: string, value: string)
    requires !Has(value, ':') && (key == "index" || key == "unique")
    ensures Feed(p, key + ":" + value, column) ==
            match ParseRef(value)
            case None => None
            case Some(r) => Some(Claimed(p, key, r.name, r.order, r.sort))
  {
    FeedClause(p, key, value, column);
  }

  lemma NumberLacks(n: int)
    ensures !Has(IntText(n), ':') && !Has(IntText(n), ',')
  {
    AtoiIntText(n);
  }

  lemma SplitTwo(a: string, b: string)
    requires !Has(a, ',') && !Has(b, ',')
    ensures Split(a + "," + b, ',') == [a, b]
  {
    SplitJoin([a, b], ',');
    assert [a, b][1..] == [b];
  }

  lemma TwoProps(name: string, order: int)
    requires !Has(name, ',')
    ensures ParseRef(name + "," + IntText(order)) == Some(Ref(name, order, "asc"))
  {
    NumberLacks(order);
    AtoiIntText(order);
    SplitTwo(name, IntText(order));
  }

  lemma ThreeProps(name: string, order: int, sort: string)
    requires !Has(name, ',') && !Has(sort, ',')
    ensures ParseRef(name + "," + (IntText(order) + "," + sort)) == Some(Ref(name, order, if IsBlank(sort) then "asc" else sort))
  {
    NumberLacks(order);
    AtoiIntText(order);
    SplitJoin([name, IntText(order), sort], ',');
    JoinThree(name, IntText(order), sort, ',');
  }

  lemma {:induction false} QuoteSpaceAt(s: string, i: nat)
    requires i + 1 < |s| && s[i] == '"' && s[i + 1] == ' ' && Unbroken(s[..i + 1])
    ensures QuoteSpace(s) == i
  {
    if i > 0 {
      assert !(s[0] == '"' && s[1] == ' ') by {
        assert s[..i + 1][0] == s[0] && s[..i + 1][1] == s[1];
      }
      assert s[1..][..i] == s[..i + 1][1..];
      assert forall j :: 0 <= j < |s[1..][..i]| ==> s[1..][..i][j] == s[..i + 1][j + 1];
      QuoteSpaceAt(s[1..], i - 1);
    }
  }

  // Two tags, separated by the closing quote of the first and a space.
  lemma TwoTags(first: string, rest: string)
    requires Unbroken(first)
    ensures SplitTags(first + "\" " + rest) == [first] + SplitTags(rest)
  {
    var s, n := first + "\" " + rest, |first|;
    assert s[n] == '"' && s[n + 1] == ' ' && s[..n] == first && s[n + 2..] == rest;
    assert Unbroken(s[..n + 1]) by {
      assert forall j :: 0 <= j < n ==> s[..n + 1][j] == first[j];
    }
    QuoteSpaceAt(s, n);
  }

  // Tags of other packages before the dd tag do not matter,
  lemma OtherTagsSkipped(other: string, tag: string, column: string)
    requires Unbroken(other) && !("dd:" <= other) && !IsBlank(other) && !IsBlank(tag)
    ensures Tagged(other + "\" " + tag, column) == Tagged(tag, column)
  {
    var tags := SplitTags(tag);
    TwoTags(other, tag);
    assert ([other] + tags)[1..] == tags;
    StaysVisible(other, "\" " + tag);
    assert other + ("\" " + tag) == other + "\" " + tag;
  }

  // nor do tags behind it.
  lemma LaterTagsIgnored(body: string, rest: string, column: string)
    requires Unbroken(body) && body != "" && body[0] != '"' && body[0] != ' '
    ensures Tagged("dd:\"" + body + "\" " + rest, column) == Tagged("dd:\"" + (body + "\""), column)
  {
    var open, tag := "dd:\"" + body, "dd:\"" + (body + "\"");
    assert open == "dd:" + ("\"" + body) && tag == "dd:" + ("\"" + (body + "\""));
    TagUnbroken(body, tag);
    assert forall j :: 0 <= j < |open| ==> open[j] == tag[j];
    TwoTags(open, rest);
    NoQuoteSpace(tag);
    assert SplitTags(tag) == [tag];
    OneDdTag(tag, "\"" + (body + "\""), []);
    OneDdTag(open, "\"" + body, SplitTags(rest));
    TrimQuotesIs(body);
    OpeningTrimmed(body);
    NotBlank(tag);
    NotBlank(open + "\" " + rest);
  }

  lemma OneDdTag(tag: string, inside: string, more: seq<string>)
    requires tag == "dd:" + inside
    ensures DdTag([tag] + more) == TrimQuotes(inside)
  {
    assert tag[3..] == inside && tag[..3] == "dd:";
  }

  lemma OpeningTrimmed(body: string)
    requires body != "" && body[0] != '"'
    ensures TrimQuotes("\"" + body) == TrimRightQuotes(body)
  {
    var s := "\"" + body;
    assert s[0] == '"' && s[1..] == body;
    assert TrimLeftQuotes(body) == body;
    assert TrimLeftQuotes(s) == body;
  }

  lemma StaysVisible(a: string, b: string)
    requires !IsBlank(a)
    ensures !IsBlank(a + b)
  {
    BlankIff(a);
    BlankIff(a + b);
    assert forall i :: 0 <= i < |a| ==> (a + b)[i] == a[i];
  }

  // A field without a tag gets its column type from its Go type, and may be null when it is a
  // pointer.
  lemma Untagged(name: string, goType: string, typ: string, column: string)
    requires typ == goType || typ == "*" + goType
    requires goType in ["int", "int16", "int32", "int64", "float32", "float64", "string", "bool", "int8", "time.Time"]
    ensures ParseOf(Field(name, typ, ""), column) ==
            Some(Parsed(if goType in ["int", "int16", "int32"] then "INT"
                        else if goType == "int64" then "BIGINT"
                        else if goType == "float32" then "FLOAT"
                        else if goType == "float64" then "DOUBLE"
                        else if goType == "string" then "VARCHAR(255)"
                        else if goType == "time.Time" then "DATETIME"
                        else "TINYINT",
                        None, typ != goType, false, false, "", None, None, false, false))
  {
    assert goType != "" && 'a' <= goType[0] <= 'z';
    assert TrimPrefix(typ, "*") == goType;
    assert "*" <= typ <==> typ != goType;
  }
}
