// What parsing a printed dd tag gives back, and the exact condition on the column's texts.
//
// The tag is one text between quotes, its clauses are joined by semicolons, and a clause is a
// word or key:value. The parser undoes these layers in turn, and each layer can lose
// something: a quote before a space ends the tag early, quotes at the very end are trimmed, a
// semicolon splits a clause in two, and a value ends at its first colon (Cut). What reaches
// the parser is stated for all texts that keep the clauses apart (ColumnFed); from there
// AfterHead says what every clause adds, whatever it contains. The indexes only need that
// much (IndexesParsed). The texts themselves come back when nothing is cut either
// (RoundTrip), and the converse holds because no parsed text contains a separator
// (ParsedTexts) and a trimmed one is shorter (QuoteLost).
module TagRoundTrip {
  import opened Prelude
  import opened Text
  import opened TagText

  predicate Quoteless(t: string) { !Has(t, '"') }

  // Free of the two separators of the tag.
  predicate Clean(t: string) { !Has(t, ';') && !Has(t, ':') }

  // A quote followed by a space separates the tags of a field.
  predicate Unbroken(t: string) {
    forall i :: 0 <= i < |t| - 1 ==> !(t[i] == '"' && t[i + 1] == ' ')
  }

  predicate EndsQuoted(t: string) { t != "" && t[|t| - 1] == '"' }

  predicate CleanItem(i: IndexItem) {
    && Clean(i.name) && Quoteless(i.name) && !Has(i.name, ',')
    && Clean(i.sort) && Quoteless(i.sort) && !Has(i.sort, ',')
  }

  predicate CleanItems(items: seq<IndexItem>) {
    forall i :: 0 <= i < |items| ==> CleanItem(items[i])
  }

  // What is required of each text of a column that the tag shows.
  predicate Texts(col: Column, ok: string -> bool) {
    && ok(col.typ) && (IsBlank(col.extra) || ok(col.extra))
    && (col.default.Some? ==> ok(col.default.value))
  }

  predicate CleanColumn(col: Column) { Texts(col, Clean) }
  predicate UnbrokenColumn(col: Column) { Texts(col, Unbroken) }
  predicate SemicolonFree(col: Column) { Texts(col, (t: string) => !Has(t, ';')) }

  // The text between the quotes of the tag.
  function Body(col: Column): string { Join(Feats(col), ';') }

  // The last index item of a kind wins; PRIMARY is never printed.
  function LastRef(items: seq<IndexItem>, unique: bool, before: Option<Ref>): Option<Ref> {
    if items == [] then before
    else LastRef(items[1..], unique, if items[0].name == "PRIMARY" || items[0].unique != unique then before else Some(RefOf(items[0])))
  }

  function RefOf(i: IndexItem): Ref { Ref(i.name, i.order, if IsBlank(i.sort) then ASC else i.sort) }

  function Shown(default: Option<string>): Option<string> {
    match default case None => None case Some(v) => Some(DefaultText(v))
  }

  function ShownExtra(extra: string): string { if IsBlank(extra) then "" else extra }

  // Everything but the unsigned flag, which is not printed.
  function Expected(col: Column): Parsed {
    Parsed(col.typ, Shown(col.default), col.nullable, false, col.autoincrement, ShownExtra(col.extra),
           LastRef(col.indexes, false, None), LastRef(col.indexes, true, None), col.pk, col.default == Some(NOW))
  }

  // --- The tag text ---------------------------------------------------------------------

  lemma {:induction false} NoQuoteSpace(s: string)
    requires Unbroken(s)
    ensures QuoteSpace(s) == |s|
  {
    if s != "" {
      forall i | 0 <= i < |s[1..]| - 1 ensures !(s[1..][i] == '"' && s[1..][i + 1] == ' ') {
        assert s[1..][i] == s[i + 1] && s[1..][i + 1] == s[i + 2];
      }
      NoQuoteSpace(s[1..]);
    }
  }

  lemma {:induction false} TrimRightConcat(a: string, b: string)
    requires a != "" && !EndsQuoted(a)
    ensures TrimRightQuotes(a + b) == a + TrimRightQuotes(b)
    decreases |b|
  {
    if b == "" {
      assert a + b == a;
    } else {
      assert (a + b)[..|a + b| - 1] == a + b[..|b| - 1];
      TrimRightConcat(a, b[..|b| - 1]);
    }
  }

  lemma TrimQuotesIs(body: string)
    requires body != "" && body[0] != '"'
    ensures TrimQuotes("\"" + (body + "\"")) == TrimRightQuotes(body)
  {
    var t := body + "\"";
    var s := "\"" + t;
    assert s[1..] == t && t[0] == body[0];
    assert TrimLeftQuotes(s) == t;
    assert t[..|t| - 1] == body;
  }

  lemma UnbrokenConcat(a: string, c: char, b: string)
    requires Unbroken(a) && Unbroken(b) && c != '"' && c != ' '
    ensures Unbroken(a + [c] + b)
  {
    var s := a + [c] + b;
    forall i | 0 <= i < |s| - 1 ensures !(s[i] == '"' && s[i + 1] == ' ') {
      if i > |a| { assert s[i] == b[i - |a| - 1] && s[i + 1] == b[i - |a|]; }
    }
  }

  lemma {:induction false} JoinUnbroken(feats: seq<string>)
    requires forall i :: 0 <= i < |feats| ==> Unbroken(feats[i])
    ensures Unbroken(Join(feats, ';'))
  {
    if |feats| > 1 {
      JoinUnbroken(feats[1..]);
      UnbrokenConcat(feats[0], ';', Join(feats[1..], ';'));
    }
  }

  // The parser sees the printed clauses, without quotes at the end of the last one.
  lemma TaggedIs(feats: seq<string>, column: string)
    requires feats != [] && feats[0] != "" && !IsSpace(feats[0][0]) && feats[0][0] != '"'
    requires forall i :: 0 <= i < |feats| ==> Unbroken(feats[i])
    ensures Tagged(TagOf(feats), column) == FeedAll(START, Split(TrimRightQuotes(Join(feats, ';')), ';'), column)
  {
    var body, tag := Join(feats, ';'), TagOf(feats);
    JoinUnbroken(feats);
    assert body != "" && body[0] == feats[0][0];
    TagUnbroken(body, tag);
    NoQuoteSpace(tag);
    NotBlank(tag);
    assert tag[3..] == "\"" + (body + "\"") && tag[..3] == "dd:";
    TrimQuotesIs(body);
    assert DdTag([tag]) == TrimRightQuotes(body);
    FirstStays(body);
    NotBlank(TrimRightQuotes(body));
  }

  lemma TagUnbroken(body: string, tag: string)
    requires tag == "dd:\"" + (body + "\"") && Unbroken(body) && body != "" && body[0] != ' '
    ensures Unbroken(tag) && tag[0] == 'd'
  {
    assert tag[0] == 'd' && tag[1] == 'd' && tag[2] == ':' && tag[3] == '"' && tag[|tag| - 1] == '"';
    forall i | 0 <= i < |tag| - 1 ensures !(tag[i] == '"' && tag[i + 1] == ' ') {
      if 4 <= i { assert tag[i] == body[i - 4]; }
      if 3 <= i < |tag| - 2 { assert tag[i + 1] == body[i - 3]; }
    }
  }

  lemma {:induction false} FirstStays(s: string)
    requires s != "" && s[0] != '"'
    ensures TrimRightQuotes(s) != "" && TrimRightQuotes(s)[0] == s[0]
    decreases |s|
  {
    if EndsQuoted(s) { FirstStays(s[..|s| - 1]); }
  }

  // Trimming the whole text trims the last clause.
  function TrimLast(feats: seq<string>): seq<string> {
    if feats == [] then [] else feats[..|feats| - 1] + [TrimRightQuotes(feats[|feats| - 1])]
  }

  lemma {:induction false} TrimJoin(feats: seq<string>)
    requires feats != []
    ensures TrimRightQuotes(Join(feats, ';')) == Join(TrimLast(feats), ';')
  {
    if |feats| > 1 {
      var rest := feats[1..];
      TrimJoin(rest);
      TrimRightConcat(feats[0] + ";", Join(rest, ';'));
      assert feats[0] + ";" + Join(rest, ';') == feats[0] + [';'] + Join(rest, ';');
      assert TrimLast(feats)[1..] == TrimLast(rest) && TrimLast(feats)[0] == feats[0];
    }
  }

  lemma {:induction false} TrimSubset(s: string, c: char)
    requires !Has(s, c)
    ensures !Has(TrimRightQuotes(s), c)
    decreases |s|
  {
    if EndsQuoted(s) { TrimSubset(s[..|s| - 1], c); }
  }

  // So the parser is fed the clauses, the last one trimmed.
  lemma FedIs(feats: seq<string>, column: string)
    requires feats != [] && feats[0] != "" && !IsSpace(feats[0][0]) && feats[0][0] != '"'
    requires forall i :: 0 <= i < |feats| ==> Unbroken(feats[i]) && !Has(feats[i], ';')
    ensures Tagged(TagOf(feats), column) == FeedAll(START, TrimLast(feats), column)
  {
    TaggedIs(feats, column);
    TrimJoin(feats);
    TrimLastLacks(feats, ';');
    SplitJoin(TrimLast(feats), ';');
  }

  lemma TrimLastLacks(feats: seq<string>, c: char)
    requires feats != [] && forall i :: 0 <= i < |feats| ==> !Has(feats[i], c)
    ensures forall i :: 0 <= i < |TrimLast(feats)| ==> !Has(TrimLast(feats)[i], c)
  {
    TrimSubset(feats[|feats| - 1], c);
  }

  // --- Feeding the clauses --------------------------------------------------------------

  lemma {:induction false} FeedConcat(p: Parsed, a: seq<string>, b: seq<string>, column: string)
    ensures FeedAll(p, a + b, column) ==
            match FeedAll(p, a, column) case None => None case Some(q) => FeedAll(q, b, column)
    decreases |a|
  {
    if a == [] {
      assert a + b == b;
    } else {
      assert (a + b)[1..] == a[1..] + b;
      var q := Feed(p, a[0], column);
      if q.Some? { FeedConcat(q.value, a[1..], b, column); }
    }
  }

  // What the parser keeps of a value: everything up to the first colon.
  function Cut(value: string): (cut: string)
    ensures |cut| <= |value|
    ensures !Has(value, ':') ==> cut == value
  {
    var parts := Split(value, ':');
    if |parts| == 1 then assert Join(parts, ':') == value; parts[0] else parts[0]
  }

  lemma SplitClause(key: string, value: string)
    requires !Has(key, ':')
    ensures var parts := Split(Clause(key, value), ':');
            |parts| > 1 && parts[0] == key && parts[1] == Cut(value)
  {
    var s := Clause(key, value);
    assert s == key + [':'] + value;
    IndexOfConcat(key, ':', value);
    assert s[..|key|] == key && s[|key| + 1..] == value;
    assert Split(s, ':') == [key] + Split(value, ':');
  }

  lemma SplitWord(word: string, sep: char)
    requires !Has(word, sep)
    ensures Split(word, sep) == [word]
  {
  }

  lemma FeedOne(p: Parsed, feat: string, column: string)
    ensures FeedAll(p, [feat], column) == Feed(p, feat, column)
  {
  }

  lemma FeedFlags(p: Parsed, column: string)
    ensures Feed(p, "pk", column) == Some(p.(pk := true))
    ensures Feed(p, "auto", column) == Some(p.(autoincrement := true))
  {
    SplitWord("pk", ':');
    SplitWord("auto", ':');
  }

  lemma FeedTexts(p: Parsed, value: string, column: string)
    ensures Feed(p, Clause("type", value), column) == Some(p.(columnType := Cut(value)))
    ensures Feed(p, Clause("default", value), column)
         == Some(p.(columnDefault := Some(Cut(value)), autoSet := p.autoSet || Cut(value) == NOW))
    ensures Feed(p, Clause("extra", value), column) == Some(p.(extra := Cut(value)))
  {
    FeedClause(p, "type", value, column);
    FeedClause(p, "default", value, column);
    FeedClause(p, "extra", value, column);
  }

  lemma FeedClause(p: Parsed, key: string, value: string, column: string)
    requires !Has(key, ':')
    ensures Feed(p, Clause(key, value), column) == FeedPair(p, key, Cut(value))
  {
    SplitClause(key, value);
  }

  // What the clauses of the head add, whatever their texts.
  function AfterHead(col: Column): Parsed {
    var default := match col.default case None => None case Some(v) => Some(Cut(DefaultText(v)));
    START.(pk := col.pk, autoincrement := col.autoincrement, columnType := Cut(col.typ),
           columnDefault := default, autoSet := default == Some(NOW),
           extra := if IsBlank(col.extra) then "" else Cut(col.extra))
  }

  lemma AfterCleanHead(col: Column)
    requires CleanColumn(col)
    ensures AfterHead(col) ==
            START.(pk := col.pk, autoincrement := col.autoincrement, columnType := col.typ,
                   columnDefault := Shown(col.default), autoSet := col.default == Some(NOW), extra := ShownExtra(col.extra))
  {
    if col.default.Some? { DefaultIsNow(col.default.value); }
  }

  lemma DefaultIsNow(v: string)
    ensures DefaultText(v) == NOW <==> v == NOW
    ensures Clean(DefaultText(v)) <==> Clean(v)
    ensures !Has(v, ';') ==> !Has(DefaultText(v), ';')
  {
    if v != NOW && !IsParenthesised(v) {
      assert DefaultText(v) == "'" + v + "'" && DefaultText(v)[0] == '\'';
      assert forall c :: c in v ==> c in DefaultText(v);
    }
    assert Clean(NOW);
  }

  lemma FeedHead(col: Column, column: string)
    requires !IsBlank(col.typ)
    ensures FeedAll(START, HeadFeats(col), column) == Some(AfterHead(col))
  {
    var a, b, c := When(col.pk, "pk"), When(col.autoincrement, "auto"), [Clause("type", col.typ)];
    var d, e := DefaultFeats(col.default), When(!IsBlank(col.extra), Clause("extra", col.extra));
    var p1 := START.(pk := col.pk);
    var p2 := p1.(autoincrement := col.autoincrement);
    var p3 := p2.(columnType := Cut(col.typ));
    var p4 := p3.(columnDefault := AfterHead(col).columnDefault, autoSet := AfterHead(col).autoSet);
    FeedFlags(START, column);
    FeedFlags(p1, column);
    FeedTexts(p2, col.typ, column);
    FeedOne(START, "pk", column);
    FeedOne(p1, "auto", column);
    FeedOne(p2, Clause("type", col.typ), column);
    assert FeedAll(START, a, column) == Some(p1);
    assert FeedAll(p1, b, column) == Some(p2);
    assert FeedAll(p2, c, column) == Some(p3);
    if col.default.Some? {
      FeedTexts(p3, DefaultText(col.default.value), column);
      FeedOne(p3, Clause("default", DefaultText(col.default.value)), column);
    }
    assert FeedAll(p3, d, column) == Some(p4);
    if !IsBlank(col.extra) {
      FeedTexts(p4, col.extra, column);
      FeedOne(p4, Clause("extra", col.extra), column);
    }
    assert FeedAll(p4, e, column) == Some(AfterHead(col));
    FeedConcat(START, a, b, column);
    FeedConcat(START, a + b, c, column);
    FeedConcat(START, a + b + c, d, column);
    FeedConcat(START, a + b + c + d, e, column);
  }

  function ItemValue(i: IndexItem): string { i.name + "," + (IntText(i.order) + "," + i.sort) }

  lemma ItemValueLacks(i: IndexItem, c: char)
    requires CleanItem(i) && (c == ';' || c == ':' || c == '"')
    ensures !Has(ItemValue(i), c)
  {
    AtoiIntText(i.order);
  }

  lemma JoinThree(a: string, b: string, d: string, sep: char)
    ensures Join([a, b, d], sep) == a + [sep] + (b + [sep] + d)
  {
    var all := [a, b, d];
    var two := [b, d];
    assert all[1..] == two && two[1..] == [d];
    assert Join(two, sep) == b + [sep] + Join([d], sep);
    assert Join(all, sep) == a + [sep] + Join(two, sep);
  }

  lemma ParseItemValue(i: IndexItem)
    requires CleanItem(i)
    ensures ParseRef(ItemValue(i)) == Some(RefOf(i))
  {
    AtoiIntText(i.order);
    JoinThree(i.name, IntText(i.order), i.sort, ',');
    SplitJoin([i.name, IntText(i.order), i.sort], ',');
  }

  lemma PairIndex(p: Parsed, value: string, r: Ref)
    requires ParseRef(value) == Some(r)
    ensures FeedPair(p, "index", value) == Some(p.(index := Some(r)))
    ensures FeedPair(p, "unique", value) == Some(p.(unique := Some(r)))
  {
  }

  lemma FeedItem(p: Parsed, i: IndexItem, column: string)
    requires CleanItem(i)
    ensures Feed(p, ItemFeat(i), column) ==
            Some(if i.unique then p.(unique := Some(RefOf(i))) else p.(index := Some(RefOf(i))))
  {
    var key := if i.unique then "unique" else "index";
    ItemValueLacks(i, ':');
    ParseItemValue(i);
    SplitClause(key, ItemValue(i));
    PairIndex(p, ItemValue(i), RefOf(i));
  }

  lemma {:induction false} FeedItems(p: Parsed, items: seq<IndexItem>, column: string)
    requires CleanItems(items)
    ensures FeedAll(p, ItemFeats(items), column) ==
            Some(p.(index := LastRef(items, false, p.index), unique := LastRef(items, true, p.unique)))
    decreases |items|
  {
    if items != [] {
      if items[0].name == "PRIMARY" {
        FeedItems(p, items[1..], column);
      } else {
        FeedItem(p, items[0], column);
        var q := Feed(p, ItemFeat(items[0]), column).value;
        FeedItems(q, items[1..], column);
        assert ItemFeats(items)[1..] == ItemFeats(items[1..]);
      }
    }
  }

  // --- The clauses of a column ------------------------------------------------------------

  // A clause that does not touch the indexes.
  ghost predicate HeadClause(f: string) {
    || f == "pk" || f == "auto"
    || (exists value :: f == Clause("type", value))
    || (exists value :: f == Clause("default", value))
    || (exists value :: f == Clause("extra", value))
  }

  lemma {:induction false} HeadKeepsIndexes(p: Parsed, feats: seq<string>, column: string)
    requires forall i :: 0 <= i < |feats| ==> HeadClause(feats[i])
    ensures var q := FeedAll(p, feats, column);
            q.Some? && q.value.index == p.index && q.value.unique == p.unique
    decreases |feats|
  {
    if feats != [] {
      HeadClauseKeeps(p, feats[0], column);
      HeadKeepsIndexes(Feed(p, feats[0], column).value, feats[1..], column);
    }
  }

  lemma HeadClauseKeeps(p: Parsed, f: string, column: string)
    requires HeadClause(f)
    ensures var q := Feed(p, f, column);
            q.Some? && q.value.index == p.index && q.value.unique == p.unique
  {
    FeedFlags(p, column);
    if value :| f == Clause("type", value) { FeedTexts(p, value, column); }
    if value :| f == Clause("default", value) { FeedTexts(p, value, column); }
    if value :| f == Clause("extra", value) { FeedTexts(p, value, column); }
  }

  lemma TrimClause(key: string, value: string)
    ensures TrimRightQuotes(Clause(key, value)) == Clause(key, TrimRightQuotes(value))
  {
    TrimRightConcat(key + ":", value);
  }

  lemma TrimmedHeadClause(f: string)
    requires HeadClause(f)
    ensures HeadClause(TrimRightQuotes(f))
  {
    if value :| f == Clause("type", value) {
      TrimClause("type", value);
    } else if value :| f == Clause("default", value) {
      TrimClause("default", value);
    } else if value :| f == Clause("extra", value) {
      TrimClause("extra", value);
    } else {
      assert TrimRightQuotes(f) == f;
    }
  }

  lemma ClauseUnbroken(key: string, value: string)
    requires Quoteless(key) && Unbroken(value)
    ensures Unbroken(Clause(key, value))
  {
    UnbrokenConcat(key, ':', value);
    assert Clause(key, value) == key + [':'] + value;
  }

  lemma DefaultUnbroken(v: string)
    ensures Unbroken(DefaultText(v)) <==> Unbroken(v)
    ensures !EndsQuoted(DefaultText(v)) && DefaultText(v) != ""
  {
    if v != NOW && !IsParenthesised(v) {
      var t := DefaultText(v);
      assert t == "'" + v + "'" && t[|t| - 1] == '\'';
      assert forall i :: 0 <= i < |v| ==> t[i + 1] == v[i];
      forall i | 0 <= i < |v| - 1 && !Unbroken(v) && v[i] == '"' && v[i + 1] == ' ' ensures !Unbroken(t) {
        assert t[i + 1] == '"' && t[i + 2] == ' ';
      }
    }
  }

  lemma HeadClauses(col: Column)
    requires !IsBlank(col.typ)
    ensures HeadFeats(col) != [] && HeadFeats(col)[0] != "" && HeadFeats(col)[0][0] in "pat"
    ensures forall i :: 0 <= i < |HeadFeats(col)| ==> HeadClause(HeadFeats(col)[i])
  {
    var t := Clause("type", col.typ);
    assert t[0] == 't' && HeadClause(t);
    if !IsBlank(col.extra) { assert HeadClause(Clause("extra", col.extra)); }
    if col.default.Some? { assert HeadClause(Clause("default", DefaultText(col.default.value))); }
  }

  predicate Carried(f: string) { Unbroken(f) && !Has(f, ';') }

  lemma HeadCarried(col: Column)
    requires UnbrokenColumn(col) && SemicolonFree(col)
    ensures forall i :: 0 <= i < |HeadFeats(col)| ==> Carried(HeadFeats(col)[i])
  {
    ClauseUnbroken("type", col.typ);
    assert Carried(Clause("type", col.typ));
    if !IsBlank(col.extra) {
      ClauseUnbroken("extra", col.extra);
      assert Carried(Clause("extra", col.extra));
    }
    DefaultCarried(col);
  }

  lemma DefaultCarried(col: Column)
    requires UnbrokenColumn(col) && SemicolonFree(col)
    ensures forall i :: 0 <= i < |DefaultFeats(col.default)| ==> Carried(DefaultFeats(col.default)[i])
  {
    if col.default.Some? {
      DefaultUnbroken(col.default.value);
      DefaultIsNow(col.default.value);
      ClauseUnbroken("default", DefaultText(col.default.value));
    }
  }

  lemma ItemCarried(i: IndexItem)
    requires CleanItem(i)
    ensures Carried(ItemFeat(i)) && Quoteless(ItemFeat(i))
  {
    ItemValueLacks(i, '"');
    ItemValueLacks(i, ';');
  }

  lemma {:induction false} ItemsCarried(items: seq<IndexItem>)
    requires CleanItems(items)
    ensures forall i :: 0 <= i < |ItemFeats(items)| ==> Carried(ItemFeats(items)[i]) && Quoteless(ItemFeats(items)[i])
  {
    if items != [] {
      ItemsCarried(items[1..]);
      ItemCarried(items[0]);
    }
  }

  // The clauses that reach the parser: only the last one of the head can be trimmed, and
  // only if no index clause follows.
  function Reaching(head: seq<string>, items: seq<string>): seq<string> {
    if items == [] then TrimLast(head) else head + items
  }

  lemma PartsFed(head: seq<string>, items: seq<string>, column: string)
    requires head != [] && head[0] != "" && head[0][0] in "pat"
    requires forall i :: 0 <= i < |head| ==> Carried(head[i])
    requires forall i :: 0 <= i < |items| ==> Carried(items[i]) && Quoteless(items[i])
    ensures Tagged(TagOf(head + items), column) == FeedAll(START, Reaching(head, items), column)
  {
    var feats := head + items;
    FedIs(feats, column);
    if items == [] {
      assert feats == head;
    } else {
      assert feats[|feats| - 1] == items[|items| - 1];
      LastStays(feats);
    }
  }

  lemma ColumnFed(col: Column, column: string)
    requires GoTypeOf(col.typ).Some? && CleanItems(col.indexes) && UnbrokenColumn(col) && SemicolonFree(col)
    ensures Tagged(TagOf(Feats(col)), column) == FeedAll(START, Reaching(HeadFeats(col), ItemFeats(col.indexes)), column)
  {
    NotBlank(col.typ);
    HeadClauses(col);
    HeadCarried(col);
    ItemsCarried(col.indexes);
    PartsFed(HeadFeats(col), ItemFeats(col.indexes), column);
  }

  // --- The indexes --------------------------------------------------------------------------

  lemma IndexesFed(head: seq<string>, items: seq<IndexItem>, column: string)
    requires head != [] && CleanItems(items) && forall i :: 0 <= i < |head| ==> HeadClause(head[i])
    ensures var p := FeedAll(START, Reaching(head, ItemFeats(items)), column);
            p.Some? && p.value.index == LastRef(items, false, None) && p.value.unique == LastRef(items, true, None)
  {
    if ItemFeats(items) == [] {
      TrimmedHeadClause(head[|head| - 1]);
      HeadKeepsIndexes(START, TrimLast(head), column);
      FeedItems(START, items, column);
    } else {
      HeadKeepsIndexes(START, head, column);
      FeedConcat(START, head, ItemFeats(items), column);
      FeedItems(FeedAll(START, head, column).value, items, column);
    }
  }

  lemma TypeKeepsIndexes(p: Parsed, typ: string, nullable: bool)
    requires GoTypeOf(typ).Some?
    ensures var q := WithType(p, if nullable then "*" + GoTypeOf(typ).value else GoTypeOf(typ).value);
            q.Some? && q.value.index == p.index && q.value.unique == p.unique
  {
    StarTrimmed(GoTypeOf(typ).value);
  }

  // Whatever else the texts contain, the last index clause of each kind is recovered.
  lemma IndexesParsed(col: Column, camel: string -> string, column: string)
    requires GoTypeOf(col.typ).Some? && CleanItems(col.indexes) && UnbrokenColumn(col) && SemicolonFree(col)
    ensures FieldOf(col, camel).Some?
    ensures var p := ParseOf(FieldOf(col, camel).value, column);
            && p.Some?
            && p.value.index == LastRef(col.indexes, false, None)
            && p.value.unique == LastRef(col.indexes, true, None)
  {
    ColumnFed(col, column);
    NotBlank(col.typ);
    HeadClauses(col);
    IndexesFed(HeadFeats(col), col.indexes, column);
    TypeKeepsIndexes(Tagged(TagOf(Feats(col)), column).value, col.typ, col.nullable);
  }

  lemma StarTrimmed(goType: string)
    requires goType != "" && goType[0] != '*'
    ensures TrimPrefix("*" + goType, "*") == goType && TrimPrefix(goType, "*") == goType
    ensures "*" <= "*" + goType && !("*" <= goType)
  {
  }

  // --- The round trip -----------------------------------------------------------------------

  lemma CleanIsSemicolonFree(col: Column)
    requires CleanColumn(col)
    ensures SemicolonFree(col)
  {
  }

  lemma {:induction false} LastOfJoin(feats: seq<string>)
    requires feats != [] && feats[|feats| - 1] != ""
    ensures EndsQuoted(Join(feats, ';')) <==> EndsQuoted(feats[|feats| - 1])
  {
    if |feats| > 1 {
      LastOfJoin(feats[1..]);
      var rest := Join(feats[1..], ';');
      assert rest != "" by { LastNotEmpty(feats[1..]); }
      var s := Join(feats, ';');
      assert s[|s| - 1] == rest[|rest| - 1];
    }
  }

  lemma {:induction false} LastNotEmpty(feats: seq<string>)
    requires feats != [] && feats[|feats| - 1] != ""
    ensures Join(feats, ';') != ""
  {
  }

  // Clean texts: parsing the printed field gives everything back but the unsigned flag.
  lemma RoundTrip(col: Column, camel: string -> string, column: string)
    requires GoTypeOf(col.typ).Some? && CleanItems(col.indexes)
    requires CleanColumn(col) && UnbrokenColumn(col) && !EndsQuoted(Body(col))
    ensures FieldOf(col, camel).Some?
    ensures ParseOf(FieldOf(col, camel).value, column) == Some(Expected(col))
  {
    CleanIsSemicolonFree(col);
    ColumnFed(col, column);
    NotBlank(col.typ);
    HeadClauses(col);
    AfterCleanHead(col);
    FeedHead(col, column);
    FeedItems(AfterHead(col), col.indexes, column);
    FeedConcat(START, HeadFeats(col), ItemFeats(col.indexes), column);
    Untrimmed(HeadFeats(col), ItemFeats(col.indexes));
    StarTrimmed(GoTypeOf(col.typ).value);
  }

  lemma Untrimmed(head: seq<string>, items: seq<string>)
    requires head != [] && !EndsQuoted(Join(head + items, ';'))
    ensures Reaching(head, items) == head + items
  {
    if items == [] {
      assert head + items == head;
      if head[|head| - 1] != "" { LastOfJoin(head); }
      LastStays(head);
    }
  }

  lemma LastStays(feats: seq<string>)
    requires feats != [] && !EndsQuoted(feats[|feats| - 1])
    ensures TrimLast(feats) == feats
  {
  }

  // --- What can never come back ---------------------------------------------------------------

  predicate Parsable(t: string) { Clean(t) && Unbroken(t) }

  predicate ParsableTexts(p: Parsed) {
    Parsable(p.columnType) && Parsable(p.extra) && (p.columnDefault.Some? ==> Parsable(p.columnDefault.value))
  }

  lemma {:induction false} SplitUnbroken(s: string, sep: char)
    requires Unbroken(s)
    ensures forall i :: 0 <= i < |Split(s, sep)| ==> Unbroken(Split(s, sep)[i])
    decreases |s|
  {
    var i := IndexOf(s, sep);
    if i < |s| {
      assert Unbroken(s[..i]);
      assert Unbroken(s[i + 1..]);
      SplitUnbroken(s[i + 1..], sep);
    }
  }

  lemma {:induction false} SplitTagsUnbroken(s: string)
    ensures forall i :: 0 <= i < |SplitTags(s)| ==> Unbroken(SplitTags(s)[i])
    decreases |s|
  {
    var i := QuoteSpace(s);
    if i < |s| { SplitTagsUnbroken(s[i + 2..]); }
  }

  lemma {:induction false} TrimRightUnbroken(s: string)
    requires Unbroken(s)
    ensures Unbroken(TrimRightQuotes(s))
    decreases |s|
  {
    if EndsQuoted(s) { TrimRightUnbroken(s[..|s| - 1]); }
  }

  lemma {:induction false} TrimLeftUnbroken(s: string)
    requires Unbroken(s)
    ensures Unbroken(TrimLeftQuotes(s))
  {
    if s != "" && s[0] == '"' {
      assert forall i :: 0 <= i < |s[1..]| ==> s[1..][i] == s[i + 1];
      TrimLeftUnbroken(s[1..]);
    }
  }

  lemma {:induction false} DdTagUnbroken(tags: seq<string>)
    requires forall i :: 0 <= i < |tags| ==> Unbroken(tags[i])
    ensures Unbroken(DdTag(tags))
  {
    if tags != [] {
      if "dd:" <= tags[0] {
        var t := tags[0][3..];
        assert forall i :: 0 <= i < |t| ==> t[i] == tags[0][i + 3];
        TrimLeftUnbroken(t);
        TrimRightUnbroken(TrimLeftQuotes(t));
      } else {
        DdTagUnbroken(tags[1..]);
      }
    }
  }

  lemma FeedOneParsable(p: Parsed, kv: string, column: string)
    requires ParsableTexts(p) && Carried(kv)
    ensures Feed(p, kv, column).Some? ==> ParsableTexts(Feed(p, kv, column).value)
  {
    var pair := Split(kv, ':');
    PartsLack(pair, ':', ';');
    SplitUnbroken(kv, ':');
    if |pair| > 1 { PairParsable(p, pair[0], pair[1]); } else { WordParsable(p, pair[0], column); }
  }

  lemma PairParsable(p: Parsed, key: string, value: string)
    requires ParsableTexts(p) && Parsable(value)
    ensures FeedPair(p, key, value).Some? ==> ParsableTexts(FeedPair(p, key, value).value)
  {
  }

  lemma WordParsable(p: Parsed, key: string, column: string)
    requires ParsableTexts(p)
    ensures ParsableTexts(FeedWord(p, key, column))
  {
  }

  lemma {:induction false} PartsLack(parts: seq<string>, sep: char, c: char)
    requires !Has(Join(parts, sep), c)
    ensures forall i :: 0 <= i < |parts| ==> !Has(parts[i], c)
  {
    if |parts| > 1 {
      assert forall x :: x in parts[0] || x in Join(parts[1..], sep) ==> x in Join(parts, sep);
      PartsLack(parts[1..], sep, c);
    }
  }

  lemma {:induction false} FeedParsable(p: Parsed, kvs: seq<string>, column: string)
    requires ParsableTexts(p) && forall i :: 0 <= i < |kvs| ==> Carried(kvs[i])
    ensures FeedAll(p, kvs, column).Some? ==> ParsableTexts(FeedAll(p, kvs, column).value)
    decreases |kvs|
  {
    if kvs != [] {
      FeedOneParsable(p, kvs[0], column);
      var q := Feed(p, kvs[0], column);
      if q.Some? { FeedParsable(q.value, kvs[1..], column); }
    }
  }

  lemma TypesParsable(goType: string)
    requires ColumnTypeOf(goType).Some?
    ensures Parsable(ColumnTypeOf(goType).value) && Quoteless(ColumnTypeOf(goType).value)
  {
  }

  // The texts of any parsed field are free of separators and unbroken.
  lemma ParsedTexts(field: Field, column: string)
    ensures ParseOf(field, column).Some? ==> ParsableTexts(ParseOf(field, column).value)
  {
    TaggedTexts(field.tag, column);
    var goType := TrimPrefix(field.typ, "*");
    if ColumnTypeOf(goType).Some? { TypesParsable(goType); }
  }

  lemma TaggedTexts(tag: string, column: string)
    ensures Tagged(tag, column).Some? ==> ParsableTexts(Tagged(tag, column).value)
  {
    var ddTag := DdTag(SplitTags(tag));
    SplitTagsUnbroken(tag);
    DdTagUnbroken(SplitTags(tag));
    SplitUnbroken(ddTag, ';');
    FeedParsable(START, Split(ddTag, ';'), column);
  }

  // --- A quote at the end -----------------------------------------------------------------------

  lemma {:induction false} TrimShortens(s: string)
    requires EndsQuoted(s)
    ensures |TrimRightQuotes(s)| < |s|
    decreases |s|
  {
    var front := s[..|s| - 1];
    if EndsQuoted(front) { TrimShortens(front); }
  }

  // The last clause loses its quotes, so its text comes back shorter.
  lemma LastTrimmed(front: seq<string>, key: string, value: string, column: string)
    requires forall i :: 0 <= i < |front| ==> HeadClause(front[i])
    requires EndsQuoted(value) && (key == "type" || key == "extra")
    ensures var p := FeedAll(START, TrimLast(front + [Clause(key, value)]), column);
            p.Some? && |if key == "type" then p.value.columnType else p.value.extra| < |value|
  {
    var t := TrimRightQuotes(value);
    TrimShortens(value);
    TrimClause(key, value);
    assert TrimLast(front + [Clause(key, value)]) == front + [Clause(key, t)];
    HeadKeepsIndexes(START, front, column);
    var q := FeedAll(START, front, column).value;
    FeedConcat(START, front, [Clause(key, t)], column);
    FeedOne(q, Clause(key, t), column);
    FeedTexts(q, t, column);
  }

  // Which clause comes last.
  lemma LastClause(col: Column)
    requires GoTypeOf(col.typ).Some? && CleanItems(col.indexes) && EndsQuoted(Body(col))
    ensures ItemFeats(col.indexes) == []
    ensures if !IsBlank(col.extra) then EndsQuoted(col.extra) else col.default.None? && EndsQuoted(col.typ)
  {
    NotBlank(col.typ);
    ItemsCarried(col.indexes);
    if ItemFeats(col.indexes) != [] { LastItemVisible(col.indexes); }
    LastHead(col);
    EndOf(HeadFeats(col), ItemFeats(col.indexes));
  }

  lemma EndOf(head: seq<string>, items: seq<string>)
    requires head != [] && head[|head| - 1] != ""
    requires items != [] ==> items[|items| - 1] != "" && Quoteless(items[|items| - 1])
    ensures EndsQuoted(Join(head + items, ';')) ==> items == [] && EndsQuoted(head[|head| - 1])
  {
    var feats := head + items;
    LastOfJoin(feats);
    if items == [] {
      assert feats == head;
    }
  }

  lemma {:induction false} LastItemVisible(items: seq<IndexItem>)
    requires ItemFeats(items) != []
    ensures ItemFeats(items)[|ItemFeats(items)| - 1] != ""
  {
    if ItemFeats(items[1..]) != [] { LastItemVisible(items[1..]); }
  }

  lemma LastHead(col: Column)
    requires !IsBlank(col.typ)
    ensures var head := HeadFeats(col);
            && head != [] && head[|head| - 1] != ""
            && EndsQuoted(head[|head| - 1]) ==
               if !IsBlank(col.extra) then EndsQuoted(col.extra) else col.default.None? && EndsQuoted(col.typ)
  {
    LastHeadIs(col);
    ClauseEnds("extra", col.extra);
    ClauseEnds("type", col.typ);
    if col.default.Some? {
      DefaultUnbroken(col.default.value);
      ClauseEnds("default", DefaultText(col.default.value));
    }
  }

  lemma LastHeadIs(col: Column)
    requires !IsBlank(col.typ)
    ensures var head := HeadFeats(col);
            head != [] && head[|head| - 1] ==
            if !IsBlank(col.extra) then Clause("extra", col.extra)
            else if col.default.Some? then Clause("default", DefaultText(col.default.value)) else Clause("type", col.typ)
  {
  }

  lemma ClauseEnds(key: string, value: string)
    ensures Clause(key, value) != "" && EndsQuoted(Clause(key, value)) == EndsQuoted(value)
  {
  }

  predicate Recovers(col: Column, p: Parsed) {
    && p.columnType == col.typ && p.columnDefault == Shown(col.default) && p.extra == ShownExtra(col.extra)
    && p.nullable == col.nullable && p.pk == col.pk && p.autoincrement == col.autoincrement
    && p.autoSet == (col.default == Some(NOW))
  }

  // What of a column can be recovered at all.
  lemma RecoveredTexts(col: Column, p: Parsed)
    requires Recovers(col, p) && ParsableTexts(p)
    ensures CleanColumn(col) && UnbrokenColumn(col)
  {
    if col.default.Some? {
      DefaultIsNow(col.default.value);
      DefaultUnbroken(col.default.value);
    }
  }

  lemma HeadEndsWith(col: Column) returns (front: seq<string>)
    requires !IsBlank(col.typ) && (IsBlank(col.extra) ==> col.default.None?)
    ensures HeadFeats(col) == front + [if IsBlank(col.extra) then Clause("type", col.typ) else Clause("extra", col.extra)]
    ensures forall i :: 0 <= i < |front| ==> HeadClause(front[i])
  {
    HeadClauses(col);
    var head := HeadFeats(col);
    front := head[..|head| - 1];
    assert forall i :: 0 <= i < |front| ==> front[i] == head[i];
  }

  lemma QuoteLostInTag(col: Column, column: string)
    requires GoTypeOf(col.typ).Some? && CleanItems(col.indexes)
    requires CleanColumn(col) && UnbrokenColumn(col) && EndsQuoted(Body(col))
    ensures var p := Tagged(TagOf(Feats(col)), column);
            p.Some? && if IsBlank(col.extra) then |p.value.columnType| < |col.typ| && EndsQuoted(col.typ)
                       else |p.value.extra| < |col.extra|
  {
    CleanIsSemicolonFree(col);
    ColumnFed(col, column);
    LastClause(col);
    NotBlank(col.typ);
    var front := HeadEndsWith(col);
    if IsBlank(col.extra) {
      LastTrimmed(front, "type", col.typ, column);
    } else {
      LastTrimmed(front, "extra", col.extra, column);
    }
  }

  lemma TypeKeepsTexts(p: Parsed, typ: string, nullable: bool)
    requires GoTypeOf(typ).Some?
    ensures var q := WithType(p, if nullable then "*" + GoTypeOf(typ).value else GoTypeOf(typ).value);
            q.Some? && q.value.extra == p.extra && (q.value.columnType == p.columnType || Quoteless(q.value.columnType))
  {
    StarTrimmed(GoTypeOf(typ).value);
    TypesParsable(GoTypeOf(typ).value);
  }

  lemma QuoteLost(col: Column, camel: string -> string, column: string)
    requires GoTypeOf(col.typ).Some? && CleanItems(col.indexes)
    requires CleanColumn(col) && UnbrokenColumn(col) && EndsQuoted(Body(col))
    ensures FieldOf(col, camel).Some?
    ensures var p := ParseOf(FieldOf(col, camel).value, column); p.Some? ==> !Recovers(col, p.value)
  {
    QuoteLostInTag(col, column);
    TypeKeepsTexts(Tagged(TagOf(Feats(col)), column).value, col.typ, col.nullable);
  }

  // The exact condition, for columns with clean index names: the column is recovered if and
  // only if no printed text contains a semicolon, a colon, or a quote followed by a space,
  // and the last printed text does not end in a quote.
  lemma RoundTripIff(col: Column, camel: string -> string, column: string)
    requires GoTypeOf(col.typ).Some? && CleanItems(col.indexes)
    ensures FieldOf(col, camel).Some?
    ensures var p := ParseOf(FieldOf(col, camel).value, column);
            (p.Some? && Recovers(col, p.value)) <==>
            CleanColumn(col) && UnbrokenColumn(col) && !EndsQuoted(Body(col))
  {
    if CleanColumn(col) && UnbrokenColumn(col) && !EndsQuoted(Body(col)) {
      RoundTrip(col, camel, column);
    } else {
      var p := ParseOf(FieldOf(col, camel).value, column);
      if p.Some? && Recovers(col, p.value) {
        ParsedTexts(FieldOf(col, camel).value, column);
        RecoveredTexts(col, p.value);
        QuoteLost(col, camel, column);
      }
    }
  }
}
