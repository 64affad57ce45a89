// esutils/base.go: querynode, querytree and query fill a mutable BoolQuery; each is proved
// against the meaning of the condition tree, for every order of map iteration.
module QueryCompiler {
  import opened Prelude
  import opened Text
  import opened QueryTree

  // elastic.BoolQuery
  class BoolQuery {
    var must: seq<Query>
    var should: seq<Query>
    var mustNot: seq<Query>
    var minShould: Option<nat>

    constructor ()
      ensures Source() == EMPTY
    {
      must, should, mustNot, minShould := [], [], [], None;
    }

    function Source(): Query
      reads this
    {
      BoolOf(must, should, mustNot, minShould)
    }

    // One clause goes to the list the logic names; any other logic drops it.
    method Add(logic: Logic, q: Query)
      modifies this
      ensures Source() == WithClause(old(Source()), logic, q)
    {
      match logic
      case SHOULD => should := should + [q];
      case MUST => must := must + [q];
      case MUSTNOT => mustNot := mustNot + [q];
      case NOLOGIC =>
    }

    method MinimumNumberShouldMatch(n: nat)
      modifies this
      ensures Source() == BoolOf(old(must), old(should), old(mustNot), Some(n))
    {
      minShould := Some(n);
    }
  }

  const EMPTY := BoolOf([], [], [], None)

  function WithClause(b: Query, logic: Logic, q: Query): Query
    requires b.BoolOf?
  {
    match logic
    case SHOULD => b.(should := b.should + [q])
    case MUST => b.(must := b.must + [q])
    case MUSTNOT => b.(mustNot := b.mustNot + [q])
    case NOLOGIC => b
  }

  function Clauses(b: Query, logic: Logic): seq<Query>
    requires b.BoolOf?
  {
    match logic
    case SHOULD => b.should
    case MUST => b.must
    case MUSTNOT => b.mustNot
    case NOLOGIC => []
  }

  // `b` is `a` plus clauses that together ask for exactly what `conds` ask for.
  ghost predicate Extends(a: Query, b: Query, conds: seq<QueryCond>) {
    && a.BoolOf? && b.BoolOf? && a.minShould == b.minShould
    && (forall logic :: logic != NOLOGIC ==> (Clauses(b, logic) != [] <==> Clauses(a, logic) != [] || SomeAsk(conds, logic)))
    && (forall filter, doc :: AllMatch(b.must, filter, doc) <==> AllMatch(a.must, filter, doc) && MustHold(conds, filter, doc))
    && (forall filter, doc :: AnyMatch(b.should, filter, doc) <==> AnyMatch(a.should, filter, doc) || ShouldHold(conds, filter, doc))
    && (forall doc :: AnyMatch(b.mustNot, true, doc) <==> AnyMatch(a.mustNot, true, doc) || Excluded(conds, doc))
  }

  lemma AllMatchSnoc(qs: seq<Query>, q: Query, filter: bool, doc: Doc)
    ensures AllMatch(qs + [q], filter, doc) <==> AllMatch(qs, filter, doc) && Matches(q, filter, doc)
  {
    assert (qs + [q])[|qs|] == q;
    assert forall i :: 0 <= i < |qs| ==> (qs + [q])[i] == qs[i];
  }

  lemma AnyMatchSnoc(qs: seq<Query>, q: Query, filter: bool, doc: Doc)
    ensures AnyMatch(qs + [q], filter, doc) <==> AnyMatch(qs, filter, doc) || Matches(q, filter, doc)
  {
    assert (qs + [q])[|qs|] == q;
    assert forall i :: 0 <= i < |qs| ==> (qs + [q])[i] == qs[i];
  }

  lemma ExtendsNothing(a: Query)
    requires a.BoolOf?
    ensures Extends(a, a, [])
  {
  }

  lemma SplitConds(xs: seq<QueryCond>, ys: seq<QueryCond>)
    ensures forall logic :: SomeAsk(xs + ys, logic) <==> SomeAsk(xs, logic) || SomeAsk(ys, logic)
    ensures forall filter, doc :: MustHold(xs + ys, filter, doc) <==> MustHold(xs, filter, doc) && MustHold(ys, filter, doc)
    ensures forall filter, doc :: ShouldHold(xs + ys, filter, doc) <==> ShouldHold(xs, filter, doc) || ShouldHold(ys, filter, doc)
    ensures forall doc :: Excluded(xs + ys, doc) <==> Excluded(xs, doc) || Excluded(ys, doc)
  {
    var zs := xs + ys;
    assert forall i :: 0 <= i < |xs| ==> zs[i] == xs[i];
    assert forall i :: 0 <= i < |ys| ==> zs[|xs| + i] == ys[i];
    assert forall i :: |xs| <= i < |zs| ==> zs[i] == ys[i - |xs|];
  }

  lemma ExtendsThen(a: Query, b: Query, c: Query, xs: seq<QueryCond>, ys: seq<QueryCond>)
    requires Extends(a, b, xs) && Extends(b, c, ys)
    ensures Extends(a, c, xs + ys)
  {
    SplitConds(xs, ys);
  }

  // The condition reduced to some of its entries.
  function Restrict(c: QueryCond, fields: set<string>): QueryCond {
    c.(pair := map f | f in fields && f in c.pair :: c.pair[f], children := [])
  }

  lemma RestrictAll(c: QueryCond)
    requires c.children == []
    ensures Restrict(c, c.pair.Keys) == c
  {
  }

  // One more entry asks for what the entries before it and the entry itself ask for.
  lemma RestrictMore(c: QueryCond, fields: set<string>, field: string)
    requires field in c.pair
    ensures var more, less, one := Restrict(c, fields + {field}), Restrict(c, fields), Restrict(c, {field});
            && (Asks(more) <==> Asks(less) || Asks(one))
            && (forall filter, doc :: AllHold(more, filter, doc) <==> AllHold(less, filter, doc) && AllHold(one, filter, doc))
            && (forall filter, doc :: SomeHold(more, filter, doc) <==> SomeHold(less, filter, doc) || SomeHold(one, filter, doc))
  {
    var more, less, one := Restrict(c, fields + {field}), Restrict(c, fields), Restrict(c, {field});
    assert forall f :: CountsAt(more, f) <==> CountsAt(less, f) || CountsAt(one, f);
    assert forall f :: CountsAt(one, f) ==> f == field;
    forall filter, doc
      ensures AllHold(more, filter, doc) <==> AllHold(less, filter, doc) && AllHold(one, filter, doc)
      ensures SomeHold(more, filter, doc) <==> SomeHold(less, filter, doc) || SomeHold(one, filter, doc)
    {
      assert forall f :: CountsAt(less, f) ==> HoldsAt(less, f, doc) == HoldsAt(more, f, doc);
      assert forall f :: CountsAt(one, f) ==> HoldsAt(one, f, doc) == HoldsAt(more, f, doc);
    }
  }

  // A list of one condition asks for what the condition asks for.
  lemma Single(c: QueryCond)
    ensures forall logic :: SomeAsk([c], logic) <==> c.logic == logic && Asks(c)
    ensures forall filter, doc :: MustHold([c], filter, doc) <==> (c.logic.MUST? ==> AllHold(c, filter, doc))
    ensures forall filter, doc :: ShouldHold([c], filter, doc) <==> c.logic.SHOULD? && SomeHold(c, filter, doc)
    ensures forall doc :: Excluded([c], doc) <==> c.logic.MUSTNOT? && SomeHold(c, true, doc)
  {
    assert [c][0] == c;
  }

  lemma ExtendsMore(a: Query, b: Query, d: Query, c: QueryCond, fields: set<string>, field: string)
    requires field in c.pair
    requires Extends(a, b, [Restrict(c, fields)]) && Extends(b, d, [Restrict(c, {field})])
    ensures Extends(a, d, [Restrict(c, fields + {field})])
  {
    Single(Restrict(c, fields));
    Single(Restrict(c, {field}));
    Single(Restrict(c, fields + {field}));
    RestrictMore(c, fields, field);
  }

  // Adding the query that means what condition `c` means.
  lemma AddMeaning(b: Query, c: QueryCond, q: Query)
    requires b.BoolOf? && Asks(c)
    requires forall filter, doc :: Matches(q, filter, doc) <==> AllHold(c, filter, doc)
    requires forall filter, doc :: Matches(q, filter, doc) <==> SomeHold(c, filter, doc)
    ensures Extends(b, WithClause(b, c.logic, q), [c])
  {
    Single(c);
    forall filter, doc
      ensures AllMatch(b.must + [q], filter, doc) <==> AllMatch(b.must, filter, doc) && Matches(q, filter, doc)
      ensures AnyMatch(b.should + [q], filter, doc) <==> AnyMatch(b.should, filter, doc) || Matches(q, filter, doc)
      ensures AnyMatch(b.mustNot + [q], filter, doc) <==> AnyMatch(b.mustNot, filter, doc) || Matches(q, filter, doc)
    {
      AllMatchSnoc(b.must, q, filter, doc);
      AnyMatchSnoc(b.should, q, filter, doc);
      AnyMatchSnoc(b.mustNot, q, filter, doc);
    }
  }

  // An entry that asks for nothing leaves the query alone.
  lemma SkipEntry(b: Query, c: QueryCond, field: string)
    requires b.BoolOf? && !CountsAt(c, field)
    ensures Extends(b, b, [Restrict(c, {field})])
  {
    var one := Restrict(c, {field});
    Single(one);
    assert forall f :: !CountsAt(one, f);
  }

  lemma AddEntry(b: Query, c: QueryCond, field: string, q: Query)
    requires b.BoolOf? && CountsAt(c, field)
    requires forall filter, doc :: Matches(q, filter, doc) <==> HoldsAt(c, field, doc)
    ensures Extends(b, WithClause(b, c.logic, q), [Restrict(c, {field})])
  {
    OneEntry(c, field);
    AddMeaning(b, Restrict(c, {field}), q);
  }

  lemma OneEntry(c: QueryCond, field: string)
    requires CountsAt(c, field)
    ensures Asks(Restrict(c, {field}))
    ensures forall filter, doc :: AllHold(Restrict(c, {field}), filter, doc) <==> HoldsAt(c, field, doc)
    ensures forall filter, doc :: SomeHold(Restrict(c, {field}), filter, doc) <==> HoldsAt(c, field, doc)
  {
    var one := Restrict(c, {field});
    assert CountsAt(one, field);
    assert forall f :: CountsAt(one, f) ==> f == field;
    forall filter, doc
      ensures AllHold(one, filter, doc) <==> HoldsAt(c, field, doc)
      ensures SomeHold(one, filter, doc) <==> HoldsAt(c, field, doc)
    {
      assert HoldsAt(one, field, doc) == HoldsAt(c, field, doc);
    }
  }

  // The bool query under construction asks for exactly the given words.
  ghost predicate NestedMeans(b: Query, field: string, words: seq<string>) {
    && b.BoolOf? && b.should == [] && b.minShould == None
    && forall filter, doc :: (AllMatch(b.must, filter, doc) && !AnyMatch(b.mustNot, true, doc)) == WordsHold(field, words, doc)
  }

  function WordClause(b: Query, field: string, word: string): Query
    requires b.BoolOf?
  {
    if word == "" then b
    else if word[0] != '-' then WithClause(b, MUST, MatchPhrase(field, word))
    else WithClause(b, MUSTNOT, MatchPhrase(field, word[1..]))
  }

  lemma WordsHoldSnoc(field: string, words: seq<string>, word: string, doc: Doc)
    ensures WordsHold(field, words + [word], doc) == (WordsHold(field, words, doc) && WordHolds(field, TrimSpace(word), doc))
  {
    assert (words + [word])[|words|] == word;
    assert forall i :: 0 <= i < |words| ==> (words + [word])[i] == words[i];
  }

  lemma NestedStep(b: Query, field: string, words: seq<string>, word: string)
    requires NestedMeans(b, field, words)
    ensures NestedMeans(WordClause(b, field, TrimSpace(word)), field, words + [word])
  {
    var d := WordClause(b, field, TrimSpace(word));
    forall filter, doc
      ensures (AllMatch(d.must, filter, doc) && !AnyMatch(d.mustNot, true, doc)) == WordsHold(field, words + [word], doc)
    {
      NestedStepFor(b, field, words, word, filter, doc);
    }
  }

  lemma NestedStepFor(b: Query, field: string, words: seq<string>, word: string, filter: bool, doc: Doc)
    requires b.BoolOf?
    requires (AllMatch(b.must, filter, doc) && !AnyMatch(b.mustNot, true, doc)) == WordsHold(field, words, doc)
    ensures var d := WordClause(b, field, TrimSpace(word));
            (AllMatch(d.must, filter, doc) && !AnyMatch(d.mustNot, true, doc)) == WordsHold(field, words + [word], doc)
  {
    WordsHoldSnoc(field, words, word, doc);
    var w := TrimSpace(word);
    if w != "" {
      AllMatchSnoc(b.must, MatchPhrase(field, w), filter, doc);
      AnyMatchSnoc(b.mustNot, MatchPhrase(field, w[1..]), true, doc);
    }
  }

  lemma NestedMatches(b: Query, field: string, words: seq<string>)
    requires NestedMeans(b, field, words)
    ensures forall filter, doc :: Matches(b, filter, doc) == WordsHold(field, words, doc)
  {
    forall filter, doc ensures Matches(b, filter, doc) == WordsHold(field, words, doc) {
      assert AllMatch(b.must, filter, doc) == (forall i :: 0 <= i < |b.must| ==> Matches(b.must[i], filter, doc));
    }
  }

  // Lines 235-247: the bool query of one `a+b+-c` item.
  method PlusQuery(field: string, item: string) returns (q: Query)
    requires Has(item, '+')
    ensures forall filter, doc :: Matches(q, filter, doc) == ItemHolds(field, item, doc)
  {
    var words := Split(item, '+');
    var nested := new BoolQuery();
    for n := 0 to |words|
      invariant NestedMeans(nested.Source(), field, words[..n])
    {
      NestedStep(nested.Source(), field, words[..n], words[n]);
      assert words[..n + 1] == words[..n] + [words[n]];
      var word := TrimSpace(words[n]);
      if word != "" {
        if word[0] != '-' {
          nested.Add(MUST, MatchPhrase(field, word));
        } else {
          word := word[1..];
          nested.Add(MUSTNOT, MatchPhrase(field, word));
        }
      }
    }
    q := nested.Source();
    assert words[..|words|] == words;
    NestedMatches(q, field, words);
  }

  // Words joined by plus signs, none of them blank at an end: the document has the phrase of
  // every word, or lacks it where the word starts with a minus sign.
  lemma PlusMeaning(field: string, words: seq<string>, doc: Doc)
    requires |words| >= 2
    requires forall i :: 0 <= i < |words| ==> words[i] != "" && !Has(words[i], '+') && VisibleEnds(words[i])
    ensures ItemHolds(field, Join(words, '+'), doc) <==>
            forall i :: 0 <= i < |words| ==>
              if words[i][0] == '-' then !doc(MatchPhrase(field, words[i][1..])) else doc(MatchPhrase(field, words[i]))
  {
    SplitJoin(words, '+');
    forall i | 0 <= i < |words| ensures TrimSpace(words[i]) == words[i] {
      NothingToTrim(words[i]);
    }
    WordsAsGiven(field, words, doc);
  }

  lemma WordsAsGiven(field: string, words: seq<string>, doc: Doc)
    requires forall i :: 0 <= i < |words| ==> words[i] != "" && TrimSpace(words[i]) == words[i]
    ensures WordsHold(field, words, doc) <==>
            forall i :: 0 <= i < |words| ==>
              if words[i][0] == '-' then !doc(MatchPhrase(field, words[i][1..])) else doc(MatchPhrase(field, words[i]))
  {
  }

  // The bool query of a list of items: alternatives, empty items left out.
  ghost predicate ItemsMean(b: Query, field: string, items: seq<Data>) {
    && b.BoolOf? && b.must == [] && b.mustNot == [] && b.minShould == None
    && (forall i :: 0 <= i < |items| ==> items[i].Str?)
    && (b.should != [] <==> exists i :: 0 <= i < |items| && items[i].s != "")
    && forall filter, doc :: AnyMatch(b.should, filter, doc) == SomeItemHolds(field, items, doc)
  }

  predicate SomeItemHolds(field: string, items: seq<Data>, doc: Doc) {
    exists i :: 0 <= i < |items| && items[i].Str? && items[i].s != "" && ItemHolds(field, items[i].s, doc)
  }

  lemma ItemsStep(b: Query, field: string, items: seq<Data>, item: string, q: Query)
    requires ItemsMean(b, field, items)
    requires item != "" ==> forall filter, doc :: Matches(q, filter, doc) == ItemHolds(field, item, doc)
    ensures ItemsMean(if item == "" then b else WithClause(b, SHOULD, q), field, items + [Str(item)])
  {
    var more := items + [Str(item)];
    var d := if item == "" then b else WithClause(b, SHOULD, q);
    assert more[|items|] == Str(item);
    assert forall i :: 0 <= i < |items| ==> more[i] == items[i];
    forall filter, doc ensures AnyMatch(d.should, filter, doc) == SomeItemHolds(field, more, doc) {
      assert SomeItemHolds(field, more, doc) == (SomeItemHolds(field, items, doc) || (item != "" && ItemHolds(field, item, doc)));
      AnyMatchSnoc(b.should, q, filter, doc);
    }
  }

  lemma ItemsMatch(b: Query, field: string, items: seq<Data>)
    requires ItemsMean(b, field, items)
    ensures forall filter, doc :: Matches(b, filter, doc) == PhraseHolds(field, items, doc)
  {
    forall filter, doc ensures Matches(b, filter, doc) == PhraseHolds(field, items, doc) {
      CountIsAny(b.should, filter, doc);
      assert PhraseHolds(field, items, doc) == (b.should == [] || SomeItemHolds(field, items, doc));
    }
  }

  // Lines 230-261: the bool query of a MATCHPHRASE entry.
  method PhraseQuery(field: string, value: seq<Data>) returns (panicked: bool, q: Query)
    ensures panicked <==> !EntryTyped(MATCHPHRASE, value)
    ensures !panicked ==> q.BoolOf? && q.must == [] && q.mustNot == [] && q.minShould == None
    ensures !panicked ==> forall filter, doc :: Matches(q, filter, doc) == PhraseHolds(field, value, doc)
  {
    panicked, q := false, EMPTY;
    var bq := new BoolQuery();
    for n := 0 to |value|
      invariant ItemsMean(bq.Source(), field, value[..n])
    {
      if !value[n].Str? {
        panicked := true;
        return;
      }
      var keyword := value[n].s;
      var clause := ItemQuery(field, keyword);
      ItemsStep(bq.Source(), field, value[..n], keyword, if clause.Some? then clause.value else EMPTY);
      assert value[..n + 1] == value[..n] + [Str(keyword)];
      if clause.Some? {
        bq.Add(SHOULD, clause.value);
      }
    }
    assert value[..|value|] == value;
    q := bq.Source();
    ItemsMatch(q, field, value);
  }

  // Lines 233-260: the clause of one item, none for an empty one.
  method ItemQuery(field: string, keyword: string) returns (clause: Option<Query>)
    ensures clause.Some? <==> keyword != ""
    ensures clause.Some? ==> forall filter, doc :: Matches(clause.value, filter, doc) == ItemHolds(field, keyword, doc)
  {
    var words := Split(keyword, '+');
    if |words| > 1 {
      var nested := PlusQuery(field, keyword);
      return Some(nested);
    }
    assert words == [keyword];
    if words[0] == "" {
      return None;
    }
    var single := WordQuery(field, words[0]);
    return Some(single);
  }

  // Lines 249-259: a single word, negated through a nested bool query.
  method WordQuery(field: string, word: string) returns (q: Query)
    requires word != ""
    ensures forall filter, doc :: Matches(q, filter, doc) == WordHolds(field, word, doc)
  {
    if word[0] != '-' {
      q := MatchPhrase(field, word);
    } else {
      var nested := new BoolQuery();
      nested.Add(MUSTNOT, MatchPhrase(field, word[1..]));
      q := nested.Source();
      assert q.mustNot[0] == MatchPhrase(field, word[1..]);
    }
  }

  // The clause that each kind of entry gives. A bound that is not in the map is absent, and
  // both bounds are included unless the map says otherwise.
  predicate ClauseOf(kind: Kind, field: string, value: seq<Data>, q: Query) {
    match kind
    case TERMS => q == Terms(field, value)
    case RANGE => value != [] && value[0].Params? && RangeClause(field, value[0].m, q)
    case MATCHPHRASE => q.BoolOf? && q.must == [] && q.mustNot == [] && q.minShould == None
    case PREFIX => value != [] && value[0].Str? && q == Prefix(field, value[0].s)
    case WILDCARD => value != [] && value[0].Str? && q == Wildcard(field, value[0].s)
    case EXISTS => q == Exists(field)
    case NOKIND => false
  }

  predicate RangeClause(field: string, m: map<string, Data>, q: Query) {
    && q.Range? && q.field == field
    && q.from == (if "from" in m then m["from"] else Nil)
    && q.to == (if "to" in m then m["to"] else Nil)
    && !(q.from.Nil? && q.to.Nil?)
    && ("include_lower" !in m || m["include_lower"] == Nil ==> q.includeLower)
    && (forall b :: "include_lower" in m && m["include_lower"] == Bool(b) ==> q.includeLower == b)
    && ("include_upper" !in m || m["include_upper"] == Nil ==> q.includeUpper)
    && (forall b :: "include_upper" in m && m["include_upper"] == Bool(b) ==> q.includeUpper == b)
  }

  // The clause of one entry, or none when the entry asks for nothing: the branches of
  // lines 195-310 up to the choice of the list.
  method EntryQuery(kind: Kind, field: string, value: seq<Data>) returns (panicked: bool, q: Option<Query>)
    ensures panicked <==> !EntryTyped(kind, value)
    ensures !panicked ==> (q.Some? <==> Counts(kind, field, value))
    ensures !panicked && q.Some? ==> ClauseOf(kind, field, value, q.value)
    ensures !panicked && q.Some? ==> forall filter, doc :: Matches(q.value, filter, doc) == EntryHolds(kind, field, value, doc)
  {
    panicked, q := false, None;
    if |value| == 0 && kind != EXISTS {
      return;
    }
    match kind
    case TERMS =>
      q := Some(Terms(field, value));
    case RANGE =>
      if value[0].Params? {
        var m := value[0].m;
        if !Lookup(m, "from").Nil? || !Lookup(m, "to").Nil? {
          var lower, upper := Lookup(m, "include_lower"), Lookup(m, "include_upper");
          if !(lower.Nil? || lower.Bool?) || !(upper.Nil? || upper.Bool?) {
            panicked := true;
            return;
          }
          q := Some(Range(field, Lookup(m, "from"), Lookup(m, "to"), Flag(lower), Flag(upper)));
        }
      }
    case MATCHPHRASE =>
      var phrase;
      panicked, phrase := PhraseQuery(field, value);
      q := Some(phrase);
    case PREFIX =>
      if !value[0].Nil? {
        if !value[0].Str? {
          panicked := true;
          return;
        }
        if !IsBlank(value[0].s) {
          q := Some(Prefix(field, value[0].s));
        }
      }
    case WILDCARD =>
      if !value[0].Nil? {
        if !value[0].Str? {
          panicked := true;
          return;
        }
        if !IsBlank(value[0].s) {
          q := Some(Wildcard(field, value[0].s));
        }
      }
    case EXISTS =>
      if !IsBlank(field) {
        q := Some(Exists(field));
      }
    case NOKIND =>
  }

  // querynode: the entries are visited in any order.
  method CompileNode(b: BoolQuery, qc: QueryCond) returns (panicked: bool)
    requires qc.children == []
    modifies b
    ensures panicked <==> !Typed(qc)
    ensures !panicked ==> Extends(old(b.Source()), b.Source(), [qc])
  {
    panicked := false;
    var todo := qc.pair.Keys;
    ghost var start := b.Source();
    while todo != {}
      invariant todo <= qc.pair.Keys
      invariant forall field :: field in qc.pair && field !in todo ==> EntryTyped(qc.kind, qc.pair[field])
      invariant Extends(start, b.Source(), [Restrict(qc, qc.pair.Keys - todo)])
      decreases todo
    {
      var field :| field in todo;
      var value := qc.pair[field];
      var bad, q := EntryQuery(qc.kind, field, value);
      if bad {
        panicked := true;
        return;
      }
      ghost var before := b.Source();
      match q {
        case None =>
          SkipEntry(before, qc, field);
        case Some(clause) =>
          AddEntry(before, qc, field, clause);
          b.Add(qc.logic, clause);
      }
      ExtendsMore(start, before, b.Source(), qc, qc.pair.Keys - todo, field);
      assert qc.pair.Keys - (todo - {field}) == (qc.pair.Keys - todo) + {field};
      todo := todo - {field};
    }
    assert qc.pair.Keys - todo == qc.pair.Keys;
    RestrictAll(qc);
  }

  // What a group asks for is what its freshly filled bool query matches.
  lemma GroupMatches(b: Query, conds: seq<QueryCond>)
    requires Extends(EMPTY, b, conds)
    ensures forall filter, doc :: Matches(b, filter, doc) == GroupHolds(conds, filter, doc)
  {
    forall filter, doc ensures Matches(b, filter, doc) == GroupHolds(conds, filter, doc) {
      CountIsAny(b.should, filter, doc);
      assert AllMatch(b.must, filter, doc) == MustHold(conds, filter, doc);
      assert AnyMatch(b.mustNot, true, doc) == Excluded(conds, doc);
      assert AnyMatch(b.should, filter, doc) == ShouldHold(conds, filter, doc);
      assert Clauses(b, MUST) == b.must && Clauses(b, SHOULD) == b.should;
    }
  }

  // querytree
  method CompileTree(b: BoolQuery, cond: QueryCond) returns (panicked: bool)
    modifies b
    ensures panicked <==> !Typed(cond)
    ensures !panicked ==> Extends(old(b.Source()), b.Source(), [cond])
    decreases cond
  {
    if |cond.children| > 0 {
      var bq := new BoolQuery();
      ExtendsNothing(EMPTY);
      for n := 0 to |cond.children|
        invariant forall i :: 0 <= i < n ==> Typed(cond.children[i])
        invariant Extends(EMPTY, bq.Source(), cond.children[..n])
        invariant bq != b && b.Source() == old(b.Source())
      {
        ghost var before := bq.Source();
        panicked := CompileTree(bq, cond.children[n]);
        if panicked {
          return;
        }
        ExtendsThen(EMPTY, before, bq.Source(), cond.children[..n], [cond.children[n]]);
        assert cond.children[..n + 1] == cond.children[..n] + [cond.children[n]];
      }
      assert cond.children[..|cond.children|] == cond.children;
      GroupMatches(bq.Source(), cond.children);
      AddMeaning(b.Source(), cond, bq.Source());
      b.Add(cond.logic, bq.Source());
      panicked := false;
    } else {
      panicked := CompileNode(b, cond);
    }
  }

  lemma DateOnly(startDate: string, endDate: string, dateField: string)
    ensures var q := DateRange(dateField, startDate, endDate);
            forall filter, doc :: AllMatch([q], filter, doc) == doc(q)
  {
    var q := DateRange(dateField, startDate, endDate);
    assert [q][0] == q;
  }

  // The query as a search request matches exactly the documents the tree asks for.
  ghost predicate RootMeans(q: Query, startDate: string, endDate: string, dateField: string, conds: seq<QueryCond>, doc: Doc) {
    Matches(q, false, doc) <==>
    AsksNothing(startDate, endDate, dateField, conds) || RootHolds(startDate, endDate, dateField, conds, doc)
  }

  // Setting the minimum on the root, and the meaning of the root.
  lemma RootMatches(start: Query, b: Query, startDate: string, endDate: string, dateField: string, conds: seq<QueryCond>)
    requires start == if HasDate(startDate, endDate, dateField) then WithClause(EMPTY, MUST, DateRange(dateField, startDate, endDate)) else EMPTY
    requires Extends(start, b, conds)
    ensures var hasShould := exists i :: 0 <= i < |conds| && conds[i].logic.SHOULD?;
            var root := b.(minShould := if hasShould then Some(1) else None);
            forall doc :: RootMeans(root, startDate, endDate, dateField, conds, doc)
  {
    var hasShould := exists i :: 0 <= i < |conds| && conds[i].logic.SHOULD?;
    var root := b.(minShould := if hasShould then Some(1) else None);
    DateOnly(startDate, endDate, dateField);
    assert start.must == if HasDate(startDate, endDate, dateField) then [DateRange(dateField, startDate, endDate)] else [];
    assert forall logic :: logic != NOLOGIC ==> (Clauses(b, logic) != [] <==> Clauses(start, logic) != [] || SomeAsk(conds, logic));
    assert NoClause(b) == AsksNothing(startDate, endDate, dateField, conds) by {
      assert Clauses(b, MUST) == b.must && Clauses(b, SHOULD) == b.should && Clauses(b, MUSTNOT) == b.mustNot;
    }
    assert b.should == [] <==> !SomeAsk(conds, SHOULD) by { assert Clauses(b, SHOULD) == b.should; }
    forall doc ensures RootMeans(root, startDate, endDate, dateField, conds, doc) {
      CountIsAny(b.should, false, doc);
      assert AllMatch(b.must, false, doc) == (AllMatch(start.must, false, doc) && MustHold(conds, false, doc));
      assert AnyMatch(b.mustNot, true, doc) == Excluded(conds, doc);
      assert AnyMatch(b.should, false, doc) == ShouldHold(conds, false, doc);
    }
  }

  // Lines 333-341: the date range is the first MUST clause when all three texts are given.
  method DateQuery(startDate: string, endDate: string, dateField: string) returns (b: BoolQuery)
    ensures fresh(b)
    ensures b.should == [] && b.mustNot == [] && b.minShould == None
    ensures b.must == if dateField == "" || startDate == "" || endDate == "" then [] else [DateRange(dateField, startDate, endDate)]
  {
    b := new BoolQuery();
    if dateField != "" && startDate != "" && endDate != "" {
      b.Add(MUST, DateRange(dateField, startDate, endDate));
    }
  }

  // The loop over the root conditions.
  method CompileAll(b: BoolQuery, conds: seq<QueryCond>) returns (panicked: bool, hasShould: bool)
    modifies b
    ensures panicked <==> exists i :: 0 <= i < |conds| && !Typed(conds[i])
    ensures !panicked ==> (hasShould <==> exists i :: 0 <= i < |conds| && conds[i].logic.SHOULD?)
    ensures !panicked ==> Extends(old(b.Source()), b.Source(), conds)
  {
    panicked, hasShould := false, false;
    ghost var start := b.Source();
    ExtendsNothing(start);
    for n := 0 to |conds|
      invariant forall i :: 0 <= i < n ==> Typed(conds[i])
      invariant hasShould <==> exists i :: 0 <= i < n && conds[i].logic.SHOULD?
      invariant Extends(start, b.Source(), conds[..n])
    {
      if !hasShould && conds[n].logic == SHOULD {
        hasShould := true;
      }
      ghost var before := b.Source();
      panicked := CompileTree(b, conds[n]);
      if panicked {
        return;
      }
      ExtendsThen(start, before, b.Source(), conds[..n], [conds[n]]);
      assert conds[..n + 1] == conds[..n] + [conds[n]];
    }
    assert conds[..|conds|] == conds;
    panicked := false;
  }

  // query: the compiled query matches a document exactly when the tree's own meaning
  // holds, except that a tree asking for nothing at all matches everything.
  method Compile(startDate: string, endDate: string, dateField: string, conds: seq<QueryCond>)
    returns (panicked: bool, q: Query)
    ensures panicked <==> exists i :: 0 <= i < |conds| && !Typed(conds[i])
    ensures !panicked ==> q.BoolOf? && q.minShould == if exists i :: 0 <= i < |conds| && conds[i].logic == SHOULD then Some(1) else None
    ensures !panicked ==> forall doc :: RootMeans(q, startDate, endDate, dateField, conds, doc)
  {
    panicked, q := false, EMPTY;
    var b := DateQuery(startDate, endDate, dateField);
    ghost var start := b.Source();
    var hasShould;
    panicked, hasShould := CompileAll(b, conds);
    if panicked {
      return;
    }
    RootMatches(start, b.Source(), startDate, endDate, dateField, conds);
    if hasShould {
      b.MinimumNumberShouldMatch(1);
    }
    q := b.Source();
  }

  // A SHOULD condition whose entries ask for nothing still makes `should` mandatory: next
  // to any other clause the query matches no document at all.
  lemma EmptyShouldMatchesNothing(startDate: string, endDate: string, dateField: string, conds: seq<QueryCond>, n: nat, doc: Doc)
    requires n < |conds| && conds[n].logic.SHOULD? && !SomeAsk(conds, SHOULD)
    ensures !RootHolds(startDate, endDate, dateField, conds, doc)
  {
    forall i | 0 <= i < |conds| && conds[i].logic.SHOULD? ensures !SomeHold(conds[i], false, doc) {
      assert !Asks(conds[i]);
    }
  }

  // The exact condition: the compiled query agrees with the root's meaning on every
  // document unless the tree asks for nothing and still has a SHOULD condition. In that
  // case no document satisfies the tree and the empty bool query returns all of them.
  lemma RootMeaningIff(q: Query, startDate: string, endDate: string, dateField: string, conds: seq<QueryCond>)
    requires forall doc :: RootMeans(q, startDate, endDate, dateField, conds, doc)
    ensures (forall doc :: Matches(q, false, doc) == RootHolds(startDate, endDate, dateField, conds, doc)) <==>
            !(AsksNothing(startDate, endDate, dateField, conds) && exists n :: 0 <= n < |conds| && conds[n].logic.SHOULD?)
  {
    if AsksNothing(startDate, endDate, dateField, conds) {
      if n :| 0 <= n < |conds| && conds[n].logic.SHOULD? {
        var doc: Doc := (leaf: Query) => true;
        EmptyShouldMatchesNothing(startDate, endDate, dateField, conds, n, doc);
        assert RootMeans(q, startDate, endDate, dateField, conds, doc);
        assert Matches(q, false, doc) != RootHolds(startDate, endDate, dateField, conds, doc);
      } else {
        forall doc: Doc ensures Matches(q, false, doc) && RootHolds(startDate, endDate, dateField, conds, doc) {
          assert RootMeans(q, startDate, endDate, dateField, conds, doc);
          assert forall i :: 0 <= i < |conds| && conds[i].logic != NOLOGIC ==> !Asks(conds[i]);
        }
      }
    } else {
      forall doc: Doc ensures Matches(q, false, doc) == RootHolds(startDate, endDate, dateField, conds, doc) {
        assert RootMeans(q, startDate, endDate, dateField, conds, doc);
      }
    }
  }
}
