// Compilation of a QueryCond tree into an Elasticsearch bool query, and the meaning of
// both sides. Leaf queries are opaque: a document answers each of them with yes or no.
module QueryTree {
  import opened Prelude
  import opened Text

  // A value held in an interface{}.
  datatype Data = Nil | Str(s: string) | Bool(b: bool) | Num(r: real) | Params(m: map<string, Data>)

  datatype Logic = SHOULD | MUST | MUSTNOT | NOLOGIC
  datatype Kind = TERMS | MATCHPHRASE | RANGE | PREFIX | WILDCARD | EXISTS | NOKIND

  datatype QueryCond = QueryCond(pair: map<string, seq<Data>>, logic: Logic, kind: Kind, children: seq<QueryCond>)

  datatype Query =
    | Terms(field: string, values: seq<Data>)
    | Range(field: string, from: Data, to: Data, includeLower: bool, includeUpper: bool)
    | DateRange(field: string, start: string, end: string)
    | MatchPhrase(field: string, text: string)
    | Prefix(field: string, text: string)
    | Wildcard(field: string, text: string)
    | Exists(field: string)
    | BoolOf(must: seq<Query>, should: seq<Query>, mustNot: seq<Query>, minShould: Option<nat>)

  // --- Elasticsearch 6.8 ------------------------------------------------------------

  type Doc = Query -> bool

  // How many `should` clauses a document must match. Clauses under must_not are
  // evaluated in filter context, where `should` is never optional by default.
  function RequiredShould(q: Query, filter: bool): nat
    requires q.BoolOf?
  {
    match q.minShould
    case Some(n) => n
    case None => if q.should != [] && (q.must == [] || filter) then 1 else 0
  }

  predicate NoClause(q: Query)
    requires q.BoolOf?
  {
    q.must == [] && q.should == [] && q.mustNot == []
  }

  ghost predicate Matches(q: Query, filter: bool, doc: Doc)
    decreases q
  {
    if q.BoolOf? then
      || NoClause(q)
      || (&& (forall i :: 0 <= i < |q.must| ==> Matches(q.must[i], filter, doc))
          && (forall i :: 0 <= i < |q.mustNot| ==> !Matches(q.mustNot[i], true, doc))
          && MatchCount(q.should, filter, doc) >= RequiredShould(q, filter))
    else doc(q)
  }

  ghost function MatchCount(qs: seq<Query>, filter: bool, doc: Doc): nat
    decreases qs
  {
    if qs == [] then 0
    else (if Matches(qs[0], filter, doc) then 1 else 0) + MatchCount(qs[1..], filter, doc)
  }

  ghost predicate AllMatch(qs: seq<Query>, filter: bool, doc: Doc) {
    forall i :: 0 <= i < |qs| ==> Matches(qs[i], filter, doc)
  }

  ghost predicate AnyMatch(qs: seq<Query>, filter: bool, doc: Doc) {
    exists i :: 0 <= i < |qs| && Matches(qs[i], filter, doc)
  }

  lemma {:induction false} CountIsAny(qs: seq<Query>, filter: bool, doc: Doc)
    ensures MatchCount(qs, filter, doc) >= 1 <==> AnyMatch(qs, filter, doc)
  {
    if qs != [] {
      CountIsAny(qs[1..], filter, doc);
      if AnyMatch(qs, filter, doc) {
        var i :| 0 <= i < |qs| && Matches(qs[i], filter, doc);
        if i > 0 { assert qs[1..][i - 1] == qs[i]; }
      }
      if AnyMatch(qs[1..], filter, doc) {
        var i :| 0 <= i < |qs[1..]| && Matches(qs[1..][i], filter, doc);
        assert qs[i + 1] == qs[1..][i];
      }
    }
  }

  // --- The meaning of a condition tree ----------------------------------------------

  function Lookup(m: map<string, Data>, key: string): Data {
    if key in m then m[key] else Nil
  }

  function Flag(d: Data): bool {
    if d.Bool? then d.b else true
  }

  // A phrase item `a+b+-c` asks for a and b and not c; an item without `+` is one word,
  // negated by a leading minus sign.
  predicate WordHolds(field: string, word: string, doc: Doc) {
    word != "" ==>
      if word[0] == '-' then !doc(MatchPhrase(field, word[1..])) else doc(MatchPhrase(field, word))
  }

  predicate WordsHold(field: string, words: seq<string>, doc: Doc) {
    forall i :: 0 <= i < |words| ==> WordHolds(field, TrimSpace(words[i]), doc)
  }

  predicate ItemHolds(field: string, item: string, doc: Doc) {
    if Has(item, '+') then WordsHold(field, Split(item, '+'), doc) else WordHolds(field, item, doc)
  }

  // Some item holds; empty items are ignored, and a list of empty items asks for nothing.
  predicate PhraseHolds(field: string, value: seq<Data>, doc: Doc) {
    || (forall i :: 0 <= i < |value| ==> value[i] == Str(""))
    || (exists i :: 0 <= i < |value| && value[i].Str? && value[i].s != "" && ItemHolds(field, value[i].s, doc))
  }

  // The entry does not make a type assertion fail.
  predicate EntryTyped(kind: Kind, value: seq<Data>) {
    match kind
    case MATCHPHRASE => forall i :: 0 <= i < |value| ==> value[i].Str?
    case RANGE =>
      value != [] && value[0].Params? && Bounded(value[0].m) ==>
        && IsFlag(value[0].m, "include_lower") && IsFlag(value[0].m, "include_upper")
    case PREFIX => value != [] ==> value[0].Nil? || value[0].Str?
    case WILDCARD => value != [] ==> value[0].Nil? || value[0].Str?
    case _ => true
  }

  predicate Bounded(m: map<string, Data>) {
    ("from" in m && m["from"] != Nil) || ("to" in m && m["to"] != Nil)
  }

  predicate IsFlag(m: map<string, Data>, key: string) {
    key in m ==> m[key].Nil? || m[key].Bool?
  }

  // Whether the entry for `field` asks for anything.
  predicate Counts(kind: Kind, field: string, value: seq<Data>) {
    match kind
    case TERMS => value != []
    case MATCHPHRASE => value != []
    case RANGE => value != [] && value[0].Params? && Bounded(value[0].m)
    case PREFIX => value != [] && value[0].Str? && !IsBlank(value[0].s)
    case WILDCARD => value != [] && value[0].Str? && !IsBlank(value[0].s)
    case EXISTS => !IsBlank(field)
    case NOKIND => false
  }

  predicate EntryHolds(kind: Kind, field: string, value: seq<Data>, doc: Doc)
    requires Counts(kind, field, value)
  {
    match kind
    case TERMS => doc(Terms(field, value))
    case MATCHPHRASE => PhraseHolds(field, value, doc)
    case RANGE =>
      var m := value[0].m;
      doc(Range(field, Lookup(m, "from"), Lookup(m, "to"),
                Flag(Lookup(m, "include_lower")), Flag(Lookup(m, "include_upper"))))
    case PREFIX => doc(Prefix(field, value[0].s))
    case WILDCARD => doc(Wildcard(field, value[0].s))
    case EXISTS => doc(Exists(field))
  }

  predicate CountsAt(c: QueryCond, field: string) {
    field in c.pair && Counts(c.kind, field, c.pair[field])
  }

  predicate HoldsAt(c: QueryCond, field: string, doc: Doc)
    requires CountsAt(c, field)
  {
    EntryHolds(c.kind, field, c.pair[field], doc)
  }

  // The condition asks for something: a group always does.
  ghost predicate Asks(c: QueryCond) {
    c.children != [] || exists field :: CountsAt(c, field)
  }

  ghost predicate SomeAsk(conds: seq<QueryCond>, logic: Logic) {
    exists i :: 0 <= i < |conds| && conds[i].logic == logic && Asks(conds[i])
  }

  // All that a MUST condition asks for.
  ghost predicate AllHold(c: QueryCond, filter: bool, doc: Doc)
    decreases c, 1
  {
    if c.children != [] then GroupHolds(c.children, filter, doc)
    else forall field :: CountsAt(c, field) ==> HoldsAt(c, field, doc)
  }

  // One of the alternatives of a SHOULD condition, or one that a MUSTNOT condition excludes.
  ghost predicate SomeHold(c: QueryCond, filter: bool, doc: Doc)
    decreases c, 1
  {
    if c.children != [] then GroupHolds(c.children, filter, doc)
    else exists field :: CountsAt(c, field) && HoldsAt(c, field, doc)
  }

  ghost predicate MustHold(conds: seq<QueryCond>, filter: bool, doc: Doc)
    decreases conds, 2
  {
    forall i :: 0 <= i < |conds| && conds[i].logic.MUST? ==> AllHold(conds[i], filter, doc)
  }

  ghost predicate ShouldHold(conds: seq<QueryCond>, filter: bool, doc: Doc)
    decreases conds, 2
  {
    exists i :: 0 <= i < |conds| && conds[i].logic.SHOULD? && SomeHold(conds[i], filter, doc)
  }

  ghost predicate Excluded(conds: seq<QueryCond>, doc: Doc)
    decreases conds, 2
  {
    exists i :: 0 <= i < |conds| && conds[i].logic.MUSTNOT? && SomeHold(conds[i], true, doc)
  }

  // Below the root, SHOULD is optional next to a MUST unless in filter context.
  ghost predicate GroupHolds(conds: seq<QueryCond>, filter: bool, doc: Doc)
    decreases conds, 3
  {
    && MustHold(conds, filter, doc)
    && !Excluded(conds, doc)
    && (SomeAsk(conds, SHOULD) && (filter || !SomeAsk(conds, MUST)) ==> ShouldHold(conds, filter, doc))
  }

  predicate Typed(c: QueryCond)
    decreases c
  {
    if c.children != [] then forall i :: 0 <= i < |c.children| ==> Typed(c.children[i])
    else forall field :: field in c.pair ==> EntryTyped(c.kind, c.pair[field])
  }

  predicate HasDate(startDate: string, endDate: string, dateField: string) {
    dateField != "" && startDate != "" && endDate != ""
  }

  // The root: the date range, every MUST, no MUSTNOT, and if any condition is SHOULD
  // then one that holds.
  ghost predicate RootHolds(startDate: string, endDate: string, dateField: string, conds: seq<QueryCond>, doc: Doc) {
    && (HasDate(startDate, endDate, dateField) ==> doc(DateRange(dateField, startDate, endDate)))
    && MustHold(conds, false, doc)
    && !Excluded(conds, doc)
    && ((exists i :: 0 <= i < |conds| && conds[i].logic.SHOULD?) ==> ShouldHold(conds, false, doc))
  }

  ghost predicate AsksNothing(startDate: string, endDate: string, dateField: string, conds: seq<QueryCond>) {
    && !HasDate(startDate, endDate, dateField)
    && !SomeAsk(conds, MUST) && !SomeAsk(conds, SHOULD) && !SomeAsk(conds, MUSTNOT)
  }
}
