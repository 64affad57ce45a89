// What the text of a criteria tree means, read from its own keywords and symbols, and that it
// is what the tree means.
module CriteriaMeaning {
  import opened Prelude
  import opened Text
  import opened Criteria

  // A row of the table: whether a column compares like that with the operands.
  type Row = (string, ArithSymbol, seq<Item>) -> bool

  // --- The meaning of a tree ------------------------------------------------------------

  function Operands(val: Val, asym: ArithSymbol): seq<Item> {
    var texts :=
      match val.data
      case Scalar(t) => [t]
      case Slice(ts) => if asym == In then ts else ["[" + Join(ts, ' ') + "]"];
    MapSeq((t: string) => Item(val.typ == Literal, t), texts)
  }

  predicate TreeHolds(q: Q, row: Row) {
    match q
    case Crit(col, val, asym) => row(col, asym, Operands(val, asym))
    case Where(And, left, right) => TreeHolds(left, row) && TreeHolds(right, row)
    case Where(Or, left, right) => TreeHolds(left, row) || TreeHolds(right, row)
  }

  // --- The meaning of a text ------------------------------------------------------------

  function EvaluateOne(col: string, asym: ArithSymbol, s: string, row: Row): (r: Option<(bool, string)>)
    ensures r.Some? ==> |r.value.1| <= |s|
  {
    match ReadItem(s)
    case None => None
    case Some((item, rest)) =>
      Some((row(col, asym, [item]), rest))
  }

  function EvaluateList(col: string, s: string, row: Row): (r: Option<(bool, string)>)
    ensures r.Some? ==> |r.value.1| <= |s|
  {
    match ReadList(s)
    case None => None
    case Some((items, rest)) =>
      ItemsToIs(items, ")" + rest);
      Some((row(col, In, items), rest))
  }

  function EvaluateComparison(col: string, s: string, row: Row): (r: Option<(bool, string)>)
    ensures r.Some? ==> |r.value.1| <= |s|
  {
    if "= " <= s then EvaluateOne(col, Eq, s[2..], row)
    else if "!= " <= s then EvaluateOne(col, Ne, s[3..], row)
    else if "> " <= s then EvaluateOne(col, Gt, s[2..], row)
    else if "< " <= s then EvaluateOne(col, Lt, s[2..], row)
    else if ">= " <= s then EvaluateOne(col, Gte, s[3..], row)
    else if "<= " <= s then EvaluateOne(col, Lte, s[3..], row)
    else if "is not " <= s then EvaluateOne(col, Not, s[7..], row)
    else if "is " <= s then EvaluateOne(col, Is, s[3..], row)
    else if "in " <= s then EvaluateList(col, s[3..], row)
    else None
  }

  // A column between backticks, a space, and a comparison.
  function EvaluateAtom(s: string, row: Row): (r: Option<(bool, string)>)
    ensures r.Some? ==> |r.value.1| < |s|
  {
    if s == "" || s[0] != '`' then None
    else
      var n := IndexOf(s[1..], '`');
      if !("` " <= s[1..][n..]) then None else EvaluateComparison(s[1..][..n], s[1..][n..][2..], row)
  }

  // The truth of the text at the front of s, and what follows it.
  function Evaluate(s: string, row: Row): (r: Option<(bool, string)>)
    ensures r.Some? ==> |r.value.1| < |s|
    decreases |s|
  {
    if !("(" <= s) then EvaluateAtom(s, row)
    else
      match Evaluate(s[1..], row)
      case None => None
      case Some((left, rest)) =>
        var isAnd, isOr := " and " <= rest, " or " <= rest;
        if !isAnd && !isOr then None
        else
          match Evaluate(rest[if isAnd then 5 else 4..], row)
          case None => None
          case Some((right, rest')) =>
            if ")" <= rest' then Some((if isAnd then left && right else left || right, rest'[1..])) else None
  }

  // --- They agree -----------------------------------------------------------------------

  predicate FormHolds(f: Form, row: Row) {
    match f
    case Atom(col, asym, items) => row(col, asym, items)
    case Pair(And, left, right) => FormHolds(left, row) && FormHolds(right, row)
    case Pair(Or, left, right) => FormHolds(left, row) || FormHolds(right, row)
  }

  lemma ComparisonReads(col: string, s: string, row: Row)
    requires ReadSymbol(s).Some?
    requires var (asym, rest) := ReadSymbol(s).value; ReadOperand(asym, rest).Some?
    ensures var (asym, rest) := ReadSymbol(s).value;
            var (items, rest') := ReadOperand(asym, rest).value;
            EvaluateComparison(col, s, row) == Some((row(col, asym, items), rest'))
  {
  }

  lemma AtomReads(s: string, row: Row)
    requires ReadAtom(s).Some?
    ensures EvaluateAtom(s, row) == Some((FormHolds(ReadAtom(s).value.0, row), ReadAtom(s).value.1))
  {
    var body := Rest(s, "`");
    assert s[1..] == body;
    var n := IndexOf(body, '`');
    assert Rest(body[n..], "` ") == body[n..][2..];
    ComparisonReads(body[..n], body[n..][2..], row);
  }

  // What the reader accepts, the evaluator evaluates.
  lemma {:induction false} EvaluatesWhatIsRead(s: string, row: Row)
    requires Read(s).Some?
    ensures Evaluate(s, row) == Some((FormHolds(Read(s).value.0, row), Read(s).value.1))
    decreases |s|
  {
    if !("(" <= s) {
      AtomReads(s, row);
    } else {
      assert Rest(s, "(") == s[1..];
      EvaluatesWhatIsRead(s[1..], row);
      var (left, rest) := Read(s[1..]).value;
      PrintToLength(left, rest);
      var (lsym, rest') := ReadLogic(rest).value;
      EvaluatesWhatIsRead(rest', row);
    }
  }

  lemma {:induction false} TreeIsForm(q: Q, row: Row)
    ensures TreeHolds(q, row) == FormHolds(View(q), row)
  {
    match q
    case Crit(col, val, asym) => assert CritItems(val, asym) == Operands(val, asym);
    case Where(_, left, right) =>
      TreeIsForm(left, row);
      TreeIsForm(right, row);
  }

  // The text of a readable tree is true of exactly the rows that the tree is true of: `and`
  // asks for both sides, `or` for either, and every symbol for its own comparison.
  lemma TextMeansTree(q: Q, row: Row)
    requires Built(View(q)) && WholeReadable(View(q))
    ensures Evaluate(Print(View(q)), row) == Some((TreeHolds(q, row), ""))
  {
    ReadWholeIff(View(q));
    EvaluatesWhatIsRead(Print(View(q)), row);
    TreeIsForm(q, row);
  }

  // Printed and evaluated.
  method SqlMeans(q: Q, row: Row) returns (text: string)
    requires Built(View(q)) && WholeReadable(View(q))
    ensures Evaluate(text, row) == Some((TreeHolds(q, row), ""))
  {
    text := Sql(q);
    TextMeansTree(q, row);
  }

  // --- The text, letter by letter ---------------------------------------------------------

  lemma ScalarTexts(col: string, t: string)
    ensures Print(View(Crit(col, Val(Scalar(t), Func), Eq))) == "`" + col + "` " + "=" + " " + t
    ensures Print(View(Crit(col, Val(Scalar(t), Literal), Eq))) == "`" + col + "` " + "=" + " " + ("'" + t + "'")
    ensures Print(View(Crit(col, Val(Scalar(t), Literal), Ne))) == "`" + col + "` " + "!=" + " " + ("'" + t + "'")
    ensures Print(View(Crit(col, Val(Scalar(t), Literal), Gt))) == "`" + col + "` " + ">" + " " + ("'" + t + "'")
    ensures Print(View(Crit(col, Val(Scalar(t), Literal), Lt))) == "`" + col + "` " + "<" + " " + ("'" + t + "'")
    ensures Print(View(Crit(col, Val(Scalar(t), Literal), Gte))) == "`" + col + "` " + ">=" + " " + ("'" + t + "'")
    ensures Print(View(Crit(col, Val(Scalar(t), Literal), Lte))) == "`" + col + "` " + "<=" + " " + ("'" + t + "'")
    ensures Print(View(Crit(col, Val(Slice([t, t]), Func), Eq))) == "`" + col + "` " + "=" + " " + ("[" + (t + " " + t) + "]")
    ensures Print(View(Crit(col, NULL, Is))) == "`" + col + "` " + "is" + " " + "null"
    ensures Print(View(Crit(col, NULL, Not))) == "`" + col + "` " + "is not" + " " + "null"
  {
    assert [t, t][1..] == [t];
    assert Join([t, t], ' ') == t + " " + t;
  }

  lemma ListTexts(col: string, t: string, u: string)
    ensures Print(View(Crit(col, Val(Slice([]), Literal), In))) == "`" + col + "` " + "in" + " " + ("(" + "" + ")")
    ensures Print(View(Crit(col, Val(Slice([t, u]), Func), In))) == "`" + col + "` " + "in" + " " + ("(" + (t + "," + u) + ")")
    ensures Print(View(Crit(col, Val(Slice([t, u]), Literal), In)))
         == "`" + col + "` " + "in" + " " + ("(" + ("'" + t + "'" + "," + ("'" + u + "'")) + ")")
  {
    var f, l := CritItems(Val(Slice([t, u]), Func), In), CritItems(Val(Slice([t, u]), Literal), In);
    assert f == [Item(false, t), Item(false, u)] && l == [Item(true, t), Item(true, u)];
    TwoItems(f[0], f[1]);
    TwoItems(l[0], l[1]);
    assert CritItems(Val(Slice([]), Literal), In) == [];
  }

  lemma TwoItems(a: Item, b: Item)
    ensures ItemsText([a, b]) == ItemText(a) + "," + ItemText(b)
  {
    assert [a, b][1..] == [b];
    assert ItemsText([b]) == ItemText(b);
  }

  lemma PairTexts(left: Q, right: Q)
    ensures Print(View(Where(And, left, right))) == "(" + (Print(View(left)) + (" " + ("and" + (" " + (Print(View(right)) + ")")))))
    ensures Print(View(Where(Or, left, right))) == "(" + (Print(View(left)) + (" " + ("or" + (" " + (Print(View(right)) + ")")))))
  {
  }
}
