// ddl/query/query.go: criteria trees printed as SQL text, a reader for that text, and the
// exact condition under which the text determines the tree.
module Criteria {
  import opened Prelude
  import opened Text

  datatype ArithSymbol = Eq | Ne | Gt | Lt | Gte | Lte | Is | Not | In
  datatype LogicSymbol = And | Or
  datatype ValType = Func | Null | Literal

  // What %v prints for the data: one text, or one text for each element of a slice.
  datatype Data = Scalar(text: string) | Slice(texts: seq<string>)

  datatype Val = Val(data: Data, typ: ValType)

  datatype Q =
    | Crit(col: string, val: Val, asym: ArithSymbol)
    | Where(lsym: LogicSymbol, left: Q, right: Q)

  const NULL := Val(Scalar("null"), Null)

  function SymbolText(a: ArithSymbol): string {
    match a
    case Eq => "=" case Ne => "!=" case Gt => ">" case Lt => "<" case Gte => ">=" case Lte => "<="
    case Is => "is" case Not => "is not" case In => "in"
  }

  function LogicText(l: LogicSymbol): string {
    match l case And => "and" case Or => "or"
  }

  // fmt prints a slice as its elements between brackets, separated by spaces.
  function DataText(d: Data): string {
    match d
    case Scalar(t) => t
    case Slice(ts) => "[" + Join(ts, ' ') + "]"
  }

  // --- What the text shows ------------------------------------------------------------

  datatype Item = Item(quoted: bool, text: string)

  // The part of a tree that its text can show: Func and Null values look alike, and a
  // scalar given to In looks like a slice of one.
  datatype Form =
    | Atom(col: string, asym: ArithSymbol, items: seq<Item>)
    | Pair(lsym: LogicSymbol, left: Form, right: Form)

  function View(q: Q): Form {
    match q
    case Crit(col, val, asym) => Atom(col, asym, CritItems(val, asym))
    case Where(lsym, left, right) => Pair(lsym, View(left), View(right))
  }

  function CritItems(val: Val, asym: ArithSymbol): (items: seq<Item>)
    ensures asym != In ==> |items| == 1
  {
    var quoted := val.typ == Literal;
    if asym == In && val.data.Slice? then MapSeq((t: string) => Item(quoted, t), val.data.texts)
    else [Item(quoted, DataText(val.data))]
  }

  function ItemText(i: Item): string {
    if i.quoted then "'" + i.text + "'" else i.text
  }

  function ItemsText(items: seq<Item>): string {
    if items == [] then ""
    else if |items| == 1 then ItemText(items[0])
    else ItemText(items[0]) + "," + ItemsText(items[1..])
  }

  function Print(f: Form): string {
    match f
    case Atom(col, asym, items) =>
      "`" + col + "` " + SymbolText(asym) + " " +
      if asym == In then "(" + ItemsText(items) + ")" else ItemsText(items)
    case Pair(lsym, left, right) =>
      "(" + (Print(left) + (" " + (LogicText(lsym) + (" " + (Print(right) + ")")))))
  }

  // --- The printer --------------------------------------------------------------------

  // Sql() of criteria and where.
  method Sql(q: Q) returns (text: string)
    ensures text == Print(View(q))
    decreases q
  {
    match q {
      case Crit(col, val, asym) =>
        text := CritSql(col, val, asym);
      case Where(lsym, left, right) =>
        var l := Sql(left);
        var r := Sql(right);
        text := "(" + (l + (" " + (LogicText(lsym) + (" " + (r + ")")))));
    }
  }

  method CritSql(col: string, val: Val, asym: ArithSymbol) returns (text: string)
    ensures text == Print(View(Crit(col, val, asym)))
  {
    if asym == In {
      text := "`" + col + "` " + SymbolText(asym) + " " + "(";
      var vals := InVals(val);
      ItemsJoin(CritItems(val, asym));
      text := text + Join(vals, ',') + ")";
    } else {
      var shown := DataText(val.data);
      text := "`" + col + "` " + SymbolText(asym) + " " + if val.typ != Literal then shown else "'" + shown + "'";
    }
  }

  // The list that In prints between its parentheses.
  method InVals(val: Val) returns (vals: seq<string>)
    ensures vals == MapSeq(ItemText, CritItems(val, In))
  {
    if val.data.Scalar? {
      return [if val.typ != Literal then DataText(val.data) else "'" + DataText(val.data) + "'"];
    }
    var data := val.data.texts;
    ghost var items := CritItems(val, In);
    vals := [];
    for i := 0 to |data|
      invariant vals == MapSeq(ItemText, items[..i])
    {
      vals := vals + [if val.typ != Literal then data[i] else "'" + data[i] + "'"];
      assert items[..i + 1] == items[..i] + [items[i]];
      MapSeqSnoc(ItemText, items[..i], items[i]);
    }
    assert items[..|data|] == items;
  }

  lemma {:induction false} ItemsJoin(items: seq<Item>)
    ensures ItemsText(items) == Join(MapSeq(ItemText, items), ',')
  {
    if |items| > 1 {
      ItemsJoin(items[1..]);
    }
  }

  // --- A reader -----------------------------------------------------------------------

  predicate IsDelimiter(c: char) { c == ' ' || c == ',' || c == ')' }

  // The length of the unquoted text at the front: up to a delimiter outside parentheses.
  function Scan(s: string, depth: nat): (n: nat)
    ensures n <= |s|
  {
    if s == "" || (depth == 0 && IsDelimiter(s[0])) then 0
    else 1 + Scan(s[1..], if s[0] == '(' then depth + 1 else if s[0] == ')' then depth - 1 else depth)
  }

  function Rest(s: string, token: string): (rest: string)
    requires token <= s
    ensures s == token + rest
  {
    s[|token|..]
  }

  function ReadSymbol(s: string): (r: Option<(ArithSymbol, string)>)
    ensures r.Some? ==> s == SymbolText(r.value.0) + (" " + r.value.1)
  {
    if "= " <= s then Some((Eq, s[2..]))
    else if "!= " <= s then Some((Ne, s[3..]))
    else if "> " <= s then Some((Gt, s[2..]))
    else if "< " <= s then Some((Lt, s[2..]))
    else if ">= " <= s then Some((Gte, s[3..]))
    else if "<= " <= s then Some((Lte, s[3..]))
    else if "is not " <= s then Some((Not, s[7..]))
    else if "is " <= s then Some((Is, s[3..]))
    else if "in " <= s then Some((In, s[3..]))
    else None
  }

  function ReadItem(s: string): (r: Option<(Item, string)>)
    ensures r.Some? ==> s == ItemTo(r.value.0, r.value.1)
  {
    if "'" <= s then
      var body := Rest(s, "'");
      var n := IndexOf(body, '\'');
      if n == |body| then None
      else
        assert body == body[..n] + ("'" + body[n + 1..]);
        Some((Item(true, body[..n]), body[n + 1..]))
    else
      var n := Scan(s, 0);
      assert s == s[..n] + s[n..];
      Some((Item(false, s[..n]), s[n..]))
  }

  // Items up to the closing parenthesis, which is consumed.
  function ReadItems(s: string): (r: Option<(seq<Item>, string)>)
    ensures r.Some? ==> r.value.0 != [] && s == ItemsTo(r.value.0, ")" + r.value.1)
    decreases |s|
  {
    match ReadItem(s)
    case None => None
    case Some((item, rest)) =>
      if ")" <= rest then Some(([item], Rest(rest, ")")))
      else if "," <= rest then
        match ReadItems(Rest(rest, ","))
        case None => None
        case Some((items, rest')) =>
          assert ([item] + items)[1..] == items;
          Some(([item] + items, rest'))
      else None
  }

  function ReadList(s: string): (r: Option<(seq<Item>, string)>)
    ensures r.Some? ==> s == "(" + ItemsTo(r.value.0, ")" + r.value.1)
  {
    if "()" <= s then
      assert s == "(" + (")" + s[2..]);
      Some(([], s[2..]))
    else if "(" <= s then ReadItems(Rest(s, "("))
    else None
  }

  function ReadOperand(asym: ArithSymbol, s: string): (r: Option<(seq<Item>, string)>)
    ensures r.Some? ==> s == OperandTo(asym, r.value.0, r.value.1)
    ensures r.Some? && asym != In ==> |r.value.0| == 1
  {
    if asym == In then ReadList(s)
    else
      match ReadItem(s)
      case None => None
      case Some((item, rest)) => Some(([item], rest))
  }

  function ReadAtom(s: string): (r: Option<(Form, string)>)
    ensures r.Some? ==> s == PrintTo(r.value.0, r.value.1)
  {
    if !("`" <= s) then None
    else
      var body := Rest(s, "`");
      var n := IndexOf(body, '`');
      if !("` " <= body[n..]) then None
      else
        assert body == body[..n] + body[n..];
        match ReadSymbol(Rest(body[n..], "` "))
        case None => None
        case Some((asym, rest)) =>
          match ReadOperand(asym, rest)
          case None => None
          case Some((items, rest')) => Some((Atom(body[..n], asym, items), rest'))
  }

  function ReadLogic(s: string): (r: Option<(LogicSymbol, string)>)
    ensures r.Some? ==> s == " " + (LogicText(r.value.0) + (" " + r.value.1))
  {
    if " and " <= s then Some((And, s[5..]))
    else if " or " <= s then Some((Or, s[4..]))
    else None
  }

  // Every accepted text is the printed form followed by what is left.
  function Read(s: string): (r: Option<(Form, string)>)
    ensures r.Some? ==> s == PrintTo(r.value.0, r.value.1)
    decreases |s|
  {
    if !("(" <= s) then ReadAtom(s)
    else
      match Read(Rest(s, "("))
      case None => None
      case Some((left, rest)) =>
        PrintToLength(left, rest);
        match ReadLogic(rest)
        case None => None
        case Some((lsym, rest')) =>
          match Read(rest')
          case None => None
          case Some((right, rest'')) =>
            if ")" <= rest'' then Some((Pair(lsym, left, right), Rest(rest'', ")")))
            else None
  }

  // The printed form with a given continuation.
  function ItemTo(i: Item, k: string): string {
    if i.quoted then "'" + (i.text + ("'" + k)) else i.text + k
  }

  function ItemsTo(items: seq<Item>, k: string): string {
    if items == [] then k
    else if |items| == 1 then ItemTo(items[0], k)
    else ItemTo(items[0], "," + ItemsTo(items[1..], k))
  }

  function OperandTo(asym: ArithSymbol, items: seq<Item>, k: string): string {
    if asym == In then "(" + ItemsTo(items, ")" + k) else ItemsTo(items, k)
  }

  function PrintTo(f: Form, k: string): string {
    match f
    case Atom(col, asym, items) =>
      "`" + (col + ("` " + (SymbolText(asym) + (" " + OperandTo(asym, items, k)))))
    case Pair(lsym, left, right) =>
      "(" + PrintTo(left, " " + (LogicText(lsym) + (" " + PrintTo(right, ")" + k))))
  }

  lemma {:induction false} ItemsToIs(items: seq<Item>, k: string)
    ensures ItemsTo(items, k) == ItemsText(items) + k
  {
    if |items| > 1 {
      ItemsToIs(items[1..], k);
    }
  }

  lemma {:induction false} PrintToIs(f: Form, k: string)
    ensures PrintTo(f, k) == Print(f) + k
  {
    match f {
      case Atom(col, asym, items) =>
        OperandToIs(asym, items, k);
      case Pair(lsym, left, right) =>
        PrintToIs(right, ")" + k);
        PrintToIs(left, " " + (LogicText(lsym) + (" " + PrintTo(right, ")" + k))));
        PairAssoc(Print(left), LogicText(lsym), Print(right), k);
    }
  }

  lemma OperandToIs(asym: ArithSymbol, items: seq<Item>, k: string)
    ensures OperandTo(asym, items, k) == (if asym == In then "(" + ItemsText(items) + ")" else ItemsText(items)) + k
  {
    ItemsToIs(items, if asym == In then ")" + k else k);
  }

  lemma PairAssoc(left: string, logic: string, right: string, k: string)
    ensures ("(" + (left + (" " + (logic + (" " + (right + ")")))))) + k
         == "(" + (left + (" " + (logic + (" " + (right + (")" + k))))))
  {
  }

  lemma PrintToLength(f: Form, k: string)
    ensures |k| <= |PrintTo(f, k)|
  {
    PrintToIs(f, k);
  }

  // --- Unique readability -------------------------------------------------------------

  // Unquoted text the reader takes as a whole: parentheses balance and no delimiter
  // stands outside them.
  predicate Bare(t: string, depth: nat) {
    if t == "" then depth == 0
    else
      && !(depth == 0 && IsDelimiter(t[0]))
      && Bare(t[1..], if t[0] == '(' then depth + 1 else if t[0] == ')' then depth - 1 else depth)
  }

  predicate ReadableItem(i: Item) {
    if i.quoted then !Has(i.text, '\'') else !("'" <= i.text) && Bare(i.text, 0)
  }

  predicate Readable(f: Form) {
    match f
    case Atom(col, asym, items) =>
      && !Has(col, '`')
      && ReadableItems(items)
      && (asym == In ==> items != [Item(false, "")])
    case Pair(_, left, right) => Readable(left) && Readable(right)
  }

  // One operand except for In, and null after `is` and `is not`.
  predicate Built(f: Form) {
    match f
    case Atom(_, asym, items) =>
      && (asym != In ==> |items| == 1)
      && (asym == Is || asym == Not ==> items == [Item(false, "null")])
    case Pair(_, left, right) => Built(left) && Built(right)
  }

  // --- What callers can build ---------------------------------------------------------

  type Comparison = a: ArithSymbol | a != Is && a != Not witness Eq

  // The calls of the package that make a criterion or combine two: Eq to Lte and In,
  // IsNull and IsNotNull, And and Or.
  datatype Call =
    | Compare(col: string, asym: Comparison, val: Val)
    | NullTest(col: string, negated: bool)
    | Combine(lsym: LogicSymbol, left: Call, right: Call)

  function Make(c: Call): Q {
    match c
    case Compare(col, asym, val) => Crit(col, val, asym)
    case NullTest(col, negated) => Crit(col, NULL, if negated then Not else Is)
    case Combine(lsym, left, right) => Where(lsym, Make(left), Make(right))
  }

  // One operand unless it is a list, null after `is` and `is not`, and a list is quoted as a
  // whole or not at all.
  predicate Buildable(f: Form) {
    match f
    case Atom(_, asym, items) =>
      && Built(f)
      && (asym == In ==> forall i, j :: 0 <= i < j < |items| ==> items[i].quoted == items[j].quoted)
    case Pair(_, left, right) => Buildable(left) && Buildable(right)
  }

  // These are exactly the forms that some calls show.
  lemma {:induction false} BuildableIff(f: Form)
    ensures (exists c :: View(Make(c)) == f) <==> Buildable(f)
  {
    if c :| View(Make(c)) == f {
      MadeIsBuildable(c);
    }
    if Buildable(f) {
      var c := Rebuild(f);
    }
  }

  lemma {:induction false} MadeIsBuildable(c: Call)
    ensures Buildable(View(Make(c))) && Built(View(Make(c)))
  {
    match c
    case Compare(_, _, _) =>
    case NullTest(_, _) =>
    case Combine(_, left, right) =>
      MadeIsBuildable(left);
      MadeIsBuildable(right);
  }

  lemma {:induction false} Rebuild(f: Form) returns (c: Call)
    requires Buildable(f)
    ensures View(Make(c)) == f
  {
    match f
    case Pair(lsym, left, right) =>
      var l := Rebuild(left);
      var r := Rebuild(right);
      c := Combine(lsym, l, r);
    case Atom(col, asym, items) =>
      var typ := if items != [] && items[0].quoted then Literal else Func;
      if asym == Is || asym == Not {
        c := NullTest(col, asym == Not);
      } else if asym == In {
        var texts := MapSeq((i: Item) => i.text, items);
        c := Compare(col, In, Val(Slice(texts), typ));
        assert CritItems(Val(Slice(texts), typ), In) == items;
      } else {
        c := Compare(col, asym, Val(Scalar(items[0].text), typ));
        assert items == [items[0]];
      }
  }

  // --- Reading back, before a delimiter -----------------------------------------------

  predicate Delimited(k: string) { k != "" && IsDelimiter(k[0]) }

  lemma {:induction false} ScanIff(t: string, k: string, depth: nat)
    requires Delimited(k)
    ensures Scan(t + k, depth) == |t| <==> Bare(t, depth)
  {
    if t == "" {
      assert t + k == k;
    } else {
      assert (t + k)[1..] == t[1..] + k;
      if !(depth == 0 && IsDelimiter(t[0])) {
        ScanIff(t[1..], k, if t[0] == '(' then depth + 1 else if t[0] == ')' then depth - 1 else depth);
      }
    }
  }

  lemma QuotedIff(t: string, k: string)
    ensures IndexOf(t + ("'" + k), '\'') == |t| <==> !Has(t, '\'')
  {
    var body := t + ("'" + k);
    assert forall j :: 0 <= j < |t| ==> body[j] == t[j];
    assert body[|t|] == '\'';
  }

  lemma ItemIff(i: Item, k: string)
    requires Delimited(k)
    ensures ReadItem(ItemTo(i, k)) == Some((i, k)) <==> ReadableItem(i)
  {
    var s := ItemTo(i, k);
    if i.quoted {
      var body := i.text + ("'" + k);
      assert Rest(s, "'") == body;
      QuotedIff(i.text, k);
      var n := IndexOf(body, '\'');
      if n == |i.text| {
        assert body[..n] == i.text && body[n + 1..] == k;
      }
    } else if "'" <= i.text {
      assert "'" <= s;
    } else {
      assert !("'" <= s) by {
        if i.text == "" { assert s == k; } else { assert s[0] == i.text[0]; }
      }
      ScanIff(i.text, k, 0);
      var n := Scan(s, 0);
      assert n == |i.text| ==> s[..n] == i.text && s[n..] == k;
    }
  }

  predicate ReadableItems(items: seq<Item>) {
    forall i :: 0 <= i < |items| ==> ReadableItem(items[i])
  }

  lemma {:induction false} ReadableItemsRead(items: seq<Item>, k: string)
    requires items != [] && ReadableItems(items)
    ensures ReadItems(ItemsTo(items, ")" + k)) == Some((items, k))
    decreases |items|
  {
    if |items| == 1 {
      ItemIff(items[0], ")" + k);
      assert items == [items[0]];
    } else {
      var t := ItemsTo(items[1..], ")" + k);
      ItemIff(items[0], "," + t);
      ReadableItemsRead(items[1..], k);
      ItemRead(ItemTo(items[0], "," + t), items[0], t, items[1..], k);
      assert items == [items[0]] + items[1..];
    }
  }

  lemma ItemRead(s: string, item: Item, t: string, items: seq<Item>, k: string)
    requires ReadItem(s) == Some((item, "," + t)) && ReadItems(t) == Some((items, k))
    ensures ReadItems(s) == Some(([item] + items, k))
  {
  }

  lemma {:induction false} ReadItemsReadable(items: seq<Item>, k: string)
    requires items != []
    requires ReadItems(ItemsTo(items, ")" + k)) == Some((items, k))
    ensures ReadableItems(items)
    decreases |items|
  {
    var rest := if |items| == 1 then ")" + k else "," + ItemsTo(items[1..], ")" + k);
    var s := ItemTo(items[0], rest);
    assert s == ItemsTo(items, ")" + k);
    var (item, rest') := ReadItem(s).value;
    assert item == items[0];
    ItemToCancels(item, rest, rest');
    ItemIff(items[0], rest);
    if |items| > 1 {
      assert Rest(rest, ",") == ItemsTo(items[1..], ")" + k);
      ReadItemsReadable(items[1..], k);
      assert forall i :: 1 <= i < |items| ==> items[i] == items[1..][i - 1];
    }
  }

  lemma ItemToCancels(i: Item, k: string, k': string)
    requires ItemTo(i, k) == ItemTo(i, k')
    ensures k == k'
  {
    ItemsToIs([i], k);
    ItemsToIs([i], k');
    Cancels(ItemsText([i]), k, k');
  }

  lemma Cancels(a: string, k: string, k': string)
    requires a + k == a + k'
    ensures k == k'
  {
    assert (a + k)[|a|..] == k && (a + k')[|a|..] == k';
  }

  lemma FirstOfItems(items: seq<Item>, k: string)
    requires items != []
    ensures var s := ItemsTo(items, ")" + k);
            s != "" && s[0] == if items[0].quoted then '\'' else if items[0].text != "" then items[0].text[0]
                               else if |items| > 1 then ',' else ')'
  {
  }

  lemma ListIff(items: seq<Item>, k: string)
    ensures ReadList(OperandTo(In, items, k)) == Some((items, k)) <==>
            items != [Item(false, "")] && ReadableItems(items)
  {
    var s := OperandTo(In, items, k);
    if items == [] {
      assert s[2..] == k;
    } else {
      assert s[1..] == ItemsTo(items, ")" + k);
      FirstOfItems(items, k);
      if ReadableItems(items) {
        ReadableItemsRead(items, k);
        assert ReadableItem(items[0]);
      }
      if ReadItems(ItemsTo(items, ")" + k)) == Some((items, k)) {
        ReadItemsReadable(items, k);
      }
    }
  }

  lemma ReadsSymbol(asym: ArithSymbol, k: string)
    requires asym == Is ==> !("not " <= k)
    ensures ReadSymbol(SymbolText(asym) + (" " + k)) == Some((asym, k))
  {
    var token := SymbolText(asym) + " ";
    var s := SymbolText(asym) + (" " + k);
    assert s == token + k;
    assert token <= s && s[|token|..] == k;
    assert s[0] == token[0] && s[1] == token[1];
    IsNotPrefix(k);
  }

  lemma IsNotPrefix(k: string)
    ensures "is not " <= "is " + k <==> "not " <= k
  {
    assert "is not " == "is " + "not ";
    assert ("is " + k)[3..] == k;
  }

  // Reading an atom comes down to reading its operand.
  lemma AtomOperandIff(col: string, asym: ArithSymbol, items: seq<Item>, k: string)
    requires Built(Atom(col, asym, items))
    ensures ReadAtom(PrintTo(Atom(col, asym, items), k)) == Some((Atom(col, asym, items), k)) <==>
            !Has(col, '`') && ReadOperand(asym, OperandTo(asym, items, k)) == Some((items, k))
  {
    var operand := OperandTo(asym, items, k);
    var rest := SymbolText(asym) + (" " + operand);
    var body := col + ("` " + rest);
    var s := PrintTo(Atom(col, asym, items), k);
    assert Rest(s, "`") == body;
    ColumnCut(col, rest);
    if !Has(col, '`') {
      assert Rest("` " + rest, "` ") == rest;
      assert asym == Is ==> operand == "null" + k && operand[1] == 'u';
      ReadsSymbol(asym, operand);
    }
  }

  lemma ColumnCut(col: string, rest: string)
    ensures var body := col + ("` " + rest);
            var n := IndexOf(body, '`');
            && (n == |col| <==> !Has(col, '`'))
            && (n == |col| ==> body[..n] == col && body[n..] == "` " + rest)
  {
    var body := col + ("` " + rest);
    assert body[|col|] == '`';
    assert forall j :: 0 <= j < |col| ==> body[j] == col[j];
  }

  lemma AtomIff(col: string, asym: ArithSymbol, items: seq<Item>, k: string)
    requires Built(Atom(col, asym, items)) && Delimited(k)
    ensures ReadAtom(PrintTo(Atom(col, asym, items), k)) == Some((Atom(col, asym, items), k)) <==>
            Readable(Atom(col, asym, items))
  {
    AtomOperandIff(col, asym, items, k);
    OperandIff(asym, items, k);
  }

  lemma OperandIff(asym: ArithSymbol, items: seq<Item>, k: string)
    requires asym != In ==> |items| == 1 && Delimited(k)
    ensures ReadOperand(asym, OperandTo(asym, items, k)) == Some((items, k)) <==>
            ReadableItems(items) && (asym == In ==> items != [Item(false, "")])
  {
    if asym == In {
      ListIff(items, k);
    } else {
      ItemIff(items[0], k);
      assert items == [items[0]];
    }
  }

  lemma PrintToCancels(f: Form, k: string, k': string)
    requires PrintTo(f, k) == PrintTo(f, k')
    ensures k == k'
  {
    PrintToIs(f, k);
    PrintToIs(f, k');
    Cancels(Print(f), k, k');
  }

  // The exact condition: a printed tree followed by a delimiter is read back, with the
  // continuation untouched, if and only if its columns contain no backtick, its quoted
  // texts no quote, and its unquoted texts are bare.
  lemma {:induction false} ReadIff(f: Form, k: string)
    requires Built(f) && Delimited(k)
    ensures Read(PrintTo(f, k)) == Some((f, k)) <==> Readable(f)
    decreases f, 1
  {
    match f {
      case Atom(col, asym, items) => AtomIff(col, asym, items, k);
      case Pair(lsym, left, right) => PairIff(f, k);
    }
  }

  // Inside parentheses every part is followed by a delimiter, whatever follows the whole.
  lemma {:induction false} PairIff(f: Form, k: string)
    requires f.Pair? && Built(f)
    ensures Read(PrintTo(f, k)) == Some((f, k)) <==> Readable(f)
    decreases f, 0
  {
    var Pair(lsym, left, right) := f;
    var k2 := ")" + k;
    var k1 := " " + (LogicText(lsym) + (" " + PrintTo(right, k2)));
    var s := PrintTo(f, k);
    assert Rest(s, "(") == PrintTo(left, k1);
    ReadIff(left, k1);
    ReadIff(right, k2);
    ReadsLogic(lsym, PrintTo(right, k2));
    assert Rest(k2, ")") == k;
    if Read(s) == Some((f, k)) {
      var (left', rest) := Read(PrintTo(left, k1)).value;
      PrintToCancels(left, k1, rest);
      var (right', rest') := Read(PrintTo(right, k2)).value;
      PrintToCancels(right, k2, rest');
    }
  }

  lemma ReadsLogic(lsym: LogicSymbol, k: string)
    ensures ReadLogic(" " + (LogicText(lsym) + (" " + k))) == Some((lsym, k))
  {
    var token := " " + LogicText(lsym) + " ";
    var s := " " + (LogicText(lsym) + (" " + k));
    assert s == token + k;
    assert token <= s && s[|token|..] == k && s[1] == token[1];
  }

  // --- Reading back the whole text ------------------------------------------------------

  // No delimiter stands outside parentheses; at the end of the text they need not balance.
  predicate Open(t: string, depth: nat) {
    t == "" ||
    (!(depth == 0 && IsDelimiter(t[0])) &&
     Open(t[1..], if t[0] == '(' then depth + 1 else if t[0] == ')' then depth - 1 else depth))
  }

  predicate WholeReadable(f: Form) {
    if f.Atom? && f.asym != In then
      && !Has(f.col, '`')
      && |f.items| == 1
      && var i := f.items[0];
         if i.quoted then !Has(i.text, '\'') else !("'" <= i.text) && Open(i.text, 0)
    else Readable(f)
  }

  lemma {:induction false} ScanWholeIff(t: string, depth: nat)
    ensures Scan(t, depth) == |t| <==> Open(t, depth)
    ensures Bare(t, depth) ==> Open(t, depth)
  {
    if t != "" && !(depth == 0 && IsDelimiter(t[0])) {
      ScanWholeIff(t[1..], if t[0] == '(' then depth + 1 else if t[0] == ')' then depth - 1 else depth);
    }
  }

  lemma ItemWholeIff(i: Item)
    ensures ReadItem(ItemTo(i, "")) == Some((i, "")) <==>
            if i.quoted then !Has(i.text, '\'') else !("'" <= i.text) && Open(i.text, 0)
  {
    var s := ItemTo(i, "");
    if i.quoted {
      var body := i.text + ("'" + "");
      assert Rest(s, "'") == body;
      QuotedIff(i.text, "");
      var n := IndexOf(body, '\'');
      if n == |i.text| {
        assert body[..n] == i.text && body[n + 1..] == "";
      }
    } else {
      assert s == i.text;
      ScanWholeIff(i.text, 0);
      var n := Scan(s, 0);
      assert n == |i.text| ==> s[..n] == i.text && s[n..] == "";
    }
  }

  // The text of a tree by itself, as Sql returns it, is read back if and only if the tree is
  // readable, where the operand of a lone criterion only has to be free of delimiters.
  lemma ReadWholeIff(f: Form)
    requires Built(f)
    ensures Read(Print(f)) == Some((f, "")) <==> WholeReadable(f)
    ensures Readable(f) ==> WholeReadable(f)
  {
    PrintToIs(f, "");
    assert PrintTo(f, "") == Print(f);
    match f {
      case Pair(_, _, _) => PairIff(f, "");
      case Atom(col, asym, items) =>
        AtomOperandIff(col, asym, items, "");
        if asym == In {
          OperandIff(asym, items, "");
        } else {
          assert items == [items[0]];
          ItemWholeIff(items[0]);
          ScanWholeIff(items[0].text, 0);
        }
    }
  }

  // Two readable trees have the same text exactly when they show the same And/Or tree.
  lemma UniquelyReadable(q: Q, q': Q)
    requires Built(View(q)) && Built(View(q'))
    requires WholeReadable(View(q)) && WholeReadable(View(q'))
    ensures Print(View(q)) == Print(View(q')) <==> View(q) == View(q')
  {
    ReadWholeIff(View(q));
    ReadWholeIff(View(q'));
  }

  // Quotes are not escaped, so different lists can print the same text.
  lemma QuotesAreNotEscaped()
    ensures var q := Crit("a", Val(Slice(["x", "y"]), Literal), In);
            var q' := Crit("a", Val(Slice(["x','y"]), Literal), In);
            View(q) != View(q') && Print(View(q)) == Print(View(q'))
  {
  }
}
