// The string functions of Go's strings, strconv and fmt packages that the models need, with
// the facts that fix them: splitting undoes joining, exactly the white space around a text is
// trimmed (TrimSpaceIs, BlankIff), and numbers are written and read in decimal notation
// (DecimalText, DecimalValue, SignedValue).
module Text {
  import opened Prelude

  // strings.Index for a single character: the first position of c, or |s|.
  function IndexOf(s: string, c: char): (i: nat)
    ensures i <= |s|
    ensures forall j :: 0 <= j < i ==> s[j] != c
    ensures i < |s| ==> s[i] == c
  {
    if s == [] || s[0] == c then 0 else 1 + IndexOf(s[1..], c)
  }

  predicate Has(s: string, c: char) { c in s }

  lemma IndexOfConcat(a: string, c: char, b: string)
    requires !Has(a, c)
    ensures IndexOf(a + [c] + b, c) == |a|
  {
    var s := a + [c] + b;
    assert s[|a|] == c;
    assert forall j :: 0 <= j < |a| ==> s[j] == a[j];
  }

  function Join(parts: seq<string>, sep: char): string {
    if parts == [] then ""
    else if |parts| == 1 then parts[0]
    else parts[0] + [sep] + Join(parts[1..], sep)
  }

  // strings.Split for a single character.
  function Split(s: string, sep: char): (parts: seq<string>)
    ensures |parts| >= 1
    ensures forall i :: 0 <= i < |parts| ==> !Has(parts[i], sep)
    ensures Join(parts, sep) == s
    ensures |parts| > 1 <==> Has(s, sep)
    decreases |s|
  {
    var i := IndexOf(s, sep);
    if i == |s| then [s]
    else
      assert s == s[..i] + [sep] + s[i + 1..];
      [s[..i]] + Split(s[i + 1..], sep)
  }

  // Splitting undoes joining when no part contains the separator.
  lemma {:induction false} SplitJoin(parts: seq<string>, sep: char)
    requires parts != []
    requires forall i :: 0 <= i < |parts| ==> !Has(parts[i], sep)
    ensures Split(Join(parts, sep), sep) == parts
  {
    var s := Join(parts, sep);
    if |parts| == 1 {
      assert IndexOf(s, sep) == |s|;
    } else {
      var rest := Join(parts[1..], sep);
      IndexOfConcat(parts[0], sep, rest);
      assert s[..|parts[0]|] == parts[0] && s[|parts[0]| + 1..] == rest;
      SplitJoin(parts[1..], sep);
    }
  }

  function TrimPrefix(s: string, prefix: string): string {
    if prefix <= s then s[|prefix|..] else s
  }

  // unicode.IsSpace
  predicate IsSpace(c: char) {
    || c in {' ', '\t', '\n', '\r', '\U{000B}', '\U{000C}', '\U{0085}', '\U{00A0}', '\U{1680}'}
    || '\U{2000}' <= c <= '\U{200A}'
    || c in {'\U{2028}', '\U{2029}', '\U{202F}', '\U{205F}', '\U{3000}'}
  }

  function TrimLeft(s: string): string {
    if s != [] && IsSpace(s[0]) then TrimLeft(s[1..]) else s
  }

  function TrimRight(s: string): string {
    if s != [] && IsSpace(s[|s| - 1]) then TrimRight(s[..|s| - 1]) else s
  }

  // strings.TrimSpace
  function TrimSpace(s: string): string { TrimRight(TrimLeft(s)) }

  predicate AllSpace(s: string) { forall i :: 0 <= i < |s| ==> IsSpace(s[i]) }

  predicate VisibleEnds(s: string) {
    s == "" || (!IsSpace(s[0]) && !IsSpace(s[|s| - 1]))
  }

  // Exactly the space around a text is cut off.
  lemma {:induction false} TrimSpaceIs(a: string, body: string, b: string)
    requires AllSpace(a) && AllSpace(b) && VisibleEnds(body)
    ensures TrimSpace(a + body + b) == body
    decreases |a| + |b|
  {
    var s := a + body + b;
    if a != "" {
      assert s[1..] == a[1..] + body + b;
      TrimSpaceIs(a[1..], body, b);
    } else if body == "" && b != "" {
      assert s == b && s[1..] == a + body + b[1..];
      TrimSpaceIs(a, body, b[1..]);
    } else if b != "" {
      assert s[0] == body[0];
      assert s[..|s| - 1] == a + body + b[..|b| - 1];
      TrimSpaceIs(a, body, b[..|b| - 1]);
    } else {
      assert s == body;
    }
  }

  lemma NothingToTrim(s: string)
    requires VisibleEnds(s)
    ensures TrimSpace(s) == s
  {
    TrimSpaceIs("", s, "");
    assert "" + s + "" == s;
  }

  // stringutils.IsEmpty
  predicate IsBlank(s: string) { TrimSpace(s) == "" }

  lemma {:induction false} TrimRightKeeps(s: string)
    requires s != "" && !IsSpace(s[0])
    ensures TrimRight(s) != "" && TrimRight(s)[0] == s[0]
    decreases |s|
  {
    if IsSpace(s[|s| - 1]) {
      TrimRightKeeps(s[..|s| - 1]);
    }
  }

  // A text that starts with a visible character is not blank.
  lemma NotBlank(s: string)
    requires s != "" && !IsSpace(s[0])
    ensures !IsBlank(s)
  {
    TrimRightKeeps(s);
  }

  // The characters that Unicode calls white space.
  predicate WhiteSpace(c: char) {
    || c in "\t\n\U{000B}\U{000C}\r \U{0085}\U{00A0}\U{1680}\U{2028}\U{2029}\U{202F}\U{205F}\U{3000}"
    || '\U{2000}' <= c <= '\U{200A}'
  }

  // A text is empty for stringutils.IsEmpty exactly when it is all white space.
  lemma BlankIff(s: string)
    ensures IsBlank(s) <==> forall i :: 0 <= i < |s| ==> WhiteSpace(s[i])
  {
    forall i | 0 <= i < |s| ensures WhiteSpace(s[i]) <==> IsSpace(s[i]) {
      SpaceIs(s[i]);
    }
    if AllSpace(s) {
      TrimSpaceIs(s, "", "");
      assert s + "" + "" == s;
    } else {
      SomeVisible(s);
    }
  }

  lemma SpaceIs(c: char)
    ensures WhiteSpace(c) <==> IsSpace(c)
  {
  }

  lemma {:induction false} SomeVisible(s: string)
    requires !AllSpace(s)
    ensures !IsBlank(s)
    decreases |s|
  {
    if IsSpace(s[0]) {
      assert s == [s[0]] + s[1..];
      SomeVisible(s[1..]);
    } else {
      NotBlank(s);
    }
  }

  // --- Numbers: %d and strconv.Atoi ----------------------------------------------------

  function Digit(d: nat): (c: char)
    requires d < 10
    ensures '0' <= c <= '9'
  {
    '0' + d as char
  }

  function NatText(n: nat): (s: string)
    ensures s != "" && forall i :: 0 <= i < |s| ==> '0' <= s[i] <= '9'
  {
    if n < 10 then [Digit(n)] else NatText(n / 10) + [Digit(n % 10)]
  }

  function IntText(n: int): string {
    if n < 0 then "-" + NatText(-n) else NatText(n)
  }

  predicate AllDigits(s: string) {
    s != "" && forall i :: 0 <= i < |s| ==> '0' <= s[i] <= '9'
  }

  function NatValue(s: string): nat
    requires AllDigits(s)
  {
    var last := (s[|s| - 1] - '0') as nat;
    if |s| == 1 then last else 10 * NatValue(s[..|s| - 1]) + last
  }

  function Atoi(s: string): Option<int> {
    if AllDigits(s) then Some(NatValue(s) as int)
    else if s != "" && (s[0] == '-' || s[0] == '+') && AllDigits(s[1..]) then
      Some(if s[0] == '-' then -(NatValue(s[1..]) as int) else NatValue(s[1..]) as int)
    else None
  }

  lemma {:induction false} NatRoundTrip(n: nat)
    ensures NatValue(NatText(n)) == n
  {
    if n >= 10 {
      NatRoundTrip(n / 10);
      var s := NatText(n);
      assert s[..|s| - 1] == NatText(n / 10);
    }
  }

  // Numbers are written and read in decimal notation.
  lemma DecimalText(n: int, d: int)
    requires n > 0 && 0 <= d < 10
    ensures IntText(d) == ["0123456789"[d]]
    ensures IntText(10 * n + d) == IntText(n) + ["0123456789"[d]]
    ensures IntText(-n) == "-" + IntText(n)
  {
    assert "0123456789"[d] == Digit(d);
    assert (10 * n + d) / 10 == n && (10 * n + d) % 10 == d;
  }

  lemma DecimalValue(digits: string, d: int)
    requires AllDigits(digits) && 0 <= d < 10
    ensures Atoi(["0123456789"[d]]) == Some(d)
    ensures Atoi(digits).Some? && Atoi(digits + ["0123456789"[d]]) == Some(10 * Atoi(digits).value + d)
  {
    var c := "0123456789"[d];
    assert c == Digit(d) && (c - '0') as int == d;
    assert NatValue([c]) == d;
    var more := digits + [c];
    assert more[..|digits|] == digits && more[|more| - 1] == c && AllDigits(more);
    assert NatValue(more) == 10 * NatValue(digits) + d;
  }

  lemma SignedValue(digits: string)
    requires AllDigits(digits)
    ensures Atoi(digits).Some?
    ensures Atoi("-" + digits) == Some(-Atoi(digits).value) && Atoi("+" + digits) == Atoi(digits)
  {
    var negative, positive := "-" + digits, "+" + digits;
    assert negative[0] == '-' && negative[1..] == digits;
    assert positive[0] == '+' && positive[1..] == digits;
  }

  lemma AtoiIntText(n: int)
    ensures Atoi(IntText(n)) == Some(n)
    ensures IntText(n) != "" && forall i :: 0 <= i < |IntText(n)| ==> IntText(n)[i] == '-' || '0' <= IntText(n)[i] <= '9'
  {
    NatRoundTrip(if n < 0 then -n else n);
    if n < 0 {
      assert IntText(n)[1..] == NatText(-n);
    }
  }
}
