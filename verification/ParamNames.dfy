// astutils.InterfaceCollector: the names given to the unnamed parameters and results of an
// interface's methods. The case conversion of a key letter is a parameter of the model.
//
// The loop is split as the source's branches are: Classify says what an entry is (named,
// blank, keyed, or a panic), and Collect numbers the keyed entries with a key map. The map is
// specified by Used, the number of earlier entries with a key. Two generated names are then
// told apart in two steps: a key without digits and its number can be recovered from the name
// (KeyAndNumber), and the number of uses of a key grows from one use to the next (UsedGrows).
// The first use of a key is the key itself.
module ParamNames {
  import opened Prelude
  import opened Text

  datatype Param = Param(names: seq<string>, typ: string)
  datatype Field = Field(name: string, typ: string)

  // What the loop makes of an entry: names of its own, no name for a blank type, a key to
  // number, or a panic on the first letter of an empty segment.
  datatype Entry = Named(names: seq<string>, typ: string) | Blank(typ: string)
                 | Keyed(key: string, typ: string) | Panic

  // One star, everything up to the first closing bracket and another star are cut off.
  function Element(typ: string): string {
    var elemt := TrimPrefix(typ, "*");
    var n := IndexOf(elemt, ']');
    if Has(elemt, '[') then TrimPrefix(elemt[if n == |elemt| then 0 else n + 1..], "*") else elemt
  }

  function LastSegment(s: string): string {
    var splits := Split(s, '.');
    splits[|splits| - 1]
  }

  predicate NoDigit(s: string) { forall i :: 0 <= i < |s| ==> !('0' <= s[i] <= '9') }

  function Classify(prefix: char, lower: char -> string, p: Param): (e: Entry)
    ensures e.Keyed? ==>
              var first := LastSegment(Element(p.typ));
              first != "" && e.key == [prefix] + lower(first[0])
    ensures e.Named? <==> p.names != []
  {
    if p.names != [] then Named(p.names, p.typ)
    else if IsBlank(TrimPrefix(p.typ, "*")) then Blank(p.typ)
    else
      var segment := LastSegment(Element(p.typ));
      if segment == "" then Panic else Keyed([prefix] + lower(segment[0]), p.typ)
  }

  function Entries(prefix: char, lower: char -> string, ps: seq<Param>): seq<Entry> {
    MapSeq((p: Param) => Classify(prefix, lower, p), ps)
  }

  // How many of the first n entries have the key.
  function Used(es: seq<Entry>, n: nat, key: string): nat
    requires n <= |es|
  {
    if n == 0 then 0
    else Used(es, n - 1, key) + if es[n - 1].Keyed? && es[n - 1].key == key then 1 else 0
  }

  function Number(used: nat): (s: string)
    ensures if used == 0 then s == "" else AllDigits(s)
  {
    if used == 0 then "" else NatText(used + 1)
  }

  // The first use of a key is the key itself, later ones carry their number.
  function NameOf(key: string, used: nat): string { key + Number(used) }

  function OwnNames(names: seq<string>, typ: string): (fields: seq<Field>)
    ensures |fields| == |names|
    ensures forall i :: 0 <= i < |names| ==> fields[i] == Field(names[i], typ)
  {
    if names == [] then [] else [Field(names[0], typ)] + OwnNames(names[1..], typ)
  }

  // The field of a keyed entry, numbered by the entries before it.
  function NumberedField(es: seq<Entry>, i: nat): Field
    requires i < |es| && es[i].Keyed?
  {
    Field(NameOf(es[i].key, Used(es, i, es[i].key)), es[i].typ)
  }

  function FieldsAt(es: seq<Entry>, i: nat): seq<Field>
    requires i < |es|
  {
    match es[i]
    case Named(names, typ) => OwnNames(names, typ)
    case Blank(typ) => [Field("", typ)]
    case Keyed(_, _) => [NumberedField(es, i)]
    case Panic => []
  }

  function Collected(es: seq<Entry>, n: nat): seq<Field>
    requires n <= |es|
  {
    if n == 0 then [] else Collected(es, n - 1) + FieldsAt(es, n - 1)
  }

  ghost predicate Counts(keymap: map<string, nat>, es: seq<Entry>, n: nat)
    requires n <= |es|
  {
    && (forall key :: key in keymap ==> keymap[key] == Used(es, n, key) > 0)
    && (forall key :: key !in keymap ==> Used(es, n, key) == 0)
  }

  lemma CountsStep(keymap: map<string, nat>, es: seq<Entry>, n: nat)
    requires n < |es| && Counts(keymap, es, n)
    ensures es[n].Keyed? ==>
      var key := es[n].key;
      && Counts(keymap[key := if key in keymap then keymap[key] + 1 else 1], es, n + 1)
      && NumberedField(es, n)
         == Field(if key in keymap then key + NatText(keymap[key] + 1) else key, es[n].typ)
    ensures !es[n].Keyed? ==> Counts(keymap, es, n + 1)
  {
  }

  // The loop over the entries of a method's parameters or results; None is a panic.
  method Collect(es: seq<Entry>) returns (all: Option<seq<Field>>)
    ensures all == None <==> Panic in es
    ensures all.Some? ==> all.value == Collected(es, |es|)
  {
    var collected: seq<Field> := [];
    var keymap: map<string, nat> := map[];
    for n := 0 to |es|
      invariant forall k :: 0 <= k < n ==> es[k] != Panic
      invariant collected == Collected(es, n)
      invariant Counts(keymap, es, n)
    {
      CountsStep(keymap, es, n);
      match es[n]
      case Named(names, typ) =>
        collected := collected + OwnNames(names, typ);
      case Blank(typ) =>
        collected := collected + [Field("", typ)];
      case Panic =>
        return None;
      case Keyed(key, typ) =>
        if key in keymap {
          keymap := keymap[key := keymap[key] + 1];
          collected := collected + [Field(key + NatText(keymap[key]), typ)];
        } else {
          keymap := keymap[key := 1];
          collected := collected + [Field(key, typ)];
        }
    }
    return Some(collected);
  }

  // The names of a method's parameters (prefix p) or results (prefix r).
  method CollectFields(prefix: char, lower: char -> string, ps: seq<Param>) returns (all: Option<seq<Field>>)
    ensures all == None <==> Panic in Entries(prefix, lower, ps)
    ensures all.Some? ==> all.value == Collected(Entries(prefix, lower, ps), |ps|)
  {
    all := Collect(Entries(prefix, lower, ps));
  }

  // --- The names of ordinary types -------------------------------------------------------------

  // A type name, alone or behind its package.
  predicate IsCore(core: string, name: string) {
    && core != "" && name != "" && IsLetter(core[0])
    && (core == name || exists n :: 0 <= n < |core| && core[n] == '.' && core[n + 1..] == name)
    && '.' !in name && '[' !in core && ']' !in core
  }

  // The type itself, a pointer to it, or a slice, array or map of it or of pointers to it.
  predicate IsTypeOf(typ: string, core: string) {
    || typ == core || typ == "*" + core
    || exists n :: 0 <= n < |typ| && (typ[n + 1..] == core || typ[n + 1..] == "*" + core) && IsOpening(typ, n)
  }

  predicate IsOpening(typ: string, n: nat)
    requires n < |typ|
  {
    typ[n] == ']' && ']' !in typ[..n] && ("[" <= typ || "*[" <= typ || "map[" <= typ)
  }

  // An unnamed entry is keyed by the first letter of its type's own name: pointers, brackets
  // and the package do not matter.
  lemma KeyIs(prefix: char, lower: char -> string, p: Param, core: string, name: string)
    requires p.names == [] && IsCore(core, name) && IsTypeOf(p.typ, core)
    ensures Classify(prefix, lower, p) == Keyed([prefix] + lower(name[0]), p.typ)
  {
    ElementIs(p.typ, core);
    SegmentIs(core, name);
  }

  lemma SegmentIs(core: string, name: string)
    requires IsCore(core, name)
    ensures LastSegment(core) == name
  {
    if core == name {
      OneSegment(name);
    } else {
      var n :| 0 <= n < |core| && core[n] == '.' && core[n + 1..] == name;
      assert core == core[..n] + ['.'] + name;
      LastOfSplit(core[..n], name);
    }
  }

  lemma OneSegment(name: string)
    requires '.' !in name
    ensures Split(name, '.') == [name]
  {
  }

  lemma {:induction false} LastOfSplit(a: string, name: string)
    requires '.' !in name
    ensures LastSegment(a + ['.'] + name) == name
    decreases |a|
  {
    var s := a + ['.'] + name;
    var i := IndexOf(s, '.');
    assert s[|a|] == '.';
    if i == |a| {
      assert s[i + 1..] == name;
      OneSegment(name);
    } else {
      assert i < |a| && s[i + 1..] == a[i + 1..] + ['.'] + name;
      LastOfSplit(a[i + 1..], name);
    }
  }

  lemma ElementIs(typ: string, core: string)
    requires core != "" && IsLetter(core[0]) && '[' !in core && ']' !in core && IsTypeOf(typ, core)
    ensures Element(typ) == core && !IsBlank(TrimPrefix(typ, "*"))
  {
    var pointer := "*" + core;
    assert pointer[1..] == core && pointer[0] == '*';
    NotBlank(core);
    if typ == core || typ == pointer {
    } else {
      var n :| 0 <= n < |typ| && (typ[n + 1..] == core || typ[n + 1..] == pointer) && IsOpening(typ, n);
      BracketElement(typ, n);
    }
  }

  lemma BracketElement(typ: string, n: nat)
    requires n < |typ| && IsOpening(typ, n)
    ensures Element(typ) == TrimPrefix(typ[n + 1..], "*") && !IsBlank(TrimPrefix(typ, "*"))
  {
    var elemt := TrimPrefix(typ, "*");
    var d := |typ| - |elemt|;
    assert d == 1 ==> typ[0] == '*';
    assert elemt[n - d] == ']' && elemt[..n - d] == typ[d..n];
    assert IndexOf(elemt, ']') == n - d by {
      assert forall j :: 0 <= j < n - d ==> elemt[j] == typ[..n][j + d];
    }
    assert elemt[n - d + 1..] == typ[n + 1..];
    assert elemt[if "map[" <= typ then 3 else 0] == '[';
    NotBlank(elemt);
  }

  // Naming panics exactly on an unnamed entry whose type ends with a dot or in the bracket
  // of a collection.
  lemma PanicIff(prefix: char, lower: char -> string, p: Param)
    ensures Classify(prefix, lower, p).Panic? <==>
            && p.names == [] && !IsBlank(TrimPrefix(p.typ, "*"))
            && (Element(p.typ) == "" || Element(p.typ)[|Element(p.typ)| - 1] == '.')
  {
    EmptySegment(Element(p.typ));
  }

  lemma EmptySegment(s: string)
    ensures LastSegment(s) == "" <==> s == "" || s[|s| - 1] == '.'
  {
    if '.' in s {
      var n := LastDot(s);
      assert s == s[..n] + ['.'] + s[n + 1..];
      LastOfSplit(s[..n], s[n + 1..]);
    } else {
      OneSegment(s);
    }
  }

  lemma {:induction false} LastDot(s: string) returns (n: nat)
    requires '.' in s
    ensures n < |s| && s[n] == '.' && '.' !in s[n + 1..]
  {
    if s[|s| - 1] == '.' {
      n := |s| - 1;
    } else {
      n := LastDot(s[..|s| - 1]);
      assert s[n + 1..] == s[..|s| - 1][n + 1..] + [s[|s| - 1]];
    }
  }

  // Entries with one key are numbered from the second on.
  lemma FirstNames(key: string, types: seq<string>)
    requires |types| >= 3
    ensures var fields := Collected(MapSeq((t: string) => Keyed(key, t), types), 3);
            fields == [Field(key, types[0]), Field(key + "2", types[1]), Field(key + "3", types[2])]
  {
    var es := MapSeq((t: string) => Keyed(key, t), types);
    assert Used(es, 1, key) == 1 && Used(es, 2, key) == 2;
    assert key + "" == key;
    assert NumberedField(es, 0) == Field(key, types[0]);
    assert NumberedField(es, 1) == Field(key + "2", types[1]);
    assert NumberedField(es, 2) == Field(key + "3", types[2]);
    assert Collected(es, 1) == [NumberedField(es, 0)];
    assert Collected(es, 2) == [NumberedField(es, 0), NumberedField(es, 1)];
  }

  // --- Distinct names ----------------------------------------------------------------------

  // A key without digits and its number can be told apart again.
  lemma KeyAndNumber(a: string, s: string, b: string, t: string)
    requires NoDigit(a) && NoDigit(b) && a + s == b + t
    requires (s == "" || AllDigits(s)) && (t == "" || AllDigits(t))
    ensures a == b && s == t
  {
    NotLonger(a, s, b, t);
    NotLonger(b, t, a, s);
    assert (a + s)[..|a|] == a && (b + t)[..|a|] == b;
    assert (a + s)[|a|..] == s && (b + t)[|a|..] == t;
  }

  lemma Beyond(a: string, s: string)
    requires s != ""
    ensures (a + s)[|a|] == s[0]
  {
  }

  lemma NotLonger(a: string, s: string, b: string, t: string)
    requires NoDigit(b) && a + s == b + t && (s == "" || AllDigits(s))
    ensures |b| <= |a|
  {
    var r := a + s;
    if |a| < |b| {
      assert r[|a|] == b[|a|];
      Beyond(a, s);
    }
  }

  lemma NumberInjective(m: nat, n: nat)
    requires Number(m) == Number(n)
    ensures m == n
  {
    NatRoundTrip(m + 1);
    NatRoundTrip(n + 1);
  }

  lemma {:induction false} UsedGrows(es: seq<Entry>, i: nat, j: nat)
    requires i < j <= |es| && es[i].Keyed?
    ensures Used(es, i, es[i].key) < Used(es, j, es[i].key)
    decreases j
  {
    if i < j - 1 {
      UsedGrows(es, i, j - 1);
    }
  }

  // A list without names gives one field for each entry, numbered by the entries before it.
  lemma {:induction false} CollectedKeyed(es: seq<Entry>, n: nat, i: nat)
    requires i < n <= |es| && forall k :: 0 <= k < |es| ==> es[k].Keyed?
    ensures |Collected(es, n)| == n
    ensures Collected(es, n)[i] == NumberedField(es, i)
  {
    if i < n - 1 {
      CollectedKeyed(es, n - 1, i);
    } else if n > 1 {
      CollectedKeyed(es, n - 1, 0);
    }
  }

  // All names generated for the parameters of a method, and likewise for its results, are
  // distinct when none of their keys has a digit.
  lemma NamesDistinct(prefix: char, lower: char -> string, ps: seq<Param>, i: nat, j: nat)
    requires forall k :: 0 <= k < |ps| ==>
               Entries(prefix, lower, ps)[k].Keyed? && NoDigit(Entries(prefix, lower, ps)[k].key)
    requires i < j < |ps|
    ensures var fields := Collected(Entries(prefix, lower, ps), |ps|);
            |fields| == |ps| && fields[i].name != fields[j].name
  {
    var es := Entries(prefix, lower, ps);
    CollectedKeyed(es, |es|, i);
    CollectedKeyed(es, |es|, j);
    EntriesKeyed(prefix, lower, ps);
    NumberedDistinct(es, i, j);
  }

  lemma NumberedDistinct(es: seq<Entry>, i: nat, j: nat)
    requires i < j < |es| && es[i].Keyed? && es[j].Keyed? && NoDigit(es[i].key) && NoDigit(es[j].key)
    ensures NameOf(es[i].key, Used(es, i, es[i].key)) != NameOf(es[j].key, Used(es, j, es[j].key))
  {
    var m, n := Used(es, i, es[i].key), Used(es, j, es[j].key);
    if NameOf(es[i].key, m) == NameOf(es[j].key, n) {
      KeyAndNumber(es[i].key, Number(m), es[j].key, Number(n));
      NumberInjective(m, n);
      UsedGrows(es, i, j);
    }
  }

  predicate IsLetter(c: char) { 'a' <= c <= 'z' || 'A' <= c <= 'Z' }

  // The type's text, without pointer and brackets, names something that starts with a letter.
  predicate StartsWithLetter(p: Param) {
    LastSegment(Element(p.typ)) != "" && IsLetter(LastSegment(Element(p.typ))[0])
  }

  // That is so for types whose names start with an ASCII letter, whatever the conversion
  // does to other characters.
  lemma LetterNamesDistinct(prefix: char, lower: char -> string, ps: seq<Param>, i: nat, j: nat)
    requires IsLetter(prefix) && forall c :: IsLetter(c) ==> NoDigit(lower(c))
    requires forall k :: 0 <= k < |ps| ==> Entries(prefix, lower, ps)[k].Keyed? && StartsWithLetter(ps[k])
    requires i < j < |ps|
    ensures var fields := Collected(Entries(prefix, lower, ps), |ps|);
            |fields| == |ps| && fields[i].name != fields[j].name
  {
    EntriesKeyed(prefix, lower, ps);
    forall k | 0 <= k < |ps| ensures NoDigit(Entries(prefix, lower, ps)[k].key) {
      KeyWithoutDigit(prefix, lower, ps[k]);
    }
    NamesDistinct(prefix, lower, ps, i, j);
  }

  lemma KeyWithoutDigit(prefix: char, lower: char -> string, p: Param)
    requires IsLetter(prefix) && forall c :: IsLetter(c) ==> NoDigit(lower(c))
    requires Classify(prefix, lower, p).Keyed? && StartsWithLetter(p)
    ensures NoDigit(Classify(prefix, lower, p).key)
  {
  }

  lemma EntriesKeyed(prefix: char, lower: char -> string, ps: seq<Param>)
    ensures forall k :: 0 <= k < |ps| ==> Entries(prefix, lower, ps)[k] == Classify(prefix, lower, ps[k])
  {
  }

  lemma KeyedName(prefix: char, lower: char -> string, ps: seq<Param>, i: nat)
    requires forall k :: 0 <= k < |ps| ==> Entries(prefix, lower, ps)[k].Keyed?
    requires i < |ps|
    ensures var fields := Collected(Entries(prefix, lower, ps), |ps|);
            |fields| == |ps| && fields[i].name != "" && fields[i].name[0] == prefix
  {
    CollectedKeyed(Entries(prefix, lower, ps), |ps|, i);
    EntriesKeyed(prefix, lower, ps);
  }

  // A generated parameter name never equals a generated result name.
  lemma ParamsApartFromResults(lower: char -> string, params: seq<Param>, results: seq<Param>, i: nat, j: nat)
    requires forall k :: 0 <= k < |params| ==> Entries('p', lower, params)[k].Keyed?
    requires forall k :: 0 <= k < |results| ==> Entries('r', lower, results)[k].Keyed?
    requires i < |params| && j < |results|
    ensures |Collected(Entries('p', lower, params), |params|)| == |params|
    ensures |Collected(Entries('r', lower, results), |results|)| == |results|
    ensures Collected(Entries('p', lower, params), |params|)[i].name
         != Collected(Entries('r', lower, results), |results|)[j].name
  {
    KeyedName('p', lower, params, i);
    KeyedName('r', lower, results, j);
  }
}
