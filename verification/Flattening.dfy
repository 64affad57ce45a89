// ddlast.FlatEmbed and StructCollector.DocFlatEmbed: one level of embedded fields promoted
// through maps whose iteration order is unspecified.
//
// The loops are proved against reference definitions (Flattened, DirectOf, EmbeddedOf), and
// these are characterised as filtered and mapped sequences (DirectIs, EmbeddedIs).
module Flattening {
  import opened Prelude
  import opened Text

  datatype Field = Field(name: string, typ: string, tag: string, isExport: bool)
  datatype Struct = Struct(name: string, fields: seq<Field>, comments: seq<string>, isExport: bool)

  const EMBED := "embed"

  // strings.Contains
  predicate Contains(s: string, part: string) {
    part <= s || (s != "" && Contains(s[1..], part))
  }

  // The regular expression json:"(.*?)" matches.
  predicate HasJsonName(tag: string) {
    tag != "" && (("json:\"" <= tag && ClosesQuote(tag[6..])) || HasJsonName(tag[1..]))
  }

  predicate ClosesQuote(s: string) {
    s != "" && s[0] != '\n' && (s[0] == '"' || ClosesQuote(s[1..]))
  }

  // --- Reference definitions ---------------------------------------------------------------

  function FirstNamed(structs: seq<Struct>, name: string): Option<Struct> {
    if structs == [] then None
    else if structs[0].name == name then Some(structs[0]) else FirstNamed(structs[1..], name)
  }

  function LastNamed(fields: seq<Field>, name: string): Option<Field> {
    if fields == [] then None
    else
      var last := fields[|fields| - 1];
      if last.name == name then Some(last) else LastNamed(fields[..|fields| - 1], name)
  }

  predicate Names(fields: seq<Field>, name: string) {
    exists i :: 0 <= i < |fields| && fields[i].name == name
  }

  // The fields of the struct that an embedded field names.
  function FieldsOf(structs: seq<Struct>, name: string): seq<Field> {
    match FirstNamed(structs, name) case None => [] case Some(s) => s.fields
  }

  // What a flattened struct must be: the direct fields in source order, then exactly one
  // field for each other name among the embedded ones, the last one of that name.
  ghost predicate Flattened(out: seq<Field>, direct: seq<Field>, embedded: seq<Field>) {
    && direct <= out
    && (forall i, j :: |direct| <= i < j < |out| ==> out[i].name != out[j].name)
    && (forall i :: |direct| <= i < |out| ==> !Names(direct, out[i].name) && LastNamed(embedded, out[i].name) == Some(out[i]))
    && (forall name :: Names(embedded, name) && !Names(direct, name) ==> exists i :: |direct| <= i < |out| && out[i].name == name)
  }

  lemma {:induction false} LastNamedIs(fields: seq<Field>, name: string)
    ensures LastNamed(fields, name).Some? <==> Names(fields, name)
    ensures LastNamed(fields, name).Some? ==> LastNamed(fields, name).value.name == name && LastNamed(fields, name).value in fields
  {
    if fields != [] {
      LastNamedIs(fields[..|fields| - 1], name);
      if Names(fields, name) && fields[|fields| - 1].name != name {
        var i :| 0 <= i < |fields| && fields[i].name == name;
        assert fields[..|fields| - 1][i] == fields[i];
      }
    }
  }

  // Names are distinct when the direct ones are.
  lemma FlattenedDistinct(out: seq<Field>, direct: seq<Field>, embedded: seq<Field>)
    requires Flattened(out, direct, embedded)
    requires forall i, j :: 0 <= i < j < |direct| ==> direct[i].name != direct[j].name
    ensures forall i, j :: 0 <= i < j < |out| ==> out[i].name != out[j].name
  {
  }

  // For any two iteration orders the direct part is the same and the promoted parts hold
  // the same fields.
  lemma FlattenedDetermined(out: seq<Field>, out': seq<Field>, direct: seq<Field>, embedded: seq<Field>)
    requires Flattened(out, direct, embedded) && Flattened(out', direct, embedded)
    ensures out[..|direct|] == out'[..|direct|]
    ensures forall f :: f in out[|direct|..] <==> f in out'[|direct|..]
    ensures |out| == |out'|
  {
    PromotedIncluded(out, out', direct, embedded);
    PromotedIncluded(out', out, direct, embedded);
    DistinctSize(out[|direct|..], out'[|direct|..]);
  }

  lemma PromotedIncluded(out: seq<Field>, out': seq<Field>, direct: seq<Field>, embedded: seq<Field>)
    requires Flattened(out, direct, embedded) && Flattened(out', direct, embedded)
    ensures forall f :: f in out[|direct|..] ==> f in out'[|direct|..]
  {
    forall f | f in out[|direct|..] ensures f in out'[|direct|..] {
      var i :| 0 <= i < |out[|direct|..]| && out[|direct|..][i] == f;
      assert out[|direct| + i] == f;
      LastNamedIs(embedded, f.name);
      var j :| |direct| <= j < |out'| && out'[j].name == f.name;
      assert out'[|direct|..][j - |direct|] == out'[j] == f;
    }
  }

  lemma {:induction false} DistinctSize(xs: seq<Field>, ys: seq<Field>)
    requires forall i, j :: 0 <= i < j < |xs| ==> xs[i].name != xs[j].name
    requires forall i, j :: 0 <= i < j < |ys| ==> ys[i].name != ys[j].name
    requires forall f :: f in xs <==> f in ys
    ensures |xs| == |ys|
  {
    assert |xs| == |set f | f in xs| by { SetSize(xs); }
    assert |ys| == |set f | f in ys| by { SetSize(ys); }
    assert (set f | f in xs) == (set f | f in ys);
  }

  lemma {:induction false} SetSize(xs: seq<Field>)
    requires forall i, j :: 0 <= i < j < |xs| ==> xs[i].name != xs[j].name
    ensures |set f | f in xs| == |xs|
  {
    if xs != [] {
      SetSize(xs[1..]);
      assert (set f | f in xs) == (set f | f in xs[1..]) + {xs[0]};
      assert xs[0] !in xs[1..];
    }
  }

  // --- The source --------------------------------------------------------------------------

  // The first struct of each name.
  method StructMap(structs: seq<Struct>) returns (structMap: map<string, Struct>)
    ensures forall name :: name in structMap <==> FirstNamed(structs, name).Some?
    ensures forall name :: name in structMap ==> FirstNamed(structs, name) == Some(structMap[name])
  {
    structMap := map[];
    for n := 0 to |structs|
      invariant forall name :: (name in structMap <==> FirstNamed(structs[..n], name).Some?)
                            && (name in structMap ==> FirstNamed(structs[..n], name) == Some(structMap[name]))
    {
      assert structs[..n + 1] == structs[..n] + [structs[n]];
      forall name { FirstNamedSnoc(structs[..n], structs[n], name); }
      if structs[n].name !in structMap {
        structMap := structMap[structs[n].name := structs[n]];
      }
    }
    assert structs[..|structs|] == structs;
  }

  lemma {:induction false} FirstNamedSnoc(structs: seq<Struct>, s: Struct, name: string)
    ensures FirstNamed(structs + [s], name) ==
            if FirstNamed(structs, name).Some? then FirstNamed(structs, name) else if s.name == name then Some(s) else None
  {
    if structs != [] {
      assert (structs + [s])[1..] == structs[1..] + [s];
      FirstNamedSnoc(structs[1..], s, name);
    }
  }

  ghost predicate Holds(m: map<string, Field>, fields: seq<Field>) {
    forall name :: (name in m <==> LastNamed(fields, name).Some?) && (name in m ==> LastNamed(fields, name) == Some(m[name]))
  }

  // Every field is entered under its name, the later one replacing the earlier.
  method Enter(m: map<string, Field>, fields: seq<Field>, exportedOnly: bool, ghost before: seq<Field>)
    returns (m': map<string, Field>)
    requires Holds(m, before)
    ensures Holds(m', before + Kept(fields, exportedOnly))
  {
    m' := m;
    assert before + [] == before;
    for n := 0 to |fields|
      invariant Holds(m', before + Kept(fields[..n], exportedOnly))
    {
      assert fields[..n + 1][..n] == fields[..n] && fields[..n + 1][n] == fields[n];
      if exportedOnly && !fields[n].isExport {
        continue;
      }
      ghost var all := before + Kept(fields[..n], exportedOnly);
      assert before + Kept(fields[..n + 1], exportedOnly) == all + [fields[n]];
      assert (all + [fields[n]])[..|all|] == all;
      m' := m'[fields[n].name := fields[n]];
    }
    assert fields[..|fields|] == fields;
  }

  function Kept(fields: seq<Field>, exportedOnly: bool): seq<Field> {
    if fields == [] then []
    else
      var last, before := fields[|fields| - 1], Kept(fields[..|fields| - 1], exportedOnly);
      if exportedOnly && !last.isExport then before else before + [last]
  }

  // The map of promoted fields is visited in any order; shadowed names are left out.
  method AppendPromoted(direct: seq<Field>, fieldMap: map<string, Field>, embedFieldMap: map<string, Field>, ghost embedded: seq<Field>)
    returns (out: seq<Field>)
    requires Holds(fieldMap, direct) && Holds(embedFieldMap, embedded)
    ensures Flattened(out, direct, embedded)
  {
    out := direct;
    var todo := embedFieldMap.Keys;
    while todo != {}
      invariant todo <= embedFieldMap.Keys
      invariant direct <= out
      invariant forall i, j :: |direct| <= i < j < |out| ==> out[i].name != out[j].name
      invariant forall i :: |direct| <= i < |out| ==>
                  out[i].name !in todo && !Names(direct, out[i].name) && LastNamed(embedded, out[i].name) == Some(out[i])
      invariant forall name :: name in embedFieldMap && name !in todo && !Names(direct, name) ==>
                  exists i :: |direct| <= i < |out| && out[i].name == name
      decreases todo
    {
      var key :| key in todo;
      var field := embedFieldMap[key];
      LastNamedIs(embedded, key);
      LastNamedIs(direct, key);
      todo := todo - {key};
      if key !in fieldMap {
        ghost var before := out;
        out := out + [field];
        assert out[|before|].name == key;
        assert forall i :: 0 <= i < |before| ==> out[i] == before[i];
      }
    }
    forall name | Names(embedded, name) ensures name in embedFieldMap {
      LastNamedIs(embedded, name);
    }
  }

  // The fields that are resolved one level deep, in order. For documentation (`doc`) an
  // embedded field with a json name stays a field of its own, and only exported fields
  // count.
  function EmbeddedOf(structs: seq<Struct>, fields: seq<Field>, doc: bool): seq<Field> {
    if fields == [] then []
    else
      var last, before := fields[|fields| - 1], EmbeddedOf(structs, fields[..|fields| - 1], doc);
      if EMBED <= last.typ && !(doc && HasJsonName(last.tag)) then before + Kept(FieldsOf(structs, last.name), doc) else before
  }

  function DirectOf(fields: seq<Field>, doc: bool): seq<Field> {
    if fields == [] then []
    else
      var last, before := fields[|fields| - 1], DirectOf(fields[..|fields| - 1], doc);
      if EMBED <= last.typ then
        if doc && HasJsonName(last.tag) then before + [last.(typ := TrimPrefix(last.typ, "embed:"))] else before
      else if !doc || last.isExport then before + [last] else before
  }

  // --- The reference definitions, field by field --------------------------------------------

  // A text contains another one when that stands somewhere in it.
  lemma {:induction false} ContainsIff(s: string, part: string)
    ensures Contains(s, part) <==> exists k :: 0 <= k <= |s| && part <= s[k..]
  {
    assert s[0..] == s;
    if s != "" {
      ContainsIff(s[1..], part);
      assert forall k :: 0 <= k <= |s[1..]| ==> s[1..][k..] == s[k + 1..];
      if k :| 0 <= k <= |s| && part <= s[k..] {
        if k > 0 { assert part <= s[1..][k - 1..]; }
      }
      if k :| 0 <= k <= |s[1..]| && part <= s[1..][k..] { assert part <= s[k + 1..]; }
    }
  }

  // A text followed by a quote, on one line.
  predicate QuoteFollows(s: string) { exists j :: 0 <= j < |s| && s[j] == '"' && '\n' !in s[..j] }

  lemma {:induction false} ClosesIff(s: string)
    ensures ClosesQuote(s) <==> QuoteFollows(s)
  {
    if s != "" {
      ClosesIff(s[1..]);
      if ClosesQuote(s[1..]) && s[0] != '\n' {
        var j :| 0 <= j < |s[1..]| && s[1..][j] == '"' && '\n' !in s[1..][..j];
        assert s[j + 1] == '"' && s[..j + 1] == [s[0]] + s[1..][..j];
      }
      if j :| 0 <= j < |s| && s[j] == '"' && '\n' !in s[..j] {
        if j > 0 {
          assert s[0] in s[..j];
          assert s[1..][j - 1] == '"' && s[..j] == [s[0]] + s[1..][..j - 1];
        }
      }
    }
  }

  predicate JsonNameAt(tag: string, k: nat)
    requires k <= |tag|
  {
    "json:\"" <= tag[k..] && QuoteFollows(tag[k + 6..])
  }

  lemma {:induction false} JsonNameIff(tag: string)
    ensures HasJsonName(tag) <==> exists k :: 0 <= k <= |tag| && JsonNameAt(tag, k)
  {
    if tag == "" {
      assert forall k :: 0 <= k <= |tag| ==> tag[k..] == "";
    } else {
      var rest := tag[1..];
      JsonNameIff(rest);
      assert tag[0..] == tag;
      if "json:\"" <= tag { ClosesIff(tag[6..]); }
      forall k | 0 <= k <= |rest| ensures JsonNameAt(rest, k) <==> JsonNameAt(tag, k + 1) {
        assert rest[k..] == tag[k + 1..];
        if "json:\"" <= rest[k..] { assert rest[k + 6..] == tag[k + 1 + 6..]; }
      }
      if k :| 0 <= k <= |tag| && JsonNameAt(tag, k) {
        if k > 0 { assert JsonNameAt(rest, k - 1); }
      }
      if HasJsonName(rest) {
        var k :| 0 <= k <= |rest| && JsonNameAt(rest, k);
        assert JsonNameAt(tag, k + 1);
      }
      if "json:\"" <= tag && ClosesQuote(tag[6..]) { assert JsonNameAt(tag, 0); }
    }
  }

  // The first struct of a name, and the last field of one.
  lemma {:induction false} FirstNamedIs(structs: seq<Struct>, name: string)
    ensures match FirstNamed(structs, name)
            case None => forall i :: 0 <= i < |structs| ==> structs[i].name != name
            case Some(s) => exists i :: 0 <= i < |structs| && structs[i] == s && s.name == name
                                        && forall j :: 0 <= j < i ==> structs[j].name != name
  {
    if structs != [] {
      FirstNamedIs(structs[1..], name);
      if structs[0].name != name && FirstNamed(structs, name).Some? {
        var s := FirstNamed(structs, name).value;
        var i :| 0 <= i < |structs[1..]| && structs[1..][i] == s && s.name == name
                 && forall j :: 0 <= j < i ==> structs[1..][j].name != name;
        assert structs[i + 1] == s;
        assert forall j :: 0 < j < i + 1 ==> structs[j] == structs[1..][j - 1];
      }
    }
  }

  lemma {:induction false} LastNamedAt(fields: seq<Field>, i: nat)
    requires i < |fields| && forall j :: i < j < |fields| ==> fields[j].name != fields[i].name
    ensures LastNamed(fields, fields[i].name) == Some(fields[i])
  {
    var n := |fields| - 1;
    if i < n { LastNamedAt(fields[..n], i); }
  }

  // The fields that stay as they are or, in documentation, lose their embed: prefix.
  function Stays(doc: bool): Field -> bool {
    (f: Field) => if "embed" <= f.typ then doc && HasJsonName(f.tag) else !doc || f.isExport
  }

  function Unprefixed(): Field -> Field {
    (f: Field) => if "embed:" <= f.typ then f.(typ := f.typ[6..]) else f
  }

  lemma {:induction false} DirectIs(fields: seq<Field>, doc: bool)
    ensures DirectOf(fields, doc) == MapSeq(Unprefixed(), Filter(Stays(doc), fields))
  {
    if fields != [] {
      var front, last := fields[..|fields| - 1], fields[|fields| - 1];
      DirectIs(front, doc);
      assert fields == front + [last];
      FilterSnoc(Stays(doc), front, last);
      if Stays(doc)(last) {
        PrefixOfEmbed(last.typ);
        MapSeqSnoc(Unprefixed(), Filter(Stays(doc), front), last);
      }
    }
  }

  lemma PrefixOfEmbed(typ: string)
    ensures "embed:" <= typ ==> "embed" <= typ
  {
    if "embed:" <= typ { assert "embed" == "embed:"[..5] == typ[..5]; }
  }

  // The other embedded fields are replaced by the fields of the structs they name, in order.
  function Resolved(structs: seq<Struct>, doc: bool): Field -> seq<Field> {
    (f: Field) => match FirstNamed(structs, f.name)
      case None => []
      case Some(s) => Filter((g: Field) => !doc || g.isExport, s.fields)
  }

  function IsResolved(doc: bool): Field -> bool {
    (f: Field) => "embed" <= f.typ && !(doc && HasJsonName(f.tag))
  }

  lemma {:induction false} EmbeddedIs(structs: seq<Struct>, fields: seq<Field>, doc: bool)
    ensures EmbeddedOf(structs, fields, doc) == Flatten(MapSeq(Resolved(structs, doc), Filter(IsResolved(doc), fields)))
  {
    if fields != [] {
      var front, last := fields[..|fields| - 1], fields[|fields| - 1];
      EmbeddedIs(structs, front, doc);
      assert fields == front + [last];
      FilterSnoc(IsResolved(doc), front, last);
      if IsResolved(doc)(last) {
        var kept := Filter(IsResolved(doc), front);
        MapSeqSnoc(Resolved(structs, doc), kept, last);
        FlattenSnoc(MapSeq(Resolved(structs, doc), kept), Resolved(structs, doc)(last));
        KeptIs(FieldsOf(structs, last.name), doc);
      }
    }
  }

  lemma {:induction false} KeptIs(fields: seq<Field>, exportedOnly: bool)
    ensures Kept(fields, exportedOnly) == Filter((g: Field) => !exportedOnly || g.isExport, fields)
  {
    if fields != [] {
      var front, last := fields[..|fields| - 1], fields[|fields| - 1];
      KeptIs(front, exportedOnly);
      assert fields == front + [last];
      FilterSnoc((g: Field) => !exportedOnly || g.isExport, front, last);
    }
  }

  lemma {:induction false} FlattenSnoc(xss: seq<seq<Field>>, xs: seq<Field>)
    ensures Flatten(xss + [xs]) == Flatten(xss) + xs
  {
    if xss == [] {
      assert [] + [xs] == [xs] && Flatten([xs]) == xs + Flatten([]);
    } else {
      assert (xss + [xs])[1..] == xss[1..] + [xs];
      FlattenSnoc(xss[1..], xs);
    }
  }

  // The loop over one struct's fields and the loop over the promoted ones.
  method FlattenFields(structs: seq<Struct>, structMap: map<string, Struct>, source: seq<Field>, doc: bool) returns (flat: seq<Field>)
    requires forall name :: name in structMap <==> FirstNamed(structs, name).Some?
    requires forall name :: name in structMap ==> FirstNamed(structs, name) == Some(structMap[name])
    ensures Flattened(flat, DirectOf(source, doc), EmbeddedOf(structs, source, doc))
  {
    var fields: seq<Field>, fieldMap: map<string, Field>, embedFieldMap: map<string, Field> := [], map[], map[];
    for i := 0 to |source|
      invariant fields == DirectOf(source[..i], doc)
      invariant Holds(fieldMap, fields)
      invariant Holds(embedFieldMap, EmbeddedOf(structs, source[..i], doc))
    {
      var f := source[i];
      assert source[..i + 1][..i] == source[..i] && source[..i + 1][i] == f;
      if EMBED <= f.typ && !(doc && HasJsonName(f.tag)) {
        if f.name in structMap {
          embedFieldMap := Enter(embedFieldMap, structMap[f.name].fields, doc, EmbeddedOf(structs, source[..i], doc));
        } else {
          assert Kept(FieldsOf(structs, f.name), doc) == [];
          assert EmbeddedOf(structs, source[..i], doc) + [] == EmbeddedOf(structs, source[..i], doc);
        }
      } else if EMBED <= f.typ || !doc || f.isExport {
        var kept := if EMBED <= f.typ then f.(typ := TrimPrefix(f.typ, "embed:")) else f;
        assert (fields + [kept])[..|fields|] == fields;
        fields := fields + [kept];
        fieldMap := fieldMap[kept.name := kept];
      }
    }
    assert source[..|source|] == source;
    flat := AppendPromoted(fields, fieldMap, embedFieldMap, EmbeddedOf(structs, source, doc));
  }

  predicate IsTable(s: Struct) { s.comments != [] && Contains(s.comments[0], "dd:table") }

  predicate IsExported(s: Struct) { s.isExport }

  ghost predicate FlatOf(r: Struct, s: Struct, structs: seq<Struct>, doc: bool) {
    && r.name == s.name && r.comments == s.comments && r.isExport == doc
    && Flattened(r.fields, DirectOf(s.fields, doc), EmbeddedOf(structs, s.fields, doc))
  }

  ghost predicate AllFlat(result: seq<Struct>, sources: seq<Struct>, structs: seq<Struct>, doc: bool) {
    |result| == |sources| && forall k :: 0 <= k < |result| ==> FlatOf(result[k], sources[k], structs, doc)
  }

  lemma AllFlatMore(result: seq<Struct>, sources: seq<Struct>, structs: seq<Struct>, doc: bool, r: Struct, s: Struct)
    requires AllFlat(result, sources, structs, doc) && FlatOf(r, s, structs, doc)
    ensures AllFlat(result + [r], sources + [s], structs, doc)
  {
  }

  // ddlast.FlatEmbed: one flattened struct for each table struct, in order.
  method FlatEmbed(structs: seq<Struct>) returns (result: seq<Struct>)
    ensures AllFlat(result, Filter(IsTable, structs), structs, false)
  {
    var structMap := StructMap(structs);
    result := [];
    for n := 0 to |structs|
      invariant AllFlat(result, Filter(IsTable, structs[..n]), structs, false)
    {
      var s := structs[n];
      assert structs[..n + 1] == structs[..n] + [s];
      FilterSnoc(IsTable, structs[..n], s);
      if |s.comments| == 0 || !Contains(s.comments[0], "dd:table") {
        continue;
      }
      var flat := FlattenFields(structs, structMap, s.fields, false);
      AllFlatMore(result, Filter(IsTable, structs[..n]), structs, false, Struct(s.name, flat, s.comments, false), s);
      result := result + [Struct(s.name, flat, s.comments, false)];
    }
    assert structs[..|structs|] == structs;
  }

  // StructCollector.DocFlatEmbed: the same for the exported structs.
  method DocFlatEmbed(structs: seq<Struct>) returns (result: seq<Struct>)
    ensures AllFlat(result, Filter(IsExported, structs), structs, true)
  {
    var structMap := StructMap(structs);
    var exStructs: seq<Struct> := [];
    for n := 0 to |structs|
      invariant exStructs == Filter(IsExported, structs[..n])
    {
      assert structs[..n + 1] == structs[..n] + [structs[n]];
      FilterSnoc(IsExported, structs[..n], structs[n]);
      if structs[n].isExport {
        exStructs := exStructs + [structs[n]];
      }
    }
    assert structs[..|structs|] == structs;
    result := [];
    for n := 0 to |exStructs|
      invariant AllFlat(result, exStructs[..n], structs, true)
    {
      var s := exStructs[n];
      var flat := FlattenFields(structs, structMap, s.fields, true);
      assert exStructs[..n + 1] == exStructs[..n] + [s];
      AllFlatMore(result, exStructs[..n], structs, true, Struct(s.name, flat, s.comments, true), s);
      result := result + [Struct(s.name, flat, s.comments, true)];
    }
    assert exStructs[..|exStructs|] == exStructs;
  }
}
