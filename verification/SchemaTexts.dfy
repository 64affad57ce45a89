// What SchemaOf, IsBuiltin and toGoType say of the texts themselves, spelled out.
module SchemaTexts {
  import opened Prelude
  import opened Text
  import opened TypeText

  // --- Schemas of texts -------------------------------------------------------------------

  // The name of a basic type, or a pointer to it.
  predicate NameOrPointer(text: string, name: string) { text == name || text == "*" + name }

  lemma {:induction false} ListedIff(name: string, names: seq<string>)
    ensures Listed(name, names) <==> name in names
  {
    if names != [] {
      ListedIff(name, names[1..]);
      assert name in names <==> name == names[0] || name in names[1..];
    }
  }

  lemma BasicIs(name: string)
    ensures Basic(name) ==
            if name == "bool" then Some(Schema("", "", "boolean", "", None, None, None))
            else if name in ["string", "error"] then Some(Schema("", "", "string", "", None, None, None))
            else if name == "float32" then Some(Schema("", "", "number", "float", None, None, None))
            else if name == "float64" then Some(Schema("", "", "number", "double", None, None, None))
            else if name == "multipart.FileHeader" then Some(Schema("", "", "string", "binary", None, None, None))
            else if name in ["int64", "uint64", "uintptr"] then Some(Schema("", "", "integer", "int64", None, None, None))
            else if name in ["int", "int8", "int16", "int32", "uint", "uint8", "uint16", "uint32", "byte", "rune", "complex64", "complex128"] then
              Some(Schema("", "", "integer", "int32", None, None, None))
            else None
  {
    ListedIff(name, INT_NAMES);
    ListedIff(name, INT64_NAMES);
  }

  lemma BasicStarts(name: string)
    requires Basic(name).Some?
    ensures name != "" && 'a' <= name[0] <= 'z'
  {
    BasicIs(name);
  }

  lemma NameRead(text: string, name: string, names: seq<string>)
    requires NameOrPointer(text, name) && Basic(name).Some?
    ensures SchemaOf(text, names) == Basic(name)
  {
    BasicStarts(name);
    assert TrimPrefix(text, "*") == name;
  }

  // The data type of every basic name, and of a pointer to it.
  lemma BasicTexts(text: string, name: string, names: seq<string>)
    requires NameOrPointer(text, name)
    ensures var s := SchemaOf(text, names);
            if name == "bool" then s == Some(Schema("", "", "boolean", "", None, None, None))
            else if name in ["string", "error"] then s == Some(Schema("", "", "string", "", None, None, None))
            else if name == "float32" then s == Some(Schema("", "", "number", "float", None, None, None))
            else if name == "float64" then s == Some(Schema("", "", "number", "double", None, None, None))
            else if name == "multipart.FileHeader" then s == Some(Schema("", "", "string", "binary", None, None, None))
            else if name in ["int64", "uint64", "uintptr"] then s == Some(Schema("", "", "integer", "int64", None, None, None))
            else name in ["int", "int8", "int16", "int32", "uint", "uint8", "uint16", "uint32", "byte", "rune", "complex64", "complex128"] ==>
              s == Some(Schema("", "", "integer", "int32", None, None, None))
  {
    BasicIs(name);
    if Basic(name).Some? { NameRead(text, name, names); }
  }

  // A capitalised name becomes a reference when it is known, an object of any shape when not;
  // the package in front of it is ignored.
  lemma ReferenceTexts(pkg: string, name: string, text: string, names: seq<string>)
    requires IsIdent(pkg) && IsIdent(name) && 'A' <= name[0] <= 'Z' && !(pkg == "multipart" && name == "FileHeader")
    requires NameOrPointer(text, name) || NameOrPointer(text, pkg + "." + name)
    ensures SchemaOf(text, names) ==
            if name in names then Some(Schema("#/components/schemas/" + name, "", "", "", None, None, None))
            else Some(Schema("", "", "object", "", None, None, None))
  {
    if NameOrPointer(text, name) {
      assert TrimPrefix(text, "*") == name;
      IdentSchema(name, text, names);
      NotBasic(name, 0);
    } else {
      assert IsIdentChar(pkg[0]) && (pkg + "." + name)[0] == pkg[0];
      assert TrimPrefix(text, "*") == pkg + "." + name;
      SelectorSchema(pkg, name, text, names);
    }
  }

  // Slices and arrays of any length are arrays of their element's schema, and maps are objects
  // whose additional properties have it, whatever the key.
  lemma CollectionTexts(inside: string, elt: GoType, names: seq<string>)
    requires !Has(inside, ']') && Regular(elt, 2)
    ensures SchemaOf("[" + inside + ("]" + ExprString(elt)), names) ==
            Some(Schema("", "", "array", "", Some(SchemaOfType(elt, names)), None, None))
    ensures SchemaOf("map[" + inside + ("]" + ExprString(elt)), names) ==
            Some(Schema("", "", "object", "", None, Some(SchemaOfType(elt, names)), None))
  {
    SchemaOfElement(elt, names);
    NoStar("[" + inside + ("]" + ExprString(elt)));
    NoStar("map[" + inside + ("]" + ExprString(elt)));
    BracketText(false, inside, ExprString(elt), "[" + inside + ("]" + ExprString(elt)), names);
    BracketText(true, inside, ExprString(elt), "map[" + inside + ("]" + ExprString(elt)), names);
  }

  // --- Basic elements -----------------------------------------------------------------------

  // A basic name, a pointer to it, or a slice or array of either, itself behind a pointer or
  // not. SchemaOf looks through one more pointer of an element.
  predicate NameOrElement(text: string, name: string) {
    text == name || text == "*" + name || IsElement(text, name)
  }

  predicate IsElement(text: string, name: string) {
    ("[" <= text || "*[" <= text) && exists n :: 0 <= n < |text| && IsElementAt(text, name, n)
  }

  // The first closing bracket is at n, and the name is all that follows but stars.
  predicate IsElementAt(text: string, name: string, n: nat)
    requires n < |text|
  {
    && text[n] == ']' && (forall j :: 0 <= j < n ==> text[j] != ']')
    && text[n + 1..] in [name, "*" + name, "**" + name]
  }

  predicate IsBasic(s: Schema) { IsSimple(s) || s == FILE }

  lemma CompositeNotBasic(ft: string, names: seq<string>)
    ensures Composite(ft, names).Some? ==> !IsBasic(Composite(ft, names).value)
    ensures !Bracketed(ft) && Composite(ft, names).Some? ==> Composite(ft, names).value.items.None?
  {
    if Bracketed(ft) {
      if Has(ft, ']') {
        var inner := SchemaOf(TrimPrefix(AfterBracket(ft), "*"), names);
        InnerDecides(ft, names);
        if inner.Some? { CollectionNotBasic(inner.value); }
      } else {
        OpenBracketFails(ft, names);
      }
    } else {
      OtherUnfolds(ft, names);
      NamedNotBasic(ft, names);
      AnonymousNotBasic(ft);
    }
  }

  lemma OtherUnfolds(ft: string, names: seq<string>)
    requires !Bracketed(ft)
    ensures Composite(ft, names) == Some(if HasAnonymous(ft) then ANY.(fields := Some(ft)) else Named(ft, names))
  {
  }

  lemma BasicTyped(s: Schema)
    requires IsBasic(s)
    ensures s.typ != "" && s.typ != "object" && s.typ != "array" && s.items.None?
  {
  }

  lemma AnonymousNotBasic(ft: string)
    ensures !IsBasic(ANY.(fields := Some(ft))) && ANY.(fields := Some(ft)).items.None?
  {
    var s := ANY.(fields := Some(ft));
    assert s.typ == "object";
    if IsBasic(s) { BasicTyped(s); }
  }

  lemma CollectionNotBasic(s: Schema)
    ensures !IsBasic(MapOf(s)) && !IsBasic(ArrayOf(s))
  {
    assert MapOf(s).typ == "object" && ArrayOf(s).typ == "array";
    if IsBasic(MapOf(s)) { BasicTyped(MapOf(s)); }
    if IsBasic(ArrayOf(s)) { BasicTyped(ArrayOf(s)); }
  }

  lemma NamedNotBasic(ft: string, names: seq<string>)
    ensures !IsBasic(Named(ft, names)) && Named(ft, names).items.None?
  {
    var s := Named(ft, names);
    assert s == RefTo(TitleOf(ft)) || s == ANY;
    assert s.typ == "" || s.typ == "object";
    if IsBasic(s) { BasicTyped(s); }
  }

  lemma OnlyBasic(text: string, names: seq<string>, s: Schema)
    requires IsBasic(s)
    ensures SchemaOf(text, names) == Some(s) <==> Basic(TrimPrefix(text, "*")) == Some(s)
  {
    CompositeNotBasic(TrimPrefix(text, "*"), names);
  }

  // For a type's text without its leading star.
  predicate IsSlice(ft: string) { "[" <= ft && Has(ft, ']') }

  function ElementOf(ft: string): string { TrimPrefix(TrimPrefix(AfterBracket(ft), "*"), "*") }

  lemma ArrayOfBasic(text: string, names: seq<string>, s: Schema)
    requires IsBasic(s)
    ensures var ft := TrimPrefix(text, "*");
            SchemaOf(text, names) == Some(ArrayOf(s)) <==> IsSlice(ft) && Basic(ElementOf(ft)) == Some(s)
  {
    var ft := TrimPrefix(text, "*");
    CompositeArray(ft, names, s);
    if Bracketed(ft) { BracketNotBasic(ft); }
    BasicNoItems(ft);
    assert SchemaOf(text, names) == if Basic(ft).Some? then Basic(ft) else Composite(ft, names);
  }

  lemma CompositeArray(ft: string, names: seq<string>, s: Schema)
    requires IsBasic(s)
    ensures Composite(ft, names) == Some(ArrayOf(s)) <==> IsSlice(ft) && Basic(ElementOf(ft)) == Some(s)
  {
    if Bracketed(ft) {
      if Has(ft, ']') {
        ArrayOfInner(ft, names, s);
        OnlyBasic(TrimPrefix(AfterBracket(ft), "*"), names, s);
      } else {
        OpenBracketFails(ft, names);
      }
    } else {
      CompositeNotBasic(ft, names);
    }
  }

  lemma ArrayOfInner(ft: string, names: seq<string>, s: Schema)
    requires Bracketed(ft) && Has(ft, ']')
    ensures Composite(ft, names) == Some(ArrayOf(s)) <==>
            "[" <= ft && SchemaOf(TrimPrefix(AfterBracket(ft), "*"), names) == Some(s)
  {
    var inner := SchemaOf(TrimPrefix(AfterBracket(ft), "*"), names);
    InnerDecides(ft, names);
    assert "[" <= ft <==> !("map[" <= ft);
    if inner.Some? {
      assert MapOf(inner.value).typ == "object" && ArrayOf(s).typ == "array";
      assert ArrayOf(inner.value).items == inner && ArrayOf(s).items == Some(s);
    }
  }

  lemma BracketNotBasic(ft: string)
    requires Bracketed(ft)
    ensures Basic(ft).None?
  {
    NotBasic(ft, if "[" <= ft then 0 else 3);
  }

  lemma BasicNoItems(ft: string)
    ensures Basic(ft).Some? ==> Basic(ft).value.items.None?
  {
  }

  predicate BareName(name: string) {
    name != "" && name[0] != '*' && name[0] != '['
  }

  // The text without its leading star, d characters later.
  predicate WithoutStar(text: string, ft: string, d: nat) {
    d <= 1 && |text| == d + |ft| && text[d..] == ft && (if d == 1 then text[0] == '*' else !("*" <= text))
  }

  lemma ElementRead(text: string, name: string)
    requires BareName(name)
    ensures var ft := TrimPrefix(text, "*");
            NameOrElement(text, name) <==> ft == name || (IsSlice(ft) && ElementOf(ft) == name)
  {
    if "*" <= text {
      PointerRead(text, text[1..], name);
    } else {
      assert text != "*" + name by { assert ("*" + name)[0] == '*'; }
      SliceRead(text, text, 0, name);
    }
  }

  lemma PointerRead(text: string, ft: string, name: string)
    requires BareName(name) && "*" <= text && ft == text[1..]
    ensures NameOrElement(text, name) <==> ft == name || (IsSlice(ft) && ElementOf(ft) == name)
  {
    assert text[0] == '*' && text != name;
    assert text == "*" + ft;
    assert text == "*" + name <==> ft == name by { assert ("*" + name)[1..] == name; }
    SliceRead(text, ft, 1, name);
  }

  lemma SliceRead(text: string, ft: string, d: nat, name: string)
    requires BareName(name) && WithoutStar(text, ft, d)
    ensures IsSlice(ft) && ElementOf(ft) == name <==> IsElement(text, name)
  {
    assert "[" <= ft <==> "[" <= text || "*[" <= text;
    StarsTrimmed(AfterBracket(ft), name);
    if IsSlice(ft) && ElementOf(ft) == name {
      var n := IndexOf(ft, ']') + d;
      assert text[n] == ft[n - d];
      BracketAt(text, ft, d, n);
      assert IsElementAt(text, name, n);
    }
    if n :| 0 <= n < |text| && ("[" <= text || "*[" <= text) && IsElementAt(text, name, n) {
      assert ft[n - d] == ']';
      BracketAt(text, ft, d, n);
    }
  }

  lemma BracketAt(text: string, ft: string, d: nat, n: nat)
    requires WithoutStar(text, ft, d)
    requires d <= n < |text| && text[n] == ']'
    ensures (forall j :: 0 <= j < n ==> text[j] != ']') <==> IndexOf(ft, ']') == n - d
    ensures IndexOf(ft, ']') == n - d ==> AfterBracket(ft) == text[n + 1..]
  {
    var i := IndexOf(ft, ']');
    assert ft[n - d] == ']';
    if i == n - d {
      forall j | 0 <= j < n ensures text[j] != ']' {
        if j >= d { assert text[j] == ft[j - d]; }
      }
    } else {
      assert text[i + d] == ft[i] && i + d < n;
    }
  }

  lemma StarsTrimmed(elem: string, name: string)
    requires BareName(name)
    ensures TrimPrefix(TrimPrefix(elem, "*"), "*") == name <==> elem in [name, "*" + name, "**" + name]
  {
    assert ("*" + name)[1..] == name && ("**" + name)[1..] == "*" + name;
    assert ("*" + name)[0] == '*' && ("**" + name)[0] == '*';
    if "*" <= elem {
      var rest := elem[1..];
      assert elem == "*" + rest;
      if "*" <= rest {
        assert rest == "*" + rest[1..] && elem == "**" + rest[1..];
      } else {
        assert TrimPrefix(TrimPrefix(elem, "*"), "*") == rest;
      }
    }
  }

  // --- Built-in types and files ----------------------------------------------------------------

  // The names of Go's basic types that have an OpenAPI data type of their own.
  predicate IsBuiltinName(name: string) {
    name in ["bool", "string", "error", "float32", "float64",
             "int", "int8", "int16", "int32", "int64", "uint", "uint8", "uint16", "uint32", "uint64", "uintptr",
             "byte", "rune", "complex64", "complex128"]
  }

  lemma BuiltinNames(name: string)
    ensures IsBuiltinName(name) <==> BasicSimple(name)
    ensures name == "multipart.FileHeader" <==> Basic(name) == Some(FILE)
    ensures IsBuiltinName(name) ==> BareName(name)
  {
    BasicIs(name);
    if Basic(name).Some? { BasicStarts(name); }
  }

  // A type is built in exactly when it is one of the basic types, a slice or an array of
  // one, or reached from these by the pointers that are looked through.
  lemma BuiltinIff(text: string, names: seq<string>)
    ensures IsBuiltin(text, names) <==> exists name :: IsBuiltinName(name) && NameOrElement(text, name)
  {
    var name, element := TrimPrefix(text, "*"), ElementOf(TrimPrefix(text, "*"));
    BuiltinNames(name);
    BuiltinNames(element);
    BuiltinMeans(text, names);
    if IsBuiltin(text, names) {
      var found := if IsBuiltinName(name) then name else element;
      ElementRead(text, found);
    }
    forall found | IsBuiltinName(found) && NameOrElement(text, found) ensures IsBuiltin(text, names) {
      BuiltinNames(found);
      ElementRead(text, found);
    }
  }

  predicate BasicSimple(name: string) { Basic(name).Some? && IsSimple(Basic(name).value) }

  lemma BuiltinMeans(text: string, names: seq<string>)
    ensures var ft := TrimPrefix(text, "*");
            IsBuiltin(text, names) <==> BasicSimple(ft) || (IsSlice(ft) && BasicSimple(ElementOf(ft)))
  {
    var ft := TrimPrefix(text, "*");
    if Basic(ft).Some? {
      if Bracketed(ft) { BracketNotBasic(ft); }
      BasicNoItems(ft);
    } else if Bracketed(ft) && Has(ft, ']') {
      BracketBuiltin(text, names);
      assert "[" <= ft <==> !("map[" <= ft);
      SimpleElement(TrimPrefix(AfterBracket(ft), "*"), names);
    } else {
      OtherNotBuiltin(text, names);
    }
  }

  lemma SimpleElement(elem: string, names: seq<string>)
    ensures SchemaOf(elem, names).Some? && IsSimple(SchemaOf(elem, names).value) <==> BasicSimple(TrimPrefix(elem, "*"))
  {
    if SchemaOf(elem, names).Some? && IsSimple(SchemaOf(elem, names).value) {
      OnlyBasic(elem, names, SchemaOf(elem, names).value);
    }
    if BasicSimple(TrimPrefix(elem, "*")) { OnlyBasic(elem, names, Basic(TrimPrefix(elem, "*")).value); }
  }

  // A type has the schema of a file, or of a list of files, exactly when it is a file header,
  // or a slice or array of them, reached by such pointers.
  lemma FileIff(text: string, names: seq<string>)
    ensures SchemaOf(text, names) == Some(Schema("", "", "string", "binary", None, None, None))
            || SchemaOf(text, names) == Some(Schema("", "", "array", "", Some(Schema("", "", "string", "binary", None, None, None)), None, None))
            <==> NameOrElement(text, "multipart.FileHeader")
  {
    OnlyBasic(text, names, FILE);
    ArrayOfBasic(text, names, FILE);
    BuiltinNames(TrimPrefix(text, "*"));
    BuiltinNames(ElementOf(TrimPrefix(text, "*")));
    ElementRead(text, "multipart.FileHeader");
  }

  // --- Anonymous structs -----------------------------------------------------------------------

  lemma {:induction false} ClosesIff(s: string)
    ensures ClosesOnLine(s) <==> HasClosing(s)
  {
    if s != "" {
      ClosesIff(s[1..]);
      if ClosesOnLine(s[1..]) && s[0] != '\n' {
        var j :| 0 <= j < |s[1..]| && s[1..][j] == '»' && '\n' !in s[1..][..j];
        assert s[j + 1] == '»' && s[..j + 1] == [s[0]] + s[1..][..j];
      }
      if j :| 0 <= j < |s| && s[j] == '»' && '\n' !in s[..j] {
        if j > 0 {
          assert s[0] in s[..j];
          assert s[1..][j - 1] == '»' && s[..j] == [s[0]] + s[1..][..j - 1];
        }
      }
    }
  }

  predicate HasClosing(s: string) { exists j :: 0 <= j < |s| && s[j] == '»' && '\n' !in s[..j] }

  // The text of an anonymous struct somewhere, with its closing mark on the same line.
  predicate AnonymousAt(ft: string, i: nat)
    requires i <= |ft|
  {
    "anonystruct«" <= ft[i..] && HasClosing(ft[i + 12..])
  }

  lemma {:induction false} AnonymousIff(ft: string)
    ensures HasAnonymous(ft) <==> exists i :: 0 <= i <= |ft| && AnonymousAt(ft, i)
  {
    if ft == "" {
      assert forall i :: 0 <= i <= |ft| ==> ft[i..] == "";
    } else {
      var rest := ft[1..];
      AnonymousIff(rest);
      assert ft[0..] == ft;
      if "anonystruct«" <= ft { ClosesIff(ft[12..]); }
      forall i | 0 <= i <= |rest| ensures AnonymousAt(rest, i) <==> AnonymousAt(ft, i + 1) {
        assert rest[i..] == ft[i + 1..];
        if "anonystruct«" <= rest[i..] { assert rest[i + 12..] == ft[i + 1 + 12..]; }
      }
      if i :| 0 <= i <= |ft| && AnonymousAt(ft, i) {
        if i > 0 { assert AnonymousAt(rest, i - 1); }
      }
      if HasAnonymous(rest) {
        var i :| 0 <= i <= |rest| && AnonymousAt(rest, i);
        assert AnonymousAt(ft, i + 1);
      }
      if "anonystruct«" <= ft && ClosesOnLine(ft[12..]) { assert AnonymousAt(ft, 0); }
    }
  }

  // --- Schemas as Go types ---------------------------------------------------------------------

  // The text that toGoType writes for each schema that SchemaOf produces.
  lemma GoScalars(titles: set<string>)
    ensures ToGoType(Schema("", "", "integer", "int32", None, None, None), titles) == "int"
    ensures ToGoType(Schema("", "", "integer", "int64", None, None, None), titles) == "int64"
    ensures ToGoType(Schema("", "", "boolean", "", None, None, None), titles) == "bool"
    ensures ToGoType(Schema("", "", "string", "", None, None, None), titles) == "string"
    ensures ToGoType(Schema("", "", "string", "date-time", None, None, None), titles) == "*time.Time"
    ensures ToGoType(Schema("", "", "string", "binary", None, None, None), titles) == "*os.File"
    ensures ToGoType(Schema("", "", "number", "float", None, None, None), titles) == "float32"
    ensures ToGoType(Schema("", "", "number", "double", None, None, None), titles) == "float64"
  {
  }

  lemma GoTexts(name: string, s: Schema, titles: set<string>)
    requires IsIdent(name) && Shaped(s)
    ensures ToGoType(Schema("#/components/schemas/" + name, "", "", "", None, None, None), titles) == name
    ensures ToGoType(Schema("", name, "object", "", None, None, None), titles) == if name in titles then name else "struct {\n}"
    ensures ToGoType(Schema("", "", "array", "", Some(s), None, None), titles) == "[]" + ToGoType(s, titles)
    ensures s != Schema("", "", "", "", None, None, None) ==>
              ToGoType(Schema("", "", "object", "", None, Some(s), None), titles) == "map[string]" + ToGoType(s, titles)
  {
    var reference := "#/components/schemas/" + name;
    assert reference[0] == '#';
    NotBlank(reference);
    assert TrimPrefix(reference, "#/components/schemas/") == name;
    NotBlank(name);
  }

  // Printed types have Go's own syntax.
  lemma PrintedTexts(t: GoType, len: string, key: GoType, pkg: string, name: string)
    ensures ExprString(Ident(name)) == name && ExprString(Selector(pkg, name)) == pkg + "." + name
    ensures ExprString(Star(t)) == "*" + ExprString(t) && ExprString(Interface) == "interface{}"
    ensures ExprString(Slice(t)) == "[]" + ExprString(t) && ExprString(Array(len, t)) == "[" + len + "]" + ExprString(t)
    ensures ExprString(Map(key, t)) == "map[" + ExprString(key) + "]" + ExprString(t)
  {
    assert "[" + ("]" + ExprString(t)) == "[]" + ExprString(t);
    assert ("[" + len) + ("]" + ExprString(t)) == "[" + len + "]" + ExprString(t);
    assert ("map[" + ExprString(key)) + ("]" + ExprString(t)) == "map[" + ExprString(key) + "]" + ExprString(t);
  }
}
