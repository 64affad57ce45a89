// Go type expressions as text, text as OpenAPI schemas, and schemas as Go text again:
// astutils.ExprString, v3.SchemaOf, v3.IsBuiltin and the client generator's toGoType.
module TypeText {
  import opened Prelude
  import opened Text

  // The type expressions of go/ast that the printer accepts, without anonymous structs,
  // functions and channels. The length of an array type is kept as its text.
  datatype GoType =
    | Ident(name: string)
    | Selector(pkg: string, name: string)
    | Star(x: GoType)
    | Interface
    | Slice(elt: GoType)
    | Array(len: string, elt: GoType)
    | Map(key: GoType, elt: GoType)

  // ExprString
  function ExprString(t: GoType): string {
    match t
    case Ident(name) => name
    case Selector(pkg, name) => pkg + "." + name
    case Star(x) => "*" + ExprString(x)
    case Interface => "interface{}"
    case Slice(elt) => "[" + ("]" + ExprString(elt))
    case Array(len, elt) => ("[" + len) + ("]" + ExprString(elt))
    case Map(key, elt) => ("map[" + ExprString(key)) + ("]" + ExprString(elt))
  }

  // v3.Schema, with the fields that SchemaOf sets and toGoType reads. `fields` is the JSON
  // text of an anonymous struct, from which the source decodes the properties.
  datatype Schema = Schema(ref: string, title: string, typ: string, format: string,
                           items: Option<Schema>, additional: Option<Schema>, fields: Option<string>)

  const ZERO := Plain("", "")

  function Plain(typ: string, format: string): Schema {
    Schema("", "", typ, format, None, None, None)
  }

  const ANY := Plain("object", "")
  const INT := Plain("integer", "int32")
  const INT64 := Plain("integer", "int64")
  const STRING := Plain("string", "")
  const BOOL := Plain("boolean", "")
  const FLOAT32 := Plain("number", "float")
  const FLOAT64 := Plain("number", "double")
  const FILE := Plain("string", "binary")

  function ArrayOf(s: Schema): Schema { Plain("array", "").(items := Some(s)) }
  function MapOf(s: Schema): Schema { Plain("object", "").(additional := Some(s)) }

  const REFS := "#/components/schemas/"

  function RefTo(name: string): Schema { ZERO.(ref := REFS + name) }

  const INT_NAMES := ["int", "int8", "int16", "int32", "uint", "uint8", "uint16", "uint32", "byte", "rune", "complex64", "complex128"]
  const INT64_NAMES := ["int64", "uint64", "uintptr"]

  predicate Listed(name: string, names: seq<string>) {
    names != [] && (names[0] == name || Listed(name, names[1..]))
  }

  // The switch on the basic type names; its cases do not overlap.
  function Basic(ft: string): Option<Schema> {
    if ft == "bool" then Some(BOOL)
    else if ft == "string" || ft == "error" then Some(STRING)
    else if ft == "float32" then Some(FLOAT32)
    else if ft == "float64" then Some(FLOAT64)
    else if ft == "multipart.FileHeader" then Some(FILE)
    else if Listed(ft, INT64_NAMES) then Some(INT64)
    else if Listed(ft, INT_NAMES) then Some(INT)
    else None
  }

  // What is left after the first closing bracket; everything when there is none.
  function AfterBracket(ft: string): (elem: string)
    ensures Has(ft, ']') ==> |elem| < |ft|
  {
    var n := IndexOf(ft, ']');
    if n == |ft| then ft else ft[n + 1..]
  }

  // The regular expression anonystruct«(.*)» matches somewhere; a dot is no line break.
  predicate HasAnonymous(ft: string) {
    ft != "" && (("anonystruct«" <= ft && ClosesOnLine(ft[12..])) || HasAnonymous(ft[1..]))
  }

  predicate ClosesOnLine(s: string) {
    s != "" && s[0] != '\n' && (s[0] == '»' || ClosesOnLine(s[1..]))
  }

  function LastDot(ft: string): (n: int)
    ensures -1 <= n < |ft|
    ensures n >= 0 ==> ft[n] == '.'
    ensures forall j :: n < j < |ft| ==> ft[j] != '.'
  {
    if ft == "" then -1 else if ft[|ft| - 1] == '.' then |ft| - 1 else LastDot(ft[..|ft| - 1])
  }

  predicate IsUpper(c: char) { 'A' <= c <= 'Z' }

  // The name after the last dot, or the whole text when it has none.
  function TitleOf(ft: string): string { ft[LastDot(ft) + 1..] }

  function Named(ft: string, names: seq<string>): Schema {
    var title := TitleOf(ft);
    if !IsBlank(title) && IsUpper(title[0]) && title in names then RefTo(title) else ANY
  }

  // SchemaOf; `names` is the global SchemaNames. None stands for the endless recursion of
  // the source on an opening bracket that is never closed.
  function SchemaOf(text: string, names: seq<string>): Option<Schema>
    decreases |text|, 1
  {
    var ft := TrimPrefix(text, "*");
    if Basic(ft).Some? then Basic(ft) else Composite(ft, names)
  }

  predicate Bracketed(ft: string) { "map[" <= ft || "[" <= ft }

  // The default case of the switch.
  function Composite(ft: string, names: seq<string>): Option<Schema>
    decreases |ft|, 0
  {
    if Bracketed(ft) then
      if !Has(ft, ']') then None
      else
        match SchemaOf(TrimPrefix(AfterBracket(ft), "*"), names)
        case None => None
        case Some(elem) => Some(if "map[" <= ft then MapOf(elem) else ArrayOf(elem))
    else if HasAnonymous(ft) then Some(ANY.(fields := Some(ft)))
    else Some(Named(ft, names))
  }

  // --- SchemaOf on printed types --------------------------------------------------------

  predicate IsIdent(name: string) {
    name != "" && forall i :: 0 <= i < |name| ==> IsIdentChar(name[i])
  }

  predicate IsIdentChar(c: char) {
    'a' <= c <= 'z' || 'A' <= c <= 'Z' || '0' <= c <= '9' || c == '_'
  }

  // Types whose pointers SchemaOf looks through: one star at the top, two on an element.
  // Map keys and array lengths may be any text without a closing bracket.
  predicate Regular(t: GoType, stars: nat) {
    match t
    case Ident(name) => IsIdent(name)
    case Selector(pkg, name) => IsIdent(pkg) && IsIdent(name)
    case Star(x) => stars > 0 && Regular(x, stars - 1)
    case Interface => true
    case Slice(elt) => Regular(elt, 2)
    case Array(len, elt) => !Has(len, ']') && Regular(elt, 2)
    case Map(key, elt) => !Has(ExprString(key), ']') && Regular(elt, 2)
  }

  function NamedIdent(name: string, names: seq<string>): Schema {
    if name != "" && IsUpper(name[0]) && name in names then RefTo(name) else ANY
  }

  // The schema by recursion on the type: the OpenAPI data types for the basic names,
  // arrays for slices and arrays, additionalProperties for maps, references for known
  // structs, and an object of any shape for the rest.
  function SchemaOfType(t: GoType, names: seq<string>): Schema {
    match t
    case Ident(name) => if Basic(name).Some? then Basic(name).value else NamedIdent(name, names)
    case Selector(pkg, name) =>
      if pkg == "multipart" && name == "FileHeader" then FILE else NamedIdent(name, names)
    case Star(x) => SchemaOfType(x, names)
    case Interface => ANY
    case Slice(elt) => ArrayOf(SchemaOfType(elt, names))
    case Array(_, elt) => ArrayOf(SchemaOfType(elt, names))
    case Map(_, elt) => MapOf(SchemaOfType(elt, names))
  }

  predicate LowerOrDigit(c: char) { 'a' <= c <= 'z' || '0' <= c <= '9' }

  predicate LowerAlphanumeric(s: string) {
    forall i :: 0 <= i < |s| ==> LowerOrDigit(s[i])
  }

  lemma {:induction false} ListedShape(name: string, names: seq<string>)
    requires Listed(name, names)
    requires forall k :: 0 <= k < |names| ==> LowerAlphanumeric(names[k])
    ensures LowerAlphanumeric(name)
  {
    if names[0] != name { ListedShape(name, names[1..]); }
  }

  lemma BasicShape(ft: string)
    requires Basic(ft).Some?
    ensures LowerAlphanumeric(ft) || ft == "multipart.FileHeader"
  {
    if ft in ["bool", "string", "error", "float32", "float64"] {
    } else if Listed(ft, INT64_NAMES) {
      Int64NamesLower();
      ListedShape(ft, INT64_NAMES);
    } else if Listed(ft, INT_NAMES) {
      IntNamesLower();
      ListedShape(ft, INT_NAMES);
    }
  }

  lemma IntNamesLower()
    ensures forall k :: 0 <= k < |INT_NAMES| ==> LowerAlphanumeric(INT_NAMES[k])
  {
  }

  lemma Int64NamesLower()
    ensures forall k :: 0 <= k < |INT64_NAMES| ==> LowerAlphanumeric(INT64_NAMES[k])
  {
  }

  // A text with a character that no basic name has.
  lemma NotBasic(ft: string, i: nat)
    requires i < |ft| && !LowerOrDigit(ft[i]) && ft != "multipart.FileHeader"
    ensures Basic(ft).None?
  {
    if Basic(ft).Some? { BasicShape(ft); }
  }

  lemma AfterBracketIs(a: string, b: string)
    requires !Has(a, ']')
    ensures Has(a + ("]" + b), ']') && AfterBracket(a + ("]" + b)) == b
  {
    var s := a + ("]" + b);
    assert s == a + [']'] + b;
    IndexOfConcat(a, ']', b);
    assert s[|a|] == ']';
    assert s[|a| + 1..] == b;
  }

  lemma {:induction false} AnonymousShape(ft: string)
    requires HasAnonymous(ft)
    ensures Has(ft, '«')
  {
    if "anonystruct«" <= ft {
      assert ft[11] == '«';
    } else {
      AnonymousShape(ft[1..]);
    }
  }

  lemma TitleOfIdent(name: string)
    requires !Has(name, '.')
    ensures TitleOf(name) == name
  {
  }

  lemma TitleOfSelector(pkg: string, name: string)
    requires !Has(name, '.')
    ensures TitleOf(pkg + "." + name) == name
  {
    var s := pkg + "." + name;
    assert s[|pkg|] == '.';
    assert forall j :: |pkg| < j < |s| ==> s[j] == name[j - |pkg| - 1];
    assert LastDot(s) == |pkg|;
  }

  lemma IdentChars(name: string)
    requires IsIdent(name)
    ensures forall c :: c in name ==> IsIdentChar(c)
    ensures !IsBlank(name)
  {
  }

  // A printed type without leading star, however many of its stars were trimmed before.
  lemma {:induction false} SchemaOfCore(t: GoType, text: string, names: seq<string>)
    requires Regular(t, 0) && TrimPrefix(text, "*") == ExprString(t)
    ensures SchemaOf(text, names) == Some(SchemaOfType(t, names))
    decreases t, 0
  {
    match t {
      case Ident(name) => IdentSchema(name, text, names);
      case Selector(pkg, name) => SelectorSchema(pkg, name, text, names);
      case Interface => ShapelessSchema("interface{}", 9, text, names);
      case Slice(elt) =>
        assert "[" + "" == "[";
        BracketText(false, "", ExprString(elt), text, names);
        SchemaOfElement(elt, names);
      case Array(len, elt) =>
        BracketText(false, len, ExprString(elt), text, names);
        SchemaOfElement(elt, names);
      case Map(key, elt) =>
        BracketText(true, ExprString(key), ExprString(elt), text, names);
        SchemaOfElement(elt, names);
    }
  }

  lemma BracketedHas(ft: string)
    requires Bracketed(ft)
    ensures Has(ft, '[')
  {
    if "[" <= ft { assert ft[0] == '['; } else { assert ft[3] == '['; }
  }

  lemma NotAnonymous(ft: string)
    requires !Has(ft, '«')
    ensures !HasAnonymous(ft)
  {
    if HasAnonymous(ft) { AnonymousShape(ft); }
  }

  lemma NamedUnfolds(ft: string, names: seq<string>)
    requires !Has(ft, '[') && !Has(ft, '«')
    ensures Composite(ft, names) == Some(Named(ft, names))
  {
    NotAnonymous(ft);
    if Bracketed(ft) { BracketedHas(ft); }
  }

  lemma BracketUnfolds(opening: string, elem: string, names: seq<string>)
    requires !Has(opening, ']') && Bracketed(opening)
    ensures var inner := SchemaOf(TrimPrefix(elem, "*"), names);
            Composite(opening + ("]" + elem), names) ==
            if inner.None? then None else Some(if "map[" <= opening then MapOf(inner.value) else ArrayOf(inner.value))
  {
    var ft := opening + ("]" + elem);
    AfterBracketIs(opening, elem);
    assert ft[..|opening|] == opening;
    assert "map[" <= ft <==> "map[" <= opening;
  }

  // `inside` is the text between the opening bracket and the first closing one.
  lemma BracketText(isMap: bool, inside: string, elem: string, text: string, names: seq<string>)
    requires !Has(inside, ']')
    requires TrimPrefix(text, "*") == ((if isMap then "map[" else "[") + inside) + ("]" + elem)
    ensures var inner := SchemaOf(TrimPrefix(elem, "*"), names);
            SchemaOf(text, names) ==
            if inner.None? then None else Some(if isMap then MapOf(inner.value) else ArrayOf(inner.value))
  {
    var opening := (if isMap then "map[" else "[") + inside;
    var ft := opening + ("]" + elem);
    assert ft[if isMap then 3 else 0] == '[';
    NotBasic(ft, if isMap then 3 else 0);
    assert opening[0] == if isMap then 'm' else '[';
    BracketUnfolds(opening, elem, names);
  }

  lemma IdentSchema(name: string, text: string, names: seq<string>)
    requires IsIdent(name) && TrimPrefix(text, "*") == name
    ensures SchemaOf(text, names) == Some(SchemaOfType(Ident(name), names))
  {
    IdentChars(name);
    TitleOfIdent(name);
    NamedUnfolds(name, names);
  }

  // A text that names nothing known.
  lemma ShapelessSchema(ft: string, i: nat, text: string, names: seq<string>)
    requires TrimPrefix(text, "*") == ft && i < |ft| && ft[i] == '{' && 'a' <= ft[0] <= 'z'
    requires !Has(ft, '.') && !Has(ft, '[') && !Has(ft, '«')
    ensures SchemaOf(text, names) == Some(ANY)
  {
    assert ft != "multipart.FileHeader" by { assert "multipart.FileHeader"[9] == '.'; }
    NotBasic(ft, i);
    TitleOfIdent(ft);
    NamedUnfolds(ft, names);
  }

  lemma SelectorSchema(pkg: string, name: string, text: string, names: seq<string>)
    requires IsIdent(pkg) && IsIdent(name) && TrimPrefix(text, "*") == pkg + "." + name
    ensures SchemaOf(text, names) == Some(SchemaOfType(Selector(pkg, name), names))
  {
    var ft := pkg + "." + name;
    assert ft[|pkg|] == '.';
    IdentChars(pkg);
    IdentChars(name);
    TitleOfSelector(pkg, name);
    FileHeaderSelector(pkg, name);
    if ft != "multipart.FileHeader" {
      NotBasic(ft, |pkg|);
      assert forall c :: c in ft ==> c in pkg || c == '.' || c in name;
      NamedUnfolds(ft, names);
    }
  }

  lemma FileHeaderSelector(pkg: string, name: string)
    requires IsIdent(pkg) && IsIdent(name)
    ensures pkg + "." + name == "multipart.FileHeader" <==> pkg == "multipart" && name == "FileHeader"
  {
    var ft := pkg + "." + name;
    if ft == "multipart.FileHeader" {
      assert ft[|pkg|] == '.' && |pkg| < 20;
      assert |pkg| == 9;
      assert ft[..9] == pkg && ft[10..] == name;
    }
  }

  // An element is trimmed once by the caller and once by SchemaOf itself.
  lemma {:induction false} SchemaOfElement(t: GoType, names: seq<string>)
    requires Regular(t, 2)
    ensures SchemaOf(TrimPrefix(ExprString(t), "*"), names) == Some(SchemaOfType(t, names))
    decreases t, 2
  {
    match t {
      case Star(x) =>
        assert TrimPrefix(ExprString(t), "*") == ExprString(x);
        SchemaOfPrinted(x, names);
      case _ =>
        NoLeadingStar(t);
        SchemaOfCore(t, ExprString(t), names);
    }
  }

  lemma NoLeadingStar(t: GoType)
    requires !t.Star? && Regular(t, 0)
    ensures !("*" <= ExprString(t))
  {
    match t {
      case Ident(name) => assert ExprString(t)[0] == name[0] && IsIdentChar(name[0]);
      case Selector(pkg, name) => assert ExprString(t)[0] == pkg[0] && IsIdentChar(pkg[0]);
      case Array(len, elt) => assert ExprString(t)[0] == '[';
      case Map(key, elt) => assert ExprString(t)[0] == 'm';
      case Slice(elt) => assert ExprString(t)[0] == '[';
      case Interface => assert ExprString(t)[0] == 'i';
    }
  }

  // SchemaOf on the printed text is the schema of the type, at any nesting depth.
  lemma {:induction false} SchemaOfPrinted(t: GoType, names: seq<string>)
    requires Regular(t, 1)
    ensures SchemaOf(ExprString(t), names) == Some(SchemaOfType(t, names))
    decreases t, 1
  {
    match t {
      case Star(x) =>
        assert TrimPrefix(ExprString(t), "*") == ExprString(x);
        SchemaOfCore(x, ExprString(t), names);
      case _ =>
        NoLeadingStar(t);
        SchemaOfCore(t, ExprString(t), names);
    }
  }

  // --- toGoType -------------------------------------------------------------------------

  // Array schemas carry their element; anonymous properties are not unfolded here.
  predicate Shaped(s: Schema) {
    && (s.typ == "array" && IsBlank(s.ref) ==> s.items.Some?)
    && s.fields.None?
    && (s.items.Some? ==> Shaped(s.items.value))
    && (s.additional.Some? ==> Shaped(s.additional.value))
  }

  // toGoType; `titles` are the keys of the generator's global schemas.
  function ToGoType(s: Schema, titles: set<string>): string
    requires Shaped(s)
  {
    if !IsBlank(s.ref) then TrimPrefix(s.ref, REFS)
    else if s.typ == "integer" then (if s.format == "int64" then "int64" else "int")
    else if s.typ == "string" then
      (if s.format == "date-time" then "*time.Time" else if s.format == "binary" then "*os.File" else "string")
    else if s.typ == "boolean" then "bool"
    else if s.typ == "number" then (if s.format == "float" then "float32" else "float64")
    else if s.typ == "object" then
      if !IsBlank(s.title) && s.title in titles then s.title
      else if s.additional.Some? && s.additional.value != ZERO then "map[string]" + ToGoType(s.additional.value, titles)
      else "struct {\n}"
    else if s.typ == "array" then "[]" + ToGoType(s.items.value, titles)
    else "interface{}"
  }

  predicate IsSimple(s: Schema) {
    s == INT || s == INT64 || s == BOOL || s == STRING || s == FLOAT32 || s == FLOAT64
  }

  // What SchemaOf produces on texts without anonymous structs.
  predicate Produced(s: Schema, names: seq<string>) {
    || s == ANY || s == FILE || IsSimple(s)
    || (exists i :: 0 <= i < |names| && IsReference(s, names[i]))
    || (s.items.Some? && s == ArrayOf(s.items.value) && Produced(s.items.value, names))
    || (s.additional.Some? && s == MapOf(s.additional.value) && Produced(s.additional.value, names))
  }

  predicate IsReference(s: Schema, name: string) {
    s == RefTo(name) && name != "" && IsUpper(name[0])
  }

  predicate HasFile(s: Schema) {
    || s == FILE
    || (s.items.Some? && HasFile(s.items.value))
    || (s.additional.Some? && HasFile(s.additional.value))
  }

  lemma TrimKeepsOut(text: string, c: char)
    requires !Has(text, c)
    ensures !Has(TrimPrefix(text, "*"), c) && !Has(AfterBracket(text), c)
  {
  }

  lemma NamedProduced(ft: string, names: seq<string>)
    ensures Produced(Named(ft, names), names)
  {
  }

  lemma {:induction false} SchemaOfProduces(text: string, names: seq<string>)
    requires !Has(text, '«') && SchemaOf(text, names).Some?
    ensures Produced(SchemaOf(text, names).value, names)
    decreases |text|
  {
    var ft := TrimPrefix(text, "*");
    TrimKeepsOut(text, '«');
    if Basic(ft).None? {
      if Bracketed(ft) {
        TrimKeepsOut(ft, '«');
        TrimKeepsOut(AfterBracket(ft), '«');
        SchemaOfProduces(TrimPrefix(AfterBracket(ft), "*"), names);
      } else {
        NotAnonymous(ft);
        NamedProduced(ft, names);
      }
    }
  }

  lemma {:induction false} ProducedShaped(s: Schema, names: seq<string>)
    requires Produced(s, names)
    ensures Shaped(s)
  {
    NotBlank(REFS);
    if s.items.Some? && Produced(s.items.value, names) { ProducedShaped(s.items.value, names); }
    if s.additional.Some? && Produced(s.additional.value, names) { ProducedShaped(s.additional.value, names); }
    if i :| 0 <= i < |names| && IsReference(s, names[i]) { NotBlank(s.ref); }
  }

  // --- The round trip through schemas -------------------------------------------------

  predicate StructNames(names: seq<string>) {
    forall i :: 0 <= i < |names| ==> IsIdent(names[i])
  }

  lemma ReferenceReadBack(s: Schema, name: string, names: seq<string>, titles: set<string>)
    requires IsReference(s, name) && name in names && IsIdent(name)
    ensures Shaped(s) && ToGoType(s, titles) == name
    ensures SchemaOf(name, names) == Some(s)
  {
    NotBlank(s.ref);
    assert TrimPrefix(s.ref, REFS) == name;
    ReferenceRead(name, names);
  }

  lemma ReferenceRead(name: string, names: seq<string>)
    requires IsIdent(name) && name in names && IsUpper(name[0])
    ensures SchemaOf(name, names) == Some(RefTo(name))
  {
    NoStar(name);
    NotBasic(name, 0);
    IdentSchema(name, name, names);
  }

  lemma SimpleReadBack(s: Schema, names: seq<string>, titles: set<string>)
    requires IsSimple(s)
    ensures Shaped(s) && SchemaOf(ToGoType(s, titles), names) == Some(s)
  {
    var text := ToGoType(s, titles);
    assert text in ["int", "int64", "bool", "string", "float32", "float64"];
    NoStar(text);
    if s == INT {
      assert INT_NAMES[0] == text;
    }
  }

  lemma NoStar(text: string)
    requires text == "" || text[0] != '*'
    ensures TrimPrefix(text, "*") == text
  {
  }

  lemma AnyReadBack(text: string, names: seq<string>, titles: set<string>)
    requires text == ToGoType(ANY, titles)
    ensures SchemaOf(text, names) == Some(ANY)
  {
    assert text == "struct {\n}";
    NoStar(text);
    ShapelessSchema(text, 7, text, names);
  }

  lemma FileLost(names: seq<string>, titles: set<string>)
    ensures ToGoType(FILE, titles) == "*os.File" && SchemaOf("*os.File", names) != Some(FILE)
  {
    assert TrimPrefix("*os.File", "*") == "os" + "." + "File";
    SelectorSchema("os", "File", "*os.File", names);
  }

  lemma FirstChar(s: Schema, names: seq<string>, titles: set<string>)
    requires Produced(s, names) && StructNames(names) && Shaped(s) && s != FILE
    ensures ToGoType(s, titles) != "" && ToGoType(s, titles)[0] != '*'
  {
    if i :| 0 <= i < |names| && IsReference(s, names[i]) {
      ReferenceReadBack(s, names[i], names, titles);
      assert IsIdentChar(names[i][0]);
    }
  }

  // An element's text is trimmed twice; only a file's text starts with a star, and with one.
  lemma TrimmedTwice(s: Schema, names: seq<string>, titles: set<string>)
    requires Produced(s, names) && StructNames(names) && Shaped(s)
    ensures SchemaOf(TrimPrefix(ToGoType(s, titles), "*"), names) == SchemaOf(ToGoType(s, titles), names)
  {
    var text := ToGoType(s, titles);
    if s == FILE {
      assert TrimPrefix(text, "*") == "os.File";
      NoStar("os.File");
    } else {
      FirstChar(s, names, titles);
      NoStar(text);
    }
  }

  // Printing a schema as a Go type and reading that type again gives the schema back if
  // and only if no file occurs in it: a file becomes *os.File, which reads as any object.
  lemma {:induction false} RoundTripIff(s: Schema, names: seq<string>, titles: set<string>)
    requires Produced(s, names) && StructNames(names)
    ensures Shaped(s)
    ensures SchemaOf(ToGoType(s, titles), names) == Some(s) <==> !HasFile(s)
    decreases s, 0
  {
    ProducedShaped(s, names);
    var text := ToGoType(s, titles);
    if s == FILE {
      FileLost(names, titles);
    } else if s == ANY {
      AnyReadBack(text, names, titles);
    } else if IsSimple(s) {
      SimpleReadBack(s, names, titles);
    } else if i :| 0 <= i < |names| && IsReference(s, names[i]) {
      ReferenceReadBack(s, names[i], names, titles);
    } else if s.items.Some? {
      ElementRoundTrip(false, "", s.items.value, text, names, titles);
    } else {
      ElementRoundTrip(true, "string", s.additional.value, text, names, titles);
    }
  }

  lemma {:induction false} ElementRoundTrip(isMap: bool, inside: string, elem: Schema, text: string, names: seq<string>, titles: set<string>)
    requires Produced(elem, names) && StructNames(names) && Shaped(elem)
    requires inside == if isMap then "string" else ""
    requires text == (if isMap then "map[string]" else "[]") + ToGoType(elem, titles)
    ensures SchemaOf(text, names) == Some(if isMap then MapOf(elem) else ArrayOf(elem)) <==> !HasFile(elem)
    decreases elem, 1
  {
    var inner := ToGoType(elem, titles);
    assert text == ((if isMap then "map[" else "[") + inside) + ("]" + inner);
    NoStar(text);
    BracketText(isMap, inside, inner, text, names);
    TrimmedTwice(elem, names, titles);
    RoundTripIff(elem, names, titles);
  }

  // The same for any text that SchemaOf accepts, printed by ExprString or not.
  lemma TextRoundTripIff(text: string, names: seq<string>, titles: set<string>)
    requires !Has(text, '«') && StructNames(names) && SchemaOf(text, names).Some?
    ensures var s := SchemaOf(text, names).value;
            Shaped(s) && (SchemaOf(ToGoType(s, titles), names) == Some(s) <==> !HasFile(s))
  {
    SchemaOfProduces(text, names);
    RoundTripIff(SchemaOf(text, names).value, names, titles);
  }

  // --- IsBuiltin ------------------------------------------------------------------------

  // Simple schemas and arrays of them. The source compares pointers; SchemaOf returns the
  // shared simple schemas themselves and builds every other schema anew.
  predicate IsBuiltin(text: string, names: seq<string>) {
    match SchemaOf(text, names)
    case None => false
    case Some(s) => IsSimple(s) || (s.typ == "array" && s.items.Some? && IsSimple(s.items.value))
  }

  lemma InnerDecides(ft: string, names: seq<string>)
    requires Bracketed(ft) && Has(ft, ']')
    ensures var inner := SchemaOf(TrimPrefix(AfterBracket(ft), "*"), names);
            Composite(ft, names) ==
            if inner.None? then None else Some(if "map[" <= ft then MapOf(inner.value) else ArrayOf(inner.value))
  {
  }

  lemma CollectionNotSimple(s: Schema)
    ensures !IsSimple(MapOf(s)) && !IsSimple(ArrayOf(s))
    ensures MapOf(s).typ != "array"
  {
    assert MapOf(s).additional.Some? && ArrayOf(s).items.Some?;
  }

  lemma NamedNotSimple(ft: string, names: seq<string>)
    ensures !IsSimple(Named(ft, names)) && Named(ft, names).typ != "array"
  {
    var title := TitleOf(ft);
    assert RefTo(title).typ == "" && ANY.typ == "object";
  }

  lemma OpenBracketFails(ft: string, names: seq<string>)
    requires Bracketed(ft) && !Has(ft, ']')
    ensures Composite(ft, names).None?
  {
  }

  // Equal, or both present and neither simple.
  predicate Alike(a: Option<Schema>, b: Option<Schema>) {
    a == b || (a.Some? && b.Some? && !IsSimple(a.value) && !IsSimple(b.value))
  }

  // Known struct names only decide between a reference and any object.
  lemma {:induction false} SimpleIgnoresNames(text: string, names: seq<string>, names': seq<string>)
    ensures Alike(SchemaOf(text, names), SchemaOf(text, names'))
    decreases |text|
  {
    var ft := TrimPrefix(text, "*");
    if Basic(ft).None? {
      if Bracketed(ft) && Has(ft, ']') {
        SimpleIgnoresNames(TrimPrefix(AfterBracket(ft), "*"), names, names');
      }
      CompositeAlike(ft, names, names');
    }
  }

  lemma CompositeAlike(ft: string, names: seq<string>, names': seq<string>)
    requires Bracketed(ft) && Has(ft, ']') ==>
               Alike(SchemaOf(TrimPrefix(AfterBracket(ft), "*"), names), SchemaOf(TrimPrefix(AfterBracket(ft), "*"), names'))
    ensures Alike(Composite(ft, names), Composite(ft, names'))
  {
    if Bracketed(ft) {
      if Has(ft, ']') {
        BracketAlike(ft, names, names');
      } else {
        OpenBracketFails(ft, names);
        OpenBracketFails(ft, names');
      }
    } else {
      NamedNotSimple(ft, names);
      NamedNotSimple(ft, names');
    }
  }

  lemma BracketAlike(ft: string, names: seq<string>, names': seq<string>)
    requires Bracketed(ft) && Has(ft, ']')
    requires Alike(SchemaOf(TrimPrefix(AfterBracket(ft), "*"), names), SchemaOf(TrimPrefix(AfterBracket(ft), "*"), names'))
    ensures Alike(Composite(ft, names), Composite(ft, names'))
  {
    var inner, inner' := SchemaOf(TrimPrefix(AfterBracket(ft), "*"), names), SchemaOf(TrimPrefix(AfterBracket(ft), "*"), names');
    InnerDecides(ft, names);
    InnerDecides(ft, names');
    if inner.Some? {
      CollectionNotSimple(inner.value);
      CollectionNotSimple(inner'.value);
    }
  }

  // So they do not matter to IsBuiltin.
  lemma BuiltinIgnoresNames(text: string, names: seq<string>, names': seq<string>)
    ensures IsBuiltin(text, names) == IsBuiltin(text, names')
  {
    SimpleIgnoresNames(text, names, names');
    var ft := TrimPrefix(text, "*");
    if Basic(ft).None? {
      if Bracketed(ft) && Has(ft, ']') {
        SimpleIgnoresNames(TrimPrefix(AfterBracket(ft), "*"), names, names');
        BracketBuiltin(text, names);
        BracketBuiltin(text, names');
      } else {
        OtherNotBuiltin(text, names);
        OtherNotBuiltin(text, names');
      }
    }
  }

  lemma OtherNotBuiltin(text: string, names: seq<string>)
    requires var ft := TrimPrefix(text, "*"); !(Bracketed(ft) && Has(ft, ']')) && Basic(ft).None?
    ensures !IsBuiltin(text, names)
  {
    var ft := TrimPrefix(text, "*");
    assert SchemaOf(text, names) == Composite(ft, names);
    if Bracketed(ft) {
      OpenBracketFails(ft, names);
    } else if !HasAnonymous(ft) {
      NamedNotSimple(ft, names);
    } else {
      assert Composite(ft, names).value.fields.Some?;
    }
  }

  // A bracketed text is built in exactly when it is an array of something simple.
  lemma BracketBuiltin(text: string, names: seq<string>)
    requires var ft := TrimPrefix(text, "*"); Bracketed(ft) && Has(ft, ']') && Basic(ft).None?
    ensures var ft := TrimPrefix(text, "*");
            var inner := SchemaOf(TrimPrefix(AfterBracket(ft), "*"), names);
            IsBuiltin(text, names) <==> !("map[" <= ft) && inner.Some? && IsSimple(inner.value)
  {
    var ft := TrimPrefix(text, "*");
    var inner := SchemaOf(TrimPrefix(AfterBracket(ft), "*"), names);
    assert SchemaOf(text, names) == Composite(ft, names);
    InnerDecides(ft, names);
    if inner.Some? {
      CollectionNotSimple(inner.value);
      assert ArrayOf(inner.value).items == Some(inner.value) && ArrayOf(inner.value).typ == "array";
    }
  }
}
