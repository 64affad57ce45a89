// svc/svc.go validateRestApi and svc/internal/codegen/doc.go operationOf: the check in the
// first file is what keeps the request body in the second from being overwritten.
module RestApi {
  import opened Prelude
  import opened Text
  import opened TypeText
  import opened SchemaTexts

  datatype Param = Param(name: string, typ: string)

  const CONTEXT := "context.Context"
  const FILE_POINTER := "*multipart.FileHeader"

  datatype Verdict = Accepted | AnonymousStruct | TooManyTypes

  // The type is a file pointer, or a slice or array whose element is one.
  predicate FileLike(typ: string) {
    typ == FILE_POINTER || (("[" <= typ || "*[" <= typ) && AfterBracket(typ) == FILE_POINTER)
  }

  predicate IsContext(p: Param) { p.typ == CONTEXT }

  // How v3.IsBuiltin and v3.SchemaOf answer for the current value of v3.SchemaNames.
  datatype Types = Types(builtin: string -> bool, schema: string -> Schema)

  function TypesFor(names: seq<string>): Types {
    Types(text => IsBuiltin(text, names), text => SchemaFor(text, names))
  }

  // Types come from ExprString, on which SchemaOf always ends.
  function SchemaFor(text: string, names: seq<string>): Schema {
    match SchemaOf(text, names) case Some(s) => s case None => ANY
  }

  predicate IsFileSchema(s: Schema) { s == FILE || s == ArrayOf(FILE) }

  // A file header, a pointer to it, or a slice or array of either.
  predicate FileText(typ: string) { NameOrElement(typ, "multipart.FileHeader") }

  ghost predicate BuiltinText(typ: string) { exists name :: IsBuiltinName(name) && NameOrElement(typ, name) }

  // Exactly the file texts have a file's schema, and no file is built in.
  ghost predicate Consistent(types: Types) {
    forall text :: (IsFileSchema(types.schema(text)) <==> FileText(text)) && !(FileText(text) && types.builtin(text))
  }

  lemma TypesConsistent(names: seq<string>)
    ensures Consistent(TypesFor(names))
  {
    forall text ensures IsFileSchema(SchemaFor(text, names)) <==> FileText(text)
                ensures FileText(text) ==> !IsBuiltin(text, names)
    {
      FileIff(text, names);
    }
  }

  // A parameter that has to go into the request body.
  predicate IsBodyParam(p: Param, types: Types) {
    !IsContext(p) && !types.builtin(p.typ)
  }

  // --- validateRestApi ------------------------------------------------------------------

  datatype Kind = ContextKind | SimpleKind | FileKind | OtherKind

  function KindOf(p: Param, types: Types): Kind {
    if IsContext(p) then ContextKind
    else if types.builtin(p.typ) then SimpleKind
    else if FileLike(p.typ) then FileKind
    else OtherKind
  }

  function Kinds(ps: seq<Param>, types: Types): (kinds: seq<Kind>)
    ensures |kinds| == |ps|
    ensures forall i :: 0 <= i < |ps| ==> kinds[i] == KindOf(ps[i], types)
  {
    seq(|ps|, i requires 0 <= i < |ps| => KindOf(ps[i], types))
  }

  // A position of a closing bracket, the first one, with `elem` behind it.
  predicate ElementBehind(typ: string, n: nat, elem: string)
    requires n < |typ|
  {
    typ[n] == ']' && (forall j :: 0 <= j < n ==> typ[j] != ']') && typ[n + 1..] == elem
  }

  // The kinds in terms of the type's text. Only pointers to file headers count as files.
  lemma KindIs(p: Param, names: seq<string>)
    ensures KindOf(p, TypesFor(names)) ==
            if p.typ == "context.Context" then ContextKind
            else if BuiltinText(p.typ) then SimpleKind
            else if p.typ == "*multipart.FileHeader"
              || (("[" <= p.typ || "*[" <= p.typ) && exists n :: 0 <= n < |p.typ| && ElementBehind(p.typ, n, "*multipart.FileHeader"))
            then FileKind else OtherKind
  {
    BuiltinIff(p.typ, names);
    if "[" <= p.typ || "*[" <= p.typ { BehindBracket(p.typ, FILE_POINTER); }
  }

  lemma BehindBracket(typ: string, elem: string)
    requires "[" <= typ || "*[" <= typ
    requires elem != "" && elem[0] == '*' && !Has(elem, '[')
    ensures AfterBracket(typ) == elem <==> exists n :: 0 <= n < |typ| && ElementBehind(typ, n, elem)
  {
    var n := IndexOf(typ, ']');
    if n < |typ| {
      assert ElementBehind(typ, n, AfterBracket(typ));
    } else {
      assert typ[if "[" <= typ then 0 else 1] == '[';
    }
  }

  function CountTo(kinds: seq<Kind>, n: nat, kind: Kind): nat
    requires n <= |kinds|
  {
    if n == 0 then 0 else CountTo(kinds, n - 1, kind) + if kinds[n - 1] == kind then 1 else 0
  }

  function Count(kinds: seq<Kind>, kind: Kind): nat { CountTo(kinds, |kinds|, kind) }

  // What the validator's list and map hold after n parameters: every other type, and the
  // file type once.
  ghost predicate Tallied(kinds: seq<Kind>, n: nat, size: nat, hasFile: bool)
    requires n <= |kinds|
  {
    && (hasFile <==> CountTo(kinds, n, FileKind) > 0)
    && size == CountTo(kinds, n, OtherKind) + if hasFile then 1 else 0
  }

  // The body parameters are either all files or at most one.
  predicate OneBody(kinds: seq<Kind>) {
    Count(kinds, OtherKind) == 0 || (Count(kinds, OtherKind) == 1 && Count(kinds, FileKind) == 0)
  }

  predicate NoAnonymous(ps: seq<Param>) {
    forall i :: 0 <= i < |ps| && !IsContext(ps[i]) ==> !HasAnonymous(ps[i].typ)
  }

  // The loop's handling of a type that is not basic: file types enter the list once.
  method AddType(ptype: string, nonBasicTypes: seq<string>, cpmap: map<string, int>)
    returns (nonBasicTypes': seq<string>, cpmap': map<string, int>)
    ensures FileLike(ptype) ==>
              && FILE_POINTER in cpmap'
              && |nonBasicTypes'| == |nonBasicTypes| + if FILE_POINTER in cpmap then 0 else 1
    ensures !FileLike(ptype) ==> nonBasicTypes' == nonBasicTypes + [ptype] && cpmap' == cpmap
  {
    nonBasicTypes', cpmap' := nonBasicTypes, cpmap;
    if "[" <= ptype || "*[" <= ptype {
      var elem := AfterBracket(ptype);
      if elem == FILE_POINTER {
        if elem !in cpmap {
          cpmap' := cpmap[elem := 1];
          nonBasicTypes' := nonBasicTypes + [elem];
        }
        return;
      }
    }
    if ptype == FILE_POINTER {
      if ptype !in cpmap {
        cpmap' := cpmap[ptype := 1];
        nonBasicTypes' := nonBasicTypes + [ptype];
      }
      return;
    }
    nonBasicTypes' := nonBasicTypes + [ptype];
  }

  // The loop over the parameters of one method, and the test after it.
  method ValidateParams(params: seq<Param>, types: Types) returns (v: Verdict)
    ensures v == AnonymousStruct <==> !NoAnonymous(params)
    ensures v == Accepted <==> NoAnonymous(params) && OneBody(Kinds(params, types))
  {
    var nonBasicTypes: seq<string> := [];
    var cpmap: map<string, int> := map[];
    ghost var kinds := Kinds(params, types);
    for n := 0 to |params|
      invariant NoAnonymous(params[..n])
      invariant Tallied(kinds, n, |nonBasicTypes|, FILE_POINTER in cpmap)
    {
      var param := params[n];
      AnonymousSnoc(params, n);
      assert kinds[n] == KindOf(param, types);
      if param.typ == CONTEXT {
        continue;
      }
      if HasAnonymous(param.typ) {
        return AnonymousStruct;
      }
      if !types.builtin(param.typ) {
        nonBasicTypes, cpmap := AddType(param.typ, nonBasicTypes, cpmap);
      }
    }
    assert params[..|params|] == params;
    v := if |nonBasicTypes| > 1 then TooManyTypes else Accepted;
  }

  lemma AnonymousSnoc(params: seq<Param>, n: nat)
    requires n < |params|
    ensures NoAnonymous(params[..n + 1]) <==>
            NoAnonymous(params[..n]) && (IsContext(params[n]) || !HasAnonymous(params[n].typ))
    ensures NoAnonymous(params) ==> NoAnonymous(params[..n + 1])
  {
  }

  // One method of the interface: parameters, then results. It passes when it has no
  // anonymous struct and its body parameters are either all files or at most one.
  method ValidateMethod(params: seq<Param>, results: seq<Param>, types: Types) returns (v: Verdict)
    ensures v == Accepted <==>
              && NoAnonymous(params)
              && (forall i :: 0 <= i < |results| ==> !HasAnonymous(results[i].typ))
              && OneBody(Kinds(params, types))
    ensures v == TooManyTypes <==> NoAnonymous(params) && !OneBody(Kinds(params, types))
  {
    v := ValidateParams(params, types);
    if v != Accepted {
      return;
    }
    var named := ResultsNamed(results);
    if !named {
      v := AnonymousStruct;
    }
  }

  // The loop over the results of one method.
  method ResultsNamed(results: seq<Param>) returns (named: bool)
    ensures named <==> forall i :: 0 <= i < |results| ==> !HasAnonymous(results[i].typ)
  {
    for n := 0 to |results|
      invariant forall i :: 0 <= i < n ==> !HasAnonymous(results[i].typ)
    {
      if HasAnonymous(results[n].typ) {
        return false;
      }
    }
    named := true;
  }

  // --- operationOf ----------------------------------------------------------------------

  // `from` records which parameter of the method an entry was made of.
  datatype Parameter = Parameter(name: string, schema: Schema, from: nat)

  datatype Body = Form(ref: Schema) | FormData(schema: Schema, from: nat) | Json(schema: Schema, from: nat)

  datatype Operation = Operation(parameters: seq<Parameter>, body: Option<Body>)

  type Properties = map<string, Schema>

  predicate Simple(p: Param, types: Types) {
    types.builtin(p.typ) || IsContext(p)
  }

  function QueryEntry(p: Param, from: nat, types: Types, camel: string -> string): (q: Parameter)
    ensures q.from == from
  {
    Parameter(camel(p.name), types.schema(p.typ), from)
  }

  // The query parameters made of the first n parameters.
  function QueryOf(ps: seq<Param>, types: Types, camel: string -> string, n: nat): seq<Parameter>
    requires n <= |ps|
  {
    if n == 0 then []
    else
      var p, before := ps[n - 1], QueryOf(ps, types, camel, n - 1);
      if IsContext(p) || IsBodyParam(p, types) then before
      else before + [QueryEntry(p, n - 1, types, camel)]
  }

  function BodyOf(p: Param, from: nat, types: Types): (b: Body)
    ensures !b.Form? && b.from == from
  {
    var s := types.schema(p.typ);
    if IsFileSchema(s) then FormData(s, from) else Json(s, from)
  }

  // Every request body that is written for the first n parameters, in order.
  function BodiesOf(ps: seq<Param>, types: Types, n: nat): (bodies: seq<Body>)
    requires n <= |ps|
    ensures forall i :: 0 <= i < |bodies| ==> !bodies[i].Form?
  {
    if n == 0 then []
    else
      var before := BodiesOf(ps, types, n - 1);
      if IsBodyParam(ps[n - 1], types) then before + [BodyOf(ps[n - 1], n - 1, types)] else before
  }

  function PropertiesOf(ps: seq<Param>, types: Types, camel: string -> string, n: nat): Properties
    requires n <= |ps|
  {
    if n == 0 then map[]
    else if IsContext(ps[n - 1]) then PropertiesOf(ps, types, camel, n - 1)
    else PropertiesOf(ps, types, camel, n - 1)[camel(ps[n - 1].name) := types.schema(ps[n - 1].typ)]
  }

  predicate AllSimple(ps: seq<Param>, types: Types) {
    forall i :: 0 <= i < |ps| ==> Simple(ps[i], types)
  }

  function LastBody(bodies: seq<Body>): Option<Body> {
    if bodies == [] then None else Some(bodies[|bodies| - 1])
  }

  // Multipart form data is for files, JSON for everything else.
  predicate BodyKindFits(b: Body, ps: seq<Param>) {
    match b
    case Form(_) => true
    case FormData(_, from) => from < |ps| && FileText(ps[from].typ)
    case Json(_, from) => from < |ps| && !FileText(ps[from].typ)
  }

  // The body is made of the last parameter that is neither a context nor built in.
  predicate BodyIsLast(body: Option<Body>, ps: seq<Param>, types: Types) {
    match body
    case None => forall k :: 0 <= k < |ps| ==> ps[k].typ == "context.Context" || types.builtin(ps[k].typ)
    case Some(Form(_)) => false
    case Some(FormData(_, from)) => LastAt(from, ps, types)
    case Some(Json(_, from)) => LastAt(from, ps, types)
  }

  predicate LastAt(from: nat, ps: seq<Param>, types: Types) {
    && from < |ps| && ps[from].typ != "context.Context" && !types.builtin(ps[from].typ)
    && forall k :: from < k < |ps| ==> ps[k].typ == "context.Context" || types.builtin(ps[k].typ)
  }

  // The request half of operationOf. `schemas` is the global v3.Schemas; `camel` is
  // strcase.ToLowerCamel.
  method OperationOf(name: string, params: seq<Param>, httpMethod: string, types: Types,
                     camel: string -> string, schemas: map<string, Properties>)
    returns (ret: Operation, schemas': map<string, Properties>)
    requires Consistent(types)
    ensures ret.body.Some? ==> BodyKindFits(ret.body.value, params)
    ensures !(httpMethod == "POST" && AllSimple(params, types)) ==> BodyIsLast(ret.body, params, types)
    ensures httpMethod == "POST" && AllSimple(params, types) ==>
              && ret == Operation([], Some(Form(RefTo(name + "Req"))))
              && schemas' == schemas[name + "Req" := PropertiesOf(params, types, camel, |params|)]
    ensures !(httpMethod == "POST" && AllSimple(params, types)) ==>
              && ret == Operation(QueryOf(params, types, camel, |params|), LastBody(BodiesOf(params, types, |params|)))
              && schemas' == schemas
  {
    schemas' := schemas;
    var simpleCnt := 0;
    for n := 0 to |params|
      invariant 0 <= simpleCnt <= n
      invariant simpleCnt == n <==> forall i :: 0 <= i < n ==> Simple(params[i], types)
    {
      if types.builtin(params[n].typ) || params[n].typ == CONTEXT {
        simpleCnt := simpleCnt + 1;
      }
    }
    if httpMethod == "POST" && simpleCnt == |params| {
      var title := name + "Req";
      var properties: Properties := map[];
      for n := 0 to |params|
        invariant properties == PropertiesOf(params, types, camel, n)
      {
        if params[n].typ == CONTEXT {
          continue;
        }
        properties := properties[camel(params[n].name) := types.schema(params[n].typ)];
      }
      schemas' := schemas'[title := properties];
      ret := Operation([], Some(Form(RefTo(title))));
    } else {
      var parameters, body := PlaceParams(params, types, camel);
      ret := Operation(parameters, body);
      LastBodyFits(params, types);
    }
  }

  // The loop of the other case; a later body replaces an earlier one.
  method PlaceParams(params: seq<Param>, types: Types, camel: string -> string)
    returns (parameters: seq<Parameter>, body: Option<Body>)
    requires Consistent(types)
    ensures parameters == QueryOf(params, types, camel, |params|)
    ensures body == LastBody(BodiesOf(params, types, |params|))
  {
    parameters, body := [], None;
    for n := 0 to |params|
      invariant parameters == QueryOf(params, types, camel, n)
      invariant body == LastBody(BodiesOf(params, types, n))
    {
      var item := params[n];
      if item.typ == CONTEXT {
        continue;
      }
      var pschema := types.schema(item.typ);
      if pschema == ArrayOf(FILE) || pschema == FILE {
        assert IsFileSchema(types.schema(item.typ));
        body := Some(FormData(pschema, n));
      } else if types.builtin(item.typ) {
        parameters := parameters + [Parameter(camel(item.name), pschema, n)];
      } else {
        body := Some(Json(pschema, n));
      }
    }
  }

  lemma LastBodyFits(ps: seq<Param>, types: Types)
    requires Consistent(types)
    ensures var body := LastBody(BodiesOf(ps, types, |ps|));
            BodyIsLast(body, ps, types) && (body.Some? ==> BodyKindFits(body.value, ps))
  {
    var bodies := BodiesOf(ps, types, |ps|);
    BodyEntries(ps, types, |ps|);
    BodiesMadeOf(ps, types, |ps|);
    ExactBodies(ps, types, |ps|, bodies);
    LastIsLast(ps, types, bodies);
  }

  lemma LastIsLast(ps: seq<Param>, types: Types, bodies: seq<Body>)
    requires BodiesExact(ps, types, bodies, |ps|)
    ensures BodyIsLast(LastBody(bodies), ps, types)
  {
    forall k | 0 <= k < |ps| && IsBodyParam(ps[k], types) ensures bodies != [] && k <= bodies[|bodies| - 1].from {
      assert InBodies(bodies, k);
    }
  }

  // --- Together -------------------------------------------------------------------------

  lemma {:induction false} BodiesCounted(ps: seq<Param>, types: Types, n: nat)
    requires n <= |ps|
    ensures var kinds := Kinds(ps, types);
            |BodiesOf(ps, types, n)| == CountTo(kinds, n, FileKind) + CountTo(kinds, n, OtherKind)
  {
    if n > 0 {
      BodiesCounted(ps, types, n - 1);
    }
  }

  // The validator runs before the struct names are collected, operationOf after.
  lemma KindsIgnoreNames(ps: seq<Param>, before: seq<string>, after: seq<string>)
    ensures Kinds(ps, TypesFor(before)) == Kinds(ps, TypesFor(after))
  {
    forall text ensures TypesFor(before).builtin(text) == TypesFor(after).builtin(text) {
      BuiltinIgnoresNames(text, before, after);
    }
  }

  // --- Where each parameter ends up -----------------------------------------------------

  predicate InQuery(qs: seq<Parameter>, i: nat) {
    exists k :: 0 <= k < |qs| && qs[k].from == i
  }

  predicate InBodies(bodies: seq<Body>, i: nat) {
    exists k :: 0 <= k < |bodies| && !bodies[k].Form? && bodies[k].from == i
  }

  // Every parameter but contexts stands in exactly one place of the operation, and
  // nothing else does.
  predicate PlacedOnce(op: Operation, ps: seq<Param>) {
    && (forall j, k :: 0 <= j < k < |op.parameters| ==> op.parameters[j].from < op.parameters[k].from)
    && (forall k :: 0 <= k < |op.parameters| ==> op.parameters[k].from < |ps|)
    && (op.body.Some? ==> !op.body.value.Form? && op.body.value.from < |ps|)
    && (forall i :: 0 <= i < |ps| ==>
          var inBody := op.body.Some? && op.body.value.from == i;
          if IsContext(ps[i]) then !InQuery(op.parameters, i) && !inBody else InQuery(op.parameters, i) != inBody)
  }

  // The entries made of the first n parameters, in their order.
  predicate QueriesExact(ps: seq<Param>, types: Types, qs: seq<Parameter>, n: nat)
    requires n <= |ps|
  {
    && (forall k :: 0 <= k < |qs| ==> qs[k].from < n && !IsContext(ps[qs[k].from]) && !IsBodyParam(ps[qs[k].from], types))
    && (forall j, k :: 0 <= j < k < |qs| ==> qs[j].from < qs[k].from)
    && (forall i {:trigger InQuery(qs, i)} :: 0 <= i < n && !IsContext(ps[i]) && !IsBodyParam(ps[i], types) ==> InQuery(qs, i))
  }

  predicate BodiesExact(ps: seq<Param>, types: Types, bs: seq<Body>, n: nat)
    requires n <= |ps|
  {
    && (forall k :: 0 <= k < |bs| ==> !bs[k].Form? && bs[k].from < n && IsBodyParam(ps[bs[k].from], types))
    && (forall j, k :: 0 <= j < k < |bs| ==> bs[j].from < bs[k].from)
    && (forall i {:trigger InBodies(bs, i)} :: 0 <= i < n && IsBodyParam(ps[i], types) ==> InBodies(bs, i))
  }

  lemma QueriesExtend(ps: seq<Param>, types: Types, qs: seq<Parameter>, n: nat, q: Parameter)
    requires n < |ps| && QueriesExact(ps, types, qs, n) && q.from == n
    requires !IsContext(ps[n]) && !IsBodyParam(ps[n], types)
    ensures QueriesExact(ps, types, qs + [q], n + 1)
  {
    var more := qs + [q];
    assert more[|qs|].from == n;
    forall i | InQuery(qs, i) ensures InQuery(more, i) {
      var k :| 0 <= k < |qs| && qs[k].from == i;
      assert more[k].from == i;
    }
  }

  lemma {:induction false} QueriesWritten(ps: seq<Param>, types: Types, camel: string -> string, n: nat)
    requires n <= |ps|
    ensures QueriesExact(ps, types, QueryOf(ps, types, camel, n), n)
  {
    if n > 0 {
      QueriesWritten(ps, types, camel, n - 1);
      var qs := QueryOf(ps, types, camel, n - 1);
      if IsContext(ps[n - 1]) || IsBodyParam(ps[n - 1], types) {
      } else {
        QueriesExtend(ps, types, qs, n - 1, QueryEntry(ps[n - 1], n - 1, types, camel));
      }
    }
  }

  // The parameters that write a body, by position.
  function BodyIndices(ps: seq<Param>, types: Types, n: nat): (froms: seq<nat>)
    requires n <= |ps|
    ensures forall k :: 0 <= k < |froms| ==> froms[k] < n && IsBodyParam(ps[froms[k]], types)
    ensures forall j, k :: 0 <= j < k < |froms| ==> froms[j] < froms[k]
    ensures forall i :: 0 <= i < n && IsBodyParam(ps[i], types) ==> i in froms
  {
    if n == 0 then []
    else if IsBodyParam(ps[n - 1], types) then BodyIndices(ps, types, n - 1) + [n - 1]
    else BodyIndices(ps, types, n - 1)
  }

  predicate MadeOf(bs: seq<Body>, froms: seq<nat>) {
    |bs| == |froms| && forall k :: 0 <= k < |bs| ==> !bs[k].Form? && bs[k].from == froms[k]
  }

  lemma {:induction false} BodiesMadeOf(ps: seq<Param>, types: Types, n: nat)
    requires n <= |ps|
    ensures MadeOf(BodiesOf(ps, types, n), BodyIndices(ps, types, n))
  {
    if n > 0 {
      BodiesMadeOf(ps, types, n - 1);
    }
  }

  lemma ExactBodies(ps: seq<Param>, types: Types, n: nat, bs: seq<Body>)
    requires n <= |ps| && MadeOf(bs, BodyIndices(ps, types, n))
    ensures BodiesExact(ps, types, bs, n)
  {
  }

  lemma PlacedExactly(ps: seq<Param>, types: Types, qs: seq<Parameter>, bodies: seq<Body>)
    requires QueriesExact(ps, types, qs, |ps|) && BodiesExact(ps, types, bodies, |ps|)
    ensures PlacedOnce(Operation(qs, LastBody(bodies)), ps) <==> |bodies| <= 1
  {
    var op := Operation(qs, LastBody(bodies));
    if |bodies| <= 1 {
      forall i | 0 <= i < |ps| && IsBodyParam(ps[i], types) ensures op.body.Some? && op.body.value.from == i {
        assert InBodies(bodies, i);
      }
    } else {
      var last := |bodies| - 1;
      assert bodies[0].from < bodies[last].from;
      assert !InQuery(qs, bodies[0].from);
    }
  }

  lemma PlacedIff(ps: seq<Param>, types: Types, camel: string -> string)
    ensures var bodies := BodiesOf(ps, types, |ps|);
            PlacedOnce(Operation(QueryOf(ps, types, camel, |ps|), LastBody(bodies)), ps) <==> |bodies| <= 1
  {
    QueriesWritten(ps, types, camel, |ps|);
    BodiesMadeOf(ps, types, |ps|);
    ExactBodies(ps, types, |ps|, BodiesOf(ps, types, |ps|));
    PlacedExactly(ps, types, QueryOf(ps, types, camel, |ps|), BodiesOf(ps, types, |ps|));
  }

  // For a method the validator accepted before the struct names were known, every
  // parameter but contexts is placed exactly once, and the body written at most once, if
  // and only if at most one of them is a file.
  lemma PlacedOnceIff(ps: seq<Param>, before: seq<string>, after: seq<string>, camel: string -> string)
    requires OneBody(Kinds(ps, TypesFor(before)))
    ensures var types := TypesFor(after);
            var bodies := BodiesOf(ps, types, |ps|);
            var op := Operation(QueryOf(ps, types, camel, |ps|), LastBody(bodies));
            && (|bodies| <= 1 <==> Count(Kinds(ps, TypesFor(before)), FileKind) <= 1)
            && (PlacedOnce(op, ps) <==> Count(Kinds(ps, TypesFor(before)), FileKind) <= 1)
  {
    KindsIgnoreNames(ps, before, after);
    AllBodiesCounted(ps, TypesFor(after));
    PlacedIff(ps, TypesFor(after), camel);
  }

  lemma AllBodiesCounted(ps: seq<Param>, types: Types)
    ensures |BodiesOf(ps, types, |ps|)| == Count(Kinds(ps, types), FileKind) + Count(Kinds(ps, types), OtherKind)
  {
    BodiesCounted(ps, types, |ps|);
  }

  // What the validator rejects as too many types would have been overwritten.
  lemma RejectedIsOverwritten(ps: seq<Param>, before: seq<string>, after: seq<string>)
    requires !OneBody(Kinds(ps, TypesFor(before)))
    ensures |BodiesOf(ps, TypesFor(after), |ps|)| >= 2 && !AllSimple(ps, TypesFor(after))
  {
    KindsIgnoreNames(ps, before, after);
    AllBodiesCounted(ps, TypesFor(after));
    if AllSimple(ps, TypesFor(after)) { NoBodies(ps, TypesFor(after), |ps|); }
  }

  lemma {:induction false} NoBodies(ps: seq<Param>, types: Types, n: nat)
    requires n <= |ps| && AllSimple(ps, types)
    ensures BodiesOf(ps, types, n) == []
  {
    if n > 0 {
      NoBodies(ps, types, n - 1);
      assert Simple(ps[n - 1], types);
    }
  }

  predicate DistinctCamel(ps: seq<Param>, camel: string -> string, n: nat)
    requires n <= |ps|
  {
    forall i, j :: 0 <= i < j < n && !IsContext(ps[i]) && !IsContext(ps[j]) ==> camel(ps[i].name) != camel(ps[j].name)
  }

  predicate IsProperty(ps: seq<Param>, types: Types, camel: string -> string, props: Properties, i: nat)
    requires i < |ps|
  {
    camel(ps[i].name) in props && props[camel(ps[i].name)] == types.schema(ps[i].typ)
  }

  lemma {:induction false} PropertyKeys(ps: seq<Param>, types: Types, camel: string -> string, n: nat, key: string)
    requires n <= |ps| && key in PropertiesOf(ps, types, camel, n)
    ensures exists i :: 0 <= i < n && !IsContext(ps[i]) && camel(ps[i].name) == key
  {
    if !(!IsContext(ps[n - 1]) && camel(ps[n - 1].name) == key) {
      PropertyKeys(ps, types, camel, n - 1, key);
    }
  }

  function CountNonContext(ps: seq<Param>, n: nat): nat
    requires n <= |ps|
  {
    if n == 0 then 0 else CountNonContext(ps, n - 1) + if IsContext(ps[n - 1]) then 0 else 1
  }

  // A later parameter takes a property of its own.
  lemma FreshProperty(ps: seq<Param>, types: Types, camel: string -> string, n: nat)
    requires n < |ps| && DistinctCamel(ps, camel, n + 1) && !IsContext(ps[n])
    ensures camel(ps[n].name) !in PropertiesOf(ps, types, camel, n)
  {
    if camel(ps[n].name) in PropertiesOf(ps, types, camel, n) {
      PropertyKeys(ps, types, camel, n, camel(ps[n].name));
    }
  }

  // In the form case every parameter but contexts is a property of its own.
  lemma {:induction false} FormKeepsAll(ps: seq<Param>, types: Types, camel: string -> string, n: nat)
    requires n <= |ps| && DistinctCamel(ps, camel, n)
    ensures forall i :: 0 <= i < n && !IsContext(ps[i]) ==>
              IsProperty(ps, types, camel, PropertiesOf(ps, types, camel, n), i)
  {
    if n > 0 {
      FormKeepsAll(ps, types, camel, n - 1);
      if !IsContext(ps[n - 1]) {
        FreshProperty(ps, types, camel, n - 1);
      }
    }
  }

  // Of several parameters with one camel-cased name, the last one's property stays.
  lemma {:induction false} LastPropertyStays(ps: seq<Param>, types: Types, camel: string -> string, n: nat, i: nat)
    requires i < n <= |ps| && !IsContext(ps[i])
    requires forall j :: i < j < n && !IsContext(ps[j]) ==> camel(ps[j].name) != camel(ps[i].name)
    ensures IsProperty(ps, types, camel, PropertiesOf(ps, types, camel, n), i)
  {
    if i < n - 1 { LastPropertyStays(ps, types, camel, n - 1, i); }
  }

  // And there are no other properties.
  lemma {:induction false} FormSize(ps: seq<Param>, types: Types, camel: string -> string, n: nat)
    requires n <= |ps| && DistinctCamel(ps, camel, n)
    ensures |PropertiesOf(ps, types, camel, n)| == CountNonContext(ps, n)
  {
    if n > 0 {
      FormSize(ps, types, camel, n - 1);
      if !IsContext(ps[n - 1]) {
        FreshProperty(ps, types, camel, n - 1);
      }
    }
  }

  // --- Check and generation together --------------------------------------------------------

  function SchemaIn(b: Body): Schema {
    match b
    case Form(ref) => ref
    case FormData(schema, _) => schema
    case Json(schema, _) => schema
  }

  // The body has the parameter's schema, and the kind that its type asks for.
  predicate BodyShows(b: Body, p: Param, types: Types) {
    && SchemaIn(b) == types.schema(p.typ)
    && if FileText(p.typ) then b.FormData? else b.Json?
  }

  // One of the query parameters has the name and schema of parameter i.
  predicate QueryShows(op: Operation, ps: seq<Param>, types: Types, camel: string -> string, i: nat)
    requires i < |ps|
  {
    exists k :: 0 <= k < |op.parameters| && op.parameters[k].name == camel(ps[i].name)
                && op.parameters[k].schema == types.schema(ps[i].typ)
  }

  predicate DistinctNames(qs: seq<Parameter>) {
    forall j, k :: 0 <= j < k < |qs| ==> qs[j].name != qs[k].name
  }

  // What a client can see: every parameter but contexts is shown under its own name and
  // with its schema, either as a property of the form, or as a query parameter, or as the
  // body, which is form data for a file and JSON for anything else; and the operation shows
  // nothing else.
  ghost predicate Shown(op: Operation, schemas: map<string, Properties>, ps: seq<Param>, types: Types, camel: string -> string) {
    if op.body.Some? && op.body.value.Form? then
      && op.parameters == []
      && exists title :: title in schemas && op.body.value.ref == RefTo(title) && FormShows(schemas[title], ps, types, camel)
    else
      && DistinctNames(op.parameters)
      && |op.parameters| + (if op.body.Some? then 1 else 0) == CountNonContext(ps, |ps|)
      && forall i :: 0 <= i < |ps| && !IsContext(ps[i]) ==>
           if types.builtin(ps[i].typ) then QueryShows(op, ps, types, camel, i)
           else op.body.Some? && BodyShows(op.body.value, ps[i], types)
  }

  predicate FormShows(props: Properties, ps: seq<Param>, types: Types, camel: string -> string) {
    && |props| == CountNonContext(ps, |ps|)
    && forall i :: 0 <= i < |ps| && !IsContext(ps[i]) ==> IsProperty(ps, types, camel, props, i)
  }

  // Every query parameter shows the parameter it was made of.
  predicate MadeFrom(q: Parameter, ps: seq<Param>, types: Types, camel: string -> string, n: nat)
    requires n <= |ps|
  {
    q.from < n && q == QueryEntry(ps[q.from], q.from, types, camel)
  }

  lemma {:induction false} QueryEntries(ps: seq<Param>, types: Types, camel: string -> string, n: nat)
    requires n <= |ps|
    ensures forall k :: 0 <= k < |QueryOf(ps, types, camel, n)| ==> MadeFrom(QueryOf(ps, types, camel, n)[k], ps, types, camel, n)
  {
    if n > 0 { QueryEntries(ps, types, camel, n - 1); }
  }

  predicate BodyFrom(b: Body, ps: seq<Param>, types: Types, n: nat)
    requires n <= |ps|
  {
    !b.Form? && b.from < n && BodyShows(b, ps[b.from], types)
  }

  lemma {:induction false} BodyEntries(ps: seq<Param>, types: Types, n: nat)
    requires n <= |ps| && Consistent(types)
    ensures forall k :: 0 <= k < |BodiesOf(ps, types, n)| ==> BodyFrom(BodiesOf(ps, types, n)[k], ps, types, n)
  {
    if n > 0 { BodyEntries(ps, types, n - 1); }
  }

  lemma {:induction false} EverythingCounted(ps: seq<Param>, types: Types, camel: string -> string, n: nat)
    requires n <= |ps|
    ensures |QueryOf(ps, types, camel, n)| + |BodiesOf(ps, types, n)| == CountNonContext(ps, n)
  {
    if n > 0 { EverythingCounted(ps, types, camel, n - 1); }
  }

  lemma QueriesShow(ps: seq<Param>, types: Types, camel: string -> string, op: Operation, i: nat)
    requires op.parameters == QueryOf(ps, types, camel, |ps|)
    requires i < |ps| && !IsContext(ps[i]) && types.builtin(ps[i].typ)
    ensures QueryShows(op, ps, types, camel, i)
  {
    QueriesWritten(ps, types, camel, |ps|);
    QueryEntries(ps, types, camel, |ps|);
    assert InQuery(op.parameters, i);
    var k :| 0 <= k < |op.parameters| && op.parameters[k].from == i;
    assert MadeFrom(op.parameters[k], ps, types, camel, |ps|);
  }

  lemma QueriesDistinct(ps: seq<Param>, types: Types, camel: string -> string)
    requires DistinctCamel(ps, camel, |ps|)
    ensures DistinctNames(QueryOf(ps, types, camel, |ps|))
  {
    var qs := QueryOf(ps, types, camel, |ps|);
    QueriesWritten(ps, types, camel, |ps|);
    QueryEntries(ps, types, camel, |ps|);
    forall j, k | 0 <= j < k < |qs| ensures qs[j].name != qs[k].name {
      assert MadeFrom(qs[j], ps, types, camel, |ps|) && MadeFrom(qs[k], ps, types, camel, |ps|);
      assert qs[j].from < qs[k].from;
    }
  }

  // Outside the form case an operation shows all parameters exactly when at most one body
  // was written.
  lemma ShownIff(ps: seq<Param>, types: Types, camel: string -> string, schemas: map<string, Properties>)
    requires DistinctCamel(ps, camel, |ps|) && Consistent(types)
    ensures var bodies := BodiesOf(ps, types, |ps|);
            Shown(Operation(QueryOf(ps, types, camel, |ps|), LastBody(bodies)), schemas, ps, types, camel) <==> |bodies| <= 1
  {
    var bodies := BodiesOf(ps, types, |ps|);
    var op := Operation(QueryOf(ps, types, camel, |ps|), LastBody(bodies));
    QueriesDistinct(ps, types, camel);
    EverythingCounted(ps, types, camel, |ps|);
    if |bodies| <= 1 {
      OneBodyShows(ps, types);
      forall i | 0 <= i < |ps| && !IsContext(ps[i]) && types.builtin(ps[i].typ) ensures QueryShows(op, ps, types, camel, i) {
        QueriesShow(ps, types, camel, op, i);
      }
    }
    NoForm(bodies);
  }

  lemma NoForm(bodies: seq<Body>)
    requires forall k :: 0 <= k < |bodies| ==> !bodies[k].Form?
    ensures LastBody(bodies).Some? ==> !LastBody(bodies).value.Form?
  {
  }

  lemma OneBodyShows(ps: seq<Param>, types: Types)
    requires |BodiesOf(ps, types, |ps|)| <= 1 && Consistent(types)
    ensures var body := LastBody(BodiesOf(ps, types, |ps|));
            forall i :: 0 <= i < |ps| && IsBodyParam(ps[i], types) ==>
              body.Some? && BodyShows(body.value, ps[i], types)
  {
    BodyEntries(ps, types, |ps|);
    BodiesMadeOf(ps, types, |ps|);
    ExactBodies(ps, types, |ps|, BodiesOf(ps, types, |ps|));
    forall i | 0 <= i < |ps| && IsBodyParam(ps[i], types)
      ensures var body := LastBody(BodiesOf(ps, types, |ps|)); body.Some? && BodyShows(body.value, ps[i], types)
    {
      var bodies := BodiesOf(ps, types, |ps|);
      assert InBodies(bodies, i);
      assert BodyFrom(bodies[0], ps, types, |ps|);
    }
  }

  lemma FormShown(name: string, ps: seq<Param>, types: Types, camel: string -> string, schemas: map<string, Properties>)
    requires DistinctCamel(ps, camel, |ps|) && AllSimple(ps, types)
    ensures var schemas' := schemas[name + "Req" := PropertiesOf(ps, types, camel, |ps|)];
            Shown(Operation([], Some(Form(RefTo(name + "Req")))), schemas', ps, types, camel)
    ensures BodiesOf(ps, types, |ps|) == []
  {
    FormKeepsAll(ps, types, camel, |ps|);
    FormSize(ps, types, camel, |ps|);
    NoBodies(ps, types, |ps|);
  }

  // Validation before the struct names are known, generation after. With distinct
  // camel-cased names the operation of an accepted method shows every parameter under its
  // own name if and only if at most one of them is a file.
  method Describe(name: string, params: seq<Param>, results: seq<Param>, httpMethod: string,
                  before: seq<string>, after: seq<string>, camel: string -> string, schemas: map<string, Properties>)
    returns (v: Verdict, op: Operation, schemas': map<string, Properties>)
    ensures v == Accepted && DistinctCamel(params, camel, |params|) ==>
              (Shown(op, schemas', params, TypesFor(after), camel) <==> Count(Kinds(params, TypesFor(before)), FileKind) <= 1)
    ensures v == TooManyTypes ==> |BodiesOf(params, TypesFor(after), |params|)| >= 2
  {
    op, schemas' := Operation([], None), schemas;
    v := ValidateMethod(params, results, TypesFor(before));
    if v == TooManyTypes { RejectedIsOverwritten(params, before, after); }
    if v != Accepted {
      return;
    }
    TypesConsistent(after);
    op, schemas' := OperationOf(name, params, httpMethod, TypesFor(after), camel, schemas);
    KindsIgnoreNames(params, before, after);
    AllBodiesCounted(params, TypesFor(after));
    if DistinctCamel(params, camel, |params|) {
      if AllSimple(params, TypesFor(after)) {
        FormShown(name, params, TypesFor(after), camel, schemas);
      }
      ShownIff(params, TypesFor(after), camel, schemas);
    }
  }
}
