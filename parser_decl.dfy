/** Building struct, function and impl definitions from the parse tree
    (crates/amber_parser/src/decl_parser.rs).  A struct takes its name from
    its first child and its fields from the last field list after it; a
    function is read by a loop over its children in which the last child of
    each kind wins; an impl block keeps the function definitions after its
    target, in order. */
module DeclParser {
  import opened Outcomes
  import opened ParseTree
  import TypeParser
  import StmtParser
  import Ast
  import Types

  // ---------------------------------------------------------------------------
  // Structs

  /** `parse_struct_field`: the name is the first child's text and the type
      is built from the second child; a missing child panics. */
  function ParseStructField(p: Pair): (r: Result<Ast.StructField, Panic>)
    ensures r.Ok? <==> |p.children| >= 2 && TypeParser.ParseType(p.children[1]).Ok?
    ensures r.Ok? ==> r.value.name == p.children[0].text && TypeParser.Producible(r.value.ty)
  {
    if |p.children| < 2 then Err(Panic)
    else
      var ty :- TypeParser.ParseType(p.children[1]);
      Ok(Ast.StructField(p.children[0].text, ty))
  }

  /** A field list builds when each of its fields does. */
  predicate FieldsBuild(q: Pair)
  {
    q.rule == StructFields ==> MapParse(q.children, ParseStructField).Ok?
  }

  predicate AllFieldsBuild(ps: seq<Pair>)
  {
    forall k :: 0 <= k < |ps| ==> FieldsBuild(ps[k])
  }

  /** The fields of the last field list, or none. */
  function FieldsPart(ps: seq<Pair>): seq<Ast.StructField>
    requires AllFieldsBuild(ps)
  {
    match LastWith(ps, StructFields)
    case None => []
    case Some(k) => assert FieldsBuild(ps[k]); MapParse(ps[k].children, ParseStructField).value
  }

  /** `parse_struct`, stated over the children: the name is the first
      child's text, and every field list after it is built (one that panics
      makes the struct panic), the last one giving the fields. */
  function StructSpec(p: Pair): (r: Result<Ast.StructDef, Panic>)
    ensures r.Ok? <==> |p.children| > 0 && AllFieldsBuild(p.children[1..])
    ensures r.Ok? ==> r.value.name == p.children[0].text
    ensures r.Ok? ==> (|r.value.fields| > 0 ==> HasRule(p.children[1..], StructFields))
  {
    if |p.children| == 0 then Err(Panic)
    else if AllFieldsBuild(p.children[1..]) then
      Ok(Ast.StructDef(p.children[0].text, FieldsPart(p.children[1..])))
    else Err(Panic)
  }

  lemma FieldsSnoc(ps: seq<Pair>, q: Pair)
    requires AllFieldsBuild(ps) && FieldsBuild(q)
    ensures AllFieldsBuild(ps + [q])
    ensures FieldsPart(ps + [q])
            == if q.rule == StructFields then MapParse(q.children, ParseStructField).value else FieldsPart(ps)
  {
    assert forall k :: 0 <= k < |ps| ==> (ps + [q])[k] == ps[k];
    LastWithSnoc(ps, q, StructFields);
  }

  /** `parse_struct`: the name, then one pass over the remaining children in
      which each field list replaces the fields read so far. */
  method ParseStruct(p: Pair) returns (r: Result<Ast.StructDef, Panic>)
    ensures r == StructSpec(p)
  {
    if |p.children| == 0 {
      return Err(Panic);
    }
    var name := p.children[0].text;
    var rest := p.children[1..];
    var fields: seq<Ast.StructField> := [];
    var i := 0;
    while i < |rest|
      invariant 0 <= i <= |rest|
      invariant AllFieldsBuild(rest[..i])
      invariant fields == FieldsPart(rest[..i])
    {
      var part := rest[i];
      if part.rule == StructFields {
        var built := MapParse(part.children, ParseStructField);
        if built.Err? {
          assert !FieldsBuild(rest[i]);
          return Err(Panic);
        }
        fields := built.value;
      }
      assert rest[..i + 1] == rest[..i] + [part];
      FieldsSnoc(rest[..i], part);
      i := i + 1;
    }
    assert rest[..i] == rest;
    return Ok(Ast.StructDef(name, fields));
  }

  /** The node the grammar builds for a field. */
  function FieldLayout(f: Ast.StructField): Pair
    requires TypeParser.Producible(f.ty)
  {
    Pair(StructField, f.name + ": " + TypeParser.TypeText(f.ty),
         [Pair(Ident, f.name, []), Pair(TypeDef, TypeParser.TypeText(f.ty), [TypeParser.Layout(f.ty)])])
  }

  /** Every field the builder can produce is read back from its layout. */
  lemma FieldRoundTrip(f: Ast.StructField)
    requires TypeParser.Producible(f.ty)
    ensures ParseStructField(FieldLayout(f)) == Ok(f)
  {
    TypeParser.LayoutRoundTrip(f.ty);
  }

  function FieldLayouts(fs: seq<Ast.StructField>): (qs: seq<Pair>)
    requires forall k :: 0 <= k < |fs| ==> TypeParser.Producible(fs[k].ty)
    ensures |qs| == |fs|
    ensures forall k :: 0 <= k < |fs| ==> qs[k] == FieldLayout(fs[k])
  {
    if |fs| == 0 then [] else [FieldLayout(fs[0])] + FieldLayouts(fs[1..])
  }

  /** The node the grammar builds for a struct: its name and one field
      list. */
  function StructLayout(s: Ast.StructDef): Pair
    requires forall k :: 0 <= k < |s.fields| ==> TypeParser.Producible(s.fields[k].ty)
  {
    Pair(StructDef, "struct " + s.name, [Pair(Ident, s.name, []), Pair(StructFields, "", FieldLayouts(s.fields))])
  }

  /** Every struct whose field types the builder can produce is read back
      from its layout, with its fields in order. */
  lemma StructRoundTrip(s: Ast.StructDef)
    requires forall k :: 0 <= k < |s.fields| ==> TypeParser.Producible(s.fields[k].ty)
    ensures StructSpec(StructLayout(s)) == Ok(s)
  {
    var qs := FieldLayouts(s.fields);
    forall k | 0 <= k < |qs|
      ensures ParseStructField(qs[k]) == Ok(s.fields[k])
    {
      FieldRoundTrip(s.fields[k]);
    }
    var m := MapParse(qs, ParseStructField);
    assert m.value == s.fields;
    var rest := StructLayout(s).children[1..];
    assert rest == [Pair(StructFields, "", qs)];
    assert LastWith(rest, StructFields) == Some(0);
  }

  // ---------------------------------------------------------------------------
  // Parameters

  /** `parse_param`: a parameter node is its first child, read again; `self`
      is the receiver; a typed parameter is read by `ParseTypedParam`;
      anything else panics. */
  function ParseParam(p: Pair): (r: Result<Ast.Param, Panic>)
    ensures r.Ok? && r.value.Typed? ==> TypeParser.Producible(r.value.ty)
    decreases p
  {
    match p.rule
    case Param => if |p.children| == 0 then Err(Panic) else ParseParam(p.children[0])
    case ParamSelf => Ok(Ast.SelfParam)
    case ParamTyped => ParseTypedParam(p)
    case _ => Err(Panic)
  }

  /** `parse_typed_param`: the name is the first child's text and the type
      is built from the second; a missing child panics. */
  function ParseTypedParam(p: Pair): (r: Result<Ast.Param, Panic>)
    ensures r.Ok? <==> |p.children| >= 2 && TypeParser.ParseType(p.children[1]).Ok?
    ensures r.Ok? ==> r.value.Typed? && r.value.name == p.children[0].text && TypeParser.Producible(r.value.ty)
  {
    if |p.children| < 2 then Err(Panic)
    else
      var ty :- TypeParser.ParseType(p.children[1]);
      Ok(Ast.Typed(p.children[0].text, ty))
  }

  predicate ParamProducible(q: Ast.Param)
  {
    q.Typed? ==> TypeParser.Producible(q.ty)
  }

  /** The node the grammar builds for a parameter. */
  function ParamLayout(q: Ast.Param): Pair
    requires ParamProducible(q)
  {
    match q
    case SelfParam => Pair(Param, "self", [Pair(ParamSelf, "self", [])])
    case Typed(name, ty) =>
      var text := name + ": " + TypeParser.TypeText(ty);
      Pair(Param, text, [Pair(ParamTyped, text,
        [Pair(Ident, name, []), Pair(TypeDef, TypeParser.TypeText(ty), [TypeParser.Layout(ty)])])])
  }

  /** Every parameter the builder can produce is read back from its
      layout. */
  lemma ParamRoundTrip(q: Ast.Param)
    requires ParamProducible(q)
    ensures ParseParam(ParamLayout(q)) == Ok(q)
  {
    var p := ParamLayout(q);
    if q.Typed? {
      var tp := p.children[0];
      TypeParser.LayoutRoundTrip(q.ty);
      assert TypeParser.ParseType(tp.children[1]) == TypeParser.ParseType(TypeParser.Layout(q.ty));
      assert ParseTypedParam(tp) == Ok(q);
      assert ParseParam(tp) == ParseTypedParam(tp);
      assert ParseParam(p) == ParseParam(tp);
    } else {
      assert ParseParam(p) == ParseParam(p.children[0]);
    }
  }

  function ParamLayouts(qs: seq<Ast.Param>): (ps: seq<Pair>)
    requires forall k :: 0 <= k < |qs| ==> ParamProducible(qs[k])
    ensures |ps| == |qs|
    ensures forall k :: 0 <= k < |qs| ==> ps[k] == ParamLayout(qs[k])
  {
    if |qs| == 0 then [] else [ParamLayout(qs[0])] + ParamLayouts(qs[1..])
  }

  /** A parameter list is read back from its layout, in order. */
  lemma ParamsRoundTrip(qs: seq<Ast.Param>)
    requires forall k :: 0 <= k < |qs| ==> ParamProducible(qs[k])
    ensures MapParse(ParamLayouts(qs), ParseParam) == Ok(qs)
  {
    var ps := ParamLayouts(qs);
    forall k | 0 <= k < |ps|
      ensures ParseParam(ps[k]) == Ok(qs[k])
    {
      ParamRoundTrip(qs[k]);
    }
    assert MapParse(ps, ParseParam).value == qs;
  }

  // ---------------------------------------------------------------------------
  // Functions

  /** A body child holds a block as its first child; a body without one (an
      `extern` declaration ends in `;`) leaves the body unset. */
  predicate BlockBody(q: Pair)
  {
    q.rule == FunctionBody && |q.children| > 0 && q.children[0].rule == Block
  }

  /** A child of a function that is read must build: a parameter list its
      parameters, a return type its one type, a body its block. */
  predicate FunctionPartBuilds(q: Pair)
  {
    && (q.rule == ParameterList ==> MapParse(q.children, ParseParam).Ok?)
    && (q.rule == ReturnType ==> |q.children| > 0 && TypeParser.ParseType(q.children[0]).Ok?)
    && (BlockBody(q) ==> StmtParser.ParseBlock(q.children[0]).Ok?)
  }

  predicate FunctionPartsBuild(ps: seq<Pair>)
  {
    forall k :: 0 <= k < |ps| ==> FunctionPartBuilds(ps[k])
  }

  /** The text of the last identifier child, or the empty name. */
  function NamePart(ps: seq<Pair>): string
  {
    match LastWith(ps, Ident)
    case None => ""
    case Some(k) => ps[k].text
  }

  /** The parameters of the last parameter list, or none. */
  function ParamsPart(ps: seq<Pair>): seq<Ast.Param>
    requires FunctionPartsBuild(ps)
  {
    match LastWith(ps, ParameterList)
    case None => []
    case Some(k) => assert FunctionPartBuilds(ps[k]); MapParse(ps[k].children, ParseParam).value
  }

  /** The type of the last return type child, if any. */
  function ReturnPart(ps: seq<Pair>): Option<Types.Type>
    requires FunctionPartsBuild(ps)
  {
    match LastWith(ps, ReturnType)
    case None => None
    case Some(k) => assert FunctionPartBuilds(ps[k]); Some(TypeParser.ParseType(ps[k].children[0]).value)
  }

  /** The block of the last body child that holds one, if any. */
  function BodyPart(ps: seq<Pair>): (b: Option<Ast.Block>)
    requires FunctionPartsBuild(ps)
    ensures b.Some? <==> exists k :: 0 <= k < |ps| && BlockBody(ps[k])
  {
    if |ps| == 0 then None
    else
      var q := ps[|ps| - 1];
      assert FunctionPartBuilds(q);
      if BlockBody(q) then Some(StmtParser.ParseBlock(q.children[0]).value)
      else
        assert forall k :: 0 <= k < |ps| - 1 ==> ps[..|ps| - 1][k] == ps[k];
        BodyPart(ps[..|ps| - 1])
  }

  /** The function the children describe, once they all build. */
  function FunctionOf(ps: seq<Pair>): Ast.Function
    requires FunctionPartsBuild(ps)
  {
    Ast.Function(NamePart(ps), ParamsPart(ps), ReturnPart(ps), BodyPart(ps), HasRule(ps, ExternModifier))
  }

  /** `parse_function`, stated over the children: every parameter list,
      return type and block body is built (one that panics makes the
      function panic), each field comes from the last child of its kind, and
      the function is external when an `extern` child is present. */
  function FunctionSpec(p: Pair): (r: Result<Ast.Function, Panic>)
    ensures r.Ok? <==> FunctionPartsBuild(p.children)
    ensures r.Ok? ==> (r.value.isExtern <==> HasRule(p.children, ExternModifier))
    ensures r.Ok? ==> (r.value.returnType.Some? <==> HasRule(p.children, ReturnType))
    ensures r.Ok? ==> (r.value.body.Some? <==> exists k :: 0 <= k < |p.children| && BlockBody(p.children[k]))
    ensures r.Ok? ==> (|r.value.params| > 0 ==> HasRule(p.children, ParameterList))
    ensures r.Ok? ==> forall k :: 0 <= k < |r.value.params| ==> ParamProducible(r.value.params[k])
  {
    if FunctionPartsBuild(p.children) then
      var f := FunctionOf(p.children);
      assert forall k :: 0 <= k < |f.params| ==> ParamProducible(f.params[k]) by {
        var ps := p.children;
        if LastWith(ps, ParameterList).Some? {
          var j := LastWith(ps, ParameterList).value;
          assert FunctionPartBuilds(ps[j]);
          forall k | 0 <= k < |f.params|
            ensures ParamProducible(f.params[k])
          {
            assert ParseParam(ps[j].children[k]) == Ok(f.params[k]);
          }
        }
      }
      Ok(f)
    else Err(Panic)
  }

  /** What one child changes in the function read so far. */
  function FunctionAbsorb(f: Ast.Function, q: Pair): Ast.Function
    requires FunctionPartBuilds(q)
  {
    if q.rule == ExternModifier then f.(isExtern := true)
    else if q.rule == Ident then f.(name := q.text)
    else if q.rule == ParameterList then f.(params := MapParse(q.children, ParseParam).value)
    else if q.rule == ReturnType then f.(returnType := Some(TypeParser.ParseType(q.children[0]).value))
    else if BlockBody(q) then f.(body := Some(StmtParser.ParseBlock(q.children[0]).value))
    else f
  }

  lemma FunctionPartsSnoc(ps: seq<Pair>, q: Pair)
    requires FunctionPartsBuild(ps) && FunctionPartBuilds(q)
    ensures FunctionPartsBuild(ps + [q])
  {
    assert forall k :: 0 <= k < |ps| ==> (ps + [q])[k] == ps[k];
  }

  lemma ExternSnoc(ps: seq<Pair>, q: Pair)
    ensures HasRule(ps + [q], ExternModifier) == (q.rule == ExternModifier || HasRule(ps, ExternModifier))
  {
    assert forall k :: 0 <= k < |ps| ==> (ps + [q])[k] == ps[k];
    if q.rule == ExternModifier {
      assert (ps + [q])[|ps|] == q;
    }
  }

  lemma NameSnoc(ps: seq<Pair>, q: Pair)
    ensures NamePart(ps + [q]) == if q.rule == Ident then q.text else NamePart(ps)
  {
    LastWithSnoc(ps, q, Ident);
    assert forall k :: 0 <= k < |ps| ==> (ps + [q])[k] == ps[k];
  }

  lemma ParamsSnoc(ps: seq<Pair>, q: Pair)
    requires FunctionPartsBuild(ps) && FunctionPartBuilds(q)
    ensures FunctionPartsBuild(ps + [q])
    ensures ParamsPart(ps + [q]) == if q.rule == ParameterList then MapParse(q.children, ParseParam).value else ParamsPart(ps)
  {
    FunctionPartsSnoc(ps, q);
    LastWithSnoc(ps, q, ParameterList);
    assert forall k :: 0 <= k < |ps| ==> (ps + [q])[k] == ps[k];
  }

  lemma ReturnSnoc(ps: seq<Pair>, q: Pair)
    requires FunctionPartsBuild(ps) && FunctionPartBuilds(q)
    ensures FunctionPartsBuild(ps + [q])
    ensures ReturnPart(ps + [q]) == if q.rule == ReturnType then Some(TypeParser.ParseType(q.children[0]).value) else ReturnPart(ps)
  {
    FunctionPartsSnoc(ps, q);
    LastWithSnoc(ps, q, ReturnType);
    assert forall k :: 0 <= k < |ps| ==> (ps + [q])[k] == ps[k];
  }

  lemma BodySnoc(ps: seq<Pair>, q: Pair)
    requires FunctionPartsBuild(ps) && FunctionPartBuilds(q)
    ensures FunctionPartsBuild(ps + [q])
    ensures BodyPart(ps + [q]) == if BlockBody(q) then Some(StmtParser.ParseBlock(q.children[0]).value) else BodyPart(ps)
  {
    FunctionPartsSnoc(ps, q);
    assert (ps + [q])[..|ps|] == ps;
  }

  /** Reading the children one by one gives the last-of-each-kind
      function. */
  lemma FunctionSnoc(ps: seq<Pair>, q: Pair)
    requires FunctionPartsBuild(ps) && FunctionPartBuilds(q)
    ensures FunctionPartsBuild(ps + [q])
    ensures FunctionOf(ps + [q]) == FunctionAbsorb(FunctionOf(ps), q)
  {
    FunctionPartsSnoc(ps, q);
    ExternSnoc(ps, q);
    NameSnoc(ps, q);
    ParamsSnoc(ps, q);
    ReturnSnoc(ps, q);
    BodySnoc(ps, q);
  }

  /** One turn of `parse_function`'s loop; the five locals of the source are
      the fields of `f`. */
  method ReadFunctionPart(f: Ast.Function, q: Pair) returns (r: Result<Ast.Function, Panic>)
    ensures r.Ok? <==> FunctionPartBuilds(q)
    ensures r.Ok? ==> r.value == FunctionAbsorb(f, q)
  {
    if q.rule == ExternModifier {
      r := Ok(f.(isExtern := true));
    } else if q.rule == Ident {
      r := Ok(f.(name := q.text));
    } else if q.rule == ParameterList {
      var params := MapParse(q.children, ParseParam);
      if params.Err? {
        return Err(Panic);
      }
      r := Ok(f.(params := params.value));
    } else if q.rule == ReturnType {
      if |q.children| == 0 {
        return Err(Panic);
      }
      var ty := TypeParser.ParseType(q.children[0]);
      if ty.Err? {
        return Err(Panic);
      }
      r := Ok(f.(returnType := Some(ty.value)));
    } else if q.rule == FunctionBody && |q.children| > 0 && q.children[0].rule == Block {
      var body := StmtParser.ParseBlock(q.children[0]);
      if body.Err? {
        return Err(Panic);
      }
      r := Ok(f.(body := Some(body.value)));
    } else {
      r := Ok(f);
    }
  }

  /** `parse_function`: one pass over the children, each kind of child
      overwriting what an earlier one of its kind set. */
  method ParseFunction(p: Pair) returns (r: Result<Ast.Function, Panic>)
    ensures r == FunctionSpec(p)
  {
    var ps := p.children;
    var f := Ast.Function("", [], None, None, false);
    var i := 0;
    assert ps[..0] == [];
    while i < |ps|
      invariant 0 <= i <= |ps|
      invariant FunctionPartsBuild(ps[..i])
      invariant f == FunctionOf(ps[..i])
    {
      var next := ReadFunctionPart(f, ps[i]);
      if next.Err? {
        assert !FunctionPartBuilds(ps[i]);
        return Err(Panic);
      }
      assert ps[..i + 1] == ps[..i] + [ps[i]];
      FunctionSnoc(ps[..i], ps[i]);
      f := next.value;
      i := i + 1;
    }
    assert ps[..i] == ps;
    return Ok(f);
  }

  /** The functions the builder can produce: parameter and return types it
      can build. */
  predicate FunctionProducible(f: Ast.Function)
  {
    && (forall k :: 0 <= k < |f.params| ==> ParamProducible(f.params[k]))
    && (f.returnType.Some? ==> TypeParser.Producible(f.returnType.value))
  }

  /** The node the grammar builds for a function whose body, if it has one,
      is the block node `block`: an optional `extern`, the name, the
      parameter list, an optional return type and the body, which is empty
      for a declaration ending in `;`. */
  function FunctionLayout(f: Ast.Function, block: Pair): Pair
    requires FunctionProducible(f)
  {
    Pair(FunctionDef, "fn " + f.name,
         ExternLayout(f) + [Pair(Ident, f.name, [])] + [ParamsLayout(f)] + ReturnLayout(f) + [BodyLayout(f, block)])
  }

  function ExternLayout(f: Ast.Function): seq<Pair>
  {
    if f.isExtern then [Pair(ExternModifier, "extern", [])] else []
  }

  function ParamsLayout(f: Ast.Function): Pair
    requires FunctionProducible(f)
  {
    Pair(ParameterList, "", ParamLayouts(f.params))
  }

  function ReturnLayout(f: Ast.Function): seq<Pair>
    requires FunctionProducible(f)
  {
    match f.returnType
    case None => []
    case Some(t) => [Pair(ReturnType, TypeParser.TypeText(t), [TypeParser.Layout(t)])]
  }

  function BodyLayout(f: Ast.Function, block: Pair): Pair
  {
    Pair(FunctionBody, "", if f.body.Some? then [block] else [])
  }

  /** Every function the builder can produce is read back from its layout,
      given a block node that builds its body. */
  lemma FunctionRoundTrip(f: Ast.Function, block: Pair)
    requires FunctionProducible(f)
    requires f.body.Some? ==> block.rule == Block && StmtParser.ParseBlock(block) == Ok(f.body.value)
    ensures FunctionSpec(FunctionLayout(f, block)) == Ok(f)
  {
    var c1 := ExternLayout(f) + [Pair(Ident, f.name, [])];
    var c2 := c1 + [ParamsLayout(f)];
    ExternStep(f);
    IdentStep(f, ExternLayout(f));
    ParamsStep(f, c1);
    ReturnStep(f, c2);
    BodyStep(f, block, c2 + ReturnLayout(f));
  }

  lemma ExternStep(f: Ast.Function)
    ensures FunctionPartsBuild(ExternLayout(f))
    ensures FunctionOf(ExternLayout(f)) == Ast.Function("", [], None, None, f.isExtern)
  {
    if f.isExtern {
      var q := Pair(ExternModifier, "extern", []);
      FunctionSnoc([], q);
      assert [] + [q] == ExternLayout(f);
    }
  }

  lemma IdentStep(f: Ast.Function, ps: seq<Pair>)
    requires FunctionPartsBuild(ps)
    requires FunctionOf(ps) == Ast.Function("", [], None, None, f.isExtern)
    ensures FunctionPartsBuild(ps + [Pair(Ident, f.name, [])])
    ensures FunctionOf(ps + [Pair(Ident, f.name, [])]) == Ast.Function(f.name, [], None, None, f.isExtern)
  {
    FunctionSnoc(ps, Pair(Ident, f.name, []));
  }

  lemma ParamsStep(f: Ast.Function, ps: seq<Pair>)
    requires FunctionProducible(f) && FunctionPartsBuild(ps)
    requires FunctionOf(ps) == Ast.Function(f.name, [], None, None, f.isExtern)
    ensures FunctionPartsBuild(ps + [ParamsLayout(f)])
    ensures FunctionOf(ps + [ParamsLayout(f)]) == f.(returnType := None, body := None)
  {
    ParamsRoundTrip(f.params);
    FunctionSnoc(ps, ParamsLayout(f));
  }

  lemma ReturnStep(f: Ast.Function, ps: seq<Pair>)
    requires FunctionProducible(f) && FunctionPartsBuild(ps)
    requires FunctionOf(ps) == f.(returnType := None, body := None)
    ensures FunctionPartsBuild(ps + ReturnLayout(f))
    ensures FunctionOf(ps + ReturnLayout(f)) == f.(body := None)
  {
    if f.returnType.Some? {
      var q := ReturnLayout(f)[0];
      TypeParser.LayoutRoundTrip(f.returnType.value);
      FunctionSnoc(ps, q);
      assert ReturnLayout(f) == [q];
    } else {
      assert ps + ReturnLayout(f) == ps;
    }
  }

  lemma BodyStep(f: Ast.Function, block: Pair, ps: seq<Pair>)
    requires FunctionPartsBuild(ps) && FunctionOf(ps) == f.(body := None)
    requires f.body.Some? ==> block.rule == Block && StmtParser.ParseBlock(block) == Ok(f.body.value)
    ensures FunctionPartsBuild(ps + [BodyLayout(f, block)])
    ensures FunctionOf(ps + [BodyLayout(f, block)]) == f
  {
    FunctionSnoc(ps, BodyLayout(f, block));
  }

  // ---------------------------------------------------------------------------
  // Impl blocks

  /** `parse_impl`: the target is the first child's text, and the methods
      are the function definitions among the remaining children, built in
      order; a missing target or a method that panics panics. */
  function ParseImpl(p: Pair): (r: Result<Ast.ImplBlock, Panic>)
    ensures r.Ok? <==> |p.children| > 0
                       && forall k :: 0 <= k < |Filter(p.children[1..], FunctionDef)| ==>
                            FunctionSpec(Filter(p.children[1..], FunctionDef)[k]).Ok?
    ensures r.Ok? ==> r.value.target == p.children[0].text
    ensures r.Ok? ==> var defs := Filter(p.children[1..], FunctionDef);
                      |r.value.methods| == |defs|
                      && forall k :: 0 <= k < |defs| ==> FunctionSpec(defs[k]) == Ok(r.value.methods[k])
  {
    if |p.children| == 0 then Err(Panic)
    else
      var defs := Filter(p.children[1..], FunctionDef);
      var methods := MapParse(defs, FunctionSpec);
      if methods.Err? then
        MapParseFails(defs, FunctionSpec);
        var k :| 0 <= k < |defs| && FunctionSpec(defs[k]).Err?;
        assert !FunctionSpec(Filter(p.children[1..], FunctionDef)[k]).Ok?;
        Err(Panic)
      else Ok(Ast.ImplBlock(p.children[0].text, methods.value))
  }

  /** The node the grammar builds for an impl block: the target and one
      function definition per method, the `k`th method's body read from
      `blocks[k]`. */
  function ImplLayout(ib: Ast.ImplBlock, blocks: seq<Pair>): Pair
    requires |blocks| == |ib.methods|
    requires forall k :: 0 <= k < |ib.methods| ==> FunctionProducible(ib.methods[k])
  {
    Pair(ImplBlock, "impl " + ib.target, [Pair(Ident, ib.target, [])] + MethodLayouts(ib.methods, blocks))
  }

  function MethodLayouts(fs: seq<Ast.Function>, blocks: seq<Pair>): (ps: seq<Pair>)
    requires |blocks| == |fs|
    requires forall k :: 0 <= k < |fs| ==> FunctionProducible(fs[k])
    ensures |ps| == |fs|
    ensures forall k :: 0 <= k < |fs| ==> ps[k] == FunctionLayout(fs[k], blocks[k])
  {
    if |fs| == 0 then [] else [FunctionLayout(fs[0], blocks[0])] + MethodLayouts(fs[1..], blocks[1..])
  }

  /** Every impl block whose methods the builder can produce is read back
      from its layout, with its methods in order. */
  lemma ImplRoundTrip(ib: Ast.ImplBlock, blocks: seq<Pair>)
    requires |blocks| == |ib.methods|
    requires forall k :: 0 <= k < |ib.methods| ==> FunctionProducible(ib.methods[k])
    requires forall k :: 0 <= k < |ib.methods| ==>
               ib.methods[k].body.Some? ==> blocks[k].rule == Block && StmtParser.ParseBlock(blocks[k]) == Ok(ib.methods[k].body.value)
    ensures ParseImpl(ImplLayout(ib, blocks)) == Ok(ib)
  {
    ImplLayoutParts(ib, blocks);
    MethodsRoundTrip(ib.methods, blocks);
    ImplParsesTo(ImplLayout(ib, blocks), ib.methods);
  }

  /** The layout's first child names the target and the rest are exactly
      the method definitions. */
  lemma ImplLayoutParts(ib: Ast.ImplBlock, blocks: seq<Pair>)
    requires |blocks| == |ib.methods|
    requires forall k :: 0 <= k < |ib.methods| ==> FunctionProducible(ib.methods[k])
    ensures |ImplLayout(ib, blocks).children| > 0
    ensures ImplLayout(ib, blocks).children[0].text == ib.target
    ensures Filter(ImplLayout(ib, blocks).children[1..], FunctionDef) == MethodLayouts(ib.methods, blocks)
  {
    var defs := MethodLayouts(ib.methods, blocks);
    assert ImplLayout(ib, blocks).children[1..] == defs;
    FilterAll(defs, FunctionDef);
  }

  /** An impl node whose definitions all parse is read as its target and
      those methods. */
  lemma ImplParsesTo(p: Pair, ms: seq<Ast.Function>)
    requires |p.children| > 0
    requires MapParse(Filter(p.children[1..], FunctionDef), FunctionSpec) == Ok(ms)
    ensures ParseImpl(p) == Ok(Ast.ImplBlock(p.children[0].text, ms))
  { }

  lemma MethodsRoundTrip(fs: seq<Ast.Function>, blocks: seq<Pair>)
    requires |blocks| == |fs|
    requires forall k :: 0 <= k < |fs| ==> FunctionProducible(fs[k])
    requires forall k :: 0 <= k < |fs| ==>
               fs[k].body.Some? ==> blocks[k].rule == Block && StmtParser.ParseBlock(blocks[k]) == Ok(fs[k].body.value)
    ensures MapParse(MethodLayouts(fs, blocks), FunctionSpec) == Ok(fs)
  {
    var defs := MethodLayouts(fs, blocks);
    forall k | 0 <= k < |defs|
      ensures FunctionSpec(defs[k]) == Ok(fs[k])
    {
      FunctionRoundTrip(fs[k], blocks[k]);
    }
    assert MapParse(defs, FunctionSpec).value == fs;
  }
}
