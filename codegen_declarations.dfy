/** Emission of structs, functions and impl blocks
    (crates/amber_codegen/src/declarations.rs). */
module Declarations {
  import opened Outcomes
  import opened Text
  import opened Types
  import opened Ast
  import opened CTypes
  import opened CodegenErrors
  import opened Buffer
  import opened Emissions
  import opened Statements

  // ---------------------------------------------------------------------------
  // What the generator accepts

  predicate ParamTypesOk(ps: seq<Param>)
  {
    forall k :: 0 <= k < |ps| ==> ps[k].Typed? ==> IsBuiltinType(ps[k].ty)
  }

  /** Every type in the signature is one `type_to_c` has an arm for. */
  predicate SignatureTypesOk(f: Function)
  {
    ParamTypesOk(f.params) && (f.returnType.Some? ==> IsBuiltinType(f.returnType.value))
  }

  /** A function the generator can process: supported types, and a body the
      block emitter accepts whenever the body is emitted. */
  predicate FunctionOk(f: Function)
  {
    SignatureTypesOk(f) && (f.body.Some? && !f.isExtern ==> BlockOk(f.body.value))
  }

  predicate StructOk(def: StructDef)
  {
    forall k :: 0 <= k < |def.fields| ==> IsBuiltinType(def.fields[k].ty)
  }

  predicate ImplOk(ib: ImplBlock)
  {
    forall k :: 0 <= k < |ib.methods| ==> FunctionOk(ib.methods[k])
  }

  // ---------------------------------------------------------------------------
  // Structs

  /** `emit_struct_field`: one field line, indented by four spaces. */
  function FieldLine(field: StructField): string
    requires IsBuiltinType(field.ty)
  {
    "    " + TypeToC(field.ty) + " " + field.name + ";"
  }

  /** The lines of a struct: a `typedef struct {` opener, one line per field in
      declared order, the closing line naming the struct, and a blank line. */
  function StructLines(def: StructDef): (r: seq<string>)
    requires StructOk(def)
    ensures |r| == |def.fields| + 3
    ensures r[0] == "typedef struct {"
    ensures forall k :: 0 <= k < |def.fields| ==> r[k + 1] == FieldLine(def.fields[k])
    ensures r[|r| - 2] == "} " + def.name + ";" && r[|r| - 1] == ""
  {
    ["typedef struct {"]
    + seq(|def.fields|, k requires 0 <= k < |def.fields| => FieldLine(def.fields[k]))
    + ["} " + def.name + ";", ""]
  }

  /** Every field line of a struct is indented one level. */
  lemma StructFieldsIndented(def: StructDef)
    requires StructOk(def)
    ensures Indented(StructLines(def)[1..|def.fields| + 1], 1)
  {
    var fields := StructLines(def)[1..|def.fields| + 1];
    forall k | 0 <= k < |fields|
      ensures StartsWith(fields[k], Indentation(1))
    {
      assert fields[k] == FieldLine(def.fields[k]);
      FieldLineIndented(def.fields[k]);
    }
  }

  lemma FieldLineIndented(field: StructField)
    requires IsBuiltinType(field.ty)
    ensures StartsWith(FieldLine(field), Indentation(1))
  {
    var rest := TypeToC(field.ty) + " " + field.name + ";";
    assert FieldLine(field) == "    " + rest;
    assert Indentation(1) == "    ";
    assert ("    " + rest)[..4] == "    ";
  }

  /** The buffer after the opener, the field lines and the closing lines
      holds the struct's lines. */
  lemma StructLinesAppended(before: seq<string>, def: StructDef, fieldLines: seq<string>)
    requires StructOk(def)
    requires |fieldLines| == |def.fields|
    requires forall k :: 0 <= k < |fieldLines| ==> fieldLines[k] == FieldLine(def.fields[k])
    ensures before + ["typedef struct {"] + fieldLines + ["} " + def.name + ";"] + [""] == before + StructLines(def)
  {
    var opener, closer := ["typedef struct {"], ["} " + def.name + ";", ""];
    var generated := seq(|def.fields|, k requires 0 <= k < |def.fields| => FieldLine(def.fields[k]));
    assert generated == fieldLines;
    assert StructLines(def) == opener + fieldLines + closer;
    assert before + opener + fieldLines + ["} " + def.name + ";"] + [""] == before + (opener + fieldLines + closer);
  }

  method EmitStructField(buffer: CodeBuffer, field: StructField)
    requires IsBuiltinType(field.ty)
    modifies buffer
    ensures buffer.lines == old(buffer.lines) + [FieldLine(field)]
  {
    var line := "    " + TypeToC(field.ty) + " " + field.name + ";";
    buffer.PushLine(line);
  }

  /** `emit_struct`: never fails. */
  method EmitStruct(buffer: CodeBuffer, def: StructDef) returns (r: Result<(), CodegenError>)
    requires StructOk(def)
    modifies buffer
    ensures buffer.lines == old(buffer.lines) + StructLines(def)
    ensures r == Ok(())
  {
    ghost var before := buffer.lines;
    buffer.PushLine("typedef struct {");
    ghost var written: seq<string> := [];
    var i := 0;
    while i < |def.fields|
      invariant 0 <= i <= |def.fields|
      invariant |written| == i
      invariant forall k :: 0 <= k < i ==> written[k] == FieldLine(def.fields[k])
      invariant buffer.lines == before + ["typedef struct {"] + written
    {
      ghost var line := FieldLine(def.fields[i]);
      EmitStructField(buffer, def.fields[i]);
      AppendAssoc(before + ["typedef struct {"], written, [line]);
      written := written + [line];
      i := i + 1;
    }
    buffer.PushLine("} " + def.name + ";");
    buffer.PushLine("");
    StructLinesAppended(before, def, written);
    return Ok(());
  }

  // ---------------------------------------------------------------------------
  // Parameters and signatures

  /** The number of `self` parameters. */
  function SelfCount(ps: seq<Param>): (n: nat)
    ensures n == 0 <==> forall k :: 0 <= k < |ps| ==> ps[k].Typed?
    ensures n <= |ps|
  {
    if |ps| == 0 then 0
    else SelfCount(ps[..|ps| - 1]) + (if ps[|ps| - 1].SelfParam? then 1 else 0)
  }

  lemma {:induction false} SelfCountPrefix(ps: seq<Param>, i: nat)
    requires i <= |ps|
    ensures SelfCount(ps[..i]) <= SelfCount(ps)
    decreases |ps| - i
  {
    if i < |ps| {
      SelfCountPrefix(ps, i + 1);
      assert ps[..i + 1][..i] == ps[..i];
    } else {
      assert ps[..i] == ps;
    }
  }

  /** Counting one more parameter. */
  lemma SelfCountStep(ps: seq<Param>, i: nat)
    requires i < |ps|
    ensures SelfCount(ps[..i + 1]) == SelfCount(ps[..i]) + (if ps[i].SelfParam? then 1 else 0)
  {
    assert ps[..i + 1][..i] == ps[..i];
  }

  /** How one parameter is written: `Target* self` for the receiver, the C type
      and the name otherwise. */
  function ParamText(p: Param, target: Option<string>): string
    requires p.Typed? ==> IsBuiltinType(p.ty)
    requires p.SelfParam? ==> target.Some?
  {
    match p
    case SelfParam => target.value + "* self"
    case Typed(name, ty) => TypeToC(ty) + " " + name
  }

  /** What `format_params` returns.  A `self` outside an impl is reported at
      the first `self`; inside an impl a second `self` is reported; both
      errors carry the placeholder name `unknown`.  Otherwise the parameters
      are written in order, separated by commas, and an empty list is
      `void`. */
  function FormatParamsSpec(ps: seq<Param>, target: Option<string>): (r: Result<string, CodegenError>)
    requires ParamTypesOk(ps)
    ensures r.Err? <==> (SelfCount(ps) >= 1 && target.None?) || SelfCount(ps) >= 2
    ensures r.Err? ==> r.error.SelfParamOutsideImpl? || r.error.MultipleSelfParams?
  {
    if SelfCount(ps) >= 1 && target.None? then Err(SelfParamOutsideImpl("unknown"))
    else if SelfCount(ps) >= 2 then Err(MultipleSelfParams("unknown"))
    else if |ps| == 0 then Ok("void")
    else Ok(Join(ParamTexts(ps, target), ", "))
  }

  /** Each parameter written out, in order. */
  function ParamTexts(ps: seq<Param>, target: Option<string>): (r: seq<string>)
    requires ParamTypesOk(ps)
    requires SelfCount(ps) == 0 || target.Some?
    ensures |r| == |ps|
    ensures forall k :: 0 <= k < |ps| ==> r[k] == ParamText(ps[k], target)
  {
    seq(|ps|, k requires 0 <= k < |ps| => ParamText(ps[k], target))
  }

  /** A receiver found when one was already seen, inside an impl, decides
      the result. */
  lemma SecondSelfFails(ps: seq<Param>, target: Option<string>, i: nat)
    requires ParamTypesOk(ps)
    requires i < |ps| && ps[i].SelfParam? && SelfCount(ps[..i]) == 1
    ensures FormatParamsSpec(ps, target).Err?
    ensures target.Some? ==> FormatParamsSpec(ps, target) == Err(MultipleSelfParams("unknown"))
  {
    SelfCountStep(ps, i);
    SelfCountPrefix(ps, i + 1);
    assert SelfCount(ps) >= 2;
  }

  /** A receiver outside an impl decides the result. */
  lemma SelfOutsideImplFails(ps: seq<Param>, i: nat)
    requires ParamTypesOk(ps)
    requires i < |ps| && ps[i].SelfParam?
    ensures FormatParamsSpec(ps, None) == Err(SelfParamOutsideImpl("unknown"))
  {
    assert ps[..i + 1][..i] == ps[..i];
    SelfCountPrefix(ps, i + 1);
  }

  /** With at most one receiver, and that one inside an impl, the result is
      the parameters written out in order. */
  lemma ParamsJoined(ps: seq<Param>, target: Option<string>, parts: seq<string>)
    requires ParamTypesOk(ps)
    requires SelfCount(ps) <= 1 && (SelfCount(ps) == 1 ==> target.Some?)
    requires |parts| == |ps| && PartsWritten(ps, target, parts)
    ensures FormatParamsSpec(ps, target) == if |parts| == 0 then Ok("void") else Ok(Join(parts, ", "))
  {
    assert ParamTexts(ps, target) == parts;
  }

  /** `format_params`, as the source computes it: a counter of receivers seen
      so far and the list of rendered parameters. */
  method FormatParams(ps: seq<Param>, target: Option<string>) returns (r: Result<string, CodegenError>)
    requires ParamTypesOk(ps)
    ensures r == FormatParamsSpec(ps, target)
  {
    var parts: seq<string> := [];
    var selfCount := 0;
    var i := 0;
    while i < |ps|
      invariant 0 <= i <= |ps|
      invariant selfCount == SelfCount(ps[..i]) <= 1
      invariant selfCount == 1 ==> target.Some?
      invariant |parts| == i
      invariant PartsWritten(ps, target, parts)
    {
      SelfCountStep(ps, i);
      var text, count := FormatParam(ps[i], target, selfCount);
      if text.Err? {
        StepFails(ps, target, i, text, count);
        return text;
      }
      assert ps[i].SelfParam? ==> target.Some?;
      AppendPart(ps, target, parts, text.value, i);
      parts := parts + [text.value];
      selfCount := count;
      i := i + 1;
    }
    assert ps[..i] == ps;
    ParamsJoined(ps, target, parts);
    if |parts| == 0 {
      return Ok("void");
    }
    return Ok(Join(parts, ", "));
  }

  /** A parameter that `format_params` rejects decides the whole result. */
  lemma StepFails(ps: seq<Param>, target: Option<string>, i: nat, text: Result<string, CodegenError>, count: nat)
    requires ParamTypesOk(ps) && i < |ps|
    requires SelfCount(ps[..i]) <= 1 && (SelfCount(ps[..i]) == 1 ==> target.Some?)
    requires count == SelfCount(ps[..i]) + (if ps[i].SelfParam? then 1 else 0)
    requires text.Err? && ps[i].SelfParam? && (count > 1 || target.None?)
    requires text.error == if count > 1 then MultipleSelfParams("unknown") else SelfParamOutsideImpl("unknown")
    ensures text == FormatParamsSpec(ps, target)
  {
    if count > 1 {
      SecondSelfFails(ps, target, i);
    } else {
      SelfOutsideImplFails(ps, i);
    }
  }

  /** The first `|parts|` parameters, each written out. */
  predicate PartsWritten(ps: seq<Param>, target: Option<string>, parts: seq<string>)
    requires ParamTypesOk(ps) && |parts| <= |ps|
  {
    forall k :: 0 <= k < |parts| ==> (ps[k].SelfParam? ==> target.Some?) && parts[k] == ParamText(ps[k], target)
  }

  /** The parts written so far, followed by the next parameter's text. */
  lemma AppendPart(ps: seq<Param>, target: Option<string>, parts: seq<string>, text: string, i: nat)
    requires ParamTypesOk(ps) && i < |ps| && |parts| == i
    requires PartsWritten(ps, target, parts)
    requires (ps[i].SelfParam? ==> target.Some?) && text == ParamText(ps[i], target)
    ensures PartsWritten(ps, target, parts + [text])
  {
    forall k | 0 <= k < i + 1
      ensures (ps[k].SelfParam? ==> target.Some?) && (parts + [text])[k] == ParamText(ps[k], target)
    {
      if k < i {
        assert (parts + [text])[k] == parts[k];
      }
    }
  }

  /** One iteration of `format_params`: count a receiver, reject a second one
      or one outside an impl, and write the parameter out. */
  method FormatParam(p: Param, target: Option<string>, selfCount: nat) returns (r: Result<string, CodegenError>, count: nat)
    requires p.Typed? ==> IsBuiltinType(p.ty)
    ensures count == selfCount + (if p.SelfParam? then 1 else 0)
    ensures r.Err? <==> p.SelfParam? && (count > 1 || target.None?)
    ensures r.Err? ==> r.error == if count > 1 then MultipleSelfParams("unknown") else SelfParamOutsideImpl("unknown")
    ensures r.Ok? ==> r.value == ParamText(p, target)
  {
    count := selfCount;
    if p.SelfParam? {
      count := count + 1;
      if count > 1 {
        return Err(MultipleSelfParams("unknown")), count;
      }
      if target.None? {
        return Err(SelfParamOutsideImpl("unknown")), count;
      }
      return Ok(target.value + "* self"), count;
    }
    return Ok(TypeToC(p.ty) + " " + p.name), count;
  }

  /** The C name of a function: `Target_name` inside an impl. */
  function MangledName(name: string, target: Option<string>): (r: string)
    ensures target.None? ==> r == name
    ensures target.Some? ==> (|r| == |target.value| + 1 + |name|
                              && r[..|target.value|] == target.value && r[|target.value|] == '_'
                              && r[|target.value| + 1..] == name)
  {
    if target.Some? then target.value + "_" + name else name
  }

  /** Within one impl, distinct methods get distinct C names. */
  lemma MangledNameInjective(a: string, b: string, target: Option<string>)
    requires MangledName(a, target) == MangledName(b, target)
    ensures a == b
  {
    if target.Some? {
      var n := |target.value| + 1;
      assert a == MangledName(a, target)[n..];
      assert b == MangledName(b, target)[n..];
    }
  }

  /** What `function_signature` returns: the return type (`void` when none is
      given), the possibly mangled name and the parameter list. */
  function SignatureSpec(f: Function, target: Option<string>): (r: Result<string, CodegenError>)
    requires SignatureTypesOk(f)
    ensures r.Err? <==> FormatParamsSpec(f.params, target).Err?
    ensures r.Err? ==> r.error == FormatParamsSpec(f.params, target).error
    ensures r.Ok? ==>
      r.value == TypeToCOpt(f.returnType) + " " + MangledName(f.name, target)
        + "(" + FormatParamsSpec(f.params, target).value + ")"
  {
    var params :- FormatParamsSpec(f.params, target);
    Ok(TypeToCOpt(f.returnType) + " " + MangledName(f.name, target) + "(" + params + ")")
  }

  /** `function_signature`. */
  method FunctionSignature(f: Function, target: Option<string>) returns (r: Result<string, CodegenError>)
    requires SignatureTypesOk(f)
    ensures r == SignatureSpec(f, target)
  {
    var returnType := TypeToCOpt(f.returnType);
    var name := MangledName(f.name, target);
    var params := FormatParams(f.params, target);
    if params.Err? {
      return Err(params.error);
    }
    return Ok(returnType + " " + name + "(" + params.value + ")");
  }

  // ---------------------------------------------------------------------------
  // Functions

  /** The lines `emit_function` writes.  Signature errors come first, then
      an extern function with a body, then a non-extern function without
      one; an extern function is a prototype, any other a definition whose
      body sits one level in. */
  function FunctionEmission(f: Function, target: Option<string>): Emission
    requires FunctionOk(f)
  {
    match SignatureSpec(f, target)
    case Err(e) => Fail(e)
    case Ok(signature) =>
      if f.isExtern then
        if f.body.Some? then Fail(ExternFunctionWithBody(f.name))
        else Done(["extern " + signature + ";", ""])
      else if f.body.None? then Fail(MissingFunctionBody(f.name))
      else Then(Then(Done([signature + " {"]), BlockEmission(f.body.value, 1)), Done(["}", ""]))
  }

  /** When a function is rejected, and with which error: signature errors
      first, then the extern/body checks, before anything is written; the
      two body errors name the function and arise only from those checks. */
  lemma FunctionErrors(f: Function, target: Option<string>)
    requires FunctionOk(f)
    ensures SignatureSpec(f, target).Err? ==> FunctionEmission(f, target) == Fail(SignatureSpec(f, target).error)
    ensures SignatureSpec(f, target).Ok? && f.isExtern && f.body.Some? ==>
      FunctionEmission(f, target) == Fail(ExternFunctionWithBody(f.name))
    ensures SignatureSpec(f, target).Ok? && !f.isExtern && f.body.None? ==>
      FunctionEmission(f, target) == Fail(MissingFunctionBody(f.name))
    ensures FunctionEmission(f, target).outcome.Err? && FunctionEmission(f, target).outcome.error.ExternFunctionWithBody? ==>
      f.isExtern && f.body.Some?
    ensures FunctionEmission(f, target).outcome.Err? && FunctionEmission(f, target).outcome.error.MissingFunctionBody? ==>
      !f.isExtern && f.body.None?
  {
    if f.body.Some? && !f.isExtern {
      BlockFailsOnlyForType(f.body.value, 1);
    }
  }

  /** The shape of an emitted definition: the signature line with its brace,
      the body lines, all indented at least one level, then the closing
      brace and a blank line.  A prototype is `extern`, the signature and a
      semicolon, then a blank line. */
  lemma FunctionLines(f: Function, target: Option<string>)
    requires FunctionOk(f)
    requires FunctionEmission(f, target).outcome.Ok?
    ensures SignatureSpec(f, target).Ok?
    ensures f.isExtern ==> FunctionEmission(f, target).lines == ["extern " + SignatureSpec(f, target).value + ";", ""]
    ensures !f.isExtern ==>
      var lines := FunctionEmission(f, target).lines;
      && |lines| >= 3
      && lines[0] == SignatureSpec(f, target).value + " {"
      && Indented(lines[1..|lines| - 2], 1)
      && lines[|lines| - 2..] == ["}", ""]
  {
    if !f.isExtern {
      var signature := SignatureSpec(f, target).value;
      var body := BlockEmission(f.body.value, 1);
      BlockIndented(f.body.value, 1);
      var lines := FunctionEmission(f, target).lines;
      assert lines == [signature + " {"] + body.lines + ["}", ""];
      assert lines[1..|lines| - 2] == body.lines;
    }
  }

  /** `emit_function`. */
  method EmitFunction(buffer: CodeBuffer, f: Function, target: Option<string>) returns (r: Result<(), CodegenError>)
    requires FunctionOk(f)
    modifies buffer
    ensures buffer.lines == old(buffer.lines) + FunctionEmission(f, target).lines
    ensures r == FunctionEmission(f, target).outcome
  {
    ghost var before := buffer.lines;
    var signature := FunctionSignature(f, target);
    if signature.Err? {
      return Err(signature.error);
    }
    if f.isExtern {
      if f.body.Some? {
        return Err(ExternFunctionWithBody(f.name));
      }
      ghost var prototype := "extern " + signature.value + ";";
      assert FunctionEmission(f, target) == Done([prototype, ""]);
      buffer.PushLine("extern " + signature.value + ";");
      buffer.PushLine("");
      AppendAssoc(before, [prototype], [""]);
    } else {
      if f.body.None? {
        return Err(MissingFunctionBody(f.name));
      }
      ghost var opening := Done([signature.value + " {"]);
      ghost var body := BlockEmission(f.body.value, 1);
      ghost var withBody := Then(opening, body);
      ghost var closing := Done(["}", ""]);
      assert FunctionEmission(f, target) == Then(withBody, closing);
      buffer.PushLine(signature.value + " {");
      r := EmitBlock(buffer, f.body.value, 1);
      ThenAppends(before, opening, body);
      assert buffer.lines == before + withBody.lines && r == withBody.outcome;
      if r.Err? {
        return;
      }
      buffer.PushLine("}");
      buffer.PushLine("");
      AppendAssoc(before + withBody.lines, ["}"], [""]);
      ThenAppends(before, withBody, closing);
    }
    return Ok(());
  }

  // ---------------------------------------------------------------------------
  // Impl blocks

  /** One impl method: an extern method is rejected, any other is emitted as a
      function of the impl's target. */
  function MethodEmission(m: Function, target: string): Emission
    requires FunctionOk(m)
  {
    if m.isExtern then Fail(ExternImplMethod(target, m.name)) else FunctionEmission(m, Some(target))
  }

  function MethodSteps(ib: ImplBlock): (steps: seq<Emission>)
    requires ImplOk(ib)
    ensures |steps| == |ib.methods|
    ensures forall k :: 0 <= k < |steps| ==> steps[k] == MethodEmission(ib.methods[k], ib.target)
  {
    seq(|ib.methods|, k requires 0 <= k < |ib.methods| => MethodEmission(ib.methods[k], ib.target))
  }

  /** The lines `emit_impl` writes: the methods in order, up to the first
      error. */
  function ImplEmission(ib: ImplBlock): Emission
    requires ImplOk(ib)
  {
    Sequence(MethodSteps(ib))
  }

  /** The first extern method of an impl block is reported with the target
      and its name, once every method before it has been emitted, in order. */
  lemma ExternMethodStopsImpl(ib: ImplBlock, i: nat)
    requires ImplOk(ib)
    requires i < |ib.methods| && ib.methods[i].isExtern
    requires forall j :: 0 <= j < i ==> MethodEmission(ib.methods[j], ib.target).outcome.Ok?
    ensures ImplEmission(ib).outcome == Err(ExternImplMethod(ib.target, ib.methods[i].name))
    ensures ImplEmission(ib).lines == AllLines(MethodSteps(ib)[..i])
  {
    var steps := MethodSteps(ib);
    var before := steps[..i];
    SequenceSucceeds(before);
    SequenceSnoc(steps, i);
    FailureSticks(steps, i + 1, |steps|);
    assert steps[..|steps|] == steps;
  }

  /** One iteration of `emit_impl`'s loop: reject an extern method, emit any
      other as a function of the target. */
  method EmitMethod(buffer: CodeBuffer, m: Function, target: string) returns (r: Result<(), CodegenError>)
    requires FunctionOk(m)
    modifies buffer
    ensures buffer.lines == old(buffer.lines) + MethodEmission(m, target).lines
    ensures r == MethodEmission(m, target).outcome
  {
    if m.isExtern {
      return Err(ExternImplMethod(target, m.name));
    }
    r := EmitFunction(buffer, m, Some(target));
  }

  /** `emit_impl`. */
  method EmitImpl(buffer: CodeBuffer, ib: ImplBlock) returns (r: Result<(), CodegenError>)
    requires ImplOk(ib)
    modifies buffer
    ensures buffer.lines == old(buffer.lines) + ImplEmission(ib).lines
    ensures r == ImplEmission(ib).outcome
  {
    ghost var steps := MethodSteps(ib);
    ghost var start := buffer.lines;
    ghost var done := Done([]);
    var i := 0;
    while i < |ib.methods|
      invariant 0 <= i <= |ib.methods|
      invariant done == Sequence(steps[..i])
      invariant done.outcome.Ok?
      invariant buffer.lines == start + done.lines
    {
      SequenceSnoc(steps, i);
      ghost var step := steps[i];
      ghost var before := buffer.lines;
      var res := EmitMethod(buffer, ib.methods[i], ib.target);
      assert buffer.lines == before + step.lines && res == step.outcome;
      ThenAppends(start, done, step);
      done := Then(done, step);
      assert buffer.lines == start + done.lines;
      if res.Err? {
        FailureSticks(steps, i + 1, |steps|);
        assert steps[..|steps|] == steps;
        assert ImplEmission(ib) == done;
        return res;
      }
      i := i + 1;
    }
    assert steps[..i] == steps;
    assert ImplEmission(ib) == done;
    return Ok(());
  }
}
