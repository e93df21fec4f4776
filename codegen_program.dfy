/** Top-level emission and the generator's entry point
    (crates/amber_codegen/src/statements.rs:7-83 and
    crates/amber_codegen/src/lib.rs:14-18). */
module Generator {
  import opened Outcomes
  import opened Text
  import opened Types
  import opened Literals
  import opened Ast
  import opened CodegenErrors
  import opened Buffer
  import opened Emissions
  import opened Statements
  import opened Declarations

  // ---------------------------------------------------------------------------
  // What the generator accepts

  /** The statements `emit_statement` handles; an `if`, `while`, assignment or
      `return` at top level makes it panic. */
  predicate TopLevelOk(s: Statement)
  {
    match s
    case Binding(lb) => BindingTypeOk(lb)
    case ExprStatement(_) => true
    case Struct(def) => StructOk(def)
    case FunctionDef(f) => FunctionOk(f)
    case Impl(ib) => ImplOk(ib)
    case Assignment(_, _) => false
    case Return(_) => false
    case IfElse(_, _, _) => false
    case WhileLoop(_, _) => false
  }

  predicate ProgramOk(p: Program)
  {
    forall k :: 0 <= k < |p.statements| ==> TopLevelOk(p.statements[k])
  }

  // ---------------------------------------------------------------------------
  // Specification

  /** The lines `emit_statement` writes for a top-level statement: a binding
      or expression statement is its line and a blank line, the others as
      their declaration emitters write them (a free function has no impl
      target). */
  function TopLevelEmission(s: Statement): Emission
    requires TopLevelOk(s)
  {
    match s
    case Binding(lb) =>
      (match RenderLetBindingLine(lb)
       case Err(e) => Fail(e)
       case Ok(line) => Done([line, ""]))
    case ExprStatement(e) => Done([ExprStatementLine(e), ""])
    case Struct(def) => Done(StructLines(def))
    case FunctionDef(f) => FunctionEmission(f, None)
    case Impl(ib) => ImplEmission(ib)
  }

  function ProgramSteps(p: Program): (steps: seq<Emission>)
    requires ProgramOk(p)
    ensures |steps| == |p.statements|
    ensures forall k :: 0 <= k < |steps| ==> steps[k] == TopLevelEmission(p.statements[k])
  {
    seq(|p.statements|, k requires 0 <= k < |p.statements| => TopLevelEmission(p.statements[k]))
  }

  /** What `emit_program` writes: the statements in order, up to the first
      error. */
  function ProgramEmission(p: Program): Emission
    requires ProgramOk(p)
  {
    Sequence(ProgramSteps(p))
  }

  /** What `generate_program` returns: the first error, or the framed text
      of everything emitted. */
  function Generate(p: Program): Result<string, CodegenError>
    requires ProgramOk(p)
  {
    var emission := ProgramEmission(p);
    if emission.outcome.Err? then Err(emission.outcome.error) else Ok(FinishText(emission.lines))
  }

  // ---------------------------------------------------------------------------
  // Properties

  /** A program is rejected exactly when one of its statements is, and then
      with the error of the first rejected statement; otherwise the text is
      the header and the lines of every statement, in order. */
  lemma GenerateOutcome(p: Program)
    requires ProgramOk(p)
    ensures Generate(p).Err? <==> exists k :: 0 <= k < |p.statements| && TopLevelEmission(p.statements[k]).outcome.Err?
    ensures Generate(p).Err? ==> exists k :: FirstFailureAt(ProgramSteps(p), k, Err(Generate(p).error))
    ensures Generate(p).Ok? ==> Generate(p).value == FinishText(AllLines(ProgramSteps(p)))
  {
    var steps := ProgramSteps(p);
    SequenceSucceeds(steps);
    if Sequence(steps).outcome.Err? {
      FirstFailureDecides(steps);
    }
  }

  /** The last line is blank, or there are no lines. */
  predicate EndsBlank(lines: seq<string>)
  {
    lines == [] || lines[|lines| - 1] == ""
  }

  lemma {:induction false} AllLinesEndBlank(steps: seq<Emission>)
    requires forall k :: 0 <= k < |steps| ==> EndsBlank(steps[k].lines)
    ensures EndsBlank(AllLines(steps))
  {
    if |steps| > 0 {
      var init := steps[..|steps| - 1];
      assert forall k :: 0 <= k < |init| ==> init[k] == steps[k];
      AllLinesEndBlank(init);
    }
  }

  lemma FunctionEndsBlank(f: Function, target: Option<string>)
    requires FunctionOk(f)
    requires FunctionEmission(f, target).outcome.Ok?
    ensures |FunctionEmission(f, target).lines| >= 2 && EndsBlank(FunctionEmission(f, target).lines)
  {
    FunctionLines(f, target);
    if !f.isExtern {
      var lines := FunctionEmission(f, target).lines;
      assert lines[|lines| - 1] == lines[|lines| - 2..][1];
    }
  }

  /** Every emitted top-level item is followed by a blank line; only an impl
      block without methods writes nothing at all. */
  lemma TopLevelEndsBlank(s: Statement)
    requires TopLevelOk(s)
    requires TopLevelEmission(s).outcome.Ok?
    ensures EndsBlank(TopLevelEmission(s).lines)
    ensures !s.Impl? ==> |TopLevelEmission(s).lines| >= 2
  {
    match s
    case FunctionDef(f) =>
      FunctionEndsBlank(f, None);
    case Impl(ib) =>
      var steps := MethodSteps(ib);
      SequenceSucceeds(steps);
      forall k | 0 <= k < |steps|
        ensures EndsBlank(steps[k].lines)
      {
        FunctionEndsBlank(ib.methods[k], Some(ib.target));
      }
      AllLinesEndBlank(steps);
    case _ =>
  }

  // ---------------------------------------------------------------------------
  // Emission, as the source does it

  /** `emit_let_binding`. */
  method EmitLetBinding(buffer: CodeBuffer, lb: LetBinding) returns (r: Result<(), CodegenError>)
    requires BindingTypeOk(lb)
    modifies buffer
    ensures buffer.lines == old(buffer.lines) + TopLevelEmission(Binding(lb)).lines
    ensures r == TopLevelEmission(Binding(lb)).outcome
  {
    var line := RenderLetBindingLine(lb);
    if line.Err? {
      return Err(line.error);
    }
    buffer.PushLine(line.value);
    buffer.PushLine("");
    return Ok(());
  }

  /** `emit_expr_statement`. */
  method EmitExprStatement(buffer: CodeBuffer, e: Expression) returns (r: Result<(), CodegenError>)
    modifies buffer
    ensures buffer.lines == old(buffer.lines) + TopLevelEmission(ExprStatement(e)).lines
    ensures r == Ok(())
  {
    var line := ExprStatementLine(e);
    buffer.PushLine(line);
    buffer.PushLine("");
    return Ok(());
  }

  /** `emit_statement`. */
  method EmitStatement(buffer: CodeBuffer, s: Statement) returns (r: Result<(), CodegenError>)
    requires TopLevelOk(s)
    modifies buffer
    ensures buffer.lines == old(buffer.lines) + TopLevelEmission(s).lines
    ensures r == TopLevelEmission(s).outcome
  {
    match s
    case Binding(lb) => r := EmitLetBinding(buffer, lb);
    case ExprStatement(e) => r := EmitExprStatement(buffer, e);
    case Struct(def) => r := EmitStruct(buffer, def);
    case FunctionDef(f) => r := EmitFunction(buffer, f, None);
    case Impl(ib) => r := EmitImpl(buffer, ib);
  }

  /** The body of `emit_program`'s loop: the `i`th statement. */
  method EmitStep(buffer: CodeBuffer, p: Program, i: nat) returns (r: Result<(), CodegenError>)
    requires ProgramOk(p) && i < |p.statements|
    modifies buffer
    ensures buffer.lines == old(buffer.lines) + ProgramSteps(p)[i].lines
    ensures r == ProgramSteps(p)[i].outcome
  {
    r := EmitStatement(buffer, p.statements[i]);
  }

  /** `emit_program`: the statements in order, stopping at the first error. */
  method EmitProgram(buffer: CodeBuffer, p: Program) returns (r: Result<(), CodegenError>)
    requires ProgramOk(p)
    modifies buffer
    ensures buffer.lines == old(buffer.lines) + ProgramEmission(p).lines
    ensures r == ProgramEmission(p).outcome
  {
    var ss := p.statements;
    ghost var steps := ProgramSteps(p);
    ghost var start := buffer.lines;
    ghost var done := Done([]);
    var i := 0;
    while i < |ss|
      invariant 0 <= i <= |ss|
      invariant done == Sequence(steps[..i])
      invariant done.outcome.Ok?
      invariant buffer.lines == start + done.lines
    {
      SequenceSnoc(steps, i);
      ghost var step := steps[i];
      var res := EmitStep(buffer, p, i);
      ThenAppends(start, done, step);
      done := Then(done, step);
      if res.Err? {
        StopsAt(steps, i);
        return res;
      }
      i := i + 1;
    }
    assert steps[..i] == steps;
    assert ProgramEmission(p) == done;
    return Ok(());
  }

  /** `generate_program`: a fresh buffer, the program, then the framed text. */
  method GenerateProgram(p: Program) returns (r: Result<string, CodegenError>)
    requires ProgramOk(p)
    ensures r == Generate(p)
  {
    var buffer := new CodeBuffer();
    var res := EmitProgram(buffer, p);
    if res.Err? {
      return Err(res.error);
    }
    assert [] + ProgramEmission(p).lines == ProgramEmission(p).lines;
    var text := buffer.Finish();
    return Ok(text);
  }
}
