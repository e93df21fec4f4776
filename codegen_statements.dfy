/** Statement emission inside blocks, and the line renderers shared with the
    top level (crates/amber_codegen/src/statements.rs:37-148). */
module Statements {
  import opened Outcomes
  import opened Emissions
  import opened Text
  import opened Types
  import opened Ast
  import opened CTypes
  import opened Render
  import opened CodegenErrors
  import opened Buffer

  // ---------------------------------------------------------------------------
  // What the generator accepts

  /** A declared binding type must be one `type_to_c` has an arm for. */
  predicate BindingTypeOk(lb: LetBinding)
  {
    lb.ty.Some? ==> IsBuiltinType(lb.ty.value)
  }

  /** The statements `emit_block_statement` handles; a struct, function or
      impl inside a block makes it panic. */
  predicate BlockStatementOk(s: Statement)
    decreases s
  {
    match s
    case Binding(lb) => BindingTypeOk(lb)
    case ExprStatement(_) => true
    case Assignment(_, _) => true
    case Return(_) => true
    case IfElse(_, thenBlock, elseBlock) =>
      BlockOk(thenBlock) && (elseBlock.Some? ==> BlockOk(elseBlock.value))
    case WhileLoop(_, body) => BlockOk(body)
    case Struct(_) => false
    case FunctionDef(_) => false
    case Impl(_) => false
  }

  predicate BlockOk(b: Block)
    decreases b
  {
    forall k :: 0 <= k < |b.statements| ==> BlockStatementOk(b.statements[k])
  }

  // ---------------------------------------------------------------------------
  // Line renderers

  /** `render_let_binding_line`: `[const ]T name[ = value];`, or `MissingType`
      when no type is declared. */
  function RenderLetBindingLine(lb: LetBinding): (r: Result<string, CodegenError>)
    requires BindingTypeOk(lb)
    ensures r.Err? <==> lb.ty.None?
    ensures r.Err? ==> r.error == MissingType(lb.name)
    ensures r.Ok? ==> EndsWithChar(r.value, ';')
    ensures r.Ok? ==> StartsWith(r.value, BindingQualifier(lb.modifier, lb.isMutable) + TypeToC(lb.ty.value) + " " + lb.name)
    ensures r.Ok? && lb.value.Some? ==> EndsWith(r.value, " = " + RenderExpr(lb.value.value) + ";")
    ensures r.Ok? && lb.value.Some? ==>
              |r.value| == |BindingQualifier(lb.modifier, lb.isMutable) + TypeToC(lb.ty.value) + " " + lb.name|
                           + |" = " + RenderExpr(lb.value.value) + ";"|
    ensures r.Ok? && lb.value.None? ==> r.value == BindingQualifier(lb.modifier, lb.isMutable) + TypeToC(lb.ty.value) + " " + lb.name + ";"
  {
    if lb.ty.None? then Err(MissingType(lb.name))
    else
      var decl := BindingQualifier(lb.modifier, lb.isMutable) + TypeToC(lb.ty.value) + " " + lb.name;
      var init := if lb.value.Some? then " = " + RenderExpr(lb.value.value) else "";
      Ok(decl + init + ";")
  }

  predicate EndsWith(s: string, suffix: string)
  {
    |suffix| <= |s| && s[|s| - |suffix|..] == suffix
  }

  /** `render_expr_statement_line`: the expression followed by `;`. */
  function ExprStatementLine(e: Expression): (r: string)
    ensures |r| >= 1 && r[|r| - 1] == ';' && r[..|r| - 1] == RenderExpr(e)
  {
    RenderExpr(e) + ";"
  }

  /** An expression statement ends in its only terminator: what precedes the
      `;` is balanced, and a compound expression is one parenthesised group,
      so the `;` closes the whole expression. */
  lemma ExprStatementGroups(e: Expression)
    requires ParenFreeLeaves(e)
    ensures var r := ExprStatementLine(e);
            r[|r| - 1] == ';' && Balanced(r[..|r| - 1])
            && (!e.Lit? && !e.Identifier? ==> Group(r[..|r| - 1]))
  {
    RenderGroups(e);
  }

  // ---------------------------------------------------------------------------
  // Block emission, specified

  /** The lines `emit_block_statement` writes at indentation `indent`. */
  function BlockStatementEmission(s: Statement, indent: nat): Emission
    requires BlockStatementOk(s)
    decreases s, 0
  {
    match s
    case Binding(lb) =>
      (match RenderLetBindingLine(lb)
       case Err(e) => Fail(e)
       case Ok(line) => Done([Indentation(indent) + line]))
    case ExprStatement(e) => Done([Indentation(indent) + ExprStatementLine(e)])
    case Assignment(target, value) => Done([Indentation(indent) + (target + " = " + RenderExpr(value) + ";")])
    case Return(result) =>
      if result.Some? then Done([Indentation(indent) + ("return " + RenderExpr(result.value) + ";")])
      else Done([Indentation(indent) + "return;"])
    case IfElse(condition, thenBlock, elseBlock) =>
      var opening := Done([Indentation(indent) + ("if (" + RenderExpr(condition) + ") {")]);
      var withThen := Then(opening, BlockEmission(thenBlock, indent + 1));
      var withElse :=
        if elseBlock.Some? then
          Then(Then(withThen, Done([Indentation(indent) + "} else {"])), BlockEmission(elseBlock.value, indent + 1))
        else withThen;
      Then(withElse, Done([Indentation(indent) + "}"]))
    case WhileLoop(condition, body) =>
      var opening := Done([Indentation(indent) + ("while (" + RenderExpr(condition) + ") {")]);
      Then(Then(opening, BlockEmission(body, indent + 1)), Done([Indentation(indent) + "}"]))
  }

  /** One step per statement, at indentation `indent`. */
  function StatementSteps(ss: seq<Statement>, indent: nat): (steps: seq<Emission>)
    requires forall k :: 0 <= k < |ss| ==> BlockStatementOk(ss[k])
    ensures |steps| == |ss|
    ensures forall k :: 0 <= k < |ss| ==> steps[k] == BlockStatementEmission(ss[k], indent)
    decreases ss, 0
  {
    seq(|ss|, k requires 0 <= k < |ss| => BlockStatementEmission(ss[k], indent))
  }

  /** The lines `emit_block` writes for the statements `ss`: each statement
      in order, stopping at the first error. */
  function StatementsEmission(ss: seq<Statement>, indent: nat): Emission
    requires forall k :: 0 <= k < |ss| ==> BlockStatementOk(ss[k])
    decreases ss, 1
  {
    Sequence(StatementSteps(ss, indent))
  }

  function BlockEmission(b: Block, indent: nat): Emission
    requires BlockOk(b)
    decreases b, 0
  {
    StatementsEmission(b.statements, indent)
  }

  // ---------------------------------------------------------------------------
  // Properties of the specification

  /** Every line a block statement writes at indentation `indent` starts with
      that indentation: nested blocks are indented further, never less. */
  lemma {:induction false} StatementIndented(s: Statement, indent: nat)
    requires BlockStatementOk(s)
    ensures Indented(BlockStatementEmission(s, indent).lines, indent)
    decreases s
  {
    match s
    case Binding(lb) =>
      if RenderLetBindingLine(lb).Ok? {
        IndentedLine(RenderLetBindingLine(lb).value, indent);
      }
    case ExprStatement(e) =>
      IndentedLine(ExprStatementLine(e), indent);
    case Assignment(target, value) =>
      IndentedLine(target + " = " + RenderExpr(value) + ";", indent);
    case Return(result) =>
      if result.Some? {
        IndentedLine("return " + RenderExpr(result.value) + ";", indent);
      } else {
        IndentedLine("return;", indent);
      }
    case IfElse(condition, thenBlock, elseBlock) =>
      var opening := Done([Indentation(indent) + ("if (" + RenderExpr(condition) + ") {")]);
      IndentedLine("if (" + RenderExpr(condition) + ") {", indent);
      BlockIndented(thenBlock, indent + 1);
      IndentedDeeper(BlockEmission(thenBlock, indent + 1).lines, indent);
      var withThen := Then(opening, BlockEmission(thenBlock, indent + 1));
      IndentedThen(opening, BlockEmission(thenBlock, indent + 1), indent);
      var withElse := withThen;
      if elseBlock.Some? {
        IndentedLine("} else {", indent);
        BlockIndented(elseBlock.value, indent + 1);
        IndentedDeeper(BlockEmission(elseBlock.value, indent + 1).lines, indent);
        IndentedThen(withThen, Done([Indentation(indent) + "} else {"]), indent);
        withElse := Then(Then(withThen, Done([Indentation(indent) + "} else {"])), BlockEmission(elseBlock.value, indent + 1));
        IndentedThen(Then(withThen, Done([Indentation(indent) + "} else {"])), BlockEmission(elseBlock.value, indent + 1), indent);
      }
      IndentedLine("}", indent);
      IndentedThen(withElse, Done([Indentation(indent) + "}"]), indent);
    case WhileLoop(condition, body) =>
      var opening := Done([Indentation(indent) + ("while (" + RenderExpr(condition) + ") {")]);
      IndentedLine("while (" + RenderExpr(condition) + ") {", indent);
      BlockIndented(body, indent + 1);
      IndentedDeeper(BlockEmission(body, indent + 1).lines, indent);
      IndentedThen(opening, BlockEmission(body, indent + 1), indent);
      IndentedLine("}", indent);
      IndentedThen(Then(opening, BlockEmission(body, indent + 1)), Done([Indentation(indent) + "}"]), indent);
  }

  lemma BlockIndented(b: Block, indent: nat)
    requires BlockOk(b)
    ensures Indented(BlockEmission(b, indent).lines, indent)
    decreases b
  {
    StatementsIndented(b.statements, indent);
  }

  lemma StatementsIndented(ss: seq<Statement>, indent: nat)
    requires forall k :: 0 <= k < |ss| ==> BlockStatementOk(ss[k])
    ensures Indented(StatementsEmission(ss, indent).lines, indent)
    decreases ss
  {
    var steps := StatementSteps(ss, indent);
    forall k | 0 <= k < |steps|
      ensures Indented(steps[k].lines, indent)
    {
      StatementIndented(ss[k], indent);
    }
    IndentedSequence(steps, indent);
  }

  /** The step fails, if at all, because a binding has no type. */
  predicate FailsOnlyForType(e: Emission)
  {
    e.outcome.Err? ==> e.outcome.error.MissingType?
  }

  /** Inside a block the only error is a binding without a type: every other
      statement kind is written unconditionally. */
  lemma {:induction false} StatementFailsOnlyForType(s: Statement, indent: nat)
    requires BlockStatementOk(s)
    ensures FailsOnlyForType(BlockStatementEmission(s, indent))
    decreases s
  {
    match s
    case IfElse(_, thenBlock, elseBlock) =>
      BlockFailsOnlyForType(thenBlock, indent + 1);
      if elseBlock.Some? {
        BlockFailsOnlyForType(elseBlock.value, indent + 1);
      }
    case WhileLoop(_, body) =>
      BlockFailsOnlyForType(body, indent + 1);
    case _ =>
  }

  lemma BlockFailsOnlyForType(b: Block, indent: nat)
    requires BlockOk(b)
    ensures FailsOnlyForType(BlockEmission(b, indent))
    decreases b
  {
    StatementsFailOnlyForType(b.statements, indent);
  }

  lemma StatementsFailOnlyForType(ss: seq<Statement>, indent: nat)
    requires forall k :: 0 <= k < |ss| ==> BlockStatementOk(ss[k])
    ensures FailsOnlyForType(StatementsEmission(ss, indent))
    decreases ss
  {
    var steps := StatementSteps(ss, indent);
    if Sequence(steps).outcome.Err? {
      FirstFailureDecides(steps);
      var i :| FirstFailureAt(steps, i, Sequence(steps).outcome);
      StatementFailsOnlyForType(ss[i], indent);
    }
  }

  // ---------------------------------------------------------------------------
  // Block emission, as the source does it

  /** `emit_block`: emits the statements in order and returns the first
      error. */
  method EmitBlock(buffer: CodeBuffer, b: Block, indent: nat) returns (r: Result<(), CodegenError>)
    requires BlockOk(b)
    modifies buffer
    ensures buffer.lines == old(buffer.lines) + BlockEmission(b, indent).lines
    ensures r == BlockEmission(b, indent).outcome
    decreases b
  {
    var ss := b.statements;
    ghost var steps := StatementSteps(ss, indent);
    ghost var start := buffer.lines;
    ghost var done := Done([]);
    var i := 0;
    while i < |ss|
      invariant 0 <= i <= |ss|
      invariant done == Sequence(steps[..i])
      invariant done.outcome.Ok?
      invariant buffer.lines == start + done.lines
    {
      SequenceSnoc(steps, i);
      ghost var step := steps[i];
      assert step == BlockStatementEmission(ss[i], indent);
      ghost var before := buffer.lines;
      var res := EmitBlockStatement(buffer, ss[i], indent);
      assert buffer.lines == before + step.lines && res == step.outcome;
      ThenAppends(start, done, step);
      done := Then(done, step);
      if res.Err? {
        StopsAt(steps, i);
        return res;
      }
      i := i + 1;
    }
    assert steps[..i] == steps;
    assert BlockEmission(b, indent) == done;
    return Ok(());
  }

  /** `emit_block_statement`. */
  method EmitBlockStatement(buffer: CodeBuffer, s: Statement, indent: nat) returns (r: Result<(), CodegenError>)
    requires BlockStatementOk(s)
    modifies buffer
    ensures buffer.lines == old(buffer.lines) + BlockStatementEmission(s, indent).lines
    ensures r == BlockStatementEmission(s, indent).outcome
    decreases s, 1
  {
    match s
    case Binding(lb) =>
      var line := RenderLetBindingLine(lb);
      if line.Err? {
        return Err(line.error);
      }
      buffer.PushIndentedLine(indent, line.value);
      return Ok(());
    case ExprStatement(e) =>
      buffer.PushIndentedLine(indent, ExprStatementLine(e));
      return Ok(());
    case Assignment(target, value) =>
      buffer.PushIndentedLine(indent, target + " = " + RenderExpr(value) + ";");
      return Ok(());
    case Return(result) =>
      if result.Some? {
        buffer.PushIndentedLine(indent, "return " + RenderExpr(result.value) + ";");
      } else {
        buffer.PushIndentedLine(indent, "return;");
      }
      return Ok(());
    case IfElse(_, _, _) =>
      r := EmitIfElse(buffer, s, indent);
    case WhileLoop(_, _) =>
      r := EmitWhile(buffer, s, indent);
  }

  /** The `if` arm of `emit_block_statement`. */
  method EmitIfElse(buffer: CodeBuffer, s: Statement, indent: nat) returns (r: Result<(), CodegenError>)
    requires s.IfElse? && BlockStatementOk(s)
    modifies buffer
    ensures buffer.lines == old(buffer.lines) + BlockStatementEmission(s, indent).lines
    ensures r == BlockStatementEmission(s, indent).outcome
    decreases s, 0
  {
    ghost var before := buffer.lines;
    ghost var opening := Done([Indentation(indent) + ("if (" + RenderExpr(s.condition) + ") {")]);
    ghost var thenPart := BlockEmission(s.thenBlock, indent + 1);
    ghost var withThen := Then(opening, thenPart);
    ghost var elseLine := Done([Indentation(indent) + "} else {"]);
    ghost var withElse :=
      if s.elseBlock.Some? then Then(Then(withThen, elseLine), BlockEmission(s.elseBlock.value, indent + 1))
      else withThen;
    ghost var closing := Done([Indentation(indent) + "}"]);
    assert Then(withElse, closing) == BlockStatementEmission(s, indent);

    buffer.PushIndentedLine(indent, "if (" + RenderExpr(s.condition) + ") {");
    r := EmitBlock(buffer, s.thenBlock, indent + 1);
    ThenAppends(before, opening, thenPart);
    assert buffer.lines == before + withThen.lines && r == withThen.outcome;
    if r.Err? {
      return;
    }
    if s.elseBlock.Some? {
      ghost var elsePart := BlockEmission(s.elseBlock.value, indent + 1);
      buffer.PushIndentedLine(indent, "} else {");
      ThenAppends(before, withThen, elseLine);
      r := EmitBlock(buffer, s.elseBlock.value, indent + 1);
      ThenAppends(before, Then(withThen, elseLine), elsePart);
      assert buffer.lines == before + withElse.lines && r == withElse.outcome;
      if r.Err? {
        return;
      }
    }
    buffer.PushIndentedLine(indent, "}");
    ThenAppends(before, withElse, closing);
    return Ok(());
  }

  /** The `while` arm of `emit_block_statement`. */
  method EmitWhile(buffer: CodeBuffer, s: Statement, indent: nat) returns (r: Result<(), CodegenError>)
    requires s.WhileLoop? && BlockStatementOk(s)
    modifies buffer
    ensures buffer.lines == old(buffer.lines) + BlockStatementEmission(s, indent).lines
    ensures r == BlockStatementEmission(s, indent).outcome
    decreases s, 0
  {
    ghost var before := buffer.lines;
    ghost var opening := Done([Indentation(indent) + ("while (" + RenderExpr(s.loopCondition) + ") {")]);
    ghost var body := BlockEmission(s.body, indent + 1);
    ghost var closing := Done([Indentation(indent) + "}"]);
    assert Then(Then(opening, body), closing) == BlockStatementEmission(s, indent);
    buffer.PushIndentedLine(indent, "while (" + RenderExpr(s.loopCondition) + ") {");
    r := EmitBlock(buffer, s.body, indent + 1);
    ThenAppends(before, opening, body);
    if r.Err? {
      return;
    }
    buffer.PushIndentedLine(indent, "}");
    ThenAppends(before, Then(opening, body), closing);
    return Ok(());
  }
}
