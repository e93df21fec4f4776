/** The entry points of the AST builder (crates/amber_parser/src/lib.rs).
    The parsing engine runs the grammar over the source text; what the
    builder receives from it is either the engine's error message or the
    sequence of top-level pairs.  The first of those is the program node, and
    every statement child of it becomes one statement of the program, in
    order. */
module AstBuilder {
  import opened Outcomes
  import opened ParseTree
  import StmtParser
  import DeclParser
  import Ast

  /** What `build_ast` ends in: a program, the engine's syntax error (the
      `Err` it returns), or a panic of one of the builders. */
  datatype BuildOutcome = Built(program: Ast.Program) | SyntaxError(message: string) | Panicked

  /** `parse_statement`: a statement node holds one node of one of nine
      kinds, built by that kind's builder; a statement node without a child
      or with a child of any other kind panics. */
  function ParseStatement(p: Pair): (r: Result<Ast.Statement, Panic>)
    ensures r.Ok? ==> |p.children| > 0
    ensures r.Ok? ==> (r.value.Struct? <==> p.children[0].rule == StructDef)
    ensures r.Ok? ==> (r.value.FunctionDef? <==> p.children[0].rule == FunctionDef)
    ensures r.Ok? ==> (r.value.Impl? <==> p.children[0].rule == ImplBlock)
  {
    if |p.children| == 0 then Err(Panic)
    else
      var inner := p.children[0];
      match inner.rule
      case Declaration => StmtParser.DeclarationSpec(inner)
      case ExprStmt => StmtParser.ParseExprStmt(inner)
      case Assignment => StmtParser.ParseAssignment(inner)
      case ReturnStmt => StmtParser.ParseReturn(inner)
      case IfStmt => StmtParser.ParseIfStmt(inner)
      case WhileStmt => StmtParser.ParseWhileStmt(inner)
      case StructDef =>
        var def :- DeclParser.StructSpec(inner);
        Ok(Ast.Struct(def))
      case FunctionDef =>
        var f :- DeclParser.FunctionSpec(inner);
        Ok(Ast.FunctionDef(f))
      case ImplBlock =>
        var ib :- DeclParser.ParseImpl(inner);
        Ok(Ast.Impl(ib))
      case _ => Err(Panic)
  }

  /** At top level, the six kinds a block may hold are built exactly as in a
      block; the three definitions are the only other kinds accepted. */
  lemma TopLevelAgreesWithBlock(p: Pair)
    requires |p.children| > 0
    ensures var rule := p.children[0].rule;
            rule != StructDef && rule != FunctionDef && rule != ImplBlock ==>
              ParseStatement(p) == StmtParser.ParseBlockStatement(p.children[0])
  {
  }

  /** Every statement child of a program node builds. */
  predicate StatementsBuild(cs: seq<Pair>)
  {
    forall k :: 0 <= k < |cs| && cs[k].rule == StatementRule ==> ParseStatement(cs[k]).Ok?
  }

  /** The statements of a program node: its statement children, each built
      in order; any other child is skipped. */
  function ProgramOf(root: Pair): (r: Result<Ast.Program, Panic>)
    ensures r.Ok? <==> StatementsBuild(root.children)
    ensures var stmts := Filter(root.children, StatementRule);
            r.Ok? ==> |r.value.statements| == |stmts|
                      && forall k :: 0 <= k < |stmts| ==> ParseStatement(stmts[k]) == Ok(r.value.statements[k])
  {
    var cs := Filter(root.children, StatementRule);
    var stmts := MapParse(cs, ParseStatement);
    FilterMembers(root.children, StatementRule);
    if stmts.Err? then
      var k :| 0 <= k < |cs| && !ParseStatement(cs[k]).Ok?;
      assert cs[k] in root.children;
      Err(Panic)
    else
      assert StatementsBuild(root.children) by {
        forall j | 0 <= j < |root.children| && root.children[j].rule == StatementRule
          ensures ParseStatement(root.children[j]).Ok?
        {
          assert root.children[j] in cs;
        }
      }
      Ok(Ast.Program(stmts.value))
  }

  /** `build_ast`, stated as a function of the engine's result: its error
      message is passed on, no top-level pair panics, and otherwise the
      program is built from the first pair. */
  function BuildSpec(parsed: Result<seq<Pair>, string>): (r: BuildOutcome)
    ensures parsed.Err? <==> r.SyntaxError?
    ensures r.SyntaxError? ==> r.message == parsed.error
    ensures parsed.Ok? && |parsed.value| == 0 ==> r.Panicked?
  {
    match parsed
    case Err(message) => SyntaxError(message)
    case Ok(pairs) =>
      if |pairs| == 0 then Panicked
      else
        match ProgramOf(pairs[0]) {
          case Ok(program) => Built(program)
          case Err(_) => Panicked
        }
  }

  /** `build_ast`: one pass over the children of the program node, keeping
      the statement children. */
  method BuildAst(parsed: Result<seq<Pair>, string>) returns (r: BuildOutcome)
    ensures r == BuildSpec(parsed)
  {
    if parsed.Err? {
      return SyntaxError(parsed.error);
    }
    if |parsed.value| == 0 {
      return Panicked;
    }
    var root := parsed.value[0];
    var cs := root.children;
    var statements: seq<Ast.Statement> := [];
    var i := 0;
    assert cs[..0] == [];
    while i < |cs|
      invariant 0 <= i <= |cs|
      invariant MapParse(Filter(cs[..i], StatementRule), ParseStatement) == Ok(statements)
    {
      var pair := cs[i];
      assert cs[..i + 1] == cs[..i] + [pair];
      FilterSnoc(cs[..i], pair, StatementRule);
      MapParseSnoc(Filter(cs[..i], StatementRule), pair, ParseStatement);
      if pair.rule == StatementRule {
        var s := ParseStatement(pair);
        if s.Err? {
          assert !StatementsBuild(cs);
          return Panicked;
        }
        statements := statements + [s.value];
      }
      i := i + 1;
    }
    assert cs[..i] == cs;
    return Built(Ast.Program(statements));
  }

  /** `build_ast_with_name`: the name is not used. */
  method BuildAstWithName(parsed: Result<seq<Pair>, string>, name: string) returns (r: BuildOutcome)
    ensures r == BuildSpec(parsed)
  {
    r := BuildAst(parsed);
  }
}
