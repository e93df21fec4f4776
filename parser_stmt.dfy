/** Building statements from the parse tree
    (crates/amber_parser/src/stmt_parser.rs).  Blocks, `if` and `while`
    statements nest, so their builders are one recursive family; a
    declaration is built by a loop over its children in which the last child
    of each kind wins. */
module StmtParser {
  import opened Outcomes
  import opened ParseTree
  import ExprParser
  import TypeParser
  import Ast
  import Types

  // ---------------------------------------------------------------------------
  // Declarations

  /** The storage modifier a modifier child spells, if it is one of the
      two. */
  function ModifierOf(text: string): (m: Option<Ast.Modifier>)
    ensures m.Some? <==> text == "comptime" || text == "runtime"
  {
    if text == "comptime" then Some(Ast.Comptime)
    else if text == "runtime" then Some(Ast.Runtime)
    else None
  }

  /** The keyword of a storage modifier. */
  function ModifierText(m: Ast.Modifier): string
  {
    match m
    case Comptime => "comptime"
    case Runtime => "runtime"
  }

  /** The two modifiers and their keywords correspond one to one. */
  lemma ModifierRoundTrip(m: Ast.Modifier, text: string)
    ensures ModifierOf(ModifierText(m)) == Some(m)
    ensures ModifierOf(text) == Some(m) <==> text == ModifierText(m)
  {
  }

  /** A child of a declaration that is built must build: a type child must
      be a type and an expression child an expression. */
  predicate PartBuilds(q: Pair)
  {
    && (q.rule == TypeDef ==> TypeParser.ParseType(q).Ok?)
    && (q.rule == Expr ==> ExprParser.ParseExpr(q).Ok?)
  }

  predicate PartsBuild(ps: seq<Pair>)
  {
    forall k :: 0 <= k < |ps| ==> PartBuilds(ps[k])
  }

  /** The modifier of the last modifier child, if any. */
  function ModifierPart(ps: seq<Pair>): Option<Ast.Modifier>
  {
    match LastWith(ps, Modifier)
    case None => None
    case Some(k) => ModifierOf(ps[k].text)
  }

  /** Whether the last keyword child is `var`. */
  function MutablePart(ps: seq<Pair>): bool
  {
    match LastWith(ps, Keyword)
    case None => false
    case Some(k) => ps[k].text == "var"
  }

  /** The text of the last identifier child, or the empty name. */
  function NamePart(ps: seq<Pair>): string
  {
    match LastWith(ps, Ident)
    case None => ""
    case Some(k) => ps[k].text
  }

  /** The type of the last type child, if any. */
  function TypePart(ps: seq<Pair>): Option<Types.Type>
    requires PartsBuild(ps)
  {
    match LastWith(ps, TypeDef)
    case None => None
    case Some(k) => assert PartBuilds(ps[k]); Some(TypeParser.ParseType(ps[k]).value)
  }

  /** The value of the last expression child, if any. */
  function ValuePart(ps: seq<Pair>): Option<Ast.Expression>
    requires PartsBuild(ps)
  {
    match LastWith(ps, Expr)
    case None => None
    case Some(k) => assert PartBuilds(ps[k]); Some(ExprParser.ParseExpr(ps[k]).value)
  }

  /** `parse_declaration`, stated over the children: every type and
      expression child is built (one that panics makes the declaration
      panic), and each field comes from the last child of its kind. */
  function DeclarationOf(ps: seq<Pair>): (r: Result<Ast.LetBinding, Panic>)
    ensures r.Ok? <==> PartsBuild(ps)
    ensures r.Ok? ==> (r.value.ty.Some? <==> HasRule(ps, TypeDef))
    ensures r.Ok? ==> (r.value.value.Some? <==> HasRule(ps, Expr))
    ensures r.Ok? ==> (r.value.modifier.Some? ==> HasRule(ps, Modifier))
    ensures r.Ok? ==> (r.value.isMutable ==> HasRule(ps, Keyword))
  {
    if PartsBuild(ps) then Ok(BindingOf(ps)) else Err(Panic)
  }

  function DeclarationSpec(p: Pair): (r: Result<Ast.Statement, Panic>)
    ensures r.Ok? ==> r.value.Binding?
  {
    var b :- DeclarationOf(p.children);
    Ok(Ast.Binding(b))
  }

  /** The binding the children describe, once they all build. */
  function BindingOf(ps: seq<Pair>): Ast.LetBinding
    requires PartsBuild(ps)
  {
    Ast.LetBinding(ModifierPart(ps), MutablePart(ps), NamePart(ps), TypePart(ps), ValuePart(ps))
  }

  /** What one child changes in the binding read so far. */
  function Absorb(b: Ast.LetBinding, q: Pair): Ast.LetBinding
    requires PartBuilds(q)
  {
    if q.rule == Modifier then b.(modifier := ModifierOf(q.text))
    else if q.rule == Keyword then b.(isMutable := q.text == "var")
    else if q.rule == Ident then b.(name := q.text)
    else if q.rule == TypeDef then b.(ty := Some(TypeParser.ParseType(q).value))
    else if q.rule == Expr then b.(value := Some(ExprParser.ParseExpr(q).value))
    else b
  }

  /** Reading the children one by one gives the last-of-each-kind binding. */
  lemma DeclarationStep(ps: seq<Pair>, i: nat)
    requires i < |ps| && PartsBuild(ps[..i]) && PartBuilds(ps[i])
    ensures PartsBuild(ps[..i + 1])
    ensures BindingOf(ps[..i + 1]) == Absorb(BindingOf(ps[..i]), ps[i])
  {
    assert ps[..i + 1] == ps[..i] + [ps[i]];
    BindingSnoc(ps[..i], ps[i]);
  }

  lemma BindingSnoc(ps: seq<Pair>, q: Pair)
    requires PartsBuild(ps) && PartBuilds(q)
    ensures PartsBuild(ps + [q])
    ensures BindingOf(ps + [q]) == Absorb(BindingOf(ps), q)
  {
    PartsBuildSnoc(ps, q);
    ModifierSnoc(ps, q);
    MutableSnoc(ps, q);
    NameSnoc(ps, q);
    TypeSnoc(ps, q);
    ValueSnoc(ps, q);
  }

  lemma PartsBuildSnoc(ps: seq<Pair>, q: Pair)
    requires PartsBuild(ps) && PartBuilds(q)
    ensures PartsBuild(ps + [q])
  {
    assert forall k :: 0 <= k < |ps| ==> (ps + [q])[k] == ps[k];
  }

  lemma ModifierSnoc(ps: seq<Pair>, q: Pair)
    ensures ModifierPart(ps + [q]) == if q.rule == Modifier then ModifierOf(q.text) else ModifierPart(ps)
  {
    LastWithSnoc(ps, q, Modifier);
    assert forall k :: 0 <= k < |ps| ==> (ps + [q])[k] == ps[k];
  }

  lemma MutableSnoc(ps: seq<Pair>, q: Pair)
    ensures MutablePart(ps + [q]) == if q.rule == Keyword then q.text == "var" else MutablePart(ps)
  {
    LastWithSnoc(ps, q, Keyword);
    assert forall k :: 0 <= k < |ps| ==> (ps + [q])[k] == ps[k];
  }

  lemma NameSnoc(ps: seq<Pair>, q: Pair)
    ensures NamePart(ps + [q]) == if q.rule == Ident then q.text else NamePart(ps)
  {
    LastWithSnoc(ps, q, Ident);
    assert forall k :: 0 <= k < |ps| ==> (ps + [q])[k] == ps[k];
  }

  lemma TypeSnoc(ps: seq<Pair>, q: Pair)
    requires PartsBuild(ps) && PartBuilds(q)
    ensures PartsBuild(ps + [q])
    ensures TypePart(ps + [q]) == if q.rule == TypeDef then Some(TypeParser.ParseType(q).value) else TypePart(ps)
  {
    PartsBuildSnoc(ps, q);
    LastWithSnoc(ps, q, TypeDef);
    assert forall k :: 0 <= k < |ps| ==> (ps + [q])[k] == ps[k];
  }

  lemma ValueSnoc(ps: seq<Pair>, q: Pair)
    requires PartsBuild(ps) && PartBuilds(q)
    ensures PartsBuild(ps + [q])
    ensures ValuePart(ps + [q]) == if q.rule == Expr then Some(ExprParser.ParseExpr(q).value) else ValuePart(ps)
  {
    PartsBuildSnoc(ps, q);
    LastWithSnoc(ps, q, Expr);
    assert forall k :: 0 <= k < |ps| ==> (ps + [q])[k] == ps[k];
  }

  /** One turn of `parse_declaration`'s loop: a modifier, keyword or
      identifier child sets its field from its text, a type or expression
      child sets its field from what it builds (or panics), and any other
      child changes nothing.  The five locals of the source are the fields of
      `b`. */
  method ReadPart(b: Ast.LetBinding, q: Pair) returns (r: Result<Ast.LetBinding, Panic>)
    ensures r.Ok? <==> PartBuilds(q)
    ensures r.Ok? ==> r.value == Absorb(b, q)
  {
    if q.rule == Modifier {
      r := Ok(b.(modifier := ModifierOf(q.text)));
    } else if q.rule == Keyword {
      r := Ok(b.(isMutable := q.text == "var"));
    } else if q.rule == Ident {
      r := Ok(b.(name := q.text));
    } else if q.rule == TypeDef {
      var t := TypeParser.ParseType(q);
      if t.Err? {
        return Err(Panic);
      }
      r := Ok(b.(ty := Some(t.value)));
    } else if q.rule == Expr {
      var e := ExprParser.ParseExpr(q);
      if e.Err? {
        return Err(Panic);
      }
      r := Ok(b.(value := Some(e.value)));
    } else {
      r := Ok(b);
    }
  }

  /** `parse_declaration`: one pass over the children, each kind of child
      overwriting what an earlier one of its kind set. */
  method ParseDeclaration(p: Pair) returns (r: Result<Ast.Statement, Panic>)
    ensures r == DeclarationSpec(p)
  {
    var ps := p.children;
    var b := Ast.LetBinding(None, false, "", None, None);
    var i := 0;
    while i < |ps|
      invariant 0 <= i <= |ps|
      invariant PartsBuild(ps[..i])
      invariant b == BindingOf(ps[..i])
    {
      var next := ReadPart(b, ps[i]);
      if next.Err? {
        assert !PartsBuild(p.children) by {
          assert !PartBuilds(ps[i]);
        }
        return Err(Panic);
      }
      DeclarationStep(ps, i);
      b := next.value;
      i := i + 1;
    }
    assert ps[..i] == ps;
    return Ok(Ast.Binding(b));
  }

  // ---------------------------------------------------------------------------
  // Simple statements

  /** `parse_assignment`: the target's text and the value; a missing target
      or value panics. */
  function ParseAssignment(p: Pair): (r: Result<Ast.Statement, Panic>)
    ensures r.Ok? <==> |p.children| >= 2 && ExprParser.ParseExpr(p.children[1]).Ok?
    ensures r.Ok? ==> r.value == Ast.Assignment(p.children[0].text, ExprParser.ParseExpr(p.children[1]).value)
  {
    if |p.children| < 2 then Err(Panic)
    else
      var value :- ExprParser.ParseExpr(p.children[1]);
      Ok(Ast.Assignment(p.children[0].text, value))
  }

  /** `parse_return`: the value is present exactly when the node has a
      child. */
  function ParseReturn(p: Pair): (r: Result<Ast.Statement, Panic>)
    ensures r.Ok? ==> r.value.Return?
    ensures r == Ok(Ast.Return(None)) <==> |p.children| == 0
    ensures |p.children| > 0 ==> (r.Ok? <==> ExprParser.ParseExpr(p.children[0]).Ok?)
  {
    if |p.children| == 0 then Ok(Ast.Return(None))
    else
      var e :- ExprParser.ParseExpr(p.children[0]);
      Ok(Ast.Return(Some(e)))
  }

  /** `parse_expr_stmt`: the expression of the first child, which must
      exist. */
  function ParseExprStmt(p: Pair): (r: Result<Ast.Statement, Panic>)
    ensures r.Ok? <==> |p.children| > 0 && ExprParser.ParseExpr(p.children[0]).Ok?
    ensures r.Ok? ==> r.value == Ast.ExprStatement(ExprParser.ParseExpr(p.children[0]).value)
  {
    if |p.children| == 0 then Err(Panic)
    else
      var e :- ExprParser.ParseExpr(p.children[0]);
      Ok(Ast.ExprStatement(e))
  }

  // ---------------------------------------------------------------------------
  // Blocks and the statements that hold them

  /** `parse_if_stmt`: the condition, the then-block, and an optional third
      child that is either a block or, for `else if`, another `if` statement
      wrapped in a block of its own; any other third child is dropped. */
  function ParseIfStmt(p: Pair): (r: Result<Ast.Statement, Panic>)
    ensures r.Ok? ==> r.value.IfElse?
    decreases Size(p), 2
  {
    var cs := p.children;
    if |cs| == 0 then Err(Panic)
    else
      var condition :- ExprParser.ParseExpr(cs[0]);
      if |cs| < 2 then Err(Panic)
      else
        ChildSize(p, 1);
        var thenBlock :- ParseBlock(cs[1]);
        if |cs| < 3 then Ok(Ast.IfElse(condition, thenBlock, None))
        else
          ChildSize(p, 2);
          if cs[2].rule == Block then
            var elseBlock :- ParseBlock(cs[2]);
            Ok(Ast.IfElse(condition, thenBlock, Some(elseBlock)))
          else if cs[2].rule == IfStmt then
            var elseIf :- ParseIfStmt(cs[2]);
            Ok(Ast.IfElse(condition, thenBlock, Some(Ast.Block([elseIf]))))
          else Ok(Ast.IfElse(condition, thenBlock, None))
  }

  /** `parse_while_stmt`: the condition and the body, both required. */
  function ParseWhileStmt(p: Pair): (r: Result<Ast.Statement, Panic>)
    ensures r.Ok? ==> r.value.WhileLoop?
    decreases Size(p), 2
  {
    var cs := p.children;
    if |cs| == 0 then Err(Panic)
    else
      var condition :- ExprParser.ParseExpr(cs[0]);
      if |cs| < 2 then Err(Panic)
      else
        ChildSize(p, 1);
        var body :- ParseBlock(cs[1]);
        Ok(Ast.WhileLoop(condition, body))
  }

  /** `parse_block`: every child built as a block statement. */
  function ParseBlock(p: Pair): (r: Result<Ast.Block, Panic>)
    decreases Size(p), 1
  {
    var ss :- ParseStatements(p.children);
    Ok(Ast.Block(ss))
  }

  /** A block holds one statement per child, and none of them is a struct,
      a function or an impl: those exist only at the top level. */
  lemma BlockShape(p: Pair)
    ensures ParseBlock(p).Ok? ==> |ParseBlock(p).value.statements| == |p.children|
    ensures ParseBlock(p).Ok? ==> forall k :: 0 <= k < |p.children| ==>
              var s := ParseBlock(p).value.statements[k]; !s.Struct? && !s.FunctionDef? && !s.Impl?
  {
    StatementsShape(p.children);
  }

  lemma {:induction false} StatementsShape(ps: seq<Pair>)
    ensures ParseStatements(ps).Ok? ==> |ParseStatements(ps).value| == |ps|
    ensures ParseStatements(ps).Ok? ==> forall k :: 0 <= k < |ps| ==>
              var s := ParseStatements(ps).value[k]; !s.Struct? && !s.FunctionDef? && !s.Impl?
    decreases |ps|
  {
    if |ps| > 0 && ParseStatements(ps).Ok? {
      StatementsShape(ps[1..]);
      var r := ParseStatements(ps).value;
      assert r == [ParseBlockStatement(ps[0]).value] + ParseStatements(ps[1..]).value;
    }
  }

  /** The children of a block built in order.  (`MapParse` does the same for
      builders outside this recursive family.) */
  function ParseStatements(ps: seq<Pair>): (r: Result<seq<Ast.Statement>, Panic>)
    decreases SeqSize(ps), 4
  {
    if |ps| == 0 then Ok([])
    else
      var first :- ParseBlockStatement(ps[0]);
      var rest :- ParseStatements(ps[1..]);
      Ok([first] + rest)
  }

  /** `parse_block_statement`: the six statement kinds allowed in a block;
      any other node panics. */
  function ParseBlockStatement(p: Pair): (r: Result<Ast.Statement, Panic>)
    ensures r.Ok? ==> !r.value.Struct? && !r.value.FunctionDef? && !r.value.Impl?
    decreases Size(p), 3
  {
    match p.rule
    case Declaration => DeclarationSpec(p)
    case Assignment => ParseAssignment(p)
    case ExprStmt => ParseExprStmt(p)
    case ReturnStmt => ParseReturn(p)
    case IfStmt => ParseIfStmt(p)
    case WhileStmt => ParseWhileStmt(p)
    case _ => Err(Panic)
  }

  /** A block keeps the number and order of its statements, and panics
      exactly when one of them does. */
  lemma {:induction false} StatementsInOrder(ps: seq<Pair>)
    ensures ParseStatements(ps).Ok? <==> forall k :: 0 <= k < |ps| ==> ParseBlockStatement(ps[k]).Ok?
    ensures ParseStatements(ps).Ok? ==>
              |ParseStatements(ps).value| == |ps|
              && forall k :: 0 <= k < |ps| ==> ParseBlockStatement(ps[k]) == Ok(ParseStatements(ps).value[k])
  {
    if |ps| > 0 {
      StatementsInOrder(ps[1..]);
      assert forall k :: 1 <= k < |ps| ==> ps[k] == ps[1..][k - 1];
    }
  }

  /** `else if`: the else-block holds exactly the nested `if` statement. */
  lemma ElseIf(p: Pair)
    requires |p.children| >= 3 && p.children[2].rule == IfStmt && ParseIfStmt(p).Ok?
    ensures ParseIfStmt(p.children[2]).Ok?
    ensures ParseIfStmt(p).value.elseBlock == Some(Ast.Block([ParseIfStmt(p.children[2]).value]))
  {
  }

  /** The else part `parse_if_stmt` reads from the children after the
      then-block: a block, an `if` statement wrapped in a one-statement
      block, or nothing. */
  function ElsePart(cs: seq<Pair>): Option<Ast.Block>
    requires |cs| >= 3 && cs[2].rule == Block ==> ParseBlock(cs[2]).Ok?
    requires |cs| >= 3 && cs[2].rule == IfStmt ==> ParseIfStmt(cs[2]).Ok?
  {
    if |cs| < 3 then None
    else if cs[2].rule == Block then Some(ParseBlock(cs[2]).value)
    else if cs[2].rule == IfStmt then Some(Ast.Block([ParseIfStmt(cs[2]).value]))
    else None
  }

  /** `parse_if_stmt` succeeds exactly when the condition and the then-block
      are present and build and a block or `if` third child builds; the
      statement then holds the first child's expression, the second child's
      block and the else part.  A missing condition or block panics. */
  lemma IfStmtShape(p: Pair)
    ensures var cs := p.children;
            ParseIfStmt(p).Ok? <==>
              && |cs| >= 2 && ExprParser.ParseExpr(cs[0]).Ok? && ParseBlock(cs[1]).Ok?
              && (|cs| >= 3 && cs[2].rule == Block ==> ParseBlock(cs[2]).Ok?)
              && (|cs| >= 3 && cs[2].rule == IfStmt ==> ParseIfStmt(cs[2]).Ok?)
    ensures |p.children| < 2 ==> ParseIfStmt(p).Err?
    ensures var cs := p.children;
            ParseIfStmt(p).Ok? ==>
              ParseIfStmt(p).value
              == Ast.IfElse(ExprParser.ParseExpr(cs[0]).value, ParseBlock(cs[1]).value, ElsePart(cs))
  {
  }

  /** `parse_while_stmt` succeeds exactly when the condition and the body are
      present and build, and the loop holds the first child's expression and
      the second child's block. */
  lemma WhileStmtShape(p: Pair)
    ensures var cs := p.children;
            ParseWhileStmt(p).Ok? <==>
              |cs| >= 2 && ExprParser.ParseExpr(cs[0]).Ok? && ParseBlock(cs[1]).Ok?
    ensures var cs := p.children;
            ParseWhileStmt(p).Ok? ==>
              ParseWhileStmt(p).value
              == Ast.WhileLoop(ExprParser.ParseExpr(cs[0]).value, ParseBlock(cs[1]).value)
  {
  }

  // ---------------------------------------------------------------------------
  // What a block can hold

  /** A statement the block builder can produce: no struct, function or impl,
      at any depth. */
  predicate Nested(s: Ast.Statement)
    decreases s, 1
  {
    match s
    case IfElse(_, thenBlock, elseBlock) =>
      NestedBlock(thenBlock) && (elseBlock.Some? ==> NestedBlock(elseBlock.value))
    case WhileLoop(_, body) => NestedBlock(body)
    case Struct(_) => false
    case FunctionDef(_) => false
    case Impl(_) => false
    case _ => true
  }

  predicate NestedBlock(b: Ast.Block)
    decreases b, 0
  {
    forall k :: 0 <= k < |b.statements| ==> Nested(b.statements[k])
  }

  lemma {:induction false} BlockStatementNested(p: Pair)
    ensures ParseBlockStatement(p).Ok? ==> Nested(ParseBlockStatement(p).value)
    decreases Size(p), 3
  {
    if p.rule == IfStmt {
      IfNested(p);
    } else if p.rule == WhileStmt {
      var cs := p.children;
      if |cs| >= 2 {
        ChildSize(p, 1);
        BlockNested(cs[1]);
      }
    }
  }

  lemma {:induction false} IfNested(p: Pair)
    ensures ParseIfStmt(p).Ok? ==> Nested(ParseIfStmt(p).value)
    decreases Size(p), 2
  {
    var cs := p.children;
    if |cs| >= 2 {
      ChildSize(p, 1);
      BlockNested(cs[1]);
      if |cs| >= 3 {
        ChildSize(p, 2);
        if cs[2].rule == Block {
          BlockNested(cs[2]);
        } else if cs[2].rule == IfStmt {
          IfNested(cs[2]);
          var r := ParseIfStmt(p);
          if r.Ok? {
            assert r.value.elseBlock.value.statements == [ParseIfStmt(cs[2]).value];
          }
        }
      }
    }
  }

  lemma {:induction false} BlockNested(p: Pair)
    ensures ParseBlock(p).Ok? ==> NestedBlock(ParseBlock(p).value)
    decreases Size(p), 1
  {
    StatementsNested(p.children);
  }

  lemma {:induction false} StatementsNested(ps: seq<Pair>)
    ensures ParseStatements(ps).Ok? ==> forall k :: 0 <= k < |ParseStatements(ps).value| ==> Nested(ParseStatements(ps).value[k])
    decreases SeqSize(ps), 4
  {
    if |ps| > 0 {
      BlockStatementNested(ps[0]);
      StatementsNested(ps[1..]);
    }
  }
}
