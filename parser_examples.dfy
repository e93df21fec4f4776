/** The builder's own examples, stated over the nodes the grammar builds for
    them (the tests of crates/amber_parser/src/stmt_parser.rs and
    crates/amber_parser/src/decl_parser.rs), and a program the builder
    accepts that the generator rejects. */
module BuilderExamples {
  import opened Outcomes
  import opened ParseTree
  import ExprParser
  import ExprLayout
  import ExprFacts
  import StmtParser
  import DeclParser
  import AstBuilder
  import Generator
  import Ast
  import Types
  import Text
  import TypeParser

  /** An expression node holding one integer literal is that literal. */
  lemma LiteralExpression(e: Pair, q: Pair, v: Text.Int64)
    requires ExprFacts.IntPairOf(q, v) && e.rule == Expr && e.children == [q]
    ensures ExprParser.ParseExpr(e) == Ok(ExprFacts.IntValue(v))
  {
    ExprFacts.IntPairParses(q, v);
    ExprFacts.LeafFacts(q);
    ExprLayout.MathReadsLayout(e, ExprFacts.Leaf(q));
  }

  /** `comptime const baud = 9600;` is a compile-time, immutable binding
      named `baud` whose value is the literal 9600. */
  lemma BaudExample(p: Pair, e: Pair, q: Pair)
    requires ExprFacts.IntPairOf(q, 9600) && e.rule == Expr && e.children == [q]
    requires p.rule == Declaration
    requires p.children == [Pair(Modifier, "comptime", []), Pair(Keyword, "const", []), Pair(Ident, "baud", []), e]
    ensures StmtParser.DeclarationSpec(p)
            == Ok(Ast.Binding(Ast.LetBinding(Some(Ast.Comptime), false, "baud", None, Some(ExprFacts.IntValue(9600)))))
  {
    LiteralExpression(e, q, 9600);
    BaudParts(p.children, ExprFacts.IntValue(9600));
  }

  lemma BaudParts(ps: seq<Pair>, v: Ast.Expression)
    requires |ps| == 4
    requires ps[0] == Pair(Modifier, "comptime", []) && ps[1] == Pair(Keyword, "const", [])
    requires ps[2] == Pair(Ident, "baud", []) && ps[3].rule == Expr && ExprParser.ParseExpr(ps[3]) == Ok(v)
    ensures StmtParser.DeclarationOf(ps) == Ok(Ast.LetBinding(Some(Ast.Comptime), false, "baud", None, Some(v)))
  {
    BaudPartsBuild(ps);
    LastOf(ps, 0, Modifier);
    LastOf(ps, 1, Keyword);
    LastOf(ps, 2, Ident);
    LastOf(ps, 3, Expr);
    assert StmtParser.ModifierOf("comptime") == Some(Ast.Comptime);
    assert StmtParser.ModifierPart(ps) == Some(Ast.Comptime);
    assert StmtParser.MutablePart(ps) == false;
    assert StmtParser.NamePart(ps) == "baud";
    assert StmtParser.TypePart(ps) == None;
    assert StmtParser.ValuePart(ps) == Some(v);
  }

  lemma BaudPartsBuild(ps: seq<Pair>)
    requires |ps| == 4 && ps[3].rule == Expr && ExprParser.ParseExpr(ps[3]).Ok?
    requires forall k :: 0 <= k < 3 ==> ps[k].rule != TypeDef && ps[k].rule != Expr
    ensures StmtParser.PartsBuild(ps)
  {
  }

  /** In children of four different kinds, the last child of a kind is the
      only one. */
  lemma LastOf(ps: seq<Pair>, i: nat, r: Rule)
    requires |ps| == 4 && i < 4 && ps[i].rule == r
    requires forall j, k :: 0 <= j < k < 4 ==> ps[j].rule != ps[k].rule
    ensures LastWith(ps, r) == Some(i)
  {
    assert LastWith(ps, r).Some?;
  }

  /** `struct Point { x: i32, y: i32 }` has the name `Point` and the fields
      `x` and `y`, in that order. */
  lemma PointExample()
    ensures var point := Ast.StructDef("Point", [Ast.StructField("x", Types.I32), Ast.StructField("y", Types.I32)]);
            DeclParser.StructSpec(DeclParser.StructLayout(point)) == Ok(point)
  {
    var point := Ast.StructDef("Point", [Ast.StructField("x", Types.I32), Ast.StructField("y", Types.I32)]);
    DeclParser.StructRoundTrip(point);
  }

  /** `extern fn HAL_Delay(ms: u32);` is an external function of one
      parameter without a body. */
  lemma HalDelayExample(semicolon: Pair)
    ensures var f := Ast.Function("HAL_Delay", [Ast.Typed("ms", Types.U32)], None, None, true);
            DeclParser.FunctionSpec(DeclParser.FunctionLayout(f, semicolon)) == Ok(f)
  {
    var f := Ast.Function("HAL_Delay", [Ast.Typed("ms", Types.U32)], None, None, true);
    DeclParser.FunctionRoundTrip(f, semicolon);
  }

  /** `fn add(a: i32, b: i32) -> i32 { return a + b; }` is a function of two
      parameters returning `i32` whose body is the return statement. */
  lemma AddExample(block: Pair, sum: Ast.Expression)
    requires block.rule == Block
    requires StmtParser.ParseBlock(block) == Ok(Ast.Block([Ast.Return(Some(sum))]))
    ensures var f := Ast.Function("add", [Ast.Typed("a", Types.I32), Ast.Typed("b", Types.I32)], Some(Types.I32),
                                  Some(Ast.Block([Ast.Return(Some(sum))])), false);
            DeclParser.FunctionSpec(DeclParser.FunctionLayout(f, block)) == Ok(f)
  {
    var f := Ast.Function("add", [Ast.Typed("a", Types.I32), Ast.Typed("b", Types.I32)], Some(Types.I32),
                          Some(Ast.Block([Ast.Return(Some(sum))])), false);
    DeclParser.FunctionRoundTrip(f, block);
  }

  /** `impl Point { fn new(x: i32, y: i32) -> i32 {…} fn translate(self, dx: i32) {…} }`
      targets `Point` and keeps both methods in order, the second taking
      `self` first. */
  lemma ImplExample(b1: Pair, b2: Pair)
    requires b1.rule == Block && StmtParser.ParseBlock(b1).Ok?
    requires b2.rule == Block && StmtParser.ParseBlock(b2).Ok?
    ensures var m1 := Ast.Function("new", [Ast.Typed("x", Types.I32), Ast.Typed("y", Types.I32)], Some(Types.I32),
                                   Some(StmtParser.ParseBlock(b1).value), false);
            var m2 := Ast.Function("translate", [Ast.SelfParam, Ast.Typed("dx", Types.I32)], None,
                                   Some(StmtParser.ParseBlock(b2).value), false);
            DeclParser.ParseImpl(DeclParser.ImplLayout(Ast.ImplBlock("Point", [m1, m2]), [b1, b2]))
              == Ok(Ast.ImplBlock("Point", [m1, m2]))
  {
    var m1 := Ast.Function("new", [Ast.Typed("x", Types.I32), Ast.Typed("y", Types.I32)], Some(Types.I32),
                           Some(StmtParser.ParseBlock(b1).value), false);
    var m2 := Ast.Function("translate", [Ast.SelfParam, Ast.Typed("dx", Types.I32)], None,
                           Some(StmtParser.ParseBlock(b2).value), false);
    I32ParamProducible("x");
    I32ParamProducible("y");
    I32ParamProducible("dx");
    assert DeclParser.ParamProducible(Ast.SelfParam);
    TwoParamsProducible(m1);
    TwoParamsProducible(m2);
    TwoMethodImpl(Ast.ImplBlock("Point", [m1, m2]), b1, b2);
  }

  lemma I32ParamProducible(name: string)
    ensures DeclParser.ParamProducible(Ast.Typed(name, Types.I32))
  {
    assert TypeParser.IsKeywordType(Types.I32);
  }

  lemma TwoParamsProducible(f: Ast.Function)
    requires |f.params| == 2
    requires DeclParser.ParamProducible(f.params[0]) && DeclParser.ParamProducible(f.params[1])
    requires f.returnType == None || f.returnType == Some(Types.I32)
    ensures DeclParser.FunctionProducible(f)
  {
    assert TypeParser.IsKeywordType(Types.I32);
  }

  /** An impl block of two methods with bodies is read back from its
      layout. */
  lemma TwoMethodImpl(ib: Ast.ImplBlock, b1: Pair, b2: Pair)
    requires |ib.methods| == 2
    requires DeclParser.FunctionProducible(ib.methods[0]) && DeclParser.FunctionProducible(ib.methods[1])
    requires b1.rule == Block && ib.methods[0].body.Some? && StmtParser.ParseBlock(b1) == Ok(ib.methods[0].body.value)
    requires b2.rule == Block && ib.methods[1].body.Some? && StmtParser.ParseBlock(b2) == Ok(ib.methods[1].body.value)
    ensures DeclParser.ParseImpl(DeclParser.ImplLayout(ib, [b1, b2])) == Ok(ib)
  {
    var blocks := [b1, b2];
    assert forall k :: 0 <= k < 2 ==> blocks[k] == if k == 0 then b1 else b2;
    DeclParser.ImplRoundTrip(ib, blocks);
  }

  /** The builder accepts an assignment at top level, which the generator
      refuses: building succeeds where generating cannot. */
  lemma TopLevelAssignment(p: Pair, e: Pair)
    requires |p.children| > 0 && p.children[0].rule == Assignment
    requires |p.children[0].children| == 2 && p.children[0].children[0].text == "x"
    requires p.children[0].children[1] == e && ExprParser.ParseExpr(e).Ok?
    ensures AstBuilder.ParseStatement(p) == Ok(Ast.Assignment("x", ExprParser.ParseExpr(e).value))
    ensures !Generator.TopLevelOk(AstBuilder.ParseStatement(p).value)
  {
  }
}
