/** The abstract syntax tree shared by the AST builder and the C generator
    (crates/amber_ast).  The crate holds several inconsistent versions of these
    types; this is the one the parser and the generator are both written
    against: prefix and postfix unary operators, `if`/`else` and `while`
    statements, function bodies that are blocks, and character literals. */
module Ast {
  import opened Outcomes
  import opened Types
  import opened Literals

  datatype Modifier = Comptime | Runtime

  datatype BinaryOp =
    | Add | Sub | Mul | Div | Mod
    | Eq | Ne | Lt | Le | Gt | Ge
    | BitAnd | BitOr | BitXor | Shl | Shr
    | And | Or

  datatype Prefix = Neg | Pos | Not | BitNot | PreInc | PreDec | Deref

  datatype Postfix = Index(index: Expression)

  datatype UnaryOp = PrefixOp(pre: Prefix) | PostfixOp(post: Postfix)

  datatype Expression =
    | Lit(lit: Literal)
    | Identifier(name: string)
    | UnaryExpr(op: UnaryOp, operand: Expression)
    | BinaryExpr(left: Expression, binop: BinaryOp, right: Expression)
    | TernaryExpr(condition: Expression, thenExpr: Expression, elseExpr: Expression)

  /** A `let`/`const`/`var` declaration with its optional modifier, declared
      type and initialiser. */
  datatype LetBinding = LetBinding(
    modifier: Option<Modifier>,
    isMutable: bool,
    name: string,
    ty: Option<Type>,
    value: Option<Expression>)

  datatype Param = SelfParam | Typed(name: string, ty: Type)

  datatype Function = Function(
    name: string,
    params: seq<Param>,
    returnType: Option<Type>,
    body: Option<Block>,
    isExtern: bool)

  datatype StructField = StructField(name: string, ty: Type)

  datatype StructDef = StructDef(name: string, fields: seq<StructField>)

  datatype ImplBlock = ImplBlock(target: string, methods: seq<Function>)

  datatype Block = Block(statements: seq<Statement>)

  datatype Statement =
    | Binding(binding: LetBinding)
    | ExprStatement(expr: Expression)
    | Struct(def: StructDef)
    | FunctionDef(func: Function)
    | Impl(implBlock: ImplBlock)
    | Assignment(target: string, value: Expression)
    | Return(result: Option<Expression>)
    | IfElse(condition: Expression, thenBlock: Block, elseBlock: Option<Block>)
    | WhileLoop(loopCondition: Expression, body: Block)

  datatype Program = Program(statements: seq<Statement>)
}
