# amber-lang compiler core in Dafny

This project models the core of the amber-lang compiler. The compiler translates a small
systems language into C. The model covers three parts of the repository:

- **the AST helpers** (`crates/amber_ast`): the literal and type classifications. The
  statement, expression and declaration enums become one unified `Ast` module.
- **the AST builder** (`crates/amber_parser`). It turns the parse tree of the grammar engine
  into a `Program`. Covered: the expression parser with its operator-precedence table, the
  statement and declaration parsers, the `parse_type` helper, the top-level `build_ast` loop,
  and the `ParseError` type with its span conversion.
- **the code generator** (`crates/amber_codegen`). It walks a `Program` through a `CodeBuffer`
  of lines. It emits structs, functions, impl blocks and statements as C, and reports the
  structural errors of `CodegenError`.

## How the model is organised

The parse tree is a value of type `ParseTree.Pair`: a grammar rule, the matched text and the
child pairs. It is the input to the builder.

Every `expect`, `unwrap` or `panic!` of the builder becomes the outcome `Err(Panic)`. Each
builder function is therefore total and states exactly when the source panics.

The code generator's own panics are a different case. These are a definition inside a block
and a control-flow statement at top level. They are preconditions of the emitters. The
generator's `Type` has only the builtin and custom types, and `type_to_c` covers each of them;
the precondition `IsBuiltinType` keeps the AST's pointer, array and named variants, which that
`Type` does not have, out of the generator.

Where the source uses a loop, the model uses a `method` with a `while` loop. Each such method
is proved equal to a specification function:

- `ParseDeclaration`, `ParseStruct`, `ParseFunction` and `BuildAst` in the builder;
- `FormatParams`, `EmitBlock`, `EmitStruct`, `EmitImpl` and `EmitProgram` in the generator.

The properties are stated about the specification functions.

`Buffer.CodeBuffer` is a class with a `lines` field. The emitters take the buffer, modify it,
and promise to append exactly the lines of an `Emissions.Emission`. An emission is a list of
lines plus an outcome. Emissions compose with `Then`, which stops at the first error and
keeps the lines written before it, exactly as the buffer does.

For each builder, a layout function builds the parse tree that the grammar would give for a
value. The round-trip lemmas prove that the builder reads the value back:

- `TypeParser.LayoutRoundTrip` for types;
- `DeclParser.StructRoundTrip`, `DeclParser.FunctionRoundTrip` and `DeclParser.ImplRoundTrip`
  for declarations;
- `ExprLayout.MathReadsLayout` for operator expressions.

`MathReadsLayout` is where precedence and left associativity are stated.

## Model

| member | source | states |
|---|---|---|
| Types.NumericClassification | crates/amber_ast/src/types/mod.rs:23-41 | the floating types are numeric; numeric means integer or floating; no other type kind is numeric |
| Types.BuiltinClassification | crates/amber_ast/src/types/builtin.rs:17-35 | for the builtin type enum, every variant but `Bool` and `Custom` is numeric, and exactly `F32`/`F64` are floating |
| Literals.ToI64 | crates/amber_ast/src/expr/literal/numeric.rs:12-18 | the integer payload of an integer literal, whose decimal text is the literal's display text |
| Literals.NumericInferredType | crates/amber_ast/src/expr/literal/numeric.rs:33-39 | integer ⇔ "i64", float ⇔ "f32", double ⇔ "f64" |
| Literals.NumericDisplayFacts | crates/amber_ast/src/expr/literal/numeric.rs:42-76 | an integer's display parses back to its value and ends in a digit; a float's display ends in `f`, a double's in `d` |
| Literals.LiteralKindsPartition | crates/amber_ast/src/expr/literal/mod.rs:29-36 | a non-char literal is numeric or bool, never both |
| Literals.LiteralInferredType | crates/amber_ast/src/expr/literal/mod.rs:21-26 | bool literals infer "bool"; numeric ones infer their numeric type, which is never "bool" |
| Literals.LiteralDisplay | crates/amber_ast/src/expr/literal/mod.rs:39-46 | numeric literals display as their number; bools display as "true" iff true and "false" iff false |
| Text.ParseIntToString | crates/amber_ast/src/expr/literal/numeric.rs:42-50 | printing a 64-bit integer in decimal and parsing it back gives the same integer |
| Text.SplitJoin | crates/amber_codegen/src/buffer.rs:17-27 | joining lines that contain no separator and splitting the result on it gives the lines back |
| Buffer.Indentation | crates/amber_codegen/src/buffer.rs:12-15 | the indentation of level n is exactly 4·n spaces |
| Buffer.IndentationNested | crates/amber_codegen/src/buffer.rs:12-15 | a deeper indentation starts with every shallower one |
| Buffer.FinishText | crates/amber_codegen/src/buffer.rs:17-27 | the output always starts with the two `#include` lines and a blank line; with no lines or one empty line it is only that header; otherwise it is the header, the lines joined by newlines, and a final newline |
| Buffer.JoinEmpty | crates/amber_codegen/src/buffer.rs:17-27 | the joined body is empty iff there are no lines or only one empty line, so the final newline is added exactly when the body is non-empty |
| Buffer.FinishRecoversLines | crates/amber_codegen/src/buffer.rs:17-27 | splitting the finished text after the header on newlines gives back exactly the pushed lines and one empty trailer |
| Buffer.CodeBuffer.constructor | crates/amber_codegen/src/buffer.rs:1-5 | a new buffer holds no lines |
| Buffer.CodeBuffer.PushLine | crates/amber_codegen/src/buffer.rs:8-10 | appends the line and changes nothing else |
| Buffer.CodeBuffer.PushIndentedLine | crates/amber_codegen/src/buffer.rs:12-15 | appends the line prefixed by 4·indent spaces |
| Buffer.CodeBuffer.Finish | crates/amber_codegen/src/buffer.rs:17-27 | returns the header plus the lines, as `FinishText` describes |
| CodegenErrors.MessageFrame | crates/amber_codegen/src/errors.rs:3-17 | every error message is a fixed prefix and suffix per variant around the culprit's name |
| CodegenErrors.MessageNamesCulprit | crates/amber_codegen/src/errors.rs:3-17 | each message contains the offending name, and the extern-impl message contains `Target::method` |
| CodegenErrors.MessageEnds | crates/amber_codegen/src/errors.rs:3-17 | the first and last characters of each message identify the variant's frame |
| CodegenErrors.MessageDeterminesError | crates/amber_codegen/src/errors.rs:3-17 | two errors with the same message are the same variant, and the same error apart from the extern-impl case |
| CodegenErrors.ImplMessageIsAmbiguous | crates/amber_codegen/src/errors.rs:15 | `target::name` does not determine the pair: ("a::b","c") and ("a","b::c") give one message |
| CTypes.BindingQualifier | crates/amber_codegen/src/types.rs:3-16 | `comptime` or an immutable binding gives "const "; only a mutable non-comptime binding gives no qualifier |
| CTypes.TypeToC | crates/amber_codegen/src/types.rs:18-33 | floats map to `float`/`double`, `bool` to `bool`, a custom type to its own name |
| CTypes.TypeToCIntegers | crates/amber_codegen/src/types.rs:18-33 | every integer type maps to the `<stdint.h>` name of its width and signedness |
| CTypes.TypeToCDistinguishesPrimitives | crates/amber_codegen/src/types.rs:18-33 | no two primitive types share a C spelling |
| CTypes.TypeToCOpt | crates/amber_codegen/src/types.rs:35-38 | an absent type is `void`; a present one is its C spelling |
| Render.BinaryOpSymbol | crates/amber_codegen/src/expression.rs:81-102 | each operator symbol is one or two characters, without parentheses or spaces |
| Render.BinaryOpSymbolInjective | crates/amber_codegen/src/expression.rs:81-102 | distinct binary operators render to distinct symbols |
| Render.PrefixSymbol | crates/amber_codegen/src/expression.rs:60-79 | each prefix symbol is one or two characters without parentheses |
| Render.PrefixSymbolInjective | crates/amber_codegen/src/expression.rs:60-79 | distinct prefix operators render to distinct symbols |
| Render.RenderUnary | crates/amber_codegen/src/expression.rs:60-79 | a prefix operation is the operator's symbol and then the operand's rendering; an index operation is the operand's rendering followed by the index's rendering in square brackets |
| Render.RenderNumericLiteral | crates/amber_codegen/src/expression.rs:46-58 | an integer renders as decimal text that parses back to its value; a float is its text with an `f` suffix; a double is its text |
| Render.RenderLiteral | crates/amber_codegen/src/expression.rs:32-44 | bools render as `true`/`false` faithfully, a char as itself, numbers as above |
| Render.RenderExpr | crates/amber_codegen/src/expression.rs:2-30 | every compound expression is rendered inside one pair of outer parentheses |
| Render.RenderGroups | crates/amber_codegen/src/expression.rs:2-30 | when leaves contain no parentheses, the rendering is balanced, and a compound expression's outer parentheses enclose the whole text (they close only at its end) |
| Render.WrapBinary | crates/amber_codegen/src/expression.rs:6-13 | the binary form `(l op r)` of balanced operands is a single group |
| Render.WrapPrefix | crates/amber_codegen/src/expression.rs:14-16 | the prefix form `(op x)` of a balanced operand is a single group |
| Render.WrapIndex | crates/amber_codegen/src/expression.rs:74-77 | the index form `(x[i])` of balanced parts is a single group |
| Render.WrapTernary | crates/amber_codegen/src/expression.rs:17-28 | the ternary form `(c ? t : f)` of balanced parts is a single group |
| Render.LeafNoParens | crates/amber_codegen/src/expression.rs:4-5 | a literal or identifier renders without parentheses when its text has none |
| Emissions.Then | crates/amber_codegen/src/statements.rs:85-90 | after a failure nothing more is written; after success the lines are concatenated and the second outcome counts |
| Emissions.SequenceSucceeds | crates/amber_codegen/src/statements.rs:7-12 | a sequence of emissions succeeds iff every step does, and then writes all their lines in order |
| Emissions.FailureSticks | crates/amber_codegen/src/statements.rs:7-12 | once a prefix of the steps has failed, longer prefixes give the same emission |
| Emissions.FirstFailureDecides | crates/amber_codegen/src/statements.rs:7-12 | a failed sequence reports the error of its first failing step, with the lines of the steps before it |
| Emissions.SequenceSnoc | crates/amber_codegen/src/statements.rs:7-12 | running one more step is `Then` applied to the sequence so far |
| Emissions.IndentedSequence | crates/amber_codegen/src/statements.rs:85-90 | if every step's lines are indented at a level, so are the lines of the sequence |
| Emissions.IndentedDeeper | crates/amber_codegen/src/buffer.rs:12-15 | lines indented one level deeper are indented at the shallower level too |
| Statements.RenderLetBindingLine | crates/amber_codegen/src/statements.rs:51-69 | fails with `MissingType(name)` iff there is no declared type; otherwise the line is exactly qualifier, C type and name, then ` = value` when initialised, then `;` (an initialised line starts with the declaration, ends with the initialiser and has exactly their combined length) |
| Statements.ExprStatementLine | crates/amber_codegen/src/statements.rs:81-83 | an expression statement ends in `;`, and dropping that `;` gives back the expression's C rendering |
| Statements.ExprStatementGroups | crates/amber_codegen/src/statements.rs:81-83 | for an expression whose leaves carry no parentheses, the statement before its `;` is balanced, and a compound expression is one parenthesised group |
| Statements.StatementIndented | crates/amber_codegen/src/statements.rs:92-148 | every line a block statement writes is indented at least at the level it was emitted at |
| Statements.BlockIndented | crates/amber_codegen/src/statements.rs:85-90 | every line of a block is indented at least at the block's level |
| Statements.StatementFailsOnlyForType | crates/amber_codegen/src/statements.rs:92-148 | the only error a block statement can report is a binding's `MissingType` |
| Statements.BlockFailsOnlyForType | crates/amber_codegen/src/statements.rs:85-90 | the only error a block can report is a binding's `MissingType` |
| Statements.StatementsFailOnlyForType | crates/amber_codegen/src/statements.rs:85-90 | the same for a statement list |
| Statements.EmitBlock | crates/amber_codegen/src/statements.rs:85-90 | appends exactly the block's emission lines and returns its outcome, stopping at the first failing statement |
| Statements.EmitBlockStatement | crates/amber_codegen/src/statements.rs:92-148 | appends exactly the statement's emission lines and returns its outcome |
| Statements.EmitIfElse | crates/amber_codegen/src/statements.rs:128-138 | `if (cond) {`, the then-block one level deeper, then `} else {` with the else-block when present, then `}` |
| Statements.EmitWhile | crates/amber_codegen/src/statements.rs:139-145 | `while (cond) {`, the body one level deeper, then `}` |
| Declarations.StructLines | crates/amber_codegen/src/declarations.rs:7-16 | a `typedef struct {` opener, one line per field in declared order, `} Name;` and a blank line |
| Declarations.StructFieldsIndented | crates/amber_codegen/src/declarations.rs:18-21 | the field lines of a struct are indented one level |
| Declarations.EmitStructField | crates/amber_codegen/src/declarations.rs:18-21 | appends exactly the field's line |
| Declarations.EmitStruct | crates/amber_codegen/src/declarations.rs:7-16 | appends exactly the struct's lines and never fails |
| Declarations.SelfCount | crates/amber_codegen/src/declarations.rs:84-122 | zero iff every parameter is typed, and never more than the number of parameters |
| Declarations.FormatParamsSpec | crates/amber_codegen/src/declarations.rs:84-122 | fails iff there is a `self` outside an impl or more than one `self`, and then only with one of those two errors |
| Declarations.SecondSelfFails | crates/amber_codegen/src/declarations.rs:93-99 | a second `self` always fails, and inside an impl with `MultipleSelfParams` |
| Declarations.SelfOutsideImplFails | crates/amber_codegen/src/declarations.rs:100-104 | any `self` outside an impl fails with `SelfParamOutsideImpl` |
| Declarations.ParamsJoined | crates/amber_codegen/src/declarations.rs:110-121 | a legal parameter list renders as its parameters joined by `, `, or `void` when it is empty |
| Declarations.ParamTexts | crates/amber_codegen/src/declarations.rs:93-113 | one text per parameter, in order |
| Declarations.FormatParams | crates/amber_codegen/src/declarations.rs:84-122 | the loop computes `FormatParamsSpec` |
| Declarations.MangledName | crates/amber_codegen/src/declarations.rs:75-79 | outside an impl the C name is the function's name; inside one it is the target's name, `_`, and the function's name |
| Declarations.MangledNameInjective | crates/amber_codegen/src/declarations.rs:75-79 | within one impl target, distinct method names give distinct C names |
| Declarations.FormatParam | crates/amber_codegen/src/declarations.rs:91-114 | one parameter: counts a `self`, refuses a second `self` or one outside an impl with the matching error, and otherwise yields that parameter's C text |
| Declarations.SignatureSpec | crates/amber_codegen/src/declarations.rs:66-82 | fails exactly when the parameters do, with their error; otherwise it is the C return type, the mangled name and the parameters in parentheses |
| Declarations.FunctionSignature | crates/amber_codegen/src/declarations.rs:66-82 | computes `SignatureSpec` |
| Declarations.FunctionErrors | crates/amber_codegen/src/declarations.rs:23-51 | a signature error comes first; an extern function with a body fails with `ExternFunctionWithBody`; a non-extern one without a body fails with `MissingFunctionBody`; those errors occur only in those cases |
| Declarations.FunctionLines | crates/amber_codegen/src/declarations.rs:23-51 | a prototype is `extern <sig>;` and a blank line; a definition is `<sig> {`, body lines indented one level, `}` and a blank line |
| Declarations.EmitFunction | crates/amber_codegen/src/declarations.rs:23-51 | appends exactly the function's emission lines and returns its outcome |
| Declarations.MethodSteps | crates/amber_codegen/src/declarations.rs:53-64 | one emission per method, in declared order |
| Declarations.ExternMethodStopsImpl | crates/amber_codegen/src/declarations.rs:56-59 | the first extern method stops the impl block with `ExternImplMethod(target, name)`, after the lines of the methods before it |
| Declarations.EmitMethod | crates/amber_codegen/src/declarations.rs:53-64 | appends exactly one method's emission lines and returns its outcome |
| Declarations.EmitImpl | crates/amber_codegen/src/declarations.rs:53-64 | appends exactly the impl block's emission lines and returns its outcome |
| Generator.ProgramSteps | crates/amber_codegen/src/statements.rs:7-12 | one emission per top-level statement, in program order |
| Generator.GenerateOutcome | crates/amber_codegen/src/lib.rs:14-18 | generation fails iff some top-level statement fails, and then with the first failure's error; on success the text is the header plus the lines of every statement in order |
| Generator.AllLinesEndBlank | crates/amber_codegen/src/statements.rs:7-12 | if every step ends with a blank line, so does the whole program |
| Generator.FunctionEndsBlank | crates/amber_codegen/src/declarations.rs:23-51 | a successfully emitted function has at least two lines and ends with a blank line |
| Generator.TopLevelEndsBlank | crates/amber_codegen/src/statements.rs:14-49 | every successful top-level statement ends with a blank line, which separates the declarations of the output |
| Generator.EmitLetBinding | crates/amber_codegen/src/statements.rs:37-49 | appends the binding line and a blank line, or fails with `MissingType` |
| Generator.EmitExprStatement | crates/amber_codegen/src/statements.rs:71-79 | appends the statement line and a blank line and never fails |
| Generator.EmitStatement | crates/amber_codegen/src/statements.rs:14-35 | appends exactly the top-level statement's emission lines and returns its outcome |
| Generator.EmitProgram | crates/amber_codegen/src/statements.rs:7-12 | appends exactly the program's emission lines, stopping at the first failing statement |
| Generator.EmitStep | crates/amber_codegen/src/statements.rs:8-10 | emitting the i-th statement appends exactly that statement's emission lines and returns its outcome |
| Generator.GenerateProgram | crates/amber_codegen/src/lib.rs:14-18 | computes `Generate`, the header plus the program's lines, or its first error |
| GeneratorSample.GenerateSample | crates/amber_codegen/src/lib.rs:35-133 | the struct/function/extern/impl/const sample program generates exactly the expected C text |
| GeneratorSample.SampleEmission | crates/amber_codegen/src/lib.rs:35-133 | the sample's emission is the concatenation of the lines of its five declarations |
| GeneratorSample.PointLines | crates/amber_codegen/src/lib.rs:38-50 | `Point` emits its typedef with two `int32_t` fields |
| GeneratorSample.AddLines | crates/amber_codegen/src/lib.rs:51-70 | `add` emits its definition returning `(a + b)` |
| GeneratorSample.DelayLines | crates/amber_codegen/src/lib.rs:71-80 | `HAL_Delay` emits an extern prototype |
| GeneratorSample.SumLines | crates/amber_codegen/src/lib.rs:84-104 | `sum` in `impl Point` becomes `Point_sum` with a `Point* self` first parameter |
| GeneratorSample.ResetLines | crates/amber_codegen/src/lib.rs:105-113 | `reset` becomes `void Point_reset(Point* self)` returning nothing |
| GeneratorSample.ImplLines | crates/amber_codegen/src/lib.rs:81-115 | the impl block emits its two methods in order |
| GeneratorSample.BaudLines | crates/amber_codegen/src/lib.rs:116-124 | the comptime constant becomes `const int32_t BAUD = 9600;` |
| ParseTree.LastWith | crates/amber_parser/src/stmt_parser.rs:18-41 | the index of the last child with a given rule (no later child has it); none iff no child has it |
| ParseTree.Filter | crates/amber_parser/src/lib.rs:40-44 | keeps no more than the children, and only children with the given rule |
| ParseTree.FilterMembers | crates/amber_parser/src/lib.rs:40-44 | every filtered child has the rule, and every child with the rule appears among the filtered ones |
| ParseTree.MapParse | crates/amber_parser/src/stmt_parser.rs:124-130 | mapping a builder over children succeeds iff it succeeds on each, giving one result per child in order |
| ParseTree.MapParseSnoc | crates/amber_parser/src/stmt_parser.rs:124-130 | mapping over one more child extends the results by that child's result, or panics when it does |
| Pratt.TierPrec | crates/amber_parser/src/pratt.rs:9-37 | every infix tier binds more weakly than the prefix operators |
| Pratt.OpTable | crates/amber_parser/src/pratt.rs:9-45 | the table holds exactly the infix and prefix rules, and the prefix entries are exactly those at the highest binding power |
| Pratt.TierOrder | crates/amber_parser/src/pratt.rs:11-37 | `\|\|` < `&&` < `\|` < `^` < `&` < comparisons < shifts < additive < multiplicative |
| Pratt.SharedTiers | crates/amber_parser/src/pratt.rs:22-37 | the six comparisons share one tier, as do the two shifts, `+`/`-`, and `*`/`/`/`%` |
| Pratt.PrefixBindsTightest | crates/amber_parser/src/pratt.rs:38-44 | every prefix operator binds tighter than every infix operator |
| ExprParser.BinaryOpOf | crates/amber_parser/src/expr_parser.rs:45-67 | an operator rule maps to a binary operator iff it is infix |
| ExprParser.BinaryOpBijection | crates/amber_parser/src/expr_parser.rs:45-67 | the 18 operator rules and the 18 binary operators correspond one to one |
| ExprParser.ParseBinaryOp | crates/amber_parser/src/expr_parser.rs:45-67 | succeeds iff the pair is an infix operator, and panics otherwise |
| ExprParser.PrefixOf | crates/amber_parser/src/expr_parser.rs:70-80 | a rule maps to a prefix operator iff it is a prefix rule, and never to dereference |
| ExprParser.ParseUnaryOp | crates/amber_parser/src/expr_parser.rs:70-80 | succeeds iff the pair is a prefix operator, giving a prefix operator other than dereference |
| ExprParser.IntLiteral | crates/amber_parser/src/expr_parser.rs:16-19 | succeeds iff the text parses as a 64-bit integer, giving that integer |
| ExprParser.FloatLiteral | crates/amber_parser/src/expr_parser.rs:20-29 | a trailing `f` makes a float and otherwise a double; the kept text is a prefix of the lexeme with the `f` suffixes removed |
| ExprParser.CharLiteral | crates/amber_parser/src/expr_parser.rs:34-37 | succeeds iff the lexeme has at least two UTF-8 bytes, giving the second byte as a character |
| ExprParser.CharLiteralAscii | crates/amber_parser/src/expr_parser.rs:235-249 | for an ASCII lexeme such as `'a'` the character is the one between the quotes |
| ExprParser.PrimaryShape | crates/amber_parser/src/expr_parser.rs:9-42 | an atom without a child panics; an integer, bool, char or identifier node reads from its text (a bool is `true` exactly for the text `true`; a char fails exactly when its lexeme does); a nested expression node reads through `parse_expr`; any other rule panics |
| ExprParser.ExprShape | crates/amber_parser/src/expr_parser.rs:83-122 | a node other than a ternary reads as an operator expression; a ternary without children panics; a ternary with a `?` after its condition that reads is a conditional expression and had all five children |
| ExprParser.MathShape | crates/amber_parser/src/expr_parser.rs:125-145 | an operator expression without children panics, and one that reads starts with an operand, not an infix operator |
| ExprParser.NudNotInfix | crates/amber_parser/src/expr_parser.rs:128-135 | an operand is never read from an infix operator |
| ExprParser.Climb | crates/amber_parser/src/expr_parser.rs:125-145 | each successful parse step consumes at least one pair and stays within the pairs |
| ExprParser.Nud | crates/amber_parser/src/expr_parser.rs:128-135 | reading an operand consumes at least one pair |
| ExprParser.Led | crates/amber_parser/src/expr_parser.rs:136-144 | reading operators never moves backwards or past the end |
| ExprFacts.ExprBuildable | crates/amber_parser/src/expr_parser.rs:83-122 | the builder never produces a dereference or a postfix index |
| ExprFacts.PrimaryBuildable | crates/amber_parser/src/expr_parser.rs:9-42 | neither does any primary |
| ExprFacts.MathBuildable | crates/amber_parser/src/expr_parser.rs:125-145 | neither does any operator expression |
| ExprFacts.ClimbReadsAll | crates/amber_parser/src/expr_parser.rs:125-145 | a successful top-level parse consumes every pair of the expression |
| ExprFacts.LedReadsAll | crates/amber_parser/src/expr_parser.rs:136-144 | below the lowest tier, the operator loop runs to the end of the pairs |
| ExprFacts.TernaryShape | crates/amber_parser/src/expr_parser.rs:86-116 | a ternary node without a `?` is its condition; with a `?` it needs then and else nodes at positions 2 and 4, and panics without them |
| ExprFacts.TwoOperands | crates/amber_parser/src/expr_parser.rs:125-145 | `a op b` parses to the binary expression of its operands |
| ExprFacts.ThreeOperands | crates/amber_parser/src/expr_parser.rs:125-145 | `a op1 b op2 c` groups as `a op1 (b op2 c)` exactly when `op2` binds tighter than `op1`, and as `(a op1 b) op2 c` otherwise |
| ExprFacts.PrefixBindsOperand | crates/amber_parser/src/pratt.rs:38-44 | `-a op b` applies the prefix to `a` alone |
| ExprFacts.PrecedenceExample | crates/amber_parser/src/expr_parser.rs:152-184 | `1 + 2 * 3` parses as `1 + (2 * 3)` |
| ExprFacts.ParenthesisExample | crates/amber_parser/src/expr_parser.rs:186-200 | `(1 + 2) * 3` parses as `(1 + 2) * 3` |
| ExprFacts.ParenthesesGroup | crates/amber_parser/src/expr_parser.rs:9-15 | a parenthesised operation is the left operand of the operator that follows it, whatever the binding powers of the two operators |
| ExprFacts.AtomReadsInner | crates/amber_parser/src/expr_parser.rs:11-15 | a parenthesised expression reads as the expression inside it |
| ExprFacts.InfixReads | crates/amber_parser/src/expr_parser.rs:45-67 | an operator pair reads as the operator its rule names |
| ExprLayout.MathReadsLayout | crates/amber_parser/src/expr_parser.rs:125-145 | the operator parser reads a well-formed operand/operator layout back as its left-grouped value: precedence and left associativity |
| ExprLayout.ChainRead | crates/amber_parser/src/pratt.rs:9-45 | a well-formed chain whose operators all bind tighter than the current power is read completely, up to where a weaker operator stops it |
| ExprLayout.OperandRead | crates/amber_parser/src/expr_parser.rs:128-135 | a run of prefix operators followed by a primary reads as the nested unary expressions |
| TypeParser.KeywordType | crates/amber_parser/src/utils.rs:29-42 | a keyword names its builtin type; any other name is a named type |
| TypeParser.KeywordRoundTrip | crates/amber_parser/src/utils.rs:29-42 | each keyword type is read back from its keyword |
| TypeParser.FloatsAreNamed | crates/amber_parser/src/utils.rs:29-43 | `f32` and `f64` have no keyword arm, so they become named types |
| TypeParser.ParseType | crates/amber_parser/src/utils.rs:8-46 | a successful parse gives a type the builder can produce: a keyword type, a named type, or pointers to them (the pointer's mutability comes from its `mut` keyword child) |
| TypeParser.ParseTypeAsWritten | crates/amber_parser/src/utils.rs:17-28 | the mutability test as written is a substring search of the pointer's text for `mut`; it succeeds on the same inputs as `ParseType` |
| TypeParser.LayoutRoundTrip | crates/amber_parser/src/utils.rs:8-46 | every producible type is read back from its parse-tree layout |
| TypeParser.PointerLayout | crates/amber_parser/src/utils.rs:17-28 | a pointer layout is read back with its mutability and pointee |
| TypeParser.PointerParses | crates/amber_parser/src/utils.rs:17-28 | a pointer node is a pointer to its first non-`mut` child's type, mutable exactly when it has a `mut` child |
| TypeParser.PointerParsesAsWritten | crates/amber_parser/src/utils.rs:17-28 | as written, a pointer node is mutable exactly when its text contains `mut` |
| TypeParser.MutSubstringAsWritten | crates/amber_parser/src/utils.rs:18 | `*mutex_t` is an immutable pointer, read back as such by `ParseType` and as mutable by the code as written |
| TypeParser.MutPointerExample | crates/amber_parser/src/utils.rs:54-66 | `*mut u32` is a mutable pointer to `u32` for both readings |
| StmtParser.ModifierOf | crates/amber_parser/src/stmt_parser.rs:20-26 | a modifier is recognised iff the text is `comptime` or `runtime` |
| StmtParser.ModifierRoundTrip | crates/amber_parser/src/stmt_parser.rs:20-26 | the modifier keyword and the modifier determine each other |
| StmtParser.DeclarationOf | crates/amber_parser/src/stmt_parser.rs:9-50 | succeeds iff every type and value child parses; a type is present iff there is a type child, a value iff there is an expression child; a modifier or mutability comes only from its child |
| StmtParser.DeclarationSpec | crates/amber_parser/src/stmt_parser.rs:9-50 | a declaration gives a binding |
| StmtParser.BindingSnoc | crates/amber_parser/src/stmt_parser.rs:18-41 | the binding of one more child is the old binding updated by that child, where the last child of each kind wins |
| StmtParser.ReadPart | crates/amber_parser/src/stmt_parser.rs:19-40 | one loop step succeeds iff the child parses, and updates exactly its field |
| StmtParser.ParseDeclaration | crates/amber_parser/src/stmt_parser.rs:9-50 | the loop over the children computes `DeclarationSpec` |
| StmtParser.ParseAssignment | crates/amber_parser/src/stmt_parser.rs:53-65 | succeeds iff there is a target and a parsable value; the target is the first child's text |
| StmtParser.ParseReturn | crates/amber_parser/src/stmt_parser.rs:68-72 | a bare return iff there is no child; otherwise it succeeds iff the expression parses |
| StmtParser.ParseExprStmt | crates/amber_parser/src/stmt_parser.rs:75-78 | succeeds iff the first child parses, giving that expression |
| StmtParser.ParseIfStmt | crates/amber_parser/src/stmt_parser.rs:81-108 | gives an if/else statement |
| StmtParser.IfStmtShape | crates/amber_parser/src/stmt_parser.rs:81-108 | panics with fewer than two children; otherwise succeeds iff the first child's expression, the second child's block and a block or `if` third child all parse; the result's condition is the first child's expression, its then-block the second child's block, and its else-block the third child's block, a block holding just the nested `if` for an `if` child, or none when there is no third child or it is anything else |
| StmtParser.ElseIf | crates/amber_parser/src/stmt_parser.rs:90-96 | an `else if` becomes an else block holding exactly the nested if statement |
| StmtParser.ParseWhileStmt | crates/amber_parser/src/stmt_parser.rs:111-121 | gives a while loop |
| StmtParser.WhileStmtShape | crates/amber_parser/src/stmt_parser.rs:111-121 | panics with fewer than two children; otherwise succeeds iff the first child's expression and the second child's block parse, and the loop's condition and body are exactly those |
| StmtParser.BlockShape | crates/amber_parser/src/stmt_parser.rs:124-130 | a block holds one statement per child, none of which is a struct, function or impl definition |
| StmtParser.StatementsShape | crates/amber_parser/src/stmt_parser.rs:124-130 | the same for the statement list of a block |
| StmtParser.ParseBlockStatement | crates/amber_parser/src/stmt_parser.rs:133-143 | never gives a struct, function or impl definition |
| StmtParser.StatementsInOrder | crates/amber_parser/src/stmt_parser.rs:124-130 | a block succeeds iff each statement does, giving one statement per child in order |
| StmtParser.BlockStatementNested | crates/amber_parser/src/stmt_parser.rs:133-143 | no definition appears anywhere inside a parsed block statement, however deeply nested |
| StmtParser.BlockNested | crates/amber_parser/src/stmt_parser.rs:124-130 | the same for a parsed block |
| StmtParser.IfNested | crates/amber_parser/src/stmt_parser.rs:81-108 | the same for a parsed if statement |
| StmtParser.StatementsNested | crates/amber_parser/src/stmt_parser.rs:124-130 | the same for every statement of a block |
| DeclParser.ParseStructField | crates/amber_parser/src/decl_parser.rs:29-42 | succeeds iff there is a name and a parsable type; the name is the first child's text |
| DeclParser.StructSpec | crates/amber_parser/src/decl_parser.rs:10-26 | succeeds iff there is a name and every field list parses; fields come only from a field list |
| DeclParser.FieldsSnoc | crates/amber_parser/src/decl_parser.rs:19-23 | a later field list replaces the fields read so far |
| DeclParser.ParseStruct | crates/amber_parser/src/decl_parser.rs:10-26 | the loop computes `StructSpec` |
| DeclParser.FieldRoundTrip | crates/amber_parser/src/decl_parser.rs:29-42 | a field is read back from its layout, under the keyword-child pointer reading |
| DeclParser.StructRoundTrip | crates/amber_parser/src/decl_parser.rs:10-42 | a struct is read back from its layout, with its fields in order, under the keyword-child pointer reading |
| DeclParser.ParseParam | crates/amber_parser/src/decl_parser.rs:85-95 | a typed parameter carries a producible type |
| DeclParser.ParseTypedParam | crates/amber_parser/src/decl_parser.rs:98-110 | succeeds iff there is a name and a parsable type |
| DeclParser.ParamRoundTrip | crates/amber_parser/src/decl_parser.rs:85-110 | `self` and typed parameters are read back from their layouts, under the keyword-child pointer reading |
| DeclParser.ParamsRoundTrip | crates/amber_parser/src/decl_parser.rs:56-58 | a parameter list is read back in order |
| DeclParser.BodyPart | crates/amber_parser/src/decl_parser.rs:64-70 | a body is present iff some child is a function body holding a block |
| DeclParser.FunctionSpec | crates/amber_parser/src/decl_parser.rs:45-82 | succeeds iff every part parses; extern iff an extern child, a return type iff a return child, a body iff a block body; parameters only from a parameter list |
| DeclParser.FunctionSnoc | crates/amber_parser/src/decl_parser.rs:52-73 | the function of one more child is the old one updated by that child |
| DeclParser.ReadFunctionPart | crates/amber_parser/src/decl_parser.rs:53-72 | one loop step succeeds iff the child parses and updates exactly its part |
| DeclParser.ParseFunction | crates/amber_parser/src/decl_parser.rs:45-82 | the loop computes `FunctionSpec` |
| DeclParser.FunctionRoundTrip | crates/amber_parser/src/decl_parser.rs:45-82 | every function is read back from its layout: extern flag, name, parameters, return type and body, under the keyword-child pointer reading |
| DeclParser.ParseImpl | crates/amber_parser/src/decl_parser.rs:113-126 | succeeds iff there is a target and every function definition parses; one method per definition, in order |
| DeclParser.ImplParsesTo | crates/amber_parser/src/decl_parser.rs:113-126 | an impl node whose definitions all parse is read as its first child's text and those methods |
| DeclParser.ImplRoundTrip | crates/amber_parser/src/decl_parser.rs:113-126 | an impl block is read back from its layout, under the keyword-child pointer reading |
| DeclParser.MethodsRoundTrip | crates/amber_parser/src/decl_parser.rs:119-123 | the methods are read back in order |
| AstBuilder.ParseStatement | crates/amber_parser/src/lib.rs:54-69 | a statement has a first child; it is a struct, function or impl exactly when that child is the matching definition |
| AstBuilder.TopLevelAgreesWithBlock | crates/amber_parser/src/lib.rs:54-69 | for all other kinds the top-level reader agrees with the block reader |
| AstBuilder.ProgramOf | crates/amber_parser/src/lib.rs:40-45 | succeeds iff every statement child parses; one statement per statement child, in order |
| AstBuilder.BuildSpec | crates/amber_parser/src/lib.rs:33-46 | a syntax error is passed on with its message; an empty parse panics; otherwise the program of the first pair |
| AstBuilder.BuildAst | crates/amber_parser/src/lib.rs:33-46 | the loop computes `BuildSpec` |
| AstBuilder.BuildAstWithName | crates/amber_parser/src/lib.rs:48-52 | the name is ignored: the result is that of `BuildAst` |
| ParseErrors.LocationToSpan | crates/amber_parser/src/error.rs:44-52 | a position is an empty span there; a range starts at its start and ends at its end, or is empty when reversed (saturating subtraction) |
| ParseErrors.SpanWithinText | crates/amber_parser/src/error.rs:44-52 | a location inside the text gives a span inside the text |
| ParseErrors.FromEngine | crates/amber_parser/src/error.rs:28-41 | a syntax error keeps the engine error and input, uses the name as both error and source name, and its span starts at the location |
| ParseErrors.Message | crates/amber_parser/src/error.rs:9-15 | the I/O message is fixed; the syntax message is `parse error in <name>: <engine message>` |
| BuilderExamples.LiteralExpression | crates/amber_parser/src/expr_parser.rs:16-19 | an expression of one integer literal gives that integer |
| BuilderExamples.BaudExample | crates/amber_parser/src/stmt_parser.rs:174-191 | `comptime const baud = 9600` gives an immutable comptime binding with that value and no type |
| BuilderExamples.PointExample | crates/amber_parser/src/decl_parser.rs:134-152 | the `Point` struct with two `i32` fields is read back |
| BuilderExamples.HalDelayExample | crates/amber_parser/src/decl_parser.rs:154-190 | `extern fn HAL_Delay(ms: u32);` gives an extern function without a body |
| BuilderExamples.AddExample | crates/amber_parser/src/decl_parser.rs:154-190 | `fn add(a: i32, b: i32) -> i32 { ... }` gives the function with its body |
| BuilderExamples.ImplExample | crates/amber_parser/src/decl_parser.rs:192-223 | an impl with `new` and `translate(self, ...)` gives both methods in order |
| BuilderExamples.TopLevelAssignment | crates/amber_codegen/src/statements.rs:28-33 | the builder accepts an assignment at top level, which the generator then rejects |

## Left out

- The grammar engine is a parameter. The parse tree is given as `ParseTree.Pair` values, and
  the engine's outcome as `Result<seq<Pair>, string>`. `grammar.pest` and the engine's own
  precedence-climbing loop are not part of this model. `ExprParser.Climb`, `Nud` and `Led`
  model that loop as the operator table of `pratt.rs` drives it.
- `parse_source` (`crates/amber_parser/src/lib.rs:19-31`) only prints the tree; printing is
  not modelled.
- `ParseErrors.Message`: the engine's own error text is taken as a given string. Rendering a
  diagnostic (source snippets, labels) is not modelled.
- The `std::io::Error` carried by `ParseError::Io` is opaque and is modelled as a reason
  string.
- Floating-point values are not modelled. A float literal keeps its lexeme text without the
  `f` suffix. Code generation prints that text.
  - `ExprParser.FloatLiteral` does not model the conversion to `f32`/`f64` or the printing of
    the converted value. Text such as `1.50` would print as `1.5` in the source. The panic of
    `cleaned.parse::<f64>().unwrap()` (`crates/amber_parser/src/expr_parser.rs:23`) on text
    that is not a number is dropped too, so `FloatLiteral` never fails.
- The AST has pointer, array and named types (`crates/amber_ast/src/types/mod.rs`). The
  generator's `Type` has only the builtin and custom types, and `type_to_c`
  (`crates/amber_codegen/src/types.rs:18-33`) matches every one of them. The precondition
  `IsBuiltinType` excludes the AST variants that this `Type` does not have; how the AST's
  types reach the generator's `Type` is not part of this model.
- `CodegenError`'s `Display` is modelled. The `miette` diagnostic codes are not.
- Facts about the code that the model follows:
  - the builder never produces a dereference or an index (`ExprFacts.ExprBuildable`);
  - there are 18 binary operators (`ExprParser.BinaryOpBijection`);
  - `parse_type` has no `f32`/`f64` keyword arm (`TypeParser.FloatsAreNamed`);
  - an assignment's target is a string, the text of its first child
    (`crates/amber_ast/src/stmt/mod.rs:23`);
  - the builder accepts an assignment, `return`, `if` or `while` at top level, and the
    generator panics on it (`BuilderExamples.TopLevelAssignment`).
- `StmtParser.DeclarationOf`, `StmtParser.ParseDeclaration`, `DeclParser.ParseStructField`,
  `DeclParser.StructSpec`, `DeclParser.ParseStruct`, `DeclParser.ParseTypedParam`,
  `DeclParser.FunctionSpec`, `DeclParser.ParseFunction` and `DeclParser.ParseImpl` read types
  with `TypeParser.ParseType`, where a pointer is mutable exactly when it has a `mut` keyword
  child. The code as written (`crates/amber_parser/src/utils.rs:18`, modelled by
  `TypeParser.ParseTypeAsWritten`) tests the pointer's text for the substring `mut`. The two
  readings differ on such inputs as `p: **mut u8`, whose outer pointer the code as written
  reads as mutable, and `*mutex_t` (see "## Findings"). The round-trip lemmas
  `DeclParser.FieldRoundTrip`, `StructRoundTrip`, `ParamRoundTrip`, `FunctionRoundTrip` and
  `ImplRoundTrip` hold under the keyword-child reading.
- `DeclParser.ParseImpl` and `AstBuilder.ParseStatement` call the specification functions
  `FunctionSpec` and `StructSpec`. Functions cannot call the loop methods; each method is
  proved equal to its specification function.

## Findings

| source | as written | input that shows it | evidently intended | confidence | as-written member | corrected member |
|---|---|---|---|---|---|---|
| crates/amber_parser/src/utils.rs:18 | a pointer type is mutable when its text contains the substring `mut` | `*mutex_t`, an immutable pointer to a type named `mutex_t`, is read as `*mut mutex_t` | mutable exactly when the grammar's `mut` keyword is present | high, not executed | TypeParser.MutSubstringAsWritten | TypeParser.LayoutRoundTrip |
