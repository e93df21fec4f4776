/** The generator's worked example (crates/amber_codegen/src/lib.rs:35-133):
    a struct, a function, an extern prototype, an impl with two methods and
    a compile-time constant, and the exact C text they become. */
module GeneratorSample {
  import opened Outcomes
  import opened Text
  import opened Types
  import opened Literals
  import opened Ast
  import opened CodegenErrors
  import opened Buffer
  import opened Emissions
  import opened Statements
  import opened Declarations
  import opened Generator
  import opened CTypes
  import opened Render

  function Add(l: string, r: string): Expression
  {
    BinaryExpr(Identifier(l), BinaryOp.Add, Identifier(r))
  }

  function ReturnBlock(e: Expression): Block
  {
    Block([Return(Some(e))])
  }

  const PointDef: Statement :=
    Struct(StructDef("Point", [StructField("x", I32), StructField("y", I32)]))

  const AddFunction: Statement :=
    FunctionDef(Function("add", [Typed("a", I32), Typed("b", I32)], Some(I32), Some(ReturnBlock(Add("a", "b"))), false))

  const DelayPrototype: Statement :=
    FunctionDef(Function("HAL_Delay", [Typed("ms", U32)], None, None, true))

  const PointImpl: Statement :=
    Impl(ImplBlock("Point", [
      Function("sum", [SelfParam, Typed("x", I32), Typed("y", I32)], Some(I32), Some(ReturnBlock(Add("x", "y"))), false),
      Function("reset", [SelfParam], None, Some(Block([Return(None)])), false)
    ]))

  const BaudConstant: Statement :=
    Binding(LetBinding(Some(Comptime), false, "BAUD", Some(I32), Some(Lit(Numeric(Integer(9600))))))

  const Sample: Program := Program([PointDef, AddFunction, DelayPrototype, PointImpl, BaudConstant])

  // The lines each item of the example becomes, and the same lines as text.

  const PointC: seq<string> := ["typedef struct {", "    int32_t x;", "    int32_t y;", "} Point;", ""]
  const AddC: seq<string> := ["int32_t add(int32_t a, int32_t b) {", "    return (a + b);", "}", ""]
  const DelayC: seq<string> := ["extern void HAL_Delay(uint32_t ms);", ""]
  const SumC: seq<string> := ["int32_t Point_sum(Point* self, int32_t x, int32_t y) {", "    return (x + y);", "}", ""]
  const ResetC: seq<string> := ["void Point_reset(Point* self) {", "    return;", "}", ""]
  const BaudC: seq<string> := ["const int32_t BAUD = 9600;", ""]

  const PointT: string := "typedef struct {\n" + "    int32_t x;\n" + "    int32_t y;\n" + "} Point;\n" + "\n"
  const AddT: string := "int32_t add(int32_t a, int32_t b) {\n" + "    return (a + b);\n" + "}\n" + "\n"
  const DelayT: string := "extern void HAL_Delay(uint32_t ms);\n" + "\n"
  const SumT: string := "int32_t Point_sum(Point* self, int32_t x, int32_t y) {\n" + "    return (x + y);\n" + "}\n" + "\n"
  const ResetT: string := "void Point_reset(Point* self) {\n" + "    return;\n" + "}\n" + "\n"
  const BaudT: string := "const int32_t BAUD = 9600;\n" + "\n"

  /** The expected output of the example (crates/amber_codegen/src/lib.rs:130). */
  const SampleText: string :=
    "#include <stdint.h>\n" + "#include <stdbool.h>\n" + "\n" + PointT + AddT + DelayT + SumT + ResetT + BaudT

  lemma SampleOk()
    ensures ProgramOk(Sample)
  {
  }

  // ---------------------------------------------------------------------------
  // Item by item

  lemma PointLines()
    ensures TopLevelEmission(PointDef) == Done(PointC)
  {
    var def := PointDef.def;
    assert TypeToC(I32) == "int32_t";
    assert FieldLine(def.fields[0]) == "    int32_t x;";
    assert FieldLine(def.fields[1]) == "    int32_t y;";
    var lines := StructLines(def);
    assert |lines| == 5;
    assert lines[1] == "    int32_t x;" && lines[2] == "    int32_t y;";
    assert lines[3] == "} Point;";
  }

  lemma ReturnBlockLines(e: Expression)
    ensures BlockOk(ReturnBlock(e))
    ensures BlockEmission(ReturnBlock(e), 1) == Done(["    return " + RenderExpr(e) + ";"])
  {
    var s := Return(Some(e));
    var x := RenderExpr(e);
    assert Indentation(1) == "    ";
    assert "    " + ("return " + x + ";") == "    return " + x + ";" by {
      assert "    " + "return " == "    return ";
    }
    var step := BlockStatementEmission(s, 1);
    assert step == Done(["    return " + x + ";"]);
    var steps := StatementSteps([s], 1);
    assert steps == [step];
    SequenceSingle(step);
  }

  lemma AddRendering(l: string, r: string)
    ensures RenderExpr(Add(l, r)) == "(" + l + " + " + r + ")"
  {
  }

  /** A function whose body returns `e` opens with its signature, returns
      `e` at indentation level 1, and closes. */
  lemma ReturningFunctionLines(f: Function, target: Option<string>, e: Expression)
    requires !f.isExtern && f.body == Some(ReturnBlock(e))
    requires SignatureTypesOk(f)
    requires SignatureSpec(f, target).Ok?
    ensures FunctionOk(f)
    ensures FunctionEmission(f, target)
      == Done([SignatureSpec(f, target).value + " {", "    return " + RenderExpr(e) + ";", "}", ""])
  {
    ReturnBlockLines(e);
  }

  lemma AddParams()
    ensures FormatParamsSpec([Typed("a", I32), Typed("b", I32)], None) == Ok("int32_t a, int32_t b")
  {
    var ps := [Typed("a", I32), Typed("b", I32)];
    assert SelfCount(ps) == 0;
    assert TypeToC(I32) == "int32_t";
    var texts := ParamTexts(ps, None);
    assert texts[0] == ParamText(Typed("a", I32), None) == "int32_t a";
    assert texts[1] == ParamText(Typed("b", I32), None) == "int32_t b";
    assert texts[1..] == ["int32_t b"];
    assert "int32_t a" + ", " + "int32_t b" == "int32_t a, int32_t b";
  }

  lemma AddSignatureText()
    ensures "int32_t" + " " + "add" + "(" + "int32_t a, int32_t b" + ")" == "int32_t add(int32_t a, int32_t b)"
  {
  }

  lemma AddSignature()
    ensures SignatureSpec(AddFunction.func, None) == Ok("int32_t add(int32_t a, int32_t b)")
  {
    var f := AddFunction.func;
    AddParams();
    assert TypeToCOpt(f.returnType) == "int32_t";
    assert MangledName(f.name, None) == "add";
    AddSignatureText();
  }

  lemma AddBodyText()
    ensures "int32_t add(int32_t a, int32_t b)" + " {" == "int32_t add(int32_t a, int32_t b) {"
    ensures "    return " + ("(" + "a" + " + " + "b" + ")") + ";" == "    return (a + b);"
  {
    assert "(" + "a" + " + " + "b" + ")" == "(a + b)";
  }

  lemma AddLines()
    ensures TopLevelEmission(AddFunction) == Done(AddC)
  {
    AddSignature();
    ReturningFunctionLines(AddFunction.func, None, Add("a", "b"));
    AddRendering("a", "b");
    AddBodyText();
  }

  lemma DelaySignatureText()
    ensures "void" + " " + "HAL_Delay" + "(" + "uint32_t ms" + ")" == "void HAL_Delay(uint32_t ms)"
  {
  }

  lemma DelaySignature()
    ensures SignatureSpec(DelayPrototype.func, None) == Ok("void HAL_Delay(uint32_t ms)")
  {
    var f := DelayPrototype.func;
    assert SelfCount(f.params) == 0;
    assert TypeToC(U32) == "uint32_t";
    var texts := ParamTexts(f.params, None);
    assert texts[0] == ParamText(Typed("ms", U32), None) == "uint32_t ms";
    assert FormatParamsSpec(f.params, None) == Ok("uint32_t ms");
    assert TypeToCOpt(f.returnType) == "void";
    assert MangledName(f.name, None) == "HAL_Delay";
    DelaySignatureText();
  }

  lemma DelayLineText()
    ensures "extern " + "void HAL_Delay(uint32_t ms)" + ";" == "extern void HAL_Delay(uint32_t ms);"
  {
  }

  lemma DelayLines()
    ensures TopLevelEmission(DelayPrototype) == Done(DelayC)
  {
    DelaySignature();
    DelayLineText();
  }

  lemma SumParams()
    ensures FormatParamsSpec([SelfParam, Typed("x", I32), Typed("y", I32)], Some("Point"))
      == Ok("Point* self, int32_t x, int32_t y")
  {
    SumSelfCount();
    SumParamTexts();
    JoinThree("Point* self", "int32_t x", "int32_t y", ", ");
    SumParamsText();
  }

  lemma SumSelfCount()
    ensures SelfCount([SelfParam, Typed("x", I32), Typed("y", I32)]) == 1
  {
    var ps := [SelfParam, Typed("x", I32), Typed("y", I32)];
    assert ps[..2][..1] == [SelfParam];
    assert ps[..2] == [SelfParam, Typed("x", I32)];
    assert SelfCount(ps[..2]) == 1;
  }

  lemma SumParamTexts()
    ensures ParamTexts([SelfParam, Typed("x", I32), Typed("y", I32)], Some("Point"))
      == ["Point* self", "int32_t x", "int32_t y"]
  {
    var ps := [SelfParam, Typed("x", I32), Typed("y", I32)];
    SumSelfCount();
    assert TypeToC(I32) == "int32_t";
    var texts := ParamTexts(ps, Some("Point"));
    assert texts[0] == ParamText(SelfParam, Some("Point")) == "Point* self";
    assert texts[1] == ParamText(Typed("x", I32), Some("Point")) == "int32_t x";
    assert texts[2] == ParamText(Typed("y", I32), Some("Point")) == "int32_t y";
  }

  lemma JoinThree(a: string, b: string, c: string, sep: string)
    ensures Join([a, b, c], sep) == a + sep + (b + sep + c)
  {
    assert [b, c][1..] == [c];
    assert Join([b, c], sep) == b + sep + c;
    assert [a, b, c][1..] == [b, c];
  }

  lemma SumParamsText()
    ensures "Point* self" + ", " + ("int32_t x" + ", " + "int32_t y") == "Point* self, int32_t x, int32_t y"
  {
  }

  lemma SumSignatureText()
    ensures "int32_t Point_sum(" + "Point* self, int32_t x, int32_t y" + ")"
      == "int32_t Point_sum(Point* self, int32_t x, int32_t y)"
  {
  }

  lemma SumSignature()
    ensures SignatureSpec(PointImpl.implBlock.methods[0], Some("Point"))
      == Ok("int32_t Point_sum(Point* self, int32_t x, int32_t y)")
  {
    var f := PointImpl.implBlock.methods[0];
    SumParams();
    SumSignatureText();
    assert TypeToCOpt(f.returnType) == "int32_t";
    assert MangledName(f.name, Some("Point")) == "Point_sum";
    SumSignatureHead();
  }

  lemma SumSignatureHead()
    ensures "int32_t" + " " + "Point_sum" + "(" == "int32_t Point_sum("
  {
  }

  lemma SumBodyText()
    ensures "int32_t Point_sum(Point* self, int32_t x, int32_t y)" + " {"
      == "int32_t Point_sum(Point* self, int32_t x, int32_t y) {"
    ensures "    return " + ("(" + "x" + " + " + "y" + ")") + ";" == "    return (x + y);"
  {
    assert "(" + "x" + " + " + "y" + ")" == "(x + y)";
  }

  lemma SumLines()
    ensures FunctionOk(PointImpl.implBlock.methods[0])
    ensures MethodEmission(PointImpl.implBlock.methods[0], "Point") == Done(SumC)
  {
    SumSignature();
    ReturningFunctionLines(PointImpl.implBlock.methods[0], Some("Point"), Add("x", "y"));
    AddRendering("x", "y");
    SumBodyText();
  }

  lemma ResetSignatureText()
    ensures "void" + " " + "Point_reset" + "(" + "Point* self" + ")" == "void Point_reset(Point* self)"
  {
  }

  lemma ResetSignature()
    ensures SignatureSpec(PointImpl.implBlock.methods[1], Some("Point")) == Ok("void Point_reset(Point* self)")
  {
    var f := PointImpl.implBlock.methods[1];
    assert SelfCount(f.params) == 1;
    var texts := ParamTexts(f.params, Some("Point"));
    assert texts[0] == ParamText(SelfParam, Some("Point")) == "Point* self";
    assert FormatParamsSpec(f.params, Some("Point")) == Ok("Point* self");
    assert TypeToCOpt(f.returnType) == "void";
    assert MangledName(f.name, Some("Point")) == "Point_reset";
    ResetSignatureText();
  }

  lemma ReturnNothingLines()
    ensures BlockOk(Block([Return(None)]))
    ensures BlockEmission(Block([Return(None)]), 1) == Done(["    return;"])
  {
    var s := Return(None);
    assert Indentation(1) == "    ";
    assert "    " + "return;" == "    return;";
    assert BlockStatementEmission(s, 1) == Done(["    return;"]);
    assert StatementSteps([s], 1) == [BlockStatementEmission(s, 1)];
    SequenceSingle(BlockStatementEmission(s, 1));
  }

  lemma ResetLines()
    ensures FunctionOk(PointImpl.implBlock.methods[1])
    ensures MethodEmission(PointImpl.implBlock.methods[1], "Point") == Done(ResetC)
  {
    ResetSignature();
    ReturnNothingLines();
    assert "void Point_reset(Point* self)" + " {" == "void Point_reset(Point* self) {";
  }

  lemma TwoSteps(a: seq<string>, b: seq<string>)
    ensures Sequence([Done(a), Done(b)]) == Done(a + b)
  {
    var steps := [Done(a), Done(b)];
    assert steps[..1] == [steps[0]];
    SequenceSingle(steps[0]);
    SequenceSnoc(steps, 1);
    assert steps[..2] == steps;
  }

  lemma PointImplSteps()
    ensures ImplOk(PointImpl.implBlock)
    ensures MethodSteps(PointImpl.implBlock) == [Done(SumC), Done(ResetC)]
  {
    SumLines();
    ResetLines();
    assert ImplOk(PointImpl.implBlock);
  }

  lemma ImplLines()
    ensures TopLevelEmission(PointImpl) == Done(SumC + ResetC)
  {
    PointImplSteps();
    TwoSteps(SumC, ResetC);
  }

  lemma BaudValue()
    ensures NatToString(9600) == "9600"
  {
    assert NatToString(9) == "9";
    assert NatToString(96) == NatToString(9) + "6";
    assert NatToString(960) == NatToString(96) + "0";
    assert NatToString(9600) == NatToString(960) + "0";
  }

  lemma BaudLineText()
    ensures "const " + "int32_t" + " " + "BAUD" + (" = " + "9600") + ";" == "const int32_t BAUD = 9600;"
  {
  }

  lemma BaudLines()
    ensures TopLevelEmission(BaudConstant) == Done(BaudC)
  {
    var lb := BaudConstant.binding;
    assert BindingQualifier(lb.modifier, lb.isMutable) == "const ";
    assert TypeToC(I32) == "int32_t";
    BaudValue();
    assert RenderExpr(lb.value.value) == "9600";
    assert RenderLetBindingLine(lb).Ok?;
    assert RenderLetBindingLine(lb).value == "const " + "int32_t" + " " + "BAUD" + (" = " + "9600") + ";";
    BaudLineText();
  }

  // ---------------------------------------------------------------------------
  // The whole program

  /** Every line followed by a newline. */
  function Terminated(ls: seq<string>): string
  {
    if |ls| == 0 then "" else Terminated(ls[..|ls| - 1]) + ls[|ls| - 1] + "\n"
  }

  lemma {:induction false} JoinTerminated(ls: seq<string>)
    requires |ls| >= 1
    ensures Join(ls, "\n") + "\n" == Terminated(ls)
  {
    var n := |ls| - 1;
    if n == 0 {
      assert Terminated(ls[..0]) == "";
    } else {
      var init := ls[..n];
      assert ls == init + [ls[n]];
      JoinSnoc(init, ls[n], "\n");
      JoinTerminated(init);
    }
  }

  lemma {:induction false} TerminatedConcat(a: seq<string>, b: seq<string>)
    ensures Terminated(a + b) == Terminated(a) + Terminated(b)
  {
    if |b| == 0 {
      assert a + b == a;
    } else {
      var init := b[..|b| - 1];
      var last := b[|b| - 1];
      assert (a + b)[..|a + b| - 1] == a + init;
      assert (a + b)[|a + b| - 1] == last;
      TerminatedConcat(a, init);
      AppendAssoc(Terminated(a), Terminated(init), last);
      AppendAssoc(Terminated(a), Terminated(init) + last, "\n");
    }
  }

  lemma TerminatedSnoc(ls: seq<string>, x: string)
    ensures Terminated(ls + [x]) == Terminated(ls) + (x + "\n")
  {
    assert (ls + [x])[..|ls|] == ls;
    AppendAssoc(Terminated(ls), x, "\n");
  }

  lemma SampleSteps()
    ensures ProgramOk(Sample)
    ensures ProgramSteps(Sample) == [Done(PointC), Done(AddC), Done(DelayC), Done(SumC + ResetC), Done(BaudC)]
  {
    SampleOk();
    PointLines();
    AddLines();
    DelayLines();
    ImplLines();
    BaudLines();
    var steps := ProgramSteps(Sample);
    assert steps[0] == Done(PointC) && steps[1] == Done(AddC) && steps[2] == Done(DelayC);
    assert steps[3] == Done(SumC + ResetC) && steps[4] == Done(BaudC);
    FiveElements(steps, Done(PointC), Done(AddC), Done(DelayC), Done(SumC + ResetC), Done(BaudC));
  }

  lemma FiveElements<T>(s: seq<T>, a: T, b: T, c: T, d: T, e: T)
    requires |s| == 5 && s[0] == a && s[1] == b && s[2] == c && s[3] == d && s[4] == e
    ensures s == [a, b, c, d, e]
  {
  }

  lemma FiveSteps(a: seq<string>, b: seq<string>, c: seq<string>, d: seq<string>, e: seq<string>)
    ensures Sequence([Done(a), Done(b), Done(c), Done(d), Done(e)]) == Done(a + b + c + d + e)
  {
    var steps := [Done(a), Done(b), Done(c), Done(d), Done(e)];
    assert steps[..1] == [steps[0]];
    SequenceSingle(steps[0]);
    SequenceSnoc(steps, 1);
    SequenceSnoc(steps, 2);
    SequenceSnoc(steps, 3);
    SequenceSnoc(steps, 4);
    assert steps[..5] == steps;
  }

  lemma SampleEmission()
    ensures ProgramOk(Sample)
    ensures ProgramEmission(Sample) == Done(PointC + AddC + DelayC + (SumC + ResetC) + BaudC)
  {
    SampleSteps();
    FiveSteps(PointC, AddC, DelayC, SumC + ResetC, BaudC);
  }

  lemma PointText()
    ensures Terminated(PointC) == PointT
  {
    assert Terminated([]) == "";
    TerminatedSnoc([], "typedef struct {");
    assert [] + ["typedef struct {"] == ["typedef struct {"];
    assert "typedef struct {" + "\n" == "typedef struct {\n";
    assert "" + "typedef struct {\n" == "typedef struct {\n";
    assert Terminated(["typedef struct {"]) == "typedef struct {\n";
    TerminatedSnoc(["typedef struct {"], "    int32_t x;");
    assert ["typedef struct {"] + ["    int32_t x;"] == ["typedef struct {", "    int32_t x;"];
    assert "    int32_t x;" + "\n" == "    int32_t x;\n";
    assert Terminated(["typedef struct {", "    int32_t x;"]) == "typedef struct {\n" + "    int32_t x;\n";
    TerminatedSnoc(["typedef struct {", "    int32_t x;"], "    int32_t y;");
    assert ["typedef struct {", "    int32_t x;"] + ["    int32_t y;"] == ["typedef struct {", "    int32_t x;", "    int32_t y;"];
    assert "    int32_t y;" + "\n" == "    int32_t y;\n";
    assert Terminated(["typedef struct {", "    int32_t x;", "    int32_t y;"]) == "typedef struct {\n" + "    int32_t x;\n" + "    int32_t y;\n";
    TerminatedSnoc(["typedef struct {", "    int32_t x;", "    int32_t y;"], "} Point;");
    assert ["typedef struct {", "    int32_t x;", "    int32_t y;"] + ["} Point;"] == ["typedef struct {", "    int32_t x;", "    int32_t y;", "} Point;"];
    assert "} Point;" + "\n" == "} Point;\n";
    assert Terminated(["typedef struct {", "    int32_t x;", "    int32_t y;", "} Point;"]) == "typedef struct {\n" + "    int32_t x;\n" + "    int32_t y;\n" + "} Point;\n";
    TerminatedSnoc(["typedef struct {", "    int32_t x;", "    int32_t y;", "} Point;"], "");
    assert ["typedef struct {", "    int32_t x;", "    int32_t y;", "} Point;"] + [""] == ["typedef struct {", "    int32_t x;", "    int32_t y;", "} Point;", ""];
    assert "" + "\n" == "\n";
    assert Terminated(["typedef struct {", "    int32_t x;", "    int32_t y;", "} Point;", ""]) == "typedef struct {\n" + "    int32_t x;\n" + "    int32_t y;\n" + "} Point;\n" + "\n";
  }

  lemma AddText()
    ensures Terminated(AddC) == AddT
  {
    assert Terminated([]) == "";
    TerminatedSnoc([], "int32_t add(int32_t a, int32_t b) {");
    assert [] + ["int32_t add(int32_t a, int32_t b) {"] == ["int32_t add(int32_t a, int32_t b) {"];
    assert "int32_t add(int32_t a, int32_t b) {" + "\n" == "int32_t add(int32_t a, int32_t b) {\n";
    assert "" + "int32_t add(int32_t a, int32_t b) {\n" == "int32_t add(int32_t a, int32_t b) {\n";
    assert Terminated(["int32_t add(int32_t a, int32_t b) {"]) == "int32_t add(int32_t a, int32_t b) {\n";
    TerminatedSnoc(["int32_t add(int32_t a, int32_t b) {"], "    return (a + b);");
    assert ["int32_t add(int32_t a, int32_t b) {"] + ["    return (a + b);"] == ["int32_t add(int32_t a, int32_t b) {", "    return (a + b);"];
    assert "    return (a + b);" + "\n" == "    return (a + b);\n";
    assert Terminated(["int32_t add(int32_t a, int32_t b) {", "    return (a + b);"]) == "int32_t add(int32_t a, int32_t b) {\n" + "    return (a + b);\n";
    TerminatedSnoc(["int32_t add(int32_t a, int32_t b) {", "    return (a + b);"], "}");
    assert ["int32_t add(int32_t a, int32_t b) {", "    return (a + b);"] + ["}"] == ["int32_t add(int32_t a, int32_t b) {", "    return (a + b);", "}"];
    assert "}" + "\n" == "}\n";
    assert Terminated(["int32_t add(int32_t a, int32_t b) {", "    return (a + b);", "}"]) == "int32_t add(int32_t a, int32_t b) {\n" + "    return (a + b);\n" + "}\n";
    TerminatedSnoc(["int32_t add(int32_t a, int32_t b) {", "    return (a + b);", "}"], "");
    assert ["int32_t add(int32_t a, int32_t b) {", "    return (a + b);", "}"] + [""] == ["int32_t add(int32_t a, int32_t b) {", "    return (a + b);", "}", ""];
    assert "" + "\n" == "\n";
    assert Terminated(["int32_t add(int32_t a, int32_t b) {", "    return (a + b);", "}", ""]) == "int32_t add(int32_t a, int32_t b) {\n" + "    return (a + b);\n" + "}\n" + "\n";
  }

  lemma DelayText()
    ensures Terminated(DelayC) == DelayT
  {
    assert Terminated([]) == "";
    TerminatedSnoc([], "extern void HAL_Delay(uint32_t ms);");
    assert [] + ["extern void HAL_Delay(uint32_t ms);"] == ["extern void HAL_Delay(uint32_t ms);"];
    assert "extern void HAL_Delay(uint32_t ms);" + "\n" == "extern void HAL_Delay(uint32_t ms);\n";
    assert "" + "extern void HAL_Delay(uint32_t ms);\n" == "extern void HAL_Delay(uint32_t ms);\n";
    assert Terminated(["extern void HAL_Delay(uint32_t ms);"]) == "extern void HAL_Delay(uint32_t ms);\n";
    TerminatedSnoc(["extern void HAL_Delay(uint32_t ms);"], "");
    assert ["extern void HAL_Delay(uint32_t ms);"] + [""] == ["extern void HAL_Delay(uint32_t ms);", ""];
    assert "" + "\n" == "\n";
    assert Terminated(["extern void HAL_Delay(uint32_t ms);", ""]) == "extern void HAL_Delay(uint32_t ms);\n" + "\n";
  }

  lemma SumText()
    ensures Terminated(SumC) == SumT
  {
    assert Terminated([]) == "";
    TerminatedSnoc([], "int32_t Point_sum(Point* self, int32_t x, int32_t y) {");
    assert [] + ["int32_t Point_sum(Point* self, int32_t x, int32_t y) {"] == ["int32_t Point_sum(Point* self, int32_t x, int32_t y) {"];
    assert "int32_t Point_sum(Point* self, int32_t x, int32_t y) {" + "\n" == "int32_t Point_sum(Point* self, int32_t x, int32_t y) {\n";
    assert "" + "int32_t Point_sum(Point* self, int32_t x, int32_t y) {\n" == "int32_t Point_sum(Point* self, int32_t x, int32_t y) {\n";
    assert Terminated(["int32_t Point_sum(Point* self, int32_t x, int32_t y) {"]) == "int32_t Point_sum(Point* self, int32_t x, int32_t y) {\n";
    TerminatedSnoc(["int32_t Point_sum(Point* self, int32_t x, int32_t y) {"], "    return (x + y);");
    assert ["int32_t Point_sum(Point* self, int32_t x, int32_t y) {"] + ["    return (x + y);"] == ["int32_t Point_sum(Point* self, int32_t x, int32_t y) {", "    return (x + y);"];
    assert "    return (x + y);" + "\n" == "    return (x + y);\n";
    assert Terminated(["int32_t Point_sum(Point* self, int32_t x, int32_t y) {", "    return (x + y);"]) == "int32_t Point_sum(Point* self, int32_t x, int32_t y) {\n" + "    return (x + y);\n";
    TerminatedSnoc(["int32_t Point_sum(Point* self, int32_t x, int32_t y) {", "    return (x + y);"], "}");
    assert ["int32_t Point_sum(Point* self, int32_t x, int32_t y) {", "    return (x + y);"] + ["}"] == ["int32_t Point_sum(Point* self, int32_t x, int32_t y) {", "    return (x + y);", "}"];
    assert "}" + "\n" == "}\n";
    assert Terminated(["int32_t Point_sum(Point* self, int32_t x, int32_t y) {", "    return (x + y);", "}"]) == "int32_t Point_sum(Point* self, int32_t x, int32_t y) {\n" + "    return (x + y);\n" + "}\n";
    TerminatedSnoc(["int32_t Point_sum(Point* self, int32_t x, int32_t y) {", "    return (x + y);", "}"], "");
    assert ["int32_t Point_sum(Point* self, int32_t x, int32_t y) {", "    return (x + y);", "}"] + [""] == ["int32_t Point_sum(Point* self, int32_t x, int32_t y) {", "    return (x + y);", "}", ""];
    assert "" + "\n" == "\n";
    assert Terminated(["int32_t Point_sum(Point* self, int32_t x, int32_t y) {", "    return (x + y);", "}", ""]) == "int32_t Point_sum(Point* self, int32_t x, int32_t y) {\n" + "    return (x + y);\n" + "}\n" + "\n";
  }

  lemma ResetText()
    ensures Terminated(ResetC) == ResetT
  {
    assert Terminated([]) == "";
    TerminatedSnoc([], "void Point_reset(Point* self) {");
    assert [] + ["void Point_reset(Point* self) {"] == ["void Point_reset(Point* self) {"];
    assert "void Point_reset(Point* self) {" + "\n" == "void Point_reset(Point* self) {\n";
    assert "" + "void Point_reset(Point* self) {\n" == "void Point_reset(Point* self) {\n";
    assert Terminated(["void Point_reset(Point* self) {"]) == "void Point_reset(Point* self) {\n";
    TerminatedSnoc(["void Point_reset(Point* self) {"], "    return;");
    assert ["void Point_reset(Point* self) {"] + ["    return;"] == ["void Point_reset(Point* self) {", "    return;"];
    assert "    return;" + "\n" == "    return;\n";
    assert Terminated(["void Point_reset(Point* self) {", "    return;"]) == "void Point_reset(Point* self) {\n" + "    return;\n";
    TerminatedSnoc(["void Point_reset(Point* self) {", "    return;"], "}");
    assert ["void Point_reset(Point* self) {", "    return;"] + ["}"] == ["void Point_reset(Point* self) {", "    return;", "}"];
    assert "}" + "\n" == "}\n";
    assert Terminated(["void Point_reset(Point* self) {", "    return;", "}"]) == "void Point_reset(Point* self) {\n" + "    return;\n" + "}\n";
    TerminatedSnoc(["void Point_reset(Point* self) {", "    return;", "}"], "");
    assert ["void Point_reset(Point* self) {", "    return;", "}"] + [""] == ["void Point_reset(Point* self) {", "    return;", "}", ""];
    assert "" + "\n" == "\n";
    assert Terminated(["void Point_reset(Point* self) {", "    return;", "}", ""]) == "void Point_reset(Point* self) {\n" + "    return;\n" + "}\n" + "\n";
  }

  lemma BaudText()
    ensures Terminated(BaudC) == BaudT
  {
    assert Terminated([]) == "";
    TerminatedSnoc([], "const int32_t BAUD = 9600;");
    assert [] + ["const int32_t BAUD = 9600;"] == ["const int32_t BAUD = 9600;"];
    assert "const int32_t BAUD = 9600;" + "\n" == "const int32_t BAUD = 9600;\n";
    assert "" + "const int32_t BAUD = 9600;\n" == "const int32_t BAUD = 9600;\n";
    assert Terminated(["const int32_t BAUD = 9600;"]) == "const int32_t BAUD = 9600;\n";
    TerminatedSnoc(["const int32_t BAUD = 9600;"], "");
    assert ["const int32_t BAUD = 9600;"] + [""] == ["const int32_t BAUD = 9600;", ""];
    assert "" + "\n" == "\n";
    assert Terminated(["const int32_t BAUD = 9600;", ""]) == "const int32_t BAUD = 9600;\n" + "\n";
  }

  lemma SampleTerminated()
    ensures Terminated(PointC + AddC + DelayC + (SumC + ResetC) + BaudC)
      == PointT + AddT + DelayT + SumT + ResetT + BaudT
  {
    TerminatedConcat(PointC + AddC + DelayC + (SumC + ResetC), BaudC);
    TerminatedConcat(PointC + AddC + DelayC, SumC + ResetC);
    TerminatedConcat(SumC, ResetC);
    TerminatedConcat(PointC + AddC, DelayC);
    TerminatedConcat(PointC, AddC);
    PointText();
    AddText();
    DelayText();
    SumText();
    ResetText();
    BaudText();
    AppendAssoc(PointT + AddT + DelayT, SumT, ResetT);
  }

  lemma HeaderText()
    ensures Header == "#include <stdint.h>\n" + "#include <stdbool.h>\n" + "\n"
  {
  }

  /** The example program generates exactly the expected C text. */
  lemma GenerateSample()
    ensures ProgramOk(Sample)
    ensures Generate(Sample) == Ok(SampleText)
  {
    SampleEmission();
    var lines := PointC + AddC + DelayC + (SumC + ResetC) + BaudC;
    assert |lines| == 21 && lines[0] == "typedef struct {";
    JoinTerminated(lines);
    SampleTerminated();
    HeaderText();
    var body := PointT + AddT + DelayT + SumT + ResetT + BaudT;
    assert FinishText(lines) == Header + (Join(lines, "\n") + "\n");
    assert Header + body == SampleText by {
      AppendAssoc(Header, PointT, AddT);
      AppendAssoc(Header, PointT + AddT, DelayT);
      AppendAssoc(Header, PointT + AddT + DelayT, SumT);
      AppendAssoc(Header, PointT + AddT + DelayT + SumT, ResetT);
      AppendAssoc(Header, PointT + AddT + DelayT + SumT + ResetT, BaudT);
    }
  }
}
