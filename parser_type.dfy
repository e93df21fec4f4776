/** Building a type from the parse tree (crates/amber_parser/src/utils.rs).
    A type node wraps one inner type; a pointer node holds an optional `mut`
    keyword and the pointee; a builtin node is read from its text; an
    identifier is a named type.

    The source decides whether a pointer is mutable by searching the whole
    text of the pointer node for `mut`, which also finds it inside a pointee
    name such as `mutex_t`.  `ParseTypeAsWritten` models that; `ParseType`,
    used by the rest of the builder, decides by the keyword child. */
module TypeParser {
  import opened Outcomes
  import opened ParseTree
  import Text
  import Types

  /** The types spelled by a builtin keyword. */
  predicate IsKeywordType(t: Types.Type)
  {
    t.U8? || t.U16? || t.U32? || t.U64? || t.I8? || t.I16? || t.I32? || t.I64?
    || t.Bool? || t.Char? || t.Void?
  }

  /** The keyword that spells a builtin type. */
  function KeywordOf(t: Types.Type): string
    requires IsKeywordType(t)
  {
    match t
    case U8 => "u8"
    case U16 => "u16"
    case U32 => "u32"
    case U64 => "u64"
    case I8 => "i8"
    case I16 => "i16"
    case I32 => "i32"
    case I64 => "i64"
    case Bool => "bool"
    case Char => "char"
    case Void => "void"
  }

  /** A builtin node: one of the eleven keywords, or a named type carrying
      the text unchanged. */
  function KeywordType(text: string): (t: Types.Type)
    ensures t.Named? || IsKeywordType(t)
    ensures t.Named? ==> t.name == text
    ensures IsKeywordType(t) ==> KeywordOf(t) == text
  {
    match text
    case "u8" => Types.U8
    case "u16" => Types.U16
    case "u32" => Types.U32
    case "u64" => Types.U64
    case "i8" => Types.I8
    case "i16" => Types.I16
    case "i32" => Types.I32
    case "i64" => Types.I64
    case "bool" => Types.Bool
    case "char" => Types.Char
    case "void" => Types.Void
    case _ => Types.Named(text)
  }

  /** Every keyword reads back as its type. */
  lemma KeywordRoundTrip(t: Types.Type)
    requires IsKeywordType(t)
    ensures KeywordType(KeywordOf(t)) == t
  {
  }

  /** There is no keyword for the float types: their text becomes a named
      type. */
  lemma FloatsAreNamed()
    ensures KeywordType("f32") == Types.Named("f32")
    ensures KeywordType("f64") == Types.Named("f64")
  {
  }

  /** `parse_type` as written: a pointer is mutable when its text contains
      `mut` anywhere. */
  function ParseTypeAsWritten(p: Pair): (r: Result<Types.Type, Panic>)
    ensures r.Ok? <==> ParseType(p).Ok?
    decreases p
  {
    match p.rule
    case TypeDef =>
      if |p.children| == 0 then Err(Panic) else ParseTypeAsWritten(p.children[0])
    case PtrType =>
      var mutable := Text.Contains(p.text, "mut");
      match FirstWithout(p.children, KwMut) {
        case None => Err(Panic)
        case Some(i) =>
          var inner :- ParseTypeAsWritten(p.children[i]);
          Ok(Types.Pointer(inner, mutable))
      }
    case BuiltinType => Ok(KeywordType(p.text))
    case Ident => Ok(Types.Named(p.text))
    case _ => Err(Panic)
  }

  /** `parse_type` with mutability read from the `mut` keyword child. */
  function ParseType(p: Pair): (r: Result<Types.Type, Panic>)
    ensures r.Ok? ==> Producible(r.value)
    decreases p
  {
    match p.rule
    case TypeDef =>
      if |p.children| == 0 then Err(Panic) else ParseType(p.children[0])
    case PtrType =>
      var mutable := HasRule(p.children, KwMut);
      match FirstWithout(p.children, KwMut) {
        case None => Err(Panic)
        case Some(i) =>
          var inner :- ParseType(p.children[i]);
          Ok(Types.Pointer(inner, mutable))
      }
    case BuiltinType => Ok(KeywordType(p.text))
    case Ident => Ok(Types.Named(p.text))
    case _ => Err(Panic)
  }

  /** The types the builder can produce: no floats, custom types or arrays. */
  predicate Producible(t: Types.Type)
  {
    match t
    case Pointer(inner, _) => Producible(inner)
    case Named(_) => true
    case _ => IsKeywordType(t)
  }

  // ---------------------------------------------------------------------------
  // The layout of a type

  /** The source text of a type. */
  function TypeText(t: Types.Type): string
    requires Producible(t)
  {
    match t
    case Pointer(inner, m) => "*" + (if m then "mut " else "") + TypeText(inner)
    case Named(s) => s
    case _ => KeywordOf(t)
  }

  /** The node the grammar builds for a type. */
  function Layout(t: Types.Type): Pair
    requires Producible(t)
  {
    match t
    case Pointer(inner, m) =>
      var pointee := Pair(TypeDef, TypeText(inner), [Layout(inner)]);
      Pair(PtrType, TypeText(t), (if m then [Pair(KwMut, "mut", [])] else []) + [pointee])
    case Named(s) => Pair(Ident, s, [])
    case _ => Pair(BuiltinType, KeywordOf(t), [])
  }

  /** Every type the builder can produce is read back from its layout. */
  lemma {:induction false} LayoutRoundTrip(t: Types.Type)
    requires Producible(t)
    ensures ParseType(Layout(t)) == Ok(t)
  {
    if t.Pointer? {
      LayoutRoundTrip(t.inner);
      PointerLayout(t.inner, t.isMut);
    } else if !t.Named? {
      KeywordLayout(t);
    }
  }

  lemma KeywordLayout(t: Types.Type)
    requires IsKeywordType(t)
    ensures ParseType(Layout(t)) == Ok(t)
  {
    assert Layout(t) == Pair(BuiltinType, KeywordOf(t), []);
    KeywordRoundTrip(t);
  }

  /** A pointer is read back once its pointee is: the keyword child decides
      the mutability and the first other child is the pointee. */
  lemma PointerLayout(inner: Types.Type, m: bool)
    requires Producible(inner) && ParseType(Layout(inner)) == Ok(inner)
    ensures ParseType(Layout(Types.Pointer(inner, m))) == Ok(Types.Pointer(inner, m))
  {
    var p := Layout(Types.Pointer(inner, m));
    var pointee := Pair(TypeDef, TypeText(inner), [Layout(inner)]);
    assert p.children == (if m then [Pair(KwMut, "mut", [])] else []) + [pointee];
    assert ParseType(pointee) == ParseType(Layout(inner));
    PointerChildren(pointee, m);
    PointerParses(p, if m then 1 else 0, inner, m);
  }

  /** The children of a pointer node: an optional `mut` keyword, then the
      pointee. */
  lemma PointerChildren(pointee: Pair, m: bool)
    requires pointee.rule != KwMut
    ensures var cs := (if m then [Pair(KwMut, "mut", [])] else []) + [pointee];
            var k := if m then 1 else 0;
            FirstWithout(cs, KwMut) == Some(k) && HasRule(cs, KwMut) == m && cs[k] == pointee
  {
    if m {
      var cs := [Pair(KwMut, "mut", [])] + [pointee];
      assert cs[1..] == [pointee];
      assert cs[0].rule == KwMut;
    } else {
      assert [] + [pointee] == [pointee];
    }
  }

  /** A pointer node whose first non-`mut` child is read as `inner` is a
      pointer to `inner`, mutable exactly when a `mut` child is present. */
  lemma PointerParses(p: Pair, k: nat, inner: Types.Type, m: bool)
    requires p.rule == PtrType && FirstWithout(p.children, KwMut) == Some(k)
    requires HasRule(p.children, KwMut) == m && ParseType(p.children[k]) == Ok(inner)
    ensures ParseType(p) == Ok(Types.Pointer(inner, m))
  {
  }

  /** The source's `"*mutex_t"`: a pointer without `mut` to a type whose name
      contains `mut` is read as mutable. */
  lemma MutSubstringAsWritten()
    ensures var t := Types.Pointer(Types.Named("mutex_t"), false);
            && ParseType(Layout(t)) == Ok(t)
            && ParseTypeAsWritten(Layout(t)) == Ok(Types.Pointer(Types.Named("mutex_t"), true))
  {
    var t := Types.Pointer(Types.Named("mutex_t"), false);
    LayoutRoundTrip(t);
    assert Layout(t).text == "*" + "mut" + "ex_t";
    Text.ContainsMiddle("*", "mut", "ex_t");
    var cs := Layout(t).children;
    assert FirstWithout(cs, KwMut) == Some(0);
  }

  /** `*mut u32` is a mutable pointer to `u32`, read the same way by both
      members. */
  lemma MutPointerExample(p: Pair)
    requires p == Pair(PtrType, "*mut u32", [Pair(KwMut, "mut", []), Pair(BuiltinType, "u32", [])])
    ensures ParseType(p) == Ok(Types.Pointer(Types.U32, true))
    ensures ParseTypeAsWritten(p) == Ok(Types.Pointer(Types.U32, true))
  {
    var u := p.children[1];
    assert KeywordType("u32") == Types.U32;
    assert ParseType(u) == Ok(Types.U32) && ParseTypeAsWritten(u) == Ok(Types.U32);
    PointerChildren(u, true);
    assert p.children == [Pair(KwMut, "mut", [])] + [u];
    assert p.text == "*mut u32";
    PointerParses(p, 1, Types.U32, true);
    MutU32Text();
    PointerParsesAsWritten(p, 1, Types.U32);
  }

  /** `ParseTypeAsWritten` on a pointer node: mutable exactly when the
      node's text contains `mut`. */
  lemma PointerParsesAsWritten(p: Pair, k: nat, inner: Types.Type)
    requires p.rule == PtrType && FirstWithout(p.children, KwMut) == Some(k)
    requires ParseTypeAsWritten(p.children[k]) == Ok(inner)
    ensures ParseTypeAsWritten(p) == Ok(Types.Pointer(inner, Text.Contains(p.text, "mut")))
  {
  }

  lemma MutU32Text()
    ensures Text.Contains("*mut u32", "mut")
  {
    Text.ContainsMiddle("*", "mut", " u32");
    assert "*" + "mut" + " u32" == "*mut u32";
  }
}
