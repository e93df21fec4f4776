/** The Amber type language (crates/amber_ast/src/types): fixed-width integers,
    floats, bool, char, void, named types, pointers and arrays.  The repository
    holds two versions of this enum; `Type` below is their union, and
    `IsBuiltinType` picks out the variants of the older one
    (types/builtin.rs), which is the one the C type table is written against. */
module Types {

  datatype Type =
    | U8 | U16 | U32 | U64
    | I8 | I16 | I32 | I64
    | F32 | F64
    | Bool | Char | Void
    | Named(name: string)
    | Custom(name: string)
    | Pointer(inner: Type, isMut: bool)
    | Array(inner: Type, len: nat)

  /** The eight fixed-width integer types. */
  predicate IsIntegerType(t: Type)
  {
    t.U8? || t.U16? || t.U32? || t.U64? || t.I8? || t.I16? || t.I32? || t.I64?
  }

  /** `is_numeric`: the integer types and the two float types. */
  predicate IsNumeric(t: Type)
  {
    t.U8? || t.U16? || t.U32? || t.U64? || t.I8? || t.I16? || t.I32? || t.I64? || t.F32? || t.F64?
  }

  /** `is_floating`: exactly `f32` and `f64`. */
  predicate IsFloating(t: Type)
  {
    t.F32? || t.F64?
  }

  /** The variants of the older `Type` enum of types/builtin.rs. */
  predicate IsBuiltinType(t: Type)
  {
    IsNumeric(t) || t.Bool? || t.Custom?
  }

  /** How the two predicates split the full type language: every float is
      numeric, the numeric types are the integers plus the floats, and no
      boolean, character, void, named, custom, pointer or array type is. */
  lemma NumericClassification(t: Type)
    ensures IsFloating(t) ==> IsNumeric(t)
    ensures IsNumeric(t) <==> IsIntegerType(t) || IsFloating(t)
    ensures IsIntegerType(t) ==> !IsFloating(t)
    ensures (t.Bool? || t.Char? || t.Void? || t.Named? || t.Custom? || t.Pointer? || t.Array?) ==> !IsNumeric(t)
  {
  }

  /** The same classification restricted to the older enum: there, everything
      except `Bool` and `Custom(_)` is numeric, and those two are not floating. */
  lemma BuiltinClassification(t: Type)
    requires IsBuiltinType(t)
    ensures IsNumeric(t) <==> !(t.Bool? || t.Custom?)
    ensures IsFloating(t) <==> (t.F32? || t.F64?)
    ensures (t.Bool? || t.Custom?) ==> !IsNumeric(t) && !IsFloating(t)
  {
  }
}
