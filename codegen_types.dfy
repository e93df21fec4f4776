/** Translation of Amber types and binding modifiers to C
    (crates/amber_codegen/src/types.rs). */
module CTypes {
  import opened Outcomes
  import opened Text
  import opened Types
  import Ast

  /** The C qualifier put in front of a binding's type: `const ` for a
      `comptime` binding and for any immutable one, and nothing otherwise.
      Built, like the source, from a list of flags that the two rules push
      to, the second one only when the first has not already. */
  function BindingQualifier(modifier: Option<Ast.Modifier>, isMutable: bool): (r: string)
    ensures modifier == Some(Ast.Comptime) ==> r == "const "
    ensures !isMutable ==> r == "const "
    ensures r == "" <==> isMutable && modifier != Some(Ast.Comptime)
    ensures r == "" || r == "const "
  {
    var comptimeFlags: seq<string> := if modifier == Some(Ast.Comptime) then ["const"] else [];
    var flags := if !isMutable && "const" !in comptimeFlags then comptimeFlags + ["const"] else comptimeFlags;
    if |flags| == 0 then "" else Join(flags, " ") + " "
  }

  /** The bit width of a fixed-width integer type. */
  function BitWidth(t: Type): nat
    requires IsIntegerType(t)
  {
    match t
    case U8 | I8 => 8
    case U16 | I16 => 16
    case U32 | I32 => 32
    case U64 | I64 => 64
  }

  predicate IsSigned(t: Type)
  {
    t.I8? || t.I16? || t.I32? || t.I64?
  }

  /** The exact-width integer type names of <stdint.h>, as C11 section
      7.20.1.1 forms them: `intN_t` for signed and `uintN_t` for unsigned
      types of N bits. */
  function StdIntName(width: nat, signed: bool): string
  {
    (if signed then "" else "u") + "int" + NatToString(width) + "_t"
  }

  lemma WidthNumerals()
    ensures NatToString(8) == "8" && NatToString(16) == "16"
    ensures NatToString(32) == "32" && NatToString(64) == "64"
  {
    assert NatToString(1) == "1" && NatToString(3) == "3" && NatToString(6) == "6";
  }

  /** `type_to_c`: the C spelling of a type.  Its match has arms only for
      the variants of the older type enum (`IsBuiltinType`). */
  function TypeToC(t: Type): (r: string)
    requires IsBuiltinType(t)
    ensures t.F32? ==> r == "float"
    ensures t.F64? ==> r == "double"
    ensures t.Bool? ==> r == "bool"
    ensures t.Custom? ==> r == t.name
  {
    match t
    case U8 => "uint8_t"
    case I8 => "int8_t"
    case U16 => "uint16_t"
    case I16 => "int16_t"
    case U32 => "uint32_t"
    case I32 => "int32_t"
    case U64 => "uint64_t"
    case I64 => "int64_t"
    case F32 => "float"
    case F64 => "double"
    case Bool => "bool"
    case Custom(name) => name
  }

  /** Every fixed-width integer type becomes the <stdint.h> type of the same
      width and signedness. */
  lemma TypeToCIntegers(t: Type)
    requires IsIntegerType(t)
    ensures TypeToC(t) == StdIntName(BitWidth(t), IsSigned(t))
  {
    WidthNumerals();
  }

  /** Distinct primitive types get distinct C names; only a custom type can
      share its name with another type (a struct called `float`, say). */
  lemma TypeToCDistinguishesPrimitives(a: Type, b: Type)
    requires IsBuiltinType(a) && IsBuiltinType(b) && !a.Custom? && !b.Custom?
    requires TypeToC(a) == TypeToC(b)
    ensures a == b
  {
  }

  /** `type_to_c_opt`: an absent type (a function without a return type) is
      `void`. */
  function TypeToCOpt(t: Option<Type>): (r: string)
    requires t.Some? ==> IsBuiltinType(t.value)
    ensures t.None? ==> r == "void"
    ensures t.Some? ==> r == TypeToC(t.value)
  {
    match t
    case None => "void"
    case Some(ty) => TypeToC(ty)
  }
}
