/** Literal values (crates/amber_ast/src/expr/literal).  Float payloads are kept
    as the numeral text of the literal (suffix removed) instead of an IEEE value. */
module Literals {
  import opened Outcomes
  import opened Text

  datatype NumericLiteral =
    | Integer(value: Int64)
    | Float(text: string)
    | Double(text: string)

  /** `is_integer`. */
  predicate IsInteger(n: NumericLiteral)
  {
    n.Integer?
  }

  /** `to_i64`, integer arm only: the stored value itself. */
  function ToI64(n: NumericLiteral): (r: Int64)
    requires n.Integer?
    ensures IntToString(r) == NumericDisplay(n)
  {
    n.value
  }

  /** `inferred_type`: the Amber type name a literal of this kind has. */
  function NumericInferredType(n: NumericLiteral): (r: string)
    ensures r == "i64" <==> n.Integer?
    ensures r == "f32" <==> n.Float?
    ensures r == "f64" <==> n.Double?
  {
    match n
    case Integer(_) => "i64"
    case Float(_) => "f32"
    case Double(_) => "f64"
  }

  /** `Display for NumericLiteral`: decimal for integers, then an `f` suffix for
      32-bit and a `d` suffix for 64-bit floats. */
  function NumericDisplay(n: NumericLiteral): string
  {
    match n
    case Integer(i) => IntToString(i)
    case Float(t) => t + "f"
    case Double(t) => t + "d"
  }

  /** An integer's display text parses back to the integer, and the last
      character of any numeric display tells the three kinds apart. */
  lemma NumericDisplayFacts(n: NumericLiteral)
    ensures n.Integer? ==> ParseI64(NumericDisplay(n)) == Some(n.value)
    ensures n.Integer? ==> IsDigit(Last(NumericDisplay(n)))
    ensures n.Float? ==> Last(NumericDisplay(n)) == 'f'
    ensures n.Double? ==> Last(NumericDisplay(n)) == 'd'
  {
    if n.Integer? {
      ParseIntToString(n.value);
      if n.value < 0 {
        var m: nat := -(n.value as int);
        assert Last(NumericDisplay(n)) == Last(NatToString(m));
      }
    }
  }

  function Last(s: string): char
    requires |s| > 0
  {
    s[|s| - 1]
  }

  // ---------------------------------------------------------------------------

  datatype Literal =
    | Numeric(num: NumericLiteral)
    | Bool(b: bool)
    | Char(c: char)

  /** `Literal::is_numeric`. */
  predicate IsNumericLiteral(l: Literal)
  {
    l.Numeric?
  }

  /** `Literal::is_bool`. */
  predicate IsBoolLiteral(l: Literal)
  {
    l.Bool?
  }

  /** The literal module's own `Literal` has no character variant; over the
      variants it does have, exactly one of the two tests holds. */
  lemma LiteralKindsPartition(l: Literal)
    requires !l.Char?
    ensures IsNumericLiteral(l) != IsBoolLiteral(l)
  {
  }

  /** `Literal::inferred_type`: `bool` for booleans, the numeric literal's own
      type name otherwise. */
  function LiteralInferredType(l: Literal): (r: string)
    requires !l.Char?
    ensures l.Bool? ==> r == "bool"
    ensures l.Numeric? ==> r == NumericInferredType(l.num) && r != "bool"
  {
    match l
    case Numeric(n) => NumericInferredType(n)
    case Bool(_) => "bool"
  }

  /** `Display for Literal`: numerics display as their numeric literal,
      booleans as `true` or `false`. */
  function LiteralDisplay(l: Literal): (r: string)
    requires !l.Char?
    ensures l.Numeric? ==> r == NumericDisplay(l.num)
    ensures l.Bool? ==> (r == "true" <==> l.b) && (r == "false" <==> !l.b)
  {
    match l
    case Numeric(n) => NumericDisplay(n)
    case Bool(b) => if b then "true" else "false"
  }
}
