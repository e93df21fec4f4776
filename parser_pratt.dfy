/** The operator table of the expression parser (crates/amber_parser/src/pratt.rs).
    The table is built once, tier by tier from the loosest binding to the
    tightest; the parsing engine numbers the tiers 20, 30, ... in steps of ten,
    and every infix operator is left-associative. */
module Pratt {
  import opened Outcomes
  import opened ParseTree

  datatype Affix = InfixLeft | PrefixAffix

  datatype OpEntry = OpEntry(affix: Affix, prec: int)

  /** The binding power of the prefix tier, the tightest one. */
  const PrefixPrec: int := 110

  /** The binding power of each infix tier, in the order the table lists
      them. */
  function TierPrec(k: InfixKind): (p: int)
    ensures 20 <= p < PrefixPrec
  {
    match k
    case OrOp => 20
    case AndOp => 30
    case BitwiseOr => 40
    case BitwiseXor => 50
    case BitwiseAnd => 60
    case EqOp => 70
    case NeOp => 70
    case LtOp => 70
    case LeOp => 70
    case GtOp => 70
    case GeOp => 70
    case ShlOp => 80
    case ShrOp => 80
    case AddOp => 90
    case SubOp => 90
    case MulOp => 100
    case DivOp => 100
    case ModOp => 100
  }

  /** The table entry of an operator rule; rules that are not operators
      (primaries) have none. */
  function OpTable(r: Rule): (o: Option<OpEntry>)
    ensures o.Some? <==> r.InfixRule? || r.PrefixRule?
    ensures o.Some? ==> 20 <= o.value.prec <= PrefixPrec
    ensures o.Some? ==> (o.value.affix == PrefixAffix <==> o.value.prec == PrefixPrec)
  {
    match r
    case InfixRule(k) => Some(OpEntry(InfixLeft, TierPrec(k)))
    case PrefixRule(_) => Some(OpEntry(PrefixAffix, PrefixPrec))
    case _ => None
  }

  predicate IsInfix(r: Rule)
  {
    r.InfixRule?
  }

  predicate IsPrefix(r: Rule)
  {
    r.PrefixRule?
  }

  /** The nine infix tiers, from the loosest to the tightest. */
  lemma TierOrder()
    ensures TierPrec(OrOp) < TierPrec(AndOp) < TierPrec(BitwiseOr) < TierPrec(BitwiseXor)
            < TierPrec(BitwiseAnd) < TierPrec(EqOp) < TierPrec(ShlOp) < TierPrec(AddOp) < TierPrec(MulOp)
  {
  }

  /** Operators listed together in one tier bind equally. */
  lemma SharedTiers()
    ensures TierPrec(EqOp) == TierPrec(NeOp) == TierPrec(LtOp) == TierPrec(LeOp)
            == TierPrec(GtOp) == TierPrec(GeOp)
    ensures TierPrec(ShlOp) == TierPrec(ShrOp)
    ensures TierPrec(AddOp) == TierPrec(SubOp)
    ensures TierPrec(MulOp) == TierPrec(DivOp) == TierPrec(ModOp)
  {
  }

  /** Every prefix operator binds tighter than every infix operator, and
      every operator binds tighter than the start of an expression. */
  lemma PrefixBindsTightest(r: Rule, s: Rule)
    requires IsInfix(r) && IsPrefix(s)
    ensures 0 < OpTable(r).value.prec < OpTable(s).value.prec
  {
  }
}
