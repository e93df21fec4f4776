/** Properties of the expression builder of `ExprParser`: what it never
    produces, how much of an operator expression it reads, and how it groups
    operators (crates/amber_parser/src/expr_parser.rs and
    crates/amber_parser/src/pratt.rs). */
module ExprFacts {
  import opened Outcomes
  import opened ParseTree
  import opened Pratt
  import opened ExprParser
  import opened ExprLayout
  import Text
  import Literals
  import Ast

  // ---------------------------------------------------------------------------
  // Which expressions the builder produces

  /** An expression the builder can produce: no dereference and no postfix
      operator, since no grammar rule is mapped to either. */
  predicate Buildable(e: Ast.Expression)
  {
    match e
    case Lit(_) => true
    case Identifier(_) => true
    case UnaryExpr(op, x) => op.PrefixOp? && op.pre != Ast.Deref && Buildable(x)
    case BinaryExpr(l, _, r) => Buildable(l) && Buildable(r)
    case TernaryExpr(c, t, f) => Buildable(c) && Buildable(t) && Buildable(f)
  }

  lemma {:induction false} PrimaryBuildable(p: Pair)
    ensures ParsePrimary(p).Ok? ==> Buildable(ParsePrimary(p).value)
    decreases Size(p), 0, 3
  {
    if p.rule == Atom {
      if |p.children| > 0 {
        ChildSize(p, 0);
        PrimaryBuildable(p.children[0]);
      }
    } else if p.rule == Expr || p.rule == TernaryExpr || p.rule == MathExpr || p.rule == Unary {
      ExprBuildable(p);
    }
  }

  lemma {:induction false} ExprBuildable(p: Pair)
    ensures ParseExpr(p).Ok? ==> Buildable(ParseExpr(p).value)
    decreases Size(p), 0, 2
  {
    var cs := p.children;
    if p.rule == TernaryExpr {
      if |cs| > 0 {
        ChildSize(p, 0);
        MathBuildable(cs[0]);
        if |cs| >= 5 {
          ChildSize(p, 2);
          ChildSize(p, 4);
          ExprBuildable(cs[2]);
          ExprBuildable(cs[4]);
        } else if |cs| >= 3 {
          ChildSize(p, 2);
          ExprBuildable(cs[2]);
        }
      }
    } else {
      MathBuildable(p);
    }
  }

  lemma {:induction false} MathBuildable(p: Pair)
    ensures ParseMath(p).Ok? ==> Buildable(ParseMath(p).value)
    decreases Size(p), 0, 1
  {
    ClimbBuildable(p.children, 0, 0);
  }

  lemma {:induction false} ClimbBuildable(ps: seq<Pair>, pos: nat, rbp: int)
    requires pos <= |ps|
    ensures Climb(ps, pos, rbp).Ok? ==> Buildable(Climb(ps, pos, rbp).value.0)
    decreases SeqSize(ps), |ps| - pos, 2
  {
    NudBuildable(ps, pos);
    var first := Nud(ps, pos);
    if first.Ok? {
      LedBuildable(ps, first.value.1, first.value.0, rbp);
    }
  }

  lemma {:induction false} NudBuildable(ps: seq<Pair>, pos: nat)
    requires pos <= |ps|
    ensures Nud(ps, pos).Ok? ==> Buildable(Nud(ps, pos).value.0)
    decreases SeqSize(ps), |ps| - pos, 1
  {
    if pos < |ps| {
      match OpTable(ps[pos].rule)
      case Some(entry) =>
        if entry.affix == PrefixAffix {
          ClimbBuildable(ps, pos + 1, entry.prec - 1);
        }
      case None =>
        ElementSize(ps, pos);
        PrimaryBuildable(ps[pos]);
    }
  }

  lemma {:induction false} LedBuildable(ps: seq<Pair>, pos: nat, lhs: Ast.Expression, rbp: int)
    requires pos <= |ps| && Buildable(lhs)
    ensures Led(ps, pos, lhs, rbp).Ok? ==> Buildable(Led(ps, pos, lhs, rbp).value.0)
    decreases SeqSize(ps), |ps| - pos, 0
  {
    if pos < |ps| {
      match OpTable(ps[pos].rule)
      case None =>
      case Some(entry) =>
        if entry.prec > rbp && entry.affix != PrefixAffix {
          ClimbBuildable(ps, pos + 1, entry.prec);
          var rhs := Climb(ps, pos + 1, entry.prec);
          if rhs.Ok? {
            var op := ParseBinaryOp(ps[pos]).value;
            LedBuildable(ps, rhs.value.1, Ast.BinaryExpr(lhs, op, rhs.value.0), rbp);
          }
        }
    }
  }

  // ---------------------------------------------------------------------------
  // An operator expression is read to its end

  /** Below the loosest operator the loop stops only at the end of the
      pairs. */
  lemma {:induction false} LedReadsAll(ps: seq<Pair>, pos: nat, lhs: Ast.Expression, rbp: int)
    requires pos <= |ps| && rbp < 20
    ensures Led(ps, pos, lhs, rbp).Ok? ==> Led(ps, pos, lhs, rbp).value.1 == |ps|
    decreases |ps| - pos
  {
    if pos < |ps| && OpTable(ps[pos].rule).Some? {
      var entry := OpTable(ps[pos].rule).value;
      if entry.affix != PrefixAffix {
        var rhs := Climb(ps, pos + 1, entry.prec);
        if rhs.Ok? {
          LedReadsAll(ps, rhs.value.1, Ast.BinaryExpr(lhs, ParseBinaryOp(ps[pos]).value, rhs.value.0), rbp);
        }
      }
    }
  }

  /** A successful parse of an operator expression uses every child pair:
      nothing after a complete expression is silently dropped. */
  lemma ClimbReadsAll(ps: seq<Pair>)
    ensures Climb(ps, 0, 0).Ok? ==> Climb(ps, 0, 0).value.1 == |ps|
  {
    var first := Nud(ps, 0);
    if first.Ok? {
      LedReadsAll(ps, first.value.1, first.value.0, 0);
    }
  }

  // ---------------------------------------------------------------------------
  // Grouping

  /** A primary pair: not an operator, and it parses. */
  predicate PrimaryPair(p: Pair)
  {
    OpTable(p.rule).None? && ParsePrimary(p).Ok?
  }

  function Leaf(p: Pair): Chain
  {
    Chain(Primary(p), [])
  }

  lemma LeafFacts(p: Pair)
    requires PrimaryPair(p)
    ensures ChainOk(Leaf(p)) && ChainPairs(Leaf(p)) == [p]
    ensures ChainValue(Leaf(p)) == ParsePrimary(p).value
  {
    assert LinksPairs(Leaf(p), 0) == [];
  }

  /** A chain of one link. */
  lemma OneLink(h: Operand, o: Pair, r: Chain)
    requires OperandOk(h) && IsInfix(o.rule) && ChainOk(r) && Above(r, TierPrec(o.rule.infix))
    ensures var c := Chain(h, [Link(o, r)]);
            ChainOk(c) && ChainPairs(c) == OperandPairs(h) + [o] + ChainPairs(r)
            && ChainValue(c) == Ast.BinaryExpr(OperandValue(h), ParseBinaryOp(o).value, ChainValue(r))
  {
    var c := Chain(h, [Link(o, r)]);
    assert LinkOk(c.links[0]);
    assert LinksPairs(c, 1) == [];
    assert LinksPairs(c, 0) == [o] + ChainPairs(r);
    var e := Ast.BinaryExpr(OperandValue(h), ParseBinaryOp(o).value, ChainValue(r));
    assert Fold(e, c, 1) == e;
  }

  /** A chain of two links whose operators bind equally or loosen. */
  lemma TwoLinks(h: Operand, o1: Pair, r1: Chain, o2: Pair, r2: Chain)
    requires OperandOk(h) && IsInfix(o1.rule) && IsInfix(o2.rule)
    requires TierPrec(o2.rule.infix) <= TierPrec(o1.rule.infix)
    requires ChainOk(r1) && Above(r1, TierPrec(o1.rule.infix))
    requires ChainOk(r2) && Above(r2, TierPrec(o2.rule.infix))
    ensures var c := Chain(h, [Link(o1, r1), Link(o2, r2)]);
            ChainOk(c) && ChainPairs(c) == OperandPairs(h) + [o1] + ChainPairs(r1) + [o2] + ChainPairs(r2)
            && ChainValue(c) == Ast.BinaryExpr(
                 Ast.BinaryExpr(OperandValue(h), ParseBinaryOp(o1).value, ChainValue(r1)),
                 ParseBinaryOp(o2).value, ChainValue(r2))
  {
    var c := Chain(h, [Link(o1, r1), Link(o2, r2)]);
    assert LinkOk(c.links[0]) && LinkOk(c.links[1]);
    TwoLinksPairs(c);
    TwoLinksValue(c);
  }

  lemma TwoLinksPairs(c: Chain)
    requires |c.links| == 2
    ensures ChainPairs(c) == OperandPairs(c.head) + [c.links[0].opPair] + ChainPairs(c.links[0].right)
                             + [c.links[1].opPair] + ChainPairs(c.links[1].right)
  {
    var l0, l1 := c.links[0], c.links[1];
    assert LinksPairs(c, 2) == [];
    assert LinksPairs(c, 1) == [l1.opPair] + ChainPairs(l1.right);
    assert LinksPairs(c, 0) == [l0.opPair] + ChainPairs(l0.right) + ([l1.opPair] + ChainPairs(l1.right));
  }

  lemma TwoLinksValue(c: Chain)
    requires ChainOk(c) && |c.links| == 2
    ensures LinkOk(c.links[0]) && LinkOk(c.links[1])
    ensures ChainValue(c) == Ast.BinaryExpr(
              Ast.BinaryExpr(OperandValue(c.head), ParseBinaryOp(c.links[0].opPair).value, ChainValue(c.links[0].right)),
              ParseBinaryOp(c.links[1].opPair).value, ChainValue(c.links[1].right))
  {
    var l0, l1 := c.links[0], c.links[1];
    assert LinkOk(l0) && LinkOk(l1);
    var e1 := Ast.BinaryExpr(OperandValue(c.head), ParseBinaryOp(l0.opPair).value, ChainValue(l0.right));
    var e2 := Ast.BinaryExpr(e1, ParseBinaryOp(l1.opPair).value, ChainValue(l1.right));
    assert Fold(e2, c, 2) == e2;
    assert Fold(e1, c, 1) == e2;
  }

  /** Three operands and two operators group to the left when the first
      operator binds at least as tightly as the second, and to the right
      otherwise. */
  lemma ThreeOperands(p: Pair, a: Pair, o1: Pair, b: Pair, o2: Pair, c: Pair)
    requires p.children == [a, o1, b, o2, c]
    requires PrimaryPair(a) && PrimaryPair(b) && PrimaryPair(c)
    requires IsInfix(o1.rule) && IsInfix(o2.rule)
    ensures var x, y, z := ParsePrimary(a).value, ParsePrimary(b).value, ParsePrimary(c).value;
            var op1, op2 := ParseBinaryOp(o1).value, ParseBinaryOp(o2).value;
            ParseMath(p) == Ok(
              if TierPrec(o1.rule.infix) >= TierPrec(o2.rule.infix)
              then Ast.BinaryExpr(Ast.BinaryExpr(x, op1, y), op2, z)
              else Ast.BinaryExpr(x, op1, Ast.BinaryExpr(y, op2, z)))
  {
    LeafFacts(b);
    LeafFacts(c);
    if TierPrec(o1.rule.infix) >= TierPrec(o2.rule.infix) {
      TwoLinks(Primary(a), o1, Leaf(b), o2, Leaf(c));
      MathReadsLayout(p, Chain(Primary(a), [Link(o1, Leaf(b)), Link(o2, Leaf(c))]));
    } else {
      var inner := Chain(Primary(b), [Link(o2, Leaf(c))]);
      OneLink(Primary(b), o2, Leaf(c));
      OneLink(Primary(a), o1, inner);
      MathReadsLayout(p, Chain(Primary(a), [Link(o1, inner)]));
    }
  }

  /** Two operands and an operator. */
  lemma TwoOperands(p: Pair, a: Pair, o: Pair, b: Pair)
    requires p.children == [a, o, b]
    requires PrimaryPair(a) && PrimaryPair(b) && IsInfix(o.rule)
    ensures ParseMath(p) == Ok(Ast.BinaryExpr(ParsePrimary(a).value, ParseBinaryOp(o).value, ParsePrimary(b).value))
  {
    LeafFacts(b);
    OneLink(Primary(a), o, Leaf(b));
    MathReadsLayout(p, Chain(Primary(a), [Link(o, Leaf(b))]));
  }

  /** A prefix operator applies to the primary right after it, not to the
      operator expression it starts. */
  lemma PrefixBindsOperand(p: Pair, pre: Pair, a: Pair, o: Pair, b: Pair)
    requires p.children == [pre, a, o, b]
    requires IsPrefix(pre.rule) && PrimaryPair(a) && PrimaryPair(b) && IsInfix(o.rule)
    ensures ParseMath(p) == Ok(Ast.BinaryExpr(
              Ast.UnaryExpr(ParseUnaryOp(pre).value, ParsePrimary(a).value),
              ParseBinaryOp(o).value,
              ParsePrimary(b).value))
  {
    LeafFacts(b);
    OneLink(Prefixed(pre, Primary(a)), o, Leaf(b));
    MathReadsLayout(p, Chain(Prefixed(pre, Primary(a)), [Link(o, Leaf(b))]));
  }

  // ---------------------------------------------------------------------------
  // The builder's own examples

  /** An integer literal pair whose text is the numeral of `v`. */
  predicate IntPairOf(p: Pair, v: Text.Int64)
  {
    p.rule == IntLit && p.text == Text.IntToString(v)
  }

  function IntValue(v: Text.Int64): Ast.Expression
  {
    Ast.Lit(Literals.Numeric(Literals.Integer(v)))
  }

  /** The numeral of an `i64` is read back as that integer literal. */
  lemma IntPairParses(p: Pair, v: Text.Int64)
    requires IntPairOf(p, v)
    ensures PrimaryPair(p) && ParsePrimary(p) == Ok(IntValue(v))
  {
    Text.ParseIntToString(v);
  }

  /** `1 + 2 * 3` is an addition whose right operand is the
      multiplication. */
  lemma PrecedenceExample(p: Pair, one: Pair, plus: Pair, two: Pair, times: Pair, three: Pair)
    requires p.children == [one, plus, two, times, three]
    requires IntPairOf(one, 1) && IntPairOf(two, 2) && IntPairOf(three, 3)
    requires plus.rule == InfixRule(AddOp) && times.rule == InfixRule(MulOp)
    ensures ParseMath(p) == Ok(Ast.BinaryExpr(IntValue(1), Ast.Add, Ast.BinaryExpr(IntValue(2), Ast.Mul, IntValue(3))))
  {
    IntPairParses(one, 1);
    IntPairParses(two, 2);
    IntPairParses(three, 3);
    InfixReads(plus, AddOp);
    InfixReads(times, MulOp);
    ThreeOperands(p, one, plus, two, times, three);
  }

  /** `(1 + 2) * 3` is a multiplication whose left operand is the
      parenthesised addition. */
  lemma ParenthesisExample(p: Pair, atom: Pair, inner: Pair, one: Pair, plus: Pair, two: Pair, times: Pair, three: Pair)
    requires p.children == [atom, times, three]
    requires atom.rule == Atom && atom.children == [inner]
    requires inner.rule == Expr && inner.children == [one, plus, two]
    requires IntPairOf(one, 1) && IntPairOf(two, 2) && IntPairOf(three, 3)
    requires plus.rule == InfixRule(AddOp) && times.rule == InfixRule(MulOp)
    ensures ParseMath(p) == Ok(Ast.BinaryExpr(Ast.BinaryExpr(IntValue(1), Ast.Add, IntValue(2)), Ast.Mul, IntValue(3)))
  {
    IntPairParses(one, 1);
    IntPairParses(two, 2);
    IntPairParses(three, 3);
    InfixReads(plus, AddOp);
    InfixReads(times, MulOp);
    ParenthesesGroup(p, atom, inner, one, plus, two, times, three);
  }

  /** A parenthesised operation is the left operand of the operator after
      it, whatever the two operators' binding powers. */
  lemma ParenthesesGroup(p: Pair, atom: Pair, inner: Pair, a: Pair, o1: Pair, b: Pair, o2: Pair, c: Pair)
    requires p.children == [atom, o2, c]
    requires atom.rule == Atom && atom.children == [inner]
    requires inner.rule == Expr && inner.children == [a, o1, b]
    requires PrimaryPair(a) && PrimaryPair(b) && PrimaryPair(c) && IsInfix(o1.rule) && IsInfix(o2.rule)
    ensures ParseMath(p) == Ok(Ast.BinaryExpr(
              Ast.BinaryExpr(ParsePrimary(a).value, ParseBinaryOp(o1).value, ParsePrimary(b).value),
              ParseBinaryOp(o2).value, ParsePrimary(c).value))
  {
    var grouped := Ast.BinaryExpr(ParsePrimary(a).value, ParseBinaryOp(o1).value, ParsePrimary(b).value);
    TwoOperands(inner, a, o1, b);
    AtomReadsInner(atom, inner, grouped);
    TwoOperands(p, atom, o2, c);
  }

  /** An operator pair reads as the operator its rule names. */
  lemma InfixReads(o: Pair, k: InfixKind)
    requires o.rule == InfixRule(k)
    ensures ParseBinaryOp(o) == Ok(KindOperator(k))
  {
  }

  /** A parenthesised expression reads as the expression inside it. */
  lemma AtomReadsInner(atom: Pair, inner: Pair, e: Ast.Expression)
    requires atom.rule == Atom && atom.children == [inner]
    requires inner.rule == Expr && ParseMath(inner) == Ok(e)
    ensures PrimaryPair(atom) && ParsePrimary(atom) == Ok(e)
  {
    assert ParsePrimary(atom) == ParsePrimary(inner);
    assert ParsePrimary(inner) == ParseExpr(inner);
  }

  /** A ternary node with a question mark has the two branches at positions
      2 and 4; without one it is its condition. */
  lemma TernaryShape(p: Pair)
    requires p.rule == TernaryExpr && |p.children| >= 1
    ensures |p.children| >= 5 && p.children[1].rule == Question
              && ParseMath(p.children[0]).Ok? && ParseExpr(p.children[2]).Ok? && ParseExpr(p.children[4]).Ok?
            ==> ParseExpr(p) == Ok(Ast.TernaryExpr(ParseMath(p.children[0]).value,
                                                   ParseExpr(p.children[2]).value,
                                                   ParseExpr(p.children[4]).value))
    ensures (|p.children| == 1 || p.children[1].rule != Question) && ParseMath(p.children[0]).Ok?
            ==> ParseExpr(p) == Ok(ParseMath(p.children[0]).value)
    ensures |p.children| >= 2 && p.children[1].rule == Question && |p.children| < 5 ==> ParseExpr(p).Err?
  {
  }
}
