/** What the operator parser of `ExprParser` computes.  An operator expression
    without parentheses is laid out as an operand followed by links, each an
    infix operator and its right operand; the operand is a primary or a prefix
    operator applied to an operand.  Such a layout is well formed when the
    operators along a chain never bind tighter than the one before them (so the
    chain groups to the left) and every operator inside a right operand binds
    tighter than the link that holds it.  The parser reads every well-formed
    layout back as its value: that is where precedence
    (crates/amber_parser/src/pratt.rs:11-44) and left associativity come from. */
module ExprLayout {
  import opened Outcomes
  import opened ParseTree
  import opened Pratt
  import opened ExprParser
  import Text
  import Literals
  import Ast

  datatype Operand = Primary(pair: Pair) | Prefixed(opPair: Pair, operand: Operand)

  datatype Chain = Chain(head: Operand, links: seq<Link>)

  datatype Link = Link(opPair: Pair, right: Chain)

  // ---------------------------------------------------------------------------
  // The pairs of a layout, and what it means

  function OperandPairs(o: Operand): seq<Pair>
  {
    match o
    case Primary(p) => [p]
    case Prefixed(op, inner) => [op] + OperandPairs(inner)
  }

  function ChainPairs(c: Chain): seq<Pair>
    decreases c, 1, 0
  {
    OperandPairs(c.head) + LinksPairs(c, 0)
  }

  /** The pairs of the links of `c` from the `i`-th on. */
  function LinksPairs(c: Chain, i: nat): seq<Pair>
    requires i <= |c.links|
    decreases c, 0, |c.links| - i
  {
    if i == |c.links| then []
    else [c.links[i].opPair] + ChainPairs(c.links[i].right) + LinksPairs(c, i + 1)
  }

  /** The binding power of a link's operator. */
  function LinkPrec(l: Link): int
  {
    if l.opPair.rule.InfixRule? then TierPrec(l.opPair.rule.infix) else 0
  }

  function OperandOk(o: Operand): bool
  {
    match o
    case Primary(p) => OpTable(p.rule).None? && ParsePrimary(p).Ok?
    case Prefixed(op, inner) => IsPrefix(op.rule) && OperandOk(inner)
  }

  /** Every operator of the chain binds tighter than `prec`. */
  predicate Above(c: Chain, prec: int)
  {
    forall k :: 0 <= k < |c.links| ==> LinkPrec(c.links[k]) > prec
  }

  /** A well-formed chain: its operand and links are well formed, and its
      operators never bind tighter than the one before them. */
  predicate ChainOk(c: Chain)
    decreases c, 0
  {
    && OperandOk(c.head)
    && (forall k :: 0 <= k < |c.links| ==> LinkOk(c.links[k]))
    && (forall k :: 0 < k < |c.links| ==> LinkPrec(c.links[k]) <= LinkPrec(c.links[k - 1]))
  }

  /** A well-formed link: an infix operator, and a right operand whose
      operators all bind tighter than it. */
  predicate LinkOk(l: Link)
    decreases l, 1
  {
    IsInfix(l.opPair.rule) && ChainOk(l.right) && Above(l.right, LinkPrec(l))
  }

  function OperandValue(o: Operand): Ast.Expression
    requires OperandOk(o)
  {
    match o
    case Primary(p) => ParsePrimary(p).value
    case Prefixed(op, inner) => Ast.UnaryExpr(ParseUnaryOp(op).value, OperandValue(inner))
  }

  /** The chain grouped to the left. */
  function ChainValue(c: Chain): Ast.Expression
    requires ChainOk(c)
    decreases c, 1, 0
  {
    Fold(OperandValue(c.head), c, 0)
  }

  /** `lhs` joined, to the left, with the links of `c` from the `i`-th on. */
  function Fold(lhs: Ast.Expression, c: Chain, i: nat): Ast.Expression
    requires ChainOk(c) && i <= |c.links|
    decreases c, 0, |c.links| - i
  {
    if i == |c.links| then lhs
    else
      var l := c.links[i];
      assert LinkOk(l);
      Fold(Ast.BinaryExpr(lhs, ParseBinaryOp(l.opPair).value, ChainValue(l.right)), c, i + 1)
  }

  // ---------------------------------------------------------------------------
  // Positions

  /** `xs` occurs in `ps` at `pos`. */
  predicate Fits(ps: seq<Pair>, pos: nat, xs: seq<Pair>)
    decreases |xs|
  {
    pos + |xs| <= |ps| && (|xs| > 0 ==> ps[pos] == xs[0] && Fits(ps, pos + 1, xs[1..]))
  }

  lemma {:induction false} FitsSplit(ps: seq<Pair>, pos: nat, xs: seq<Pair>, ys: seq<Pair>)
    requires Fits(ps, pos, xs + ys)
    ensures Fits(ps, pos, xs) && Fits(ps, pos + |xs|, ys)
    decreases |xs|
  {
    if |xs| == 0 {
      assert xs + ys == ys;
    } else {
      assert (xs + ys)[1..] == xs[1..] + ys;
      FitsSplit(ps, pos + 1, xs[1..], ys);
    }
  }

  /** Every suffix of a sequence fits where it starts. */
  lemma {:induction false} FitsSuffix(ps: seq<Pair>, pos: nat)
    requires pos <= |ps|
    ensures Fits(ps, pos, ps[pos..])
    decreases |ps| - pos
  {
    if pos < |ps| {
      assert ps[pos..][1..] == ps[pos + 1..];
      FitsSuffix(ps, pos + 1);
    }
  }

  /** What may follow an operand: nothing, or an infix operator. */
  predicate AfterOperand(ps: seq<Pair>, end: nat)
  {
    end == |ps| || (end < |ps| && IsInfix(ps[end].rule))
  }

  /** Where a parse at binding power `rbp` ends: at the end of the pairs, or
      at an infix operator that does not bind tighter than `rbp`. */
  predicate Stops(ps: seq<Pair>, end: nat, rbp: int)
  {
    end == |ps| || (end < |ps| && IsInfix(ps[end].rule) && TierPrec(ps[end].rule.infix) <= rbp)
  }

  // ---------------------------------------------------------------------------
  // The parser reads back well-formed layouts

  /** An operand read by `Nud` is handed to the operator loop. */
  lemma ClimbStep(ps: seq<Pair>, pos: nat, rbp: int, e: Ast.Expression, mid: nat)
    requires pos <= |ps| && Nud(ps, pos) == Ok((e, mid))
    ensures Climb(ps, pos, rbp) == Led(ps, mid, e, rbp)
  {
  }

  /** One turn of the operator loop at an infix operator that binds tighter
      than `rbp`. */
  lemma LedStep(ps: seq<Pair>, pos: nat, lhs: Ast.Expression, rbp: int, rhs: Ast.Expression, next: nat)
    requires pos < |ps| && IsInfix(ps[pos].rule) && TierPrec(ps[pos].rule.infix) > rbp
    requires Climb(ps, pos + 1, TierPrec(ps[pos].rule.infix)) == Ok((rhs, next))
    ensures Led(ps, pos, lhs, rbp) == Led(ps, next, Ast.BinaryExpr(lhs, ParseBinaryOp(ps[pos]).value, rhs), rbp)
  {
  }

  /** A prefix operator applied to an operand read at one below the prefix
      binding power. */
  lemma NudPrefix(ps: seq<Pair>, pos: nat, e: Ast.Expression, next: nat)
    requires pos < |ps| && IsPrefix(ps[pos].rule)
    requires Climb(ps, pos + 1, PrefixPrec - 1) == Ok((e, next))
    ensures Nud(ps, pos) == Ok((Ast.UnaryExpr(ParseUnaryOp(ps[pos]).value, e), next))
  {
  }

  /** At a stopping point the operator loop gives back what it was given. */
  lemma LedStops(ps: seq<Pair>, pos: nat, lhs: Ast.Expression, rbp: int)
    requires pos <= |ps| && Stops(ps, pos, rbp)
    ensures Led(ps, pos, lhs, rbp) == Ok((lhs, pos))
  {
  }

  lemma {:induction false} OperandRead(ps: seq<Pair>, pos: nat, o: Operand)
    requires OperandOk(o) && Fits(ps, pos, OperandPairs(o))
    requires AfterOperand(ps, pos + |OperandPairs(o)|)
    ensures Nud(ps, pos) == Ok((OperandValue(o), pos + |OperandPairs(o)|))
    decreases o
  {
    match o
    case Primary(p) =>
    case Prefixed(op, inner) =>
      FitsSplit(ps, pos, [op], OperandPairs(inner));
      var end := pos + |OperandPairs(o)|;
      OperandRead(ps, pos + 1, inner);
      LedStops(ps, end, OperandValue(inner), PrefixPrec - 1);
      ClimbStep(ps, pos + 1, PrefixPrec - 1, OperandValue(inner), end);
      NudPrefix(ps, pos, OperandValue(inner), end);
  }

  lemma {:induction false} ChainRead(ps: seq<Pair>, pos: nat, c: Chain, rbp: int)
    requires ChainOk(c) && Fits(ps, pos, ChainPairs(c))
    requires rbp < PrefixPrec && Above(c, rbp)
    requires Stops(ps, pos + |ChainPairs(c)|, rbp)
    ensures Climb(ps, pos, rbp) == Ok((ChainValue(c), pos + |ChainPairs(c)|))
    decreases c, 1, 0
  {
    var head := OperandPairs(c.head);
    FitsSplit(ps, pos, head, LinksPairs(c, 0));
    var mid := pos + |head|;
    if |c.links| > 0 {
      assert LinksPairs(c, 0) == [c.links[0].opPair] + (ChainPairs(c.links[0].right) + LinksPairs(c, 1));
      assert LinkOk(c.links[0]);
    }
    OperandRead(ps, pos, c.head);
    LinksRead(ps, mid, OperandValue(c.head), c, 0, rbp);
    ClimbStep(ps, pos, rbp, OperandValue(c.head), mid);
  }

  lemma {:induction false} LinksRead(ps: seq<Pair>, pos: nat, lhs: Ast.Expression, c: Chain, i: nat, rbp: int)
    requires ChainOk(c) && i <= |c.links| && Fits(ps, pos, LinksPairs(c, i))
    requires rbp < PrefixPrec && Above(c, rbp)
    requires Stops(ps, pos + |LinksPairs(c, i)|, rbp)
    ensures Led(ps, pos, lhs, rbp) == Ok((Fold(lhs, c, i), pos + |LinksPairs(c, i)|))
    decreases c, 0, |c.links| - i
  {
    if i < |c.links| {
      var l := c.links[i];
      var next := pos + 1 + |ChainPairs(l.right)|;
      LinkLayout(ps, pos, c, i);
      RightStops(ps, next, c, i, rbp);
      ChainRead(ps, pos + 1, l.right, LinkPrec(l));
      var bin := Ast.BinaryExpr(lhs, ParseBinaryOp(l.opPair).value, ChainValue(l.right));
      LinksRead(ps, next, bin, c, i + 1, rbp);
      LinkStep(ps, pos, lhs, c, i, rbp, next, pos + |LinksPairs(c, i)|);
    } else {
      assert LinksPairs(c, i) == [];
      LedStops(ps, pos, lhs, rbp);
    }
  }

  /** Where the pieces of the `i`-th link and the links after it lie. */
  lemma LinkLayout(ps: seq<Pair>, pos: nat, c: Chain, i: nat)
    requires i < |c.links| && Fits(ps, pos, LinksPairs(c, i))
    ensures pos < |ps| && ps[pos] == c.links[i].opPair
    ensures Fits(ps, pos + 1, ChainPairs(c.links[i].right))
    ensures Fits(ps, pos + 1 + |ChainPairs(c.links[i].right)|, LinksPairs(c, i + 1))
    ensures pos + 1 + |ChainPairs(c.links[i].right)| + |LinksPairs(c, i + 1)| == pos + |LinksPairs(c, i)|
  {
    var l := c.links[i];
    var right := ChainPairs(l.right);
    var rest := LinksPairs(c, i + 1);
    assert LinksPairs(c, i) == [l.opPair] + right + rest;
    FitsSplit(ps, pos, [l.opPair] + right, rest);
    FitsSplit(ps, pos, [l.opPair], right);
  }

  /** The right operand of the `i`-th link stops where the links after it
      begin. */
  lemma RightStops(ps: seq<Pair>, next: nat, c: Chain, i: nat, rbp: int)
    requires ChainOk(c) && i < |c.links| && Above(c, rbp)
    requires Fits(ps, next, LinksPairs(c, i + 1)) && Stops(ps, next + |LinksPairs(c, i + 1)|, rbp)
    ensures Stops(ps, next, LinkPrec(c.links[i]))
  {
    if i + 1 < |c.links| {
      NextLinkStops(ps, next, c, i);
    } else {
      assert LinksPairs(c, i + 1) == [];
      StopsWeaken(ps, next, rbp, LinkPrec(c.links[i]));
    }
  }

  /** One link read: its operator, its right operand, then the links after
      it. */
  lemma LinkStep(ps: seq<Pair>, pos: nat, lhs: Ast.Expression, c: Chain, i: nat, rbp: int, next: nat, end: nat)
    requires ChainOk(c) && i < |c.links| && Above(c, rbp) && LinkOk(c.links[i])
    requires pos < |ps| && ps[pos] == c.links[i].opPair
    requires Climb(ps, pos + 1, LinkPrec(c.links[i])) == Ok((ChainValue(c.links[i].right), next))
    requires Led(ps, next, Ast.BinaryExpr(lhs, ParseBinaryOp(c.links[i].opPair).value, ChainValue(c.links[i].right)), rbp)
             == Ok((Fold(Ast.BinaryExpr(lhs, ParseBinaryOp(c.links[i].opPair).value, ChainValue(c.links[i].right)), c, i + 1), end))
    ensures Led(ps, pos, lhs, rbp) == Ok((Fold(lhs, c, i), end))
  {
    var l := c.links[i];
    assert LinkPrec(l) > rbp;
    LedStep(ps, pos, lhs, rbp, ChainValue(l.right), next);
  }

  lemma StopsWeaken(ps: seq<Pair>, end: nat, a: int, b: int)
    requires Stops(ps, end, a) && a <= b
    ensures Stops(ps, end, b)
  {
  }

  /** The right operand of a link stops at the next link's operator. */
  lemma NextLinkStops(ps: seq<Pair>, next: nat, c: Chain, i: nat)
    requires ChainOk(c) && i + 1 < |c.links|
    requires Fits(ps, next, LinksPairs(c, i + 1))
    ensures Stops(ps, next, LinkPrec(c.links[i]))
  {
    var n := c.links[i + 1];
    assert LinkOk(n);
    var rest := LinksPairs(c, i + 1);
    assert rest == [n.opPair] + (ChainPairs(n.right) + LinksPairs(c, i + 2));
    assert LinkPrec(n) <= LinkPrec(c.links[i]);
  }

  /** An operator expression whose pairs are a well-formed layout parses to
      the layout's value. */
  lemma MathReadsLayout(p: Pair, c: Chain)
    requires ChainOk(c) && p.children == ChainPairs(c)
    ensures ParseMath(p) == Ok(ChainValue(c))
  {
    var ps := p.children;
    FitsSuffix(ps, 0);
    assert ps[0..] == ps;
    forall k | 0 <= k < |c.links|
      ensures LinkPrec(c.links[k]) > 0
    {
      assert LinkOk(c.links[k]);
    }
    ChainRead(ps, 0, c, 0);
  }
}
