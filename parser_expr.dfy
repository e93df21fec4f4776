/** Building expressions from the parse tree
    (crates/amber_parser/src/expr_parser.rs).  A ternary node is split by hand;
    the operator expression inside it is parsed by precedence climbing over the
    operator table of `Pratt`, the way the parsing library's Pratt parser does
    it: a prefix operator or a primary first, then, while the next operator
    binds tighter than the caller's binding power, an infix operator and its
    right operand parsed at that operator's own binding power. */
module ExprParser {
  import opened Outcomes
  import opened ParseTree
  import opened Pratt
  import Text
  import Literals
  import Ast

  // ---------------------------------------------------------------------------
  // Operators

  /** `parse_binary_op`: the operator a rule stands for, if it is an infix
      operator rule. */
  function BinaryOpOf(r: Rule): (o: Option<Ast.BinaryOp>)
    ensures o.Some? <==> IsInfix(r)
  {
    match r
    case InfixRule(k) => Some(KindOperator(k))
    case _ => None
  }

  function KindOperator(k: InfixKind): Ast.BinaryOp
  {
    match k
    case AddOp => Ast.Add
    case SubOp => Ast.Sub
    case MulOp => Ast.Mul
    case DivOp => Ast.Div
    case ModOp => Ast.Mod
    case EqOp => Ast.Eq
    case NeOp => Ast.Ne
    case LtOp => Ast.Lt
    case LeOp => Ast.Le
    case GtOp => Ast.Gt
    case GeOp => Ast.Ge
    case BitwiseAnd => Ast.BitAnd
    case BitwiseOr => Ast.BitOr
    case BitwiseXor => Ast.BitXor
    case ShlOp => Ast.Shl
    case ShrOp => Ast.Shr
    case AndOp => Ast.And
    case OrOp => Ast.Or
  }

  /** The rule that spells a binary operator. */
  function OperatorRule(op: Ast.BinaryOp): (r: Rule)
    ensures IsInfix(r)
  {
    InfixRule(match op
      case Add => AddOp
      case Sub => SubOp
      case Mul => MulOp
      case Div => DivOp
      case Mod => ModOp
      case Eq => EqOp
      case Ne => NeOp
      case Lt => LtOp
      case Le => LeOp
      case Gt => GtOp
      case Ge => GeOp
      case BitAnd => BitwiseAnd
      case BitOr => BitwiseOr
      case BitXor => BitwiseXor
      case Shl => ShlOp
      case Shr => ShrOp
      case And => AndOp
      case Or => OrOp)
  }

  /** The eighteen operator rules and the eighteen binary operators correspond
      one to one. */
  lemma BinaryOpBijection(r: Rule, op: Ast.BinaryOp)
    ensures BinaryOpOf(OperatorRule(op)) == Some(op)
    ensures BinaryOpOf(r) == Some(op) <==> r == OperatorRule(op)
  {
  }

  function ParseBinaryOp(p: Pair): (r: Result<Ast.BinaryOp, Panic>)
    ensures r.Ok? <==> IsInfix(p.rule)
  {
    match BinaryOpOf(p.rule)
    case Some(op) => Ok(op)
    case None => Err(Panic)
  }

  /** `parse_unary_op`: the prefix operator a rule stands for.  There is no
      rule for dereference, so it never yields `Deref`. */
  function PrefixOf(r: Rule): (o: Option<Ast.Prefix>)
    ensures o.Some? <==> IsPrefix(r)
    ensures o != Some(Ast.Deref)
  {
    match r
    case PrefixRule(k) =>
      Some(match k
        case PrefixMinus => Ast.Neg
        case PrefixPlus => Ast.Pos
        case PrefixNot => Ast.Not
        case PrefixBitnot => Ast.BitNot
        case PrefixPreinc => Ast.PreInc
        case PrefixPredec => Ast.PreDec)
    case _ => None
  }

  function ParseUnaryOp(p: Pair): (r: Result<Ast.UnaryOp, Panic>)
    ensures r.Ok? <==> IsPrefix(p.rule)
    ensures r.Ok? ==> r.value.PrefixOp? && r.value.pre != Ast.Deref
  {
    match PrefixOf(p.rule)
    case Some(pre) => Ok(Ast.PrefixOp(pre))
    case None => Err(Panic)
  }

  // ---------------------------------------------------------------------------
  // Literals

  /** An integer literal: the `i64` its text denotes; text that is out of
      range or not a numeral panics. */
  function IntLiteral(text: string): (r: Result<Ast.Expression, Panic>)
    ensures r.Ok? <==> Text.ParseI64(text).Some?
    ensures r.Ok? ==> r.value == Ast.Lit(Literals.Numeric(Literals.Integer(Text.ParseI64(text).value)))
  {
    match Text.ParseI64(text)
    case Some(v) => Ok(Ast.Lit(Literals.Numeric(Literals.Integer(v))))
    case None => Err(Panic)
  }

  /** A float literal: 32-bit when the text ends in `f`, 64-bit otherwise;
      the payload is the numeral with every trailing `f` removed. */
  function FloatLiteral(text: string): (n: Literals.NumericLiteral)
    ensures n.Float? <==> Text.EndsWithChar(text, 'f')
    ensures n.Double? <==> !Text.EndsWithChar(text, 'f')
    ensures n.Double? ==> n.text == text
    ensures !n.Integer? && !Text.EndsWithChar(n.text, 'f')
    ensures |n.text| <= |text| && n.text == text[..|n.text|]
  {
    var cleaned := Text.TrimEndChar(text, 'f');
    if Text.EndsWithChar(text, 'f') then Literals.Float(cleaned) else Literals.Double(cleaned)
  }

  /** A character literal is the byte at index 1 of its text, read as a
      character; text shorter than two bytes panics. */
  function CharLiteral(text: string): (r: Result<char, Panic>)
    ensures r.Ok? <==> |Text.Utf8(text)| >= 2
    ensures r.Ok? ==> r.value as int < 256
  {
    var bytes := Text.Utf8(text);
    if |bytes| < 2 then Err(Panic) else Ok(bytes[1] as char)
  }

  /** For a quoted ASCII character the byte at index 1 is the character
      itself: `'a'` gives `a`. */
  lemma CharLiteralAscii(text: string)
    requires |text| >= 2 && text[0] as int < 0x80 && text[1] as int < 0x80
    ensures CharLiteral(text) == Ok(text[1])
  {
    Text.Utf8SecondByte(text);
  }

  // ---------------------------------------------------------------------------
  // Expressions

  /** `parse_primary`: an atom is its first child, literals and identifiers
      are read from the node's text, expression nodes are read by
      `ParseExpr`, and any other node panics. */
  function ParsePrimary(p: Pair): (r: Result<Ast.Expression, Panic>)
    decreases Size(p), 0, 3
  {
    match p.rule
    case Atom =>
      if |p.children| == 0 then Err(Panic)
      else
        ChildSize(p, 0);
        ParsePrimary(p.children[0])
    case IntLit => IntLiteral(p.text)
    case FloatLit => Ok(Ast.Lit(Literals.Numeric(FloatLiteral(p.text))))
    case BoolLit => Ok(Ast.Lit(Literals.Bool(p.text == "true")))
    case CharLit =>
      var c :- CharLiteral(p.text);
      Ok(Ast.Lit(Literals.Char(c)))
    case Ident => Ok(Ast.Identifier(p.text))
    case Expr => ParseExpr(p)
    case TernaryExpr => ParseExpr(p)
    case MathExpr => ParseExpr(p)
    case Unary => ParseExpr(p)
    case _ => Err(Panic)
  }

  /** What each kind of primary node reads as: a literal or a name from its
      text, a nested expression through `parse_expr`, and a panic for every
      other rule. */
  lemma PrimaryShape(p: Pair)
    ensures p.rule == Atom && |p.children| == 0 ==> ParsePrimary(p).Err?
    ensures ParsePrimary(p).Ok? ==> p.rule in {Atom, IntLit, FloatLit, BoolLit, CharLit, Ident, Expr, TernaryExpr, MathExpr, Unary}
    ensures p.rule == IntLit ==> ParsePrimary(p) == IntLiteral(p.text)
    ensures p.rule == BoolLit ==> ParsePrimary(p) == Ok(Ast.Lit(Literals.Bool(p.text == "true")))
    ensures p.rule == CharLit ==> (ParsePrimary(p).Ok? <==> CharLiteral(p.text).Ok?)
    ensures p.rule == Ident ==> ParsePrimary(p) == Ok(Ast.Identifier(p.text))
    ensures p.rule in {Expr, TernaryExpr, MathExpr, Unary} ==> ParsePrimary(p) == ParseExpr(p)
  {
  }

  /** `parse_expr`: a ternary node is its condition, or, when a question mark
      follows the condition, the condition with the nodes at positions 2 and
      4 as its branches (position 3 is the colon); any other node is an
      operator expression. */
  function ParseExpr(p: Pair): (r: Result<Ast.Expression, Panic>)
    decreases Size(p), 0, 2
  {
    if p.rule == TernaryExpr then
      var cs := p.children;
      if |cs| == 0 then Err(Panic)
      else
        ChildSize(p, 0);
        var condition :- ParseMath(cs[0]);
        if |cs| >= 2 && cs[1].rule == Question then
          if |cs| < 3 then Err(Panic)
          else
            ChildSize(p, 2);
            var thenExpr :- ParseExpr(cs[2]);
            if |cs| < 5 then Err(Panic)
            else
              ChildSize(p, 4);
              var elseExpr :- ParseExpr(cs[4]);
              Ok(Ast.TernaryExpr(condition, thenExpr, elseExpr))
        else Ok(condition)
    else ParseMath(p)
  }

  /** A ternary node without children panics; one whose second child is a
      question mark reads, when it succeeds, as a conditional expression and
      had all five children; any other node reads as an operator
      expression. */
  lemma ExprShape(p: Pair)
    ensures p.rule != TernaryExpr ==> ParseExpr(p) == ParseMath(p)
    ensures p.rule == TernaryExpr && |p.children| == 0 ==> ParseExpr(p).Err?
    ensures p.rule == TernaryExpr && |p.children| >= 2 && p.children[1].rule == Question && ParseExpr(p).Ok?
            ==> |p.children| >= 5 && ParseExpr(p).value.TernaryExpr?
  {
  }

  /** `parse_math_expr`: precedence climbing over the children, starting at
      binding power 0. */
  function ParseMath(p: Pair): (r: Result<Ast.Expression, Panic>)
    decreases Size(p), 0, 1
  {
    var res :- Climb(p.children, 0, 0);
    Ok(res.0)
  }

  /** An operator expression with no children panics, and one that reads
      starts with an operand, never with an infix operator. */
  lemma MathShape(p: Pair)
    ensures |p.children| == 0 ==> ParseMath(p).Err?
    ensures ParseMath(p).Ok? ==> !IsInfix(p.children[0].rule)
  {
    if ParseMath(p).Ok? {
      assert Climb(p.children, 0, 0).Ok?;
      assert Nud(p.children, 0).Ok?;
      NudNotInfix(p.children, 0);
    }
  }

  /** An operand never starts with an infix operator. */
  lemma NudNotInfix(ps: seq<Pair>, pos: nat)
    requires pos <= |ps|
    ensures Nud(ps, pos).Ok? ==> !IsInfix(ps[pos].rule)
  {
  }

  /** The parsing engine's `expr`: an operand, then the operators that bind
      tighter than `rbp`.  The result carries the position after the last
      pair consumed. */
  function Climb(ps: seq<Pair>, pos: nat, rbp: int): (r: Result<(Ast.Expression, nat), Panic>)
    requires pos <= |ps|
    ensures r.Ok? ==> pos < r.value.1 <= |ps|
    decreases SeqSize(ps), |ps| - pos, 2
  {
    var first :- Nud(ps, pos);
    Led(ps, first.1, first.0, rbp)
  }

  /** The engine's `nud`: a prefix operator applied to the operand parsed at
      one below the prefix binding power, or a primary.  Running out of pairs
      or meeting an infix operator here panics. */
  function Nud(ps: seq<Pair>, pos: nat): (r: Result<(Ast.Expression, nat), Panic>)
    requires pos <= |ps|
    ensures r.Ok? ==> pos < r.value.1 <= |ps|
    decreases SeqSize(ps), |ps| - pos, 1
  {
    if pos == |ps| then Err(Panic)
    else
      match OpTable(ps[pos].rule)
      case Some(entry) =>
        if entry.affix == PrefixAffix then
          var operand :- Climb(ps, pos + 1, entry.prec - 1);
          // every prefix entry of the table is a prefix rule, so this is Ok
          var op := ParseUnaryOp(ps[pos]).value;
          Ok((Ast.UnaryExpr(op, operand.0), operand.1))
        else Err(Panic)
      case None =>
        ElementSize(ps, pos);
        TailSize(ps, pos);
        var e :- ParsePrimary(ps[pos]);
        Ok((e, pos + 1))
  }

  /** The engine's loop over `led`: while the next pair is an operator that
      binds tighter than `rbp`, it must be infix; its right operand is parsed
      at its own binding power (left associativity) and joined to what was
      parsed so far.  A pair that is not an operator where one is expected
      panics. */
  function Led(ps: seq<Pair>, pos: nat, lhs: Ast.Expression, rbp: int): (r: Result<(Ast.Expression, nat), Panic>)
    requires pos <= |ps|
    ensures r.Ok? ==> pos <= r.value.1 <= |ps|
    decreases SeqSize(ps), |ps| - pos, 0
  {
    if pos == |ps| then Ok((lhs, pos))
    else
      match OpTable(ps[pos].rule)
      case None => Err(Panic)
      case Some(entry) =>
        if entry.prec <= rbp then Ok((lhs, pos))
        else if entry.affix == PrefixAffix then Err(Panic)
        else
          var rhs :- Climb(ps, pos + 1, entry.prec);
          var op := ParseBinaryOp(ps[pos]).value;
          Led(ps, rhs.1, Ast.BinaryExpr(lhs, op, rhs.0), rbp)
  }
}
