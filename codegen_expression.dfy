/** Rendering of Amber expressions as C expressions
    (crates/amber_codegen/src/expression.rs).  Every binary, unary and ternary
    node is wrapped in parentheses, so the C text groups exactly as the tree
    does whatever C's own precedence table says; `RenderGroups` below proves
    that the parentheses do delimit each node. */
module Render {
  import opened Outcomes
  import opened Text
  import opened Literals
  import opened Ast

  /** `render_binary_op`: the C spelling of each binary operator. */
  function BinaryOpSymbol(op: BinaryOp): (r: string)
    ensures 1 <= |r| <= 2
    ensures forall k :: 0 <= k < |r| ==> r[k] != '(' && r[k] != ')' && r[k] != ' '
  {
    match op
    case Add => "+"
    case Sub => "-"
    case Mul => "*"
    case Div => "/"
    case Mod => "%"
    case Eq => "=="
    case Ne => "!="
    case Lt => "<"
    case Le => "<="
    case Gt => ">"
    case Ge => ">="
    case BitAnd => "&"
    case BitOr => "|"
    case BitXor => "^"
    case Shl => "<<"
    case Shr => ">>"
    case And => "&&"
    case Or => "||"
  }

  /** No two binary operators share a symbol. */
  lemma BinaryOpSymbolInjective(a: BinaryOp, b: BinaryOp)
    requires BinaryOpSymbol(a) == BinaryOpSymbol(b)
    ensures a == b
  {
  }

  /** The C spelling of each prefix operator. */
  function PrefixSymbol(p: Prefix): (r: string)
    ensures 1 <= |r| <= 2
    ensures forall k :: 0 <= k < |r| ==> r[k] != '(' && r[k] != ')'
  {
    match p
    case Neg => "-"
    case Pos => "+"
    case Not => "!"
    case BitNot => "~"
    case PreInc => "++"
    case PreDec => "--"
    case Deref => "*"
  }

  /** No two prefix operators share a symbol. */
  lemma PrefixSymbolInjective(a: Prefix, b: Prefix)
    requires PrefixSymbol(a) == PrefixSymbol(b)
    ensures a == b
  {
  }

  /** `render_numeric_literal`: integers in decimal (the text reads back as the
      same `i64`); a 32-bit float gets an `f` suffix and a double is shown as
      is.  Float payloads are the literal's numeral text. */
  function RenderNumericLiteral(n: NumericLiteral): (r: string)
    ensures n.Integer? ==> ParseI64(r) == Some(n.value)
    ensures n.Float? ==> r == n.text + "f"
    ensures n.Double? ==> r == n.text
  {
    match n
    case Integer(i) => ParseIntToString(i); IntToString(i)
    case Float(t) => t + "f"
    case Double(t) => t
  }

  /** `render_literal`: booleans as the C keywords `true`/`false`, a character
      as the one-character string holding it. */
  function RenderLiteral(l: Literal): (r: string)
    ensures l.Numeric? ==> r == RenderNumericLiteral(l.num)
    ensures l.Bool? ==> (r == "true" <==> l.b) && (r == "false" <==> !l.b)
    ensures l.Char? ==> r == [l.c]
  {
    match l
    case Numeric(n) => RenderNumericLiteral(n)
    case Bool(b) => if b then "true" else "false"
    case Char(c) => [c]
  }

  /** `render_unary_op`: a prefix symbol directly followed by its operand, or
      the operand followed by a bracketed index. */
  function RenderUnary(op: UnaryOp, operand: Expression): (r: string)
    decreases Expression.UnaryExpr(op, operand), 0
    ensures op.PrefixOp? ==> var sym := PrefixSymbol(op.pre);
              |r| == |sym| + |RenderExpr(operand)| && r[..|sym|] == sym && r[|sym|..] == RenderExpr(operand)
    ensures op.PostfixOp? ==> var x := RenderExpr(operand);
              |r| >= |x| + 2 && r[..|x|] == x && r[|x|] == '[' && r[|r| - 1] == ']'
              && r[|x| + 1..|r| - 1] == RenderExpr(op.post.index)
  {
    match op
    case PrefixOp(p) => PrefixSymbol(p) + RenderExpr(operand)
    case PostfixOp(Index(index)) => RenderExpr(operand) + "[" + RenderExpr(index) + "]"
  }

  /** `render_expr`: literals and identifiers verbatim, every other node in
      parentheses. */
  function RenderExpr(e: Expression): (r: string)
    decreases e, 1
    ensures !e.Lit? && !e.Identifier? ==> |r| >= 2 && r[0] == '(' && r[|r| - 1] == ')'
  {
    match e
    case Lit(l) => RenderLiteral(l)
    case Identifier(name) => name
    case BinaryExpr(left, op, right) =>
      "(" + RenderExpr(left) + " " + BinaryOpSymbol(op) + " " + RenderExpr(right) + ")"
    case UnaryExpr(op, operand) => "(" + RenderUnary(op, operand) + ")"
    case TernaryExpr(c, t, f) =>
      "(" + RenderExpr(c) + " ? " + RenderExpr(t) + " : " + RenderExpr(f) + ")"
  }

  // ---------------------------------------------------------------------------
  // Parenthesis structure of the rendered text

  /** Opening minus closing parentheses in `s`. */
  function Depth(s: string): int
  {
    if s == [] then 0
    else Depth(s[..|s| - 1]) + (if s[|s| - 1] == '(' then 1 else if s[|s| - 1] == ')' then -1 else 0)
  }

  /** Every prefix closes no more parentheses than it opens, and the whole
      string closes all it opens. */
  predicate Balanced(s: string)
  {
    Depth(s) == 0 && forall k :: 0 <= k <= |s| ==> Depth(s[..k]) >= 0
  }

  /** `s` is one parenthesised group: its first `(` stays open until the very
      last character. */
  predicate Group(s: string)
  {
    |s| >= 2 && s[0] == '(' && Balanced(s) && forall k :: 1 <= k < |s| ==> Depth(s[..k]) >= 1
  }

  predicate NoParens(s: string)
  {
    forall k :: 0 <= k < |s| ==> s[k] != '(' && s[k] != ')'
  }

  lemma {:induction false} DepthConcat(a: string, b: string)
    ensures Depth(a + b) == Depth(a) + Depth(b)
    decreases |b|
  {
    if b == [] {
      assert a + b == a;
    } else {
      var b' := b[..|b| - 1];
      DepthConcat(a, b');
      assert (a + b)[..|a + b| - 1] == a + b';
    }
  }

  lemma {:induction false} NoParensDepth(s: string)
    requires NoParens(s)
    ensures Depth(s) == 0
    decreases |s|
  {
    if s != [] {
      NoParensDepth(s[..|s| - 1]);
    }
  }

  lemma NoParensBalanced(s: string)
    requires NoParens(s)
    ensures Balanced(s)
  {
    NoParensDepth(s);
    forall k | 0 <= k <= |s|
      ensures Depth(s[..k]) >= 0
    {
      NoParensDepth(s[..k]);
    }
  }

  lemma BalancedConcat(a: string, b: string)
    requires Balanced(a) && Balanced(b)
    ensures Balanced(a + b)
  {
    DepthConcat(a, b);
    forall k | 0 <= k <= |a + b|
      ensures Depth((a + b)[..k]) >= 0
    {
      if k <= |a| {
        assert (a + b)[..k] == a[..k];
      } else {
        assert (a + b)[..k] == a + b[..k - |a|];
        DepthConcat(a, b[..k - |a|]);
      }
    }
  }

  lemma Parenthesise(s: string)
    requires Balanced(s)
    ensures Group("(" + s + ")")
  {
    var g := "(" + s + ")";
    DepthConcat("(" + s, ")");
    DepthConcat("(", s);
    assert g[..|g| - 1] == "(" + s;
    forall k | 1 <= k < |g|
      ensures Depth(g[..k]) >= 1
    {
      assert g[..k] == "(" + s[..k - 1];
      DepthConcat("(", s[..k - 1]);
    }
    forall k | 0 <= k <= |g|
      ensures Depth(g[..k]) >= 0
    {
      if k == 0 {
        assert g[..k] == [];
      } else if k == |g| {
        assert g[..k] == g;
      }
    }
  }

  /** No identifier, character or float text contains a parenthesis. */
  predicate ParenFreeLeaves(e: Expression)
  {
    match e
    case Lit(l) =>
      (l.Char? ==> l.c != '(' && l.c != ')')
      && (l.Numeric? && !l.num.Integer? ==> NoParens(l.num.text))
    case Identifier(name) => NoParens(name)
    case UnaryExpr(op, operand) =>
      ParenFreeLeaves(operand) && (op.PostfixOp? ==> ParenFreeLeaves(op.post.index))
    case BinaryExpr(left, _, right) => ParenFreeLeaves(left) && ParenFreeLeaves(right)
    case TernaryExpr(c, t, f) => ParenFreeLeaves(c) && ParenFreeLeaves(t) && ParenFreeLeaves(f)
  }

  lemma LeafNoParens(e: Expression)
    requires e.Lit? || e.Identifier?
    requires ParenFreeLeaves(e)
    ensures NoParens(RenderExpr(e))
  {
    if e.Lit? && e.lit.Numeric? && e.lit.num.Integer? {
      var i := e.lit.num.value;
      if i < 0 {
        var m: nat := -(i as int);
        assert IntToString(i) == "-" + NatToString(m);
      }
    }
  }

  lemma WrapBinary(l: string, sym: string, r: string)
    requires Balanced(l) && Balanced(r) && NoParens(sym)
    ensures Group("(" + l + " " + sym + " " + r + ")")
  {
    var mid := " " + sym + " ";
    assert NoParens(mid);
    NoParensBalanced(mid);
    BalancedConcat(l, mid);
    BalancedConcat(l + mid, r);
    Parenthesise(l + mid + r);
    assert "(" + l + " " + sym + " " + r + ")" == "(" + (l + mid + r) + ")";
  }

  lemma WrapPrefix(sym: string, x: string)
    requires NoParens(sym) && Balanced(x)
    ensures Group("(" + (sym + x) + ")")
  {
    NoParensBalanced(sym);
    BalancedConcat(sym, x);
    Parenthesise(sym + x);
  }

  lemma WrapIndex(x: string, i: string)
    requires Balanced(x) && Balanced(i)
    ensures Group("(" + (x + "[" + i + "]") + ")")
  {
    NoParensBalanced("[");
    NoParensBalanced("]");
    BalancedConcat(x, "[");
    BalancedConcat(x + "[", i);
    BalancedConcat(x + "[" + i, "]");
    Parenthesise(x + "[" + i + "]");
  }

  lemma WrapTernary(c: string, t: string, f: string)
    requires Balanced(c) && Balanced(t) && Balanced(f)
    ensures Group("(" + c + " ? " + t + " : " + f + ")")
  {
    NoParensBalanced(" ? ");
    NoParensBalanced(" : ");
    BalancedConcat(c, " ? ");
    BalancedConcat(c + " ? ", t);
    BalancedConcat(c + " ? " + t, " : ");
    BalancedConcat(c + " ? " + t + " : ", f);
    var inner := c + " ? " + t + " : " + f;
    Parenthesise(inner);
    assert "(" + c + " ? " + t + " : " + f + ")" == "(" + inner + ")";
  }

  /** The parentheses of the rendered text are balanced, and each operator
      node renders as a single group: its opening parenthesis is closed only
      by its last character.  So no C precedence rule can regroup the node's
      text with its surroundings. */
  lemma {:induction false} RenderGroups(e: Expression)
    requires ParenFreeLeaves(e)
    ensures Balanced(RenderExpr(e))
    ensures !e.Lit? && !e.Identifier? ==> Group(RenderExpr(e))
  {
    match e
    case Lit(_) =>
      LeafNoParens(e);
      NoParensBalanced(RenderExpr(e));
    case Identifier(_) =>
      LeafNoParens(e);
      NoParensBalanced(RenderExpr(e));
    case BinaryExpr(left, op, right) =>
      RenderGroups(left);
      RenderGroups(right);
      WrapBinary(RenderExpr(left), BinaryOpSymbol(op), RenderExpr(right));
    case UnaryExpr(op, operand) =>
      RenderGroups(operand);
      match op {
        case PrefixOp(p) =>
          WrapPrefix(PrefixSymbol(p), RenderExpr(operand));
        case PostfixOp(Index(index)) =>
          RenderGroups(index);
          WrapIndex(RenderExpr(operand), RenderExpr(index));
      }
    case TernaryExpr(c, t, f) =>
      RenderGroups(c);
      RenderGroups(t);
      RenderGroups(f);
      WrapTernary(RenderExpr(c), RenderExpr(t), RenderExpr(f));
  }
}
