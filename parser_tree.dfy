/** The parse tree the AST builder walks.  The grammar and the parsing engine
    are a foreign library; what the builder sees of their output is a tree of
    pairs, each with the grammar rule that matched, the exact source text it
    spans, and its child pairs in source order.  A builder that meets a tree it
    does not expect panics; the model reports that as `Panic`. */
module ParseTree {
  import opened Outcomes

  /** The grammar rules the builder distinguishes; the operator rules are
      grouped by kind. */
  datatype Rule =
    | ProgramRule | StatementRule
    | Declaration | Modifier | Keyword | Assignment | ExprStmt | ReturnStmt
    | IfStmt | WhileStmt | Block
    | StructDef | StructFields | StructField
    | FunctionDef | ExternModifier | ParameterList | Param | ParamSelf | ParamTyped
    | ReturnType | FunctionBody | ImplBlock
    | TypeDef | PtrType | KwMut | BuiltinType | Ident
    | Expr | TernaryExpr | MathExpr | Unary | Atom | Question | Colon
    | IntLit | FloatLit | BoolLit | CharLit
    | InfixRule(infix: InfixKind)
    | PrefixRule(prefix: PrefixKind)
    | Other

  /** The infix operator rules. */
  datatype InfixKind =
    | OrOp | AndOp | BitwiseOr | BitwiseXor | BitwiseAnd
    | EqOp | NeOp | LtOp | LeOp | GtOp | GeOp
    | ShlOp | ShrOp | AddOp | SubOp | MulOp | DivOp | ModOp

  /** The prefix operator rules. */
  datatype PrefixKind =
    | PrefixMinus | PrefixPlus | PrefixNot | PrefixBitnot | PrefixPreinc | PrefixPredec

  datatype Pair = Pair(rule: Rule, text: string, children: seq<Pair>)

  /** What a builder that panics produces. */
  datatype Panic = Panic

  // ---------------------------------------------------------------------------
  // Size, for termination of the builders

  function Size(p: Pair): nat
    decreases p, 1
  {
    1 + SeqSize(p.children)
  }

  function SeqSize(ps: seq<Pair>): nat
    decreases ps, 0
  {
    if |ps| == 0 then 0 else Size(ps[0]) + SeqSize(ps[1..])
  }

  lemma {:induction false} ElementSize(ps: seq<Pair>, i: nat)
    requires i < |ps|
    ensures Size(ps[i]) <= SeqSize(ps)
  {
    if i > 0 {
      ElementSize(ps[1..], i - 1);
    }
  }

  lemma ChildSize(p: Pair, i: nat)
    requires i < |p.children|
    ensures Size(p.children[i]) < Size(p)
  {
    ElementSize(p.children, i);
  }

  lemma {:induction false} TailSize(ps: seq<Pair>, i: nat)
    requires i <= |ps|
    ensures SeqSize(ps[i..]) <= SeqSize(ps)
    ensures i < |ps| ==> SeqSize(ps[i + 1..]) < SeqSize(ps[i..])
  {
    if i > 0 {
      TailSize(ps[1..], i - 1);
      assert ps[1..][i - 1..] == ps[i..];
      if i < |ps| {
        assert ps[1..][i..] == ps[i + 1..];
      }
    } else if i < |ps| {
      assert ps[0..] == ps;
    }
  }

  // ---------------------------------------------------------------------------
  // Searching the children

  /** The position of the last pair with rule `r`, if any. */
  function LastWith(ps: seq<Pair>, r: Rule): (o: Option<nat>)
    ensures o.Some? ==> o.value < |ps| && ps[o.value].rule == r
    ensures o.Some? ==> forall k :: o.value < k < |ps| ==> ps[k].rule != r
    ensures o.None? <==> forall k :: 0 <= k < |ps| ==> ps[k].rule != r
  {
    if |ps| == 0 then None
    else if ps[|ps| - 1].rule == r then Some(|ps| - 1)
    else LastWith(ps[..|ps| - 1], r)
  }

  /** The position of the first pair whose rule is not `r`, if any. */
  function FirstWithout(ps: seq<Pair>, r: Rule): (o: Option<nat>)
    ensures o.Some? ==> o.value < |ps| && ps[o.value].rule != r
    ensures o.Some? ==> forall k :: 0 <= k < o.value ==> ps[k].rule == r
    ensures o.None? <==> forall k :: 0 <= k < |ps| ==> ps[k].rule == r
  {
    if |ps| == 0 then None
    else if ps[0].rule != r then Some(0)
    else
      var o := FirstWithout(ps[1..], r);
      if o.None? then None else Some(o.value + 1)
  }

  /** Whether some pair has rule `r`. */
  predicate HasRule(ps: seq<Pair>, r: Rule)
  {
    exists k :: 0 <= k < |ps| && ps[k].rule == r
  }

  /** The pairs with rule `r`, in order. */
  function Filter(ps: seq<Pair>, r: Rule): (qs: seq<Pair>)
    ensures |qs| <= |ps|
    ensures forall k :: 0 <= k < |qs| ==> qs[k].rule == r
    ensures SeqSize(qs) <= SeqSize(ps)
  {
    if |ps| == 0 then []
    else if ps[|ps| - 1].rule == r then
      SnocSize(ps[..|ps| - 1], ps[|ps| - 1]);
      assert ps[..|ps| - 1] + [ps[|ps| - 1]] == ps;
      var init := Filter(ps[..|ps| - 1], r);
      SnocSize(init, ps[|ps| - 1]);
      init + [ps[|ps| - 1]]
    else
      SnocSize(ps[..|ps| - 1], ps[|ps| - 1]);
      assert ps[..|ps| - 1] + [ps[|ps| - 1]] == ps;
      Filter(ps[..|ps| - 1], r)
  }

  lemma {:induction false} SnocSize(ps: seq<Pair>, p: Pair)
    ensures SeqSize(ps + [p]) == SeqSize(ps) + Size(p)
  {
    if |ps| == 0 {
      assert ps + [p] == [p];
      assert [p][1..] == [];
    } else {
      assert (ps + [p])[1..] == ps[1..] + [p];
      SnocSize(ps[1..], p);
    }
  }

  /** Filtering a sequence extended by one pair extends the filtered
      sequence exactly when that pair has rule `r`. */
  lemma FilterSnoc(ps: seq<Pair>, p: Pair, r: Rule)
    ensures Filter(ps + [p], r) == if p.rule == r then Filter(ps, r) + [p] else Filter(ps, r)
  {
    assert (ps + [p])[..|ps|] == ps;
  }

  /** When every pair has rule `r`, filtering keeps them all. */
  lemma {:induction false} FilterAll(ps: seq<Pair>, r: Rule)
    requires forall k :: 0 <= k < |ps| ==> ps[k].rule == r
    ensures Filter(ps, r) == ps
  {
    if |ps| > 0 {
      FilterAll(ps[..|ps| - 1], r);
      assert ps[..|ps| - 1] + [ps[|ps| - 1]] == ps;
    }
  }

  /** Every kept pair is one of the originals and every original with rule
      `r` is kept. */
  lemma {:induction false} FilterMembers(ps: seq<Pair>, r: Rule)
    ensures forall q :: q in Filter(ps, r) <==> q in ps && q.rule == r
  {
    if |ps| > 0 {
      var init := ps[..|ps| - 1];
      FilterMembers(init, r);
      assert ps == init + [ps[|ps| - 1]];
    }
  }

  /** Extending a sequence by one pair: the last pair with rule `r` is the
      new one when it has rule `r`, and the old last one otherwise. */
  lemma LastWithSnoc(ps: seq<Pair>, q: Pair, r: Rule)
    ensures LastWith(ps + [q], r) == if q.rule == r then Some(|ps|) else LastWith(ps, r)
  {
    assert (ps + [q])[..|ps|] == ps;
  }

  // ---------------------------------------------------------------------------
  // Building every child

  /** `children.map(f).collect()`: every pair built in order; the first one
      that panics makes the whole panic. */
  function MapParse<A>(ps: seq<Pair>, f: Pair -> Result<A, Panic>): (r: Result<seq<A>, Panic>)
    ensures r.Ok? <==> forall k :: 0 <= k < |ps| ==> f(ps[k]).Ok?
    ensures r.Ok? ==> |r.value| == |ps| && forall k :: 0 <= k < |ps| ==> f(ps[k]) == Ok(r.value[k])
  {
    if |ps| == 0 then Ok([])
    else
      var first :- f(ps[0]);
      var rest :- MapParse(ps[1..], f);
      assert forall k :: 1 <= k < |ps| ==> ps[k] == ps[1..][k - 1];
      Ok([first] + rest)
  }

  /** A panic of the whole comes from some pair that panics. */
  lemma MapParseFails<A>(ps: seq<Pair>, f: Pair -> Result<A, Panic>)
    requires MapParse(ps, f).Err?
    ensures exists k :: 0 <= k < |ps| && f(ps[k]).Err?
  {
  }

  /** There is one panic. */
  lemma PanicUnique(e: Panic)
    ensures e == Panic
  {
    match e
    case Panic =>
  }

  /** Building one more pair: the built sequence grows by that pair's value,
      and a panic in either part is a panic of the whole. */
  lemma MapParseSnoc<A>(ps: seq<Pair>, q: Pair, f: Pair -> Result<A, Panic>)
    ensures MapParse(ps + [q], f)
            == if MapParse(ps, f).Ok? && f(q).Ok? then Ok(MapParse(ps, f).value + [f(q).value]) else Err(Panic)
  {
    var whole := ps + [q];
    assert forall k :: 0 <= k < |ps| ==> whole[k] == ps[k];
    assert whole[|ps|] == q;
    if MapParse(ps, f).Ok? && f(q).Ok? {
      var vs := MapParse(ps, f).value + [f(q).value];
      assert forall k :: 0 <= k < |whole| ==> f(whole[k]) == Ok(vs[k]);
      assert MapParse(whole, f).value == vs;
    } else if MapParse(ps, f).Err? {
      var k :| 0 <= k < |ps| && !f(ps[k]).Ok?;
      assert !f(whole[k]).Ok?;
      assert MapParse(whole, f).Err?;
      PanicUnique(MapParse(whole, f).error);
    } else {
      assert !f(whole[|ps|]).Ok?;
      assert MapParse(whole, f).Err?;
      PanicUnique(MapParse(whole, f).error);
    }
  }
}
