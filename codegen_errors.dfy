/** The code generator's structural errors (crates/amber_codegen/src/errors.rs)
    and the messages they display.  Every variant carries the name of the
    binding or function at fault; the impl variant also carries the target. */
module CodegenErrors {
  import opened Text

  datatype CodegenError =
    | MissingType(name: string)
    | MissingFunctionBody(name: string)
    | ExternFunctionWithBody(name: string)
    | SelfParamOutsideImpl(name: string)
    | MultipleSelfParams(name: string)
    | ExternImplMethod(target: string, name: string)

  /** The display text of each error. */
  function Message(e: CodegenError): string
  {
    match e
    case MissingType(n) => "let binding '" + n + "' requires an explicit type"
    case MissingFunctionBody(n) => "function '" + n + "' is missing a body"
    case ExternFunctionWithBody(n) => "extern function '" + n + "' cannot have a body"
    case SelfParamOutsideImpl(n) => "`self` parameter is only allowed " + "inside impl blocks (function '" + n + "')"
    case MultipleSelfParams(n) => "function '" + n + "' contains multiple `self` parameters"
    case ExternImplMethod(t, n) => "impl method '" + t + "::" + n + "' cannot be declared extern"
  }

  /** The text around the name in each message: `Message(e)` is
      `Before(e) + e.name + After(e)`. */
  function Before(e: CodegenError): string
  {
    match e
    case MissingType(_) => "let binding '"
    case MissingFunctionBody(_) => "function '"
    case ExternFunctionWithBody(_) => "extern function '"
    case SelfParamOutsideImpl(_) => "`self` parameter is only allowed " + "inside impl blocks (function '"
    case MultipleSelfParams(_) => "function '"
    case ExternImplMethod(t, _) => "impl method '" + t + "::"
  }

  function After(e: CodegenError): string
  {
    match e
    case MissingType(_) => "' requires an explicit type"
    case MissingFunctionBody(_) => "' is missing a body"
    case ExternFunctionWithBody(_) => "' cannot have a body"
    case SelfParamOutsideImpl(_) => "')"
    case MultipleSelfParams(_) => "' contains multiple `self` parameters"
    case ExternImplMethod(_, _) => "' cannot be declared extern"
  }

  lemma MessageFrame(e: CodegenError)
    ensures Message(e) == Before(e) + e.name + After(e)
  {
  }

  /** Every message quotes the offending name; the impl message quotes
      `target::name`. */
  lemma MessageNamesCulprit(e: CodegenError)
    ensures Contains(Message(e), e.name)
    ensures e.ExternImplMethod? ==> Contains(Message(e), e.target + "::" + e.name)
  {
    MessageFrame(e);
    ContainsMiddle(Before(e), e.name, After(e));
    if e.ExternImplMethod? {
      var q := e.target + "::" + e.name;
      assert Message(e) == "impl method '" + q + "' cannot be declared extern";
      ContainsMiddle("impl method '", q, "' cannot be declared extern");
    }
  }

  lemma SameFrame(pre: string, post: string, a: string, b: string)
    requires pre + a + post == pre + b + post
    ensures a == b
  {
    var m := pre + a + post;
    assert |a| == |b|;
    assert a == m[|pre|..|pre| + |a|];
    assert b == m[|pre|..|pre| + |b|];
  }

  /** The first and last characters of each kind of message; no two kinds
      share both. */
  function Ends(e: CodegenError): (char, char)
  {
    match e
    case MissingType(_) => ('l', 'e')
    case MissingFunctionBody(_) => ('f', 'y')
    case ExternFunctionWithBody(_) => ('e', 'y')
    case SelfParamOutsideImpl(_) => ('`', ')')
    case MultipleSelfParams(_) => ('f', 's')
    case ExternImplMethod(_, _) => ('i', 'n')
  }

  lemma MessageEnds(e: CodegenError)
    ensures |Message(e)| >= 2 && (Message(e)[0], Message(e)[|Message(e)| - 1]) == Ends(e)
  {
    MessageFrame(e);
    var m := Message(e);
    var before, after := Before(e), After(e);
    assert m[0] == before[0];
    assert m[|m| - 1] == after[|after| - 1];
    match e
    case MissingType(_) =>
      assert before[0] == 'l' && after[|after| - 1] == 'e';
    case MissingFunctionBody(_) =>
      assert before[0] == 'f' && after[|after| - 1] == 'y';
    case ExternFunctionWithBody(_) =>
      assert before[0] == 'e' && after[|after| - 1] == 'y';
    case SelfParamOutsideImpl(_) =>
      assert before[0] == '`' && after[|after| - 1] == ')';
    case MultipleSelfParams(_) =>
      assert before[0] == 'f' && after[|after| - 1] == 's';
    case ExternImplMethod(t, _) =>
      assert before == "impl method '" + (t + "::");
      assert before[0] == 'i' && after[|after| - 1] == 'n';
  }

  /** A message tells which kind of error it reports, and for every kind but
      the impl one it also determines the error itself. */
  lemma MessageDeterminesError(e1: CodegenError, e2: CodegenError)
    requires Message(e1) == Message(e2)
    ensures e1.MissingType? == e2.MissingType?
    ensures e1.MissingFunctionBody? == e2.MissingFunctionBody?
    ensures e1.ExternFunctionWithBody? == e2.ExternFunctionWithBody?
    ensures e1.SelfParamOutsideImpl? == e2.SelfParamOutsideImpl?
    ensures e1.MultipleSelfParams? == e2.MultipleSelfParams?
    ensures e1.ExternImplMethod? == e2.ExternImplMethod?
    ensures !e1.ExternImplMethod? ==> e1 == e2
  {
    MessageEnds(e1);
    MessageEnds(e2);
    assert Ends(e1) == Ends(e2);
    if !e1.ExternImplMethod? {
      MessageFrame(e1);
      MessageFrame(e2);
      assert Before(e1) == Before(e2) && After(e1) == After(e2);
      SameFrame(Before(e1), After(e1), e1.name, e2.name);
    }
  }

  /** The impl message alone does not determine the error: two different
      target/method pairs can print the same `target::name`.  Errors are
      therefore compared field by field, never by their text. */
  lemma ImplMessageIsAmbiguous()
    ensures Message(ExternImplMethod("a::b", "c")) == Message(ExternImplMethod("a", "b::c"))
    ensures ExternImplMethod("a::b", "c") != ExternImplMethod("a", "b::c")
  {
  }
}
