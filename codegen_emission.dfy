/** Specifications of the generator's emitters.  An `Emission` is what a piece
    of the generator does to the `CodeBuffer`: the lines it appends, and
    whether it ends normally or with a `CodegenError`.  The emitters
    propagate errors with `?`, so a failed step ends its sequence, and the
    lines it pushed before failing stay in the buffer. */
module Emissions {
  import opened Outcomes
  import opened Text
  import opened CodegenErrors
  import opened Buffer

  datatype Emission = Emission(lines: seq<string>, outcome: Result<(), CodegenError>)

  function Done(lines: seq<string>): Emission
  {
    Emission(lines, Ok(()))
  }

  function Fail(e: CodegenError): Emission
  {
    Emission([], Err(e))
  }

  /** `a` then, if it succeeded, `b`. */
  function Then(a: Emission, b: Emission): (r: Emission)
    ensures a.outcome.Err? ==> r == a
    ensures a.outcome.Ok? ==> r.lines == a.lines + b.lines && r.outcome == b.outcome
  {
    if a.outcome.Err? then a else Emission(a.lines + b.lines, b.outcome)
  }

  /** The steps in order, stopping at the first that fails. */
  function Sequence(steps: seq<Emission>): Emission
  {
    if |steps| == 0 then Done([]) else Then(Sequence(steps[..|steps| - 1]), steps[|steps| - 1])
  }

  lemma SequenceSnoc(steps: seq<Emission>, i: nat)
    requires i < |steps|
    ensures Sequence(steps[..i + 1]) == Then(Sequence(steps[..i]), steps[i])
  {
    assert steps[..i + 1][..i] == steps[..i];
  }

  /** A buffer holding `done`'s lines, extended by `step`'s lines, holds
      `Then(done, step)`'s lines. */
  lemma ThenAppends(start: seq<string>, done: Emission, step: Emission)
    requires done.outcome.Ok?
    ensures start + done.lines + step.lines == start + Then(done, step).lines
  {
  }

  lemma SequenceSingle(step: Emission)
    ensures Sequence([step]) == step
  {
    assert [step][..0] == [];
  }

  /** Once a step fails, later steps add nothing. */
  lemma {:induction false} FailureSticks(steps: seq<Emission>, i: nat, j: nat)
    requires i <= j <= |steps|
    requires Sequence(steps[..i]).outcome.Err?
    ensures Sequence(steps[..j]) == Sequence(steps[..i])
    decreases j - i
  {
    if i < j {
      FailureSticks(steps, i, j - 1);
      SequenceSnoc(steps, j - 1);
    }
  }

  /** A failure at step `i` is the outcome of the whole sequence. */
  lemma StopsAt(steps: seq<Emission>, i: nat)
    requires i < |steps| && Sequence(steps[..i + 1]).outcome.Err?
    ensures Sequence(steps) == Sequence(steps[..i + 1])
  {
    FailureSticks(steps, i + 1, |steps|);
    assert steps[..|steps|] == steps;
  }

  /** A sequence succeeds exactly when every step does, and then it writes
      every step's lines in order. */
  lemma {:induction false} SequenceSucceeds(steps: seq<Emission>)
    ensures Sequence(steps).outcome.Ok? <==> forall i :: 0 <= i < |steps| ==> steps[i].outcome.Ok?
    ensures Sequence(steps).outcome.Ok? ==> Sequence(steps).lines == AllLines(steps)
  {
    if |steps| > 0 {
      var init := steps[..|steps| - 1];
      SequenceSucceeds(init);
      assert forall k :: 0 <= k < |init| ==> init[k] == steps[k];
      assert AllLines(steps) == AllLines(init) + steps[|steps| - 1].lines;
    }
  }

  /** The lines of all steps, in order. */
  function AllLines(steps: seq<Emission>): seq<string>
  {
    if |steps| == 0 then [] else AllLines(steps[..|steps| - 1]) + steps[|steps| - 1].lines
  }

  /** Step `i` is the first step that fails, and it fails with `outcome`. */
  predicate FirstFailureAt(steps: seq<Emission>, i: int, outcome: Result<(), CodegenError>)
  {
    0 <= i < |steps| && steps[i].outcome == outcome && outcome.Err?
    && forall j :: 0 <= j < i ==> steps[j].outcome.Ok?
  }

  /** A sequence that fails, fails with the error of the first failing step. */
  lemma {:induction false} FirstFailureDecides(steps: seq<Emission>)
    requires Sequence(steps).outcome.Err?
    ensures exists i :: FirstFailureAt(steps, i, Sequence(steps).outcome)
  {
    var n := |steps| - 1;
    var init := steps[..n];
    assert forall k :: 0 <= k < |init| ==> init[k] == steps[k];
    if Sequence(init).outcome.Err? {
      FirstFailureDecides(init);
      var i :| FirstFailureAt(init, i, Sequence(init).outcome);
      assert FirstFailureAt(steps, i, Sequence(steps).outcome);
    } else {
      SequenceSucceeds(init);
      assert FirstFailureAt(steps, n, Sequence(steps).outcome);
    }
  }

  // ---------------------------------------------------------------------------
  // Indentation

  /** Every line starts with the indentation of level `indent`. */
  predicate Indented(lines: seq<string>, indent: nat)
  {
    forall k :: 0 <= k < |lines| ==> StartsWith(lines[k], Indentation(indent))
  }

  lemma IndentedConcat(a: seq<string>, b: seq<string>, indent: nat)
    requires Indented(a, indent) && Indented(b, indent)
    ensures Indented(a + b, indent)
  {
    forall k | 0 <= k < |a + b|
      ensures StartsWith((a + b)[k], Indentation(indent))
    {
      if k < |a| {
        assert (a + b)[k] == a[k];
      } else {
        assert (a + b)[k] == b[k - |a|];
      }
    }
  }

  lemma IndentedThen(a: Emission, b: Emission, indent: nat)
    requires Indented(a.lines, indent) && Indented(b.lines, indent)
    ensures Indented(Then(a, b).lines, indent)
  {
    if a.outcome.Ok? {
      IndentedConcat(a.lines, b.lines, indent);
    }
  }

  lemma {:induction false} IndentedSequence(steps: seq<Emission>, indent: nat)
    requires forall k :: 0 <= k < |steps| ==> Indented(steps[k].lines, indent)
    ensures Indented(Sequence(steps).lines, indent)
  {
    if |steps| > 0 {
      var init := steps[..|steps| - 1];
      assert forall k :: 0 <= k < |init| ==> init[k] == steps[k];
      IndentedSequence(init, indent);
      IndentedThen(Sequence(init), steps[|steps| - 1], indent);
    }
  }

  lemma IndentedDeeper(lines: seq<string>, indent: nat)
    requires Indented(lines, indent + 1)
    ensures Indented(lines, indent)
  {
    forall k | 0 <= k < |lines|
      ensures StartsWith(lines[k], Indentation(indent))
    {
      assert lines[k][..4 * indent] == Indentation(indent + 1)[..4 * indent];
    }
  }

  lemma IndentedLine(text: string, indent: nat)
    ensures Indented([Indentation(indent) + text], indent)
  {
    assert (Indentation(indent) + text)[..4 * indent] == Indentation(indent);
  }
}
