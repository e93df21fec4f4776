/** The line buffer the C generator writes to (crates/amber_codegen/src/buffer.rs)
    and the framing of the finished text. */
module Buffer {
  import opened Text

  /** The two includes every generated file starts with, then a blank line. */
  const Header: string := "#include <stdint.h>\n#include <stdbool.h>\n\n"

  /** Four spaces per indentation level. */
  function Indentation(n: nat): (r: string)
    ensures |r| == 4 * n
    ensures forall k :: 0 <= k < |r| ==> r[k] == ' '
  {
    if n == 0 then "" else Indentation(n - 1) + "    "
  }

  /** A deeper indentation extends a shallower one. */
  lemma {:induction false} IndentationNested(n: nat, m: nat)
    requires n <= m
    ensures StartsWith(Indentation(m), Indentation(n))
  {
    assert Indentation(m)[..|Indentation(n)|] == Indentation(n);
  }

  /** The text `finish` produces from the buffered lines: the header, then the
      lines joined by newlines, then a final newline unless that joined text
      is empty. */
  function FinishText(ls: seq<string>): (r: string)
    ensures StartsWith(r, Header)
    ensures ls == [] ==> r == Header
    ensures ls == [""] ==> r == Header
    ensures |ls| >= 1 && ls != [""] ==> r == Header + Join(ls, "\n") + "\n"
  {
    JoinEmpty(ls, "\n");
    var content := Join(ls, "\n");
    Header + (if content == "" then "" else content + "\n")
  }

  /** The joined text is empty exactly when there is no line, or a single
      empty one. */
  lemma JoinEmpty(ls: seq<string>, sep: string)
    requires sep != ""
    ensures Join(ls, sep) == "" <==> ls == [] || ls == [""]
  {
    if |ls| >= 2 {
      assert |Join(ls, sep)| >= |sep|;
    }
  }

  lemma {:induction false} JoinSnoc(ls: seq<string>, x: string, sep: string)
    requires |ls| >= 1
    ensures Join(ls + [x], sep) == Join(ls, sep) + sep + x
  {
    if |ls| == 1 {
      assert ls + [x] == [ls[0], x];
      assert Join([x], sep) == x;
    } else {
      assert (ls + [x])[1..] == ls[1..] + [x];
      JoinSnoc(ls[1..], x, sep);
    }
  }

  /** Reading the finished text back: below the header, cutting at each
      newline gives the buffered lines in order, followed by the empty piece
      after the final newline, provided no line holds a newline itself. */
  lemma FinishRecoversLines(ls: seq<string>)
    requires |ls| >= 1 && ls != [""]
    requires forall k :: 0 <= k < |ls| ==> '\n' !in ls[k]
    ensures SplitOn(FinishText(ls)[|Header|..], '\n') == ls + [""]
  {
    var body := FinishText(ls)[|Header|..];
    assert body == Join(ls, "\n") + "\n";
    JoinSnoc(ls, "", "\n");
    assert Join(ls + [""], "\n") == body;
    var all := ls + [""];
    assert forall k :: 0 <= k < |all| ==> '\n' !in all[k] by {
      forall k | 0 <= k < |all|
        ensures '\n' !in all[k]
      {
        if k < |ls| {
          assert all[k] == ls[k];
        }
      }
    }
    SplitJoin(all, '\n');
  }

  /** `CodeBuffer`: the lines written so far, in order. */
  class CodeBuffer {
    var lines: seq<string>

    constructor ()
      ensures lines == []
    {
      lines := [];
    }

    /** `push_line`: one more line at the end. */
    method PushLine(line: string)
      modifies this
      ensures lines == old(lines) + [line]
    {
      lines := lines + [line];
    }

    /** `push_indented_line`: one more line, prefixed by the indentation. */
    method PushIndentedLine(indent: nat, line: string)
      modifies this
      ensures lines == old(lines) + [Indentation(indent) + line]
    {
      var indentation := Indentation(indent);
      lines := lines + [indentation + line];
    }

    /** `finish`: the framed text of the buffered lines. */
    method Finish() returns (text: string)
      ensures text == FinishText(lines)
    {
      var content := Join(lines, "\n");
      if content != "" {
        content := content + "\n";
      }
      text := Header + content;
    }
  }
}
