/** The builder's error type (crates/amber_parser/src/error.rs): an I/O
    failure, or a syntax error of the parsing engine reported against a named
    source text with the span it points at.  Offsets are byte offsets into the
    source; the engine reports either one position or a start and an end. */
module ParseErrors {

  /** Where the engine located a syntax error. */
  datatype InputLocation = Pos(pos: nat) | Span(start: nat, end: nat)

  /** A labelled region of the source: its first byte and its length. */
  datatype SourceSpan = SourceSpan(offset: nat, len: nat)

  /** A syntax error of the engine: its message and its location. */
  datatype EngineError = EngineError(message: string, location: InputLocation)

  datatype ParseError =
    | Io(reason: string)
    | Syntax(name: string, source: EngineError, sourceName: string, sourceText: string, span: SourceSpan)

  /** `location_to_span`: a position is an empty span there; a start and end
      cover the bytes from the start up to the end, and an end before the
      start gives an empty span (the subtraction saturates at zero). */
  function LocationToSpan(l: InputLocation): (s: SourceSpan)
    ensures l.Pos? ==> s == SourceSpan(l.pos, 0)
    ensures l.Span? ==> s.offset == l.start
    ensures l.Span? && l.start <= l.end ==> s.offset + s.len == l.end
    ensures l.Span? && l.end < l.start ==> s.len == 0
  {
    match l
    case Pos(p) => SourceSpan(p, 0)
    case Span(start, end) => SourceSpan(start, if end >= start then end - start else 0)
  }

  /** A location inside a text of `n` bytes. */
  predicate LocationWithin(l: InputLocation, n: nat)
  {
    match l
    case Pos(p) => p <= n
    case Span(start, end) => start <= n && end <= n
  }

  /** The span of a location inside the text stays inside the text. */
  lemma SpanWithinText(l: InputLocation, n: nat)
    requires LocationWithin(l, n)
    ensures LocationToSpan(l).offset + LocationToSpan(l).len <= n
  {
  }

  /** `ParseError::from_pest`: the name labels both the error and the source
      text it is reported against, and the span is the engine's location. */
  function FromEngine(source: EngineError, name: string, input: string): (e: ParseError)
    ensures e.Syntax? && e.name == name && e.sourceName == name && e.sourceText == input
    ensures e.source == source
    ensures e.span.offset == match source.location
                             case Pos(p) => p
                             case Span(start, _) => start
  {
    Syntax(name, source, name, input, LocationToSpan(source.location))
  }

  /** The message each kind of error displays. */
  function Message(e: ParseError): (m: string)
    ensures e.Io? ==> m == "I/O error while reading source"
    ensures e.Syntax? ==> |m| == 15 + |e.name| + 2 + |e.source.message|
                          && m[15..15 + |e.name|] == e.name
                          && m[|m| - |e.source.message|..] == e.source.message
    ensures e.Syntax? ==> |m| >= 17 + |e.name| && m[..15] == "parse error in "
                          && m[15 + |e.name|..17 + |e.name|] == ": "
  {
    match e
    case Io(_) => "I/O error while reading source"
    case Syntax(name, source, _, _, _) => "parse error in " + name + ": " + source.message
  }
}
