/**
 * The parts of the pest parsing library the parser relies on: positions, spans and pest's own
 * error value. The grammar and pest's parser itself are not part of this model.
 */
module Pest {

  /** A 1-based (line, column) position, as `Position::line_col` reports it. */
  datatype Pos = Pos(line: nat, col: nat)

  /** A matched piece of the input: where it starts and ends, and its text (`as_str`). */
  datatype Span = Span(start: Pos, end: Pos, text: string)

  /** `LineColLocation`: a single position or a start and an end. */
  datatype LineColLocation = AtPos(pos: Pos) | AtSpan(from: Pos, to: Pos)

  datatype ErrorVariant = ParsingError(positives: seq<string>, negatives: seq<string>) | CustomError(message: string)

  /** `pest::error::Error`, reduced to its variant and its line/column location. */
  datatype PestError = PestError(variant: ErrorVariant, lineCol: LineColLocation)

  /**
   * `Error::new_from_span`: an error that covers the whole span. Pest adjusts the end position it
   * reports; that adjustment is not modelled, since only the start position is ever read.
   */
  function ErrorFromSpan(variant: ErrorVariant, span: Span): (r: PestError)
    ensures r.variant == variant && r.lineCol == AtSpan(span.start, span.end)
  {
    PestError(variant, AtSpan(span.start, span.end))
  }
}
