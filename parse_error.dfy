/** The parser's error values: what went wrong, where, and the error it came from. */
module ParseErrors {
  import opened Wrappers
  import opened Strings
  import opened Pest
  import opened Externals
  import opened Decimals
  import opened Writers

  datatype ParseErrorKind =
    | DecimalError(message: string)
    | InvalidInput(message: string)
    | InvalidParserState(message: string)

  /** The lower-level error a parse error was made from (`Error::source`). */
  datatype ErrorSource = DecimalSource(fault: DecimalFault) | PestSource(err: PestError)

  /** `location` is the (line, column) the error points at. */
  datatype ParseError = ParseError(kind: ParseErrorKind, location: (nat, nat), source: Option<ErrorSource>)

  /**
   * The outcome of a parsing step: a value (`Ok`), a `ParseError` returned through `Err`, or a panic.
   * Panics and errors both end the parse, so `:-` propagates either.
   */
  datatype ParseResult<+T> = Parsed(value: T) | Failed(error: ParseError) | Panicked(reason: string)
  {
    predicate IsFailure()
    {
      !Parsed?
    }

    function PropagateFailure<U>(): ParseResult<U>
      requires IsFailure()
    {
      if Failed? then Failed(error) else Panicked(reason)
    }

    function Extract(): T
      requires Parsed?
    {
      value
    }
  }

  /** `span.start_pos().line_col()`. */
  function StartOf(span: Span): (nat, nat)
  {
    (span.start.line, span.start.col)
  }

  /** `ParseError::invalid_state`: a parser bug with no position to report. */
  function InvalidState(msg: string): (e: ParseError)
    ensures e.kind == InvalidParserState(msg) && e.location == (0, 0) && e.source.None?
  {
    ParseError(InvalidParserState(msg), (0, 0), None)
  }

  /** `ParseError::invalid_state_with_span`: a parser bug located at the start of a span. */
  function InvalidStateWithSpan(msg: string, span: Span): (e: ParseError)
    ensures e.kind == InvalidParserState(msg)
    ensures e.location == (span.start.line, span.start.col) && e.source.None?
  {
    ParseError(InvalidParserState(msg), StartOf(span), None)
  }

  /** `ParseError::invalid_input_with_span`: bad input located at the start of a span. */
  function InvalidInputWithSpan(msg: string, span: Span): (e: ParseError)
    ensures e.kind == InvalidInput(msg)
    ensures e.location == (span.start.line, span.start.col) && e.source.None?
  {
    ParseError(InvalidInput(msg), StartOf(span), None)
  }

  /**
   * `ParseError::decimal_parse_error`: the message is pest's rendering of a custom error over the
   * number's span; the rust_decimal error is kept as the source.
   */
  function DecimalParseError(fault: DecimalFault, span: Span, f: Foreign): (e: ParseError)
    ensures e.kind == DecimalError(f.pestText(ErrorFromSpan(
      CustomError("error while parsing number: " + f.decimalFaultText(fault)), span)))
    ensures e.location == (span.start.line, span.start.col)
    ensures e.source == Some(DecimalSource(fault))
  {
    var message := "error while parsing number: " + f.decimalFaultText(fault);
    var pestError := ErrorFromSpan(CustomError(message), span);
    ParseError(DecimalError(f.pestText(pestError)), StartOf(span), Some(DecimalSource(fault)))
  }

  /** Where a pest error starts: the position itself, or the first position of a span. */
  function LineColStart(lc: LineColLocation): (nat, nat)
  {
    match lc
    case AtPos(p) => (p.line, p.col)
    case AtSpan(p, _) => (p.line, p.col)
  }

  /** `From<pest::error::Error>`: invalid input, pest's text as the message, located at its start. */
  function FromPest(err: PestError, f: Foreign): (e: ParseError)
    ensures e.kind == InvalidInput(f.pestText(err))
    ensures e.location == LineColStart(err.lineCol)
    ensures e.source == Some(PestSource(err))
  {
    ParseError(InvalidInput(f.pestText(err)), LineColStart(err.lineCol), Some(PestSource(err)))
  }

  /** A pest error located by a span points at the span's first position. */
  lemma FromPestSpanStart(v: ErrorVariant, span: Span, f: Foreign)
    ensures FromPest(ErrorFromSpan(v, span), f).location == (span.start.line, span.start.col)
  {
  }

  function KindText(kind: ParseErrorKind): string
  {
    match kind
    case DecimalError(m) => m
    case InvalidInput(m) => "Invalid input: " + m
    case InvalidParserState(m) => "Parser has reached an invalid state (please report this as a bug): expected " + m
  }

  function LocationText(location: (nat, nat)): string
  {
    " at line " + NatText(location.0) + " column " + NatText(location.1)
  }

  /** The text `Display` produces for an error. */
  function DisplayText(e: ParseError): string
  {
    KindText(e.kind) + LocationText(e.location)
  }

  /** `Display::fmt`: the message for the kind, then the location. */
  method Fmt(e: ParseError, w: Writer)
    modifies w
    ensures w.text == old(w.text) + DisplayText(e)
  {
    ghost var t0 := w.text;
    match e.kind {
      case DecimalError(m) =>
        w.Write(m);
      case InvalidInput(m) =>
        w.Write("Invalid input: " + m);
      case InvalidParserState(m) =>
        w.Write("Parser has reached an invalid state (please report this as a bug): expected " + m);
    }
    assert w.text == t0 + KindText(e.kind);
    w.Write(" at line " + NatText(e.location.0) + " column " + NatText(e.location.1));
    AppendAssoc(t0, KindText(e.kind), LocationText(e.location));
  }

  /** Each kind's display starts with its fixed prefix and then the message, and ends with the location. */
  lemma DisplayShape(e: ParseError)
    ensures e.kind.InvalidInput? ==>
      DisplayText(e) == "Invalid input: " + e.kind.message + LocationText(e.location)
    ensures e.kind.InvalidParserState? ==>
      DisplayText(e) == "Parser has reached an invalid state (please report this as a bug): expected "
        + e.kind.message + LocationText(e.location)
    ensures e.kind.DecimalError? ==> DisplayText(e) == e.kind.message + LocationText(e.location)
  {
  }

  /** The location can be read back from its text: different locations are displayed differently. */
  lemma {:induction false} LocationTextInjective(a: (nat, nat), b: (nat, nat))
    requires LocationText(a) == LocationText(b)
    ensures a == b
  {
    var pre, mid := " at line ", " column ";
    var a0, a1, b0, b1 := NatText(a.0), NatText(a.1), NatText(b.0), NatText(b.1);
    AppendAssoc(pre + a0, mid, a1);
    AppendAssoc(pre, a0, mid + a1);
    AppendAssoc(pre + b0, mid, b1);
    AppendAssoc(pre, b0, mid + b1);
    DropPrefix(pre, a0 + (mid + a1), b0 + (mid + b1));
    DigitPrefixUnique(a0, mid + a1, b0, mid + b1);
    NatTextInjective(a.0, b.0);
    DropPrefix(a0, mid + a1, mid + b1);
    DropPrefix(mid, a1, b1);
    NatTextInjective(a.1, b.1);
  }
}
