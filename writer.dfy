/** The output sink: `fmt::Formatter` for error messages and `io::Write` for the renderer. */
module Writers {

  /** Everything written so far, in order. */
  class Writer {
    var text: string

    constructor()
      ensures text == []
    {
      text := [];
    }

    /** `write!`: appends the piece and nothing else. */
    method Write(piece: string)
      modifies this
      ensures text == old(text) + piece
    {
      text := text + piece;
    }
  }
}
