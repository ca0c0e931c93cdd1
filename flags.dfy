/** Transaction and posting flags. */
module Flags {

  datatype Flag = Okay | Warning | Other(text: string)

  /** `Flag::default()`. */
  function DefaultFlag(): (r: Flag)
    ensures r.Okay?
  {
    Okay
  }

  /**
   * `Flag::from`: `*` and `txn` mean a completed transaction, `!` one that needs attention;
   * any other text is kept as it was written.
   */
  function FlagFromText(s: string): (r: Flag)
    ensures r.Okay? <==> s == "*" || s == "txn"
    ensures r.Warning? <==> s == "!"
    ensures r.Other? ==> r.text == s
  {
    if s == "*" || s == "txn" then Okay
    else if s == "!" then Warning
    else Other(s)
  }

  /** An `Other` flag produced from text never holds one of the reserved spellings. */
  lemma OtherIsNotReserved(s: string)
    requires FlagFromText(s).Other?
    ensures FlagFromText(s).text !in {"*", "txn", "!"}
  {
  }
}
