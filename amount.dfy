/** Amounts of a commodity, complete or with parts left to be inferred. */
module Amounts {
  import opened Wrappers
  import opened CoreTypes

  /** A number of units of one commodity. */
  datatype Amount = Amount(num: Decimal, currency: Currency)

  /** An amount whose number, commodity or both may be missing (`10`, `USD`, or nothing). */
  datatype IncompleteAmount = IncompleteAmount(num: Option<Decimal>, currency: Option<Currency>)

  /** `IncompleteAmount::builder().build()`: both parts default to absent. */
  function NoAmount(): (r: IncompleteAmount)
    ensures r.num.None? && r.currency.None?
  {
    IncompleteAmount(None, None)
  }

  /** `Amount::try_from`: succeeds exactly when both parts are present, and then keeps them. */
  function AmountFromIncomplete(val: IncompleteAmount): (r: Result<Amount, ()>)
    ensures r.Ok? <==> val.num.Some? && val.currency.Some?
    ensures r.Ok? ==> r.value.num == val.num.value && r.value.currency == val.currency.value
  {
    match val
    case IncompleteAmount(Some(num), Some(currency)) => Ok(Amount(num, currency))
    case _ => Err(())
  }

  /** `IncompleteAmount::from`: an amount with both parts present. */
  function IncompleteFromAmount(val: Amount): (r: IncompleteAmount)
    ensures r.num == Some(val.num) && r.currency == Some(val.currency)
  {
    IncompleteAmount(Some(val.num), Some(val.currency))
  }

  /** Widening an amount and converting back gives the amount. */
  lemma AmountRoundTrip(a: Amount)
    ensures AmountFromIncomplete(IncompleteFromAmount(a)) == Ok(a)
  {
  }

  /** Every successful conversion is undone by widening. */
  lemma IncompleteRoundTrip(val: IncompleteAmount)
    requires AmountFromIncomplete(val).Ok?
    ensures IncompleteFromAmount(AmountFromIncomplete(val).value) == val
  {
  }
}
