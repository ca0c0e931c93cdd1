/** Costs attached to postings: the resolved form and the possibly partial form written in a ledger. */
module Positions {
  import opened Wrappers
  import opened CoreTypes
  import opened Amounts

  /** A resolved cost: every part is required. */
  datatype Cost = Cost(number: Decimal, currency: Currency, date: CoreTypes.Date, labelText: Option<string>)

  /**
   * A cost as written between braces: a per-unit or a total number, a currency, a date, a label
   * and the merge marker `*`, each of them optional.
   */
  datatype CostSpec = CostSpec(
    numberPer: Option<Decimal>,
    numberTotal: Option<Decimal>,
    currency: Option<Currency>,
    date: Option<CoreTypes.Date>,
    labelText: Option<string>,
    mergeCost: bool)

  /** `CostSpec::builder().build()`: nothing given, no merging. */
  function EmptyCostSpec(): (r: CostSpec)
    ensures r.numberPer.None? && r.numberTotal.None? && r.currency.None?
    ensures r.date.None? && r.labelText.None? && !r.mergeCost
  {
    CostSpec(None, None, None, None, None, false)
  }

  /** Units held at a cost. */
  datatype Position = Position(units: Amount, cost: Option<Cost>)
}
