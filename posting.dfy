/** Postings: one leg of a transaction. */
module Postings {
  import opened Wrappers
  import opened Accounts
  import opened Amounts
  import opened Flags
  import opened Metadata
  import opened Positions

  /** A price annotation: `@` gives the price of one unit, `@@` the price of all of them. */
  datatype PriceSpec = PerUnit(amount: IncompleteAmount) | Total(amount: IncompleteAmount)

  datatype Posting = Posting(
    account: Accounts.Account,
    units: IncompleteAmount,
    cost: Option<CostSpec>,
    price: Option<PriceSpec>,
    flag: Option<Flag>,
    meta: Meta)

  /** `Posting::builder().account(a).units(u).build()`: no cost, price, flag or metadata. */
  function NewPosting(account: Accounts.Account, units: IncompleteAmount): (r: Posting)
    ensures r.account == account && r.units == units
    ensures r.cost.None? && r.price.None? && r.flag.None? && r.meta == map[]
  {
    Posting(account, units, None, None, None, map[])
  }
}
