/** Accounts: a root type and the colon-separated components after it. */
module Accounts {

  /** The five root account types; no other root exists. */
  datatype AccountType = Assets | Liabilities | Equity | Income | Expenses

  /** Every account type once, in declaration order. */
  const AllAccountTypes: seq<AccountType> := [Assets, Liabilities, Equity, Income, Expenses]

  lemma AllAccountTypesComplete(t: AccountType)
    ensures t in AllAccountTypes
  {
  }

  /** `Assets:US:BofA` is `Account(Assets, ["US", "BofA"])`. */
  datatype Account = Account(ty: AccountType, parts: seq<string>)
}
