/** Metadata: key/value pairs attached to directives and postings. */
module Metadata {
  import opened CoreTypes
  import opened Accounts
  import opened Amounts

  /** A tag (`#trip`) or link (`^invoice`) name, without its sigil. */
  type Tag = string
  type Link = string

  datatype MetaValue =
    | Text(text: string)
    | Account(account: Accounts.Account)
    | Date(date: CoreTypes.Date)
    | Currency(currency: CoreTypes.Currency)
    | Tag(tag: string)
    | Bool(flag: bool)
    | Amount(amount: Amounts.Amount)
    | Number(number: Decimal)

  /** `HashMap<key, MetaValue>`: one value per key, no order. */
  type Meta = map<string, MetaValue>
}
