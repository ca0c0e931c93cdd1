/** The scalar types of the ledger: decimal numbers, currencies and dates. */
module CoreTypes {

  /** `rust_decimal::Decimal` and `BigDecimal`, as exact rationals (precision is not modelled). */
  type Decimal = real

  /** A commodity name such as `USD`. */
  type Currency = string

  /** A date, kept as the text it was written with (`YYYY-MM-DD` in a ledger). */
  datatype Date = Date(text: string)
}
