/**
 * Behaviour the core relies on but does not define: the textual forms of decimals, dates and
 * flags, the root-account names, pest's and rust_decimal's error texts, the booking-method and
 * root-name-option conversions, and the order in which a hash map or hash set yields its keys.
 * Each is an uninterpreted function gathered in one value that the operations take as a parameter.
 */
module Externals {
  import opened Wrappers
  import opened Strings
  import opened CoreTypes
  import opened Accounts
  import opened Flags
  import opened Directives
  import opened Pest
  import M = Metadata

  /** A `rust_decimal::Error`, identified by the text that could not be converted. */
  datatype DecimalFault = DecimalFault(input: string)

  datatype Foreign = Foreign(
    /** `Display` of a decimal number. */
    decimalText: Decimal -> string,
    /** `Display` of a date. */
    dateText: CoreTypes.Date -> string,
    /** `Display` of a flag. */
    flagText: Flag -> string,
    /** `AccountType::default_name`, e.g. "Assets". */
    defaultName: AccountType -> string,
    /** `Display` of a pest error, after rule names have been made readable. */
    pestText: PestError -> string,
    /** `Display` of a rust_decimal error. */
    decimalFaultText: DecimalFault -> string,
    /** `Booking::try_from` on the text of a booking method. */
    bookingFromText: string -> Option<Booking>,
    /** `BcOption::root_name_change`: the root type an option renames, and the new name. */
    rootNameChange: BcOption -> Option<(AccountType, string)>,
    /** The order a hash map or hash set with exactly these keys is walked in. */
    iterOrder: set<string> -> seq<string>,
    /** The order a metadata map is walked in, as key/value pairs. */
    metaWalk: M.Meta -> seq<(string, M.MetaValue)>)

  /** A walk over a set of keys meets every key exactly once. */
  ghost predicate ValidOrder(f: Foreign)
  {
    forall s: set<string> {:trigger f.iterOrder(s)} :: IsEnumeration(f.iterOrder(s), s)
  }

  /** `walk` yields every entry of `m` exactly once, each key with its value. */
  predicate IsEntryWalk(walk: seq<(string, M.MetaValue)>, m: M.Meta)
  {
    (forall i :: 0 <= i < |walk| ==> walk[i].0 in m && m[walk[i].0] == walk[i].1)
    && (forall k :: k in m ==> exists i :: 0 <= i < |walk| && walk[i].0 == k)
    && (forall i, j :: 0 <= i < j < |walk| ==> walk[i].0 != walk[j].0)
  }

  /** A walk over a metadata map meets every entry exactly once. */
  ghost predicate ValidMetaWalk(f: Foreign)
  {
    forall m: M.Meta {:trigger f.metaWalk(m)} :: IsEntryWalk(f.metaWalk(m), m)
  }
}
