/**
 * The directives of a ledger. Each record's builder fills the fields the caller leaves out with a
 * default; `NewX` below takes exactly the fields the builder requires and applies those defaults.
 */
module Directives {
  import opened Wrappers
  import opened CoreTypes
  import opened Accounts
  import opened Amounts
  import opened Flags
  import opened Metadata
  import opened Postings

  /** How lots are matched when reducing a position; `NoBooking` is `Booking::None`. */
  datatype Booking = Strict | NoBooking | Average | Fifo | Lifo

  datatype Balance = Balance(
    date: CoreTypes.Date, account: Accounts.Account, amount: Amounts.Amount,
    tolerance: Option<Decimal>, meta: Meta, source: Option<string>)

  datatype BcOption = BcOption(name: string, val: string, source: Option<string>)

  datatype Close = Close(date: CoreTypes.Date, account: Accounts.Account, meta: Meta, source: Option<string>)

  datatype Commodity = Commodity(date: CoreTypes.Date, name: CoreTypes.Currency, meta: Meta, source: Option<string>)

  datatype Custom = Custom(
    date: CoreTypes.Date, name: string, args: seq<string>, meta: Meta, source: Option<string>)

  datatype Document = Document(
    date: CoreTypes.Date, account: Accounts.Account, path: string,
    tags: set<string>, links: set<string>, meta: Meta, source: Option<string>)

  datatype Event = Event(
    date: CoreTypes.Date, name: string, description: string, meta: Meta, source: Option<string>)

  datatype Include = Include(filename: string, source: Option<string>)

  datatype Note = Note(
    date: CoreTypes.Date, account: Accounts.Account, comment: string, meta: Meta, source: Option<string>)

  /** `booking` is optional: the parser leaves it out when no booking method is written. */
  datatype Open = Open(
    date: CoreTypes.Date, account: Accounts.Account, currencies: seq<CoreTypes.Currency>,
    booking: Option<Booking>, meta: Meta, source: Option<string>)

  datatype Pad = Pad(
    date: CoreTypes.Date, padToAccount: Accounts.Account, padFromAccount: Accounts.Account,
    meta: Meta, source: Option<string>)

  datatype Plugin = Plugin(moduleName: string, config: Option<string>, source: Option<string>)

  datatype Price = Price(
    date: CoreTypes.Date, currency: CoreTypes.Currency, amount: Amounts.Amount,
    meta: Meta, source: Option<string>)

  datatype Query = Query(
    date: CoreTypes.Date, name: string, queryString: string, meta: Meta, source: Option<string>)

  datatype Transaction = Transaction(
    date: CoreTypes.Date, flag: Flag, payee: Option<string>, narration: string,
    tags: set<string>, links: set<string>, postings: seq<Posting>, meta: Meta, source: Option<string>)

  /** Fifteen kinds of directive, and a marker for one the parser does not support. */
  datatype Directive =
    | OpenDirective(open: Open)
    | CloseDirective(close: Close)
    | BalanceDirective(balance: Balance)
    | OptionDirective(option: BcOption)
    | CommodityDirective(commodity: Commodity)
    | CustomDirective(custom: Custom)
    | DocumentDirective(document: Document)
    | EventDirective(event: Event)
    | IncludeDirective(inclusion: Include)
    | NoteDirective(note: Note)
    | PadDirective(pad: Pad)
    | PluginDirective(plugin: Plugin)
    | PriceDirective(price: Price)
    | QueryDirective(query: Query)
    | TransactionDirective(transaction: Transaction)
    | Unsupported

  /** The complete ledger: its directives in file order. */
  datatype Ledger = Ledger(directives: seq<Directive>)

  function NewBalance(date: CoreTypes.Date, account: Accounts.Account, amount: Amounts.Amount): (r: Balance)
    ensures r.date == date && r.account == account && r.amount == amount
    ensures r.tolerance.None? && r.meta == map[] && r.source.None?
  {
    Balance(date, account, amount, None, map[], None)
  }

  function NewBcOption(name: string, val: string): (r: BcOption)
    ensures r.name == name && r.val == val && r.source.None?
  {
    BcOption(name, val, None)
  }

  function NewClose(date: CoreTypes.Date, account: Accounts.Account): (r: Close)
    ensures r.date == date && r.account == account && r.meta == map[] && r.source.None?
  {
    Close(date, account, map[], None)
  }

  function NewCommodity(date: CoreTypes.Date, name: CoreTypes.Currency): (r: Commodity)
    ensures r.date == date && r.name == name && r.meta == map[] && r.source.None?
  {
    Commodity(date, name, map[], None)
  }

  /** The arguments of a custom directive have no default. */
  function NewCustom(date: CoreTypes.Date, name: string, args: seq<string>): (r: Custom)
    ensures r.date == date && r.name == name && r.args == args && r.meta == map[] && r.source.None?
  {
    Custom(date, name, args, map[], None)
  }

  function NewDocument(date: CoreTypes.Date, account: Accounts.Account, path: string): (r: Document)
    ensures r.date == date && r.account == account && r.path == path
    ensures r.tags == {} && r.links == {} && r.meta == map[] && r.source.None?
  {
    Document(date, account, path, {}, {}, map[], None)
  }

  function NewEvent(date: CoreTypes.Date, name: string, description: string): (r: Event)
    ensures r.date == date && r.name == name && r.description == description
    ensures r.meta == map[] && r.source.None?
  {
    Event(date, name, description, map[], None)
  }

  function NewInclude(filename: string): (r: Include)
    ensures r.filename == filename && r.source.None?
  {
    Include(filename, None)
  }

  function NewNote(date: CoreTypes.Date, account: Accounts.Account, comment: string): (r: Note)
    ensures r.date == date && r.account == account && r.comment == comment
    ensures r.meta == map[] && r.source.None?
  {
    Note(date, account, comment, map[], None)
  }

  /** An Open without currencies accepts any commodity; without a booking method it books strictly. */
  function NewOpen(date: CoreTypes.Date, account: Accounts.Account): (r: Open)
    ensures r.date == date && r.account == account
    ensures r.currencies == [] && r.booking == Some(Strict)
    ensures r.meta == map[] && r.source.None?
  {
    Open(date, account, [], Some(Strict), map[], None)
  }

  function NewPad(date: CoreTypes.Date, padTo: Accounts.Account, padFrom: Accounts.Account): (r: Pad)
    ensures r.date == date && r.padToAccount == padTo && r.padFromAccount == padFrom
    ensures r.meta == map[] && r.source.None?
  {
    Pad(date, padTo, padFrom, map[], None)
  }

  function NewPlugin(moduleName: string): (r: Plugin)
    ensures r.moduleName == moduleName && r.config.None? && r.source.None?
  {
    Plugin(moduleName, None, None)
  }

  function NewPrice(date: CoreTypes.Date, currency: CoreTypes.Currency, amount: Amounts.Amount): (r: Price)
    ensures r.date == date && r.currency == currency && r.amount == amount
    ensures r.meta == map[] && r.source.None?
  {
    Price(date, currency, amount, map[], None)
  }

  function NewQuery(date: CoreTypes.Date, name: string, queryString: string): (r: Query)
    ensures r.date == date && r.name == name && r.queryString == queryString
    ensures r.meta == map[] && r.source.None?
  {
    Query(date, name, queryString, map[], None)
  }

  /** Only the date and the narration must be supplied. */
  function NewTransaction(date: CoreTypes.Date, narration: string): (r: Transaction)
    ensures r.date == date && r.narration == narration
    ensures r.flag == Okay && r.payee.None?
    ensures r.tags == {} && r.links == {} && r.postings == [] && r.meta == map[] && r.source.None?
  {
    Transaction(date, DefaultFlag(), None, narration, {}, {}, [], map[], None)
  }
}
