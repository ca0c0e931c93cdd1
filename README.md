# beancount (Rust): parser semantics, renderer and core types in Dafny

This project models the core of the Rust `beancount` workspace. Beancount is a plain-text
double-entry accounting language.

- **Core types** (`beancount-core`): the fifteen directive kinds plus `Unsupported`, postings,
  costs, amounts and flags. Each builder becomes a function that fills in the builder's defaults.
- **Parser semantics** (`beancount-parser/src/lib.rs`): everything the parser does after the pest
  grammar has matched. This covers:
  - the pushtag/poptag counter `ParseState`;
  - the top-level `parse` loop, which collects directives, checks tag balance and rebinds root
    account names;
  - every directive reader, with transaction assembly (payee/narration, body lines, metadata
    placement, tags and links);
  - postings, cost specs and `compound_amount`, price annotations and metadata values;
  - `num` and `num_expr`: precedence climbing over `+ - * /` with prefix signs.
- **Parse errors** (`beancount-parser/src/error.rs`): the constructors, how each one sets its
  location, and the `Display` format, written as a method on a writer.
- **Renderer** (`beancount-render/src/lib.rs`): every `Renderer` impl and `render_key_value`.
  Each is a method that appends to a `Writer` (`writers.dfy`), step by step as the Rust code
  does. Each method is proved to write exactly the text that a specification function of the
  same value describes. Lemmas state what those texts mean.

The renderer and the parser's bool reader are modelled as the code is written, including the
five defects listed under "## Findings". For each defect, a separate corrected function carries
the intended property, proved. The corrected functions are not used by the renderer methods or
by the parser.

Pest's output is an abstract tree (`parse_tree.dfy`), with one constructor per grammar rule the
code matches on. Behaviour that these crates take from other crates is an uninterpreted function
in the `Foreign` record (`externals.dfy`). This covers:

- the display of decimals, dates and flags;
- `AccountType::default_name`;
- pest's and rust_decimal's error texts;
- `Booking::try_from` and `BcOption::root_name_change`;
- the order in which a `HashMap`/`HashSet` yields its keys.

The iteration order is assumed only to visit every key exactly once (`ValidOrder`,
`ValidMetaWalk`). No property depends on that order.

A step of the parser returns a `ParseResult`, which is one of three things:
- `Parsed(value)`;
- `Failed(ParseError)`, the Rust `Err`;
- `Panicked(reason)`, for the two panics that depend on input values: dividing by zero in
  `num_expr` and writing two numbers in a `{{ }}` total cost.

Decimals are exact rationals (`real`).

The parser and the renderer were written against different revisions of `beancount-core`.
Where they disagree, the model follows the parser's revision:
- `Posting.price` is a `PriceSpec` (`PerUnit`/`Total`), not an `IncompleteAmount`.
- `Open.booking` is an `Option<Booking>`. The builder default is `Some(Strict)`.

## Model

| member | source | states |
|---|---|---|
| Accounts.AllAccountTypesComplete | beancount-core/src/account_types.rs:5-11 | every account type is one of the five roots Assets, Liabilities, Equity, Income, Expenses |
| Amounts.NoAmount | beancount-core/src/amount.rs:19-28 | an incomplete amount built with no setters has neither a number nor a currency |
| Amounts.AmountFromIncomplete | beancount-core/src/amount.rs:30-42 | `try_from` succeeds exactly when both parts are present and then returns those two values; otherwise `Err(())` |
| Amounts.IncompleteFromAmount | beancount-core/src/amount.rs:44-51 | widening an amount gives both parts present and equal to the amount's |
| Amounts.AmountRoundTrip | beancount-core/src/amount.rs:30-51 | `try_from(from(a)) == Ok(a)` for every amount |
| Amounts.IncompleteRoundTrip | beancount-core/src/amount.rs:30-51 | every successful `try_from` is undone by `from` |
| Flags.DefaultFlag | beancount-core/src/flags.rs:10-14 | the default flag is `Okay` |
| Flags.FlagFromText | beancount-core/src/flags.rs:16-27 | `*` and `txn` (and nothing else) give `Okay`; `!` (and nothing else) gives `Warning`; any other text gives `Other` holding exactly that text |
| Flags.OtherIsNotReserved | beancount-core/src/flags.rs:23-25 | an `Other` flag made from text never holds `*`, `txn` or `!` |
| Positions.EmptyCostSpec | beancount-core/src/position.rs:24-42 | a cost spec built with no setters has no per-unit or total number, currency, date or label, and no merge |
| Postings.NewPosting | beancount-core/src/posting.rs:30-51 | a posting needs its account and units; cost, price and flag default to none and meta to the empty map |
| Directives.NewBalance | beancount-core/src/directives.rs:76-97 | date, account and amount are required; tolerance, meta and source default to none/empty |
| Directives.NewBcOption | beancount-core/src/directives.rs:116-126 | name and value are required; source defaults to none |
| Directives.NewClose | beancount-core/src/directives.rs:145-159 | date and account are required; meta and source default to empty/none |
| Directives.NewCommodity | beancount-core/src/directives.rs:187-201 | date and name are required; meta and source default to empty/none |
| Directives.NewCustom | beancount-core/src/directives.rs:229-246 | date, name and arguments are required; meta and source default to empty/none |
| Directives.NewDocument | beancount-core/src/directives.rs:265-290 | date, account and path are required; tags, links, meta and source default to empty/none |
| Directives.NewEvent | beancount-core/src/directives.rs:309-326 | date, name and description are required; meta and source default to empty/none |
| Directives.NewInclude | beancount-core/src/directives.rs:345-352 | the file name is required; source defaults to none |
| Directives.NewNote | beancount-core/src/directives.rs:371-388 | date, account and comment are required; meta and source default to empty/none |
| Directives.NewOpen | beancount-core/src/directives.rs:405-429 | date and account are required; currencies default to empty (any commodity), booking to `Strict`, meta and source to empty/none |
| Directives.NewPad | beancount-core/src/directives.rs:452-469 | date and both accounts are required; meta and source default to empty/none |
| Directives.NewPlugin | beancount-core/src/directives.rs:492-503 | the module is required; config and source default to none |
| Directives.NewPrice | beancount-core/src/directives.rs:533-550 | date, currency and amount are required; meta and source default to empty/none |
| Directives.NewQuery | beancount-core/src/directives.rs:573-590 | date, name and query string are required; meta and source default to empty/none |
| Directives.NewTransaction | beancount-core/src/directives.rs:638-673 | only date and narration are required; flag defaults to `Okay`; payee, tags, links, postings, meta and source default to none/empty |
| Pest.ErrorFromSpan | beancount-parser/src/error.rs:75-80 | an error made from a span is located from the span's start to its end |
| ParseErrors.InvalidState | beancount-parser/src/error.rs:55-63 | `InvalidParserState` with the message, location (0, 0) and no source |
| ParseErrors.InvalidStateWithSpan | beancount-parser/src/error.rs:65-73 | `InvalidParserState` located at the span's start line and column, no source |
| ParseErrors.InvalidInputWithSpan | beancount-parser/src/lib.rs:163-167 | `InvalidInput` located at the span's start line and column, no source |
| ParseErrors.DecimalParseError | beancount-parser/src/error.rs:75-88 | `DecimalError` whose message is pest's text for the custom error "error while parsing number: …" over the span; located at the span start; the rust_decimal error is kept as the source |
| ParseErrors.FromPest | beancount-parser/src/error.rs:187-197 | `InvalidInput` with pest's text, located at the start position of either location form, with the pest error as the source |
| ParseErrors.FromPestSpanStart | beancount-parser/src/error.rs:187-190 | a pest error made from a span is located at the span's first position |
| ParseErrors.Fmt | beancount-parser/src/error.rs:29-44 | `Display::fmt` appends exactly the kind's text followed by the location text |
| ParseErrors.DisplayShape | beancount-parser/src/error.rs:31-42 | `InvalidInput` is prefixed "Invalid input: ", `InvalidParserState` is prefixed "Parser has reached an invalid state (please report this as a bug): expected ", `DecimalError` is the bare message; all end with " at line L column C" |
| ParseErrors.LocationTextInjective | beancount-parser/src/error.rs:42 | the location can be recovered from the text: different locations give different " at line L column C" texts |
| ParseStates.PushedCounts | beancount-parser/src/lib.rs:117-119 | a push raises the tag's count by one (from zero when absent), adds it to the keys and changes no other count |
| ParseStates.PoppedCounts | beancount-parser/src/lib.rs:121-133 | a pop fails exactly when the tag is absent; otherwise it lowers that count by one, deleting the key at one, and changes no other |
| ParseStates.PushThenPop | beancount-parser/src/lib.rs:117-133 | a push followed by a pop of the same tag restores the map |
| ParseStates.BalancedPushPop | beancount-parser/src/lib.rs:98-102 | n pushes of a tag are undone by exactly n pops |
| ParseStates.OnePopTooMany | beancount-parser/src/lib.rs:98-102 | after n pushes of an absent tag, n + 1 pops fail |
| ParseStates.InitialRoots | beancount-parser/src/lib.rs:106-115 | every root type starts out named by its default name |
| ParseStates.ParseState.constructor | beancount-parser/src/lib.rs:106-115 | `new`: default root names and no pushed tags |
| ParseStates.ParseState.PushTag | beancount-parser/src/lib.rs:117-119 | updates the counts as `Pushed` says and leaves the root names |
| ParseStates.ParseState.PopTag | beancount-parser/src/lib.rs:121-133 | on an absent tag it returns the error "Attempting to pop absent tag: '…'" and changes nothing; otherwise it updates the counts as `Popped` says |
| ParseStates.ParseState.PushedTags | beancount-parser/src/lib.rs:135-137 | yields exactly the pushed tags |
| ParseStates.ParseState.SetRootName | beancount-parser/src/lib.rs:186-188 | rebinds one root type's name and leaves the pushed tags |
| Parser.UnbalancedTagsEmpty | beancount-parser/src/lib.rs:158-163 | the quoted, comma-joined list of pushed tags is empty exactly when no tag is pushed |
| Parser.ListPushedTags | beancount-parser/src/lib.rs:158-162 | the loop builds each pushed tag in single quotes, joined by ", " |
| Parser.Parse | beancount-parser/src/lib.rs:147-197 | the imperative loop over a `ParseState` computes the `ParseFrom` result |
| Parser.EndOfInputBalanced | beancount-parser/src/lib.rs:157-170 | at end of input the parse stops with the directives so far exactly when no tag is pushed; otherwise it fails with "Unbalanced pushed tag(s): …" at that span |
| Parser.PopAbsentFails | beancount-parser/src/lib.rs:174-179 | a poptag of a tag that is not pushed fails at the poptag's span |
| Parser.OptionRenamesRoot | beancount-parser/src/lib.rs:180-192 | after an option that renames a root, the option is appended and the rest is read with that root rebound |
| Parser.ParseFromDirectives | beancount-parser/src/lib.rs:155-196 | a successful parse yields one directive for each directive item, in input order and of the item's kind, each recording its text; pushtag/poptag items yield nothing |
| Parser.TagBalance | beancount-parser/src/lib.rs:155-179 | over tag items ended by end of input, the parse succeeds exactly when no prefix pops a tag more often than it was pushed and every tag is popped as often as pushed |
| Parser.EndOfInputCounts | beancount-parser/src/lib.rs:157-170 | with only end of input left, the balance conditions hold exactly when no tag is outstanding |
| Parser.StepCounts | beancount-parser/src/lib.rs:171-179 | one push or successful pop carries the balance conditions over to the rest of the items |
| ParserValues.ExtractTag | beancount-parser/src/lib.rs:199-205 | drops exactly the one-character sigil |
| ParserValues.FindRoot | beancount-parser/src/lib.rs:729-735 | finds a type whose current root name equals the text, or reports that none has it |
| ParserValues.AccountParts | beancount-parser/src/lib.rs:745 | each component is the text after its leading `:` |
| ParserValues.AccountOf | beancount-parser/src/lib.rs:723-747 | succeeds exactly when some root type is currently named by the first segment, and then that type is the root and the components are the rest; otherwise fails with the pest custom error "Invalid root account" at the first segment |
| ParserValues.RenamedRootResolves | beancount-parser/src/lib.rs:183-189 | after a rename to a name no other root has, that name resolves to the renamed type |
| ParserValues.DefaultRootResolves | beancount-parser/src/lib.rs:106-115 | with the default names, a type's default name resolves to that type |
| ParserValues.AmountOf | beancount-parser/src/lib.rs:613-621 | the amount is the expression's value with the written currency; an expression failure is passed on |
| ParserValues.AmountToleranceOf | beancount-parser/src/lib.rs:623-645 | the number's failure comes first; the tolerance is present exactly when written and is `num` of it |
| ParserValues.IncompleteAmountOf | beancount-parser/src/lib.rs:647-663 | each part is present exactly when written; a written number must evaluate |
| ParserValues.CompleteIncompleteAmount | beancount-parser/src/lib.rs:647-663 | a fully written incomplete amount reads as both parts present |
| ParserValues.PriceAnnotationOf | beancount-parser/src/lib.rs:706-721 | gives whether the annotation is `@@` and its incomplete amount; fails exactly when the amount does |
| ParserValues.CapitalisedTrueIsFalse | beancount-parser/src/lib.rs:808 | as written, the `bool` texts `True` and `TRUE` read as false, so `key: True` is the value `Bool(false)` |
| ParserValues.BoolFromTextSpellings | beancount-parser/src/lib.rs:808 | the corrected reading makes every case of `true` true and of `false` false, and agrees with the code on every text the code reads as true |
| ParserValues.MetaValueOf | beancount-parser/src/lib.rs:800-811 | each value rule gives its kind: quoted text without quotes, date, currency, tag without `#`, a bool that is true exactly when its text is `true`; an account, amount or number carries the sub-reader's value when it parses and passes on its failure or panic otherwise |
| ParserValues.MetaKvPair | beancount-parser/src/lib.rs:787-814 | the key as written, paired with its value; fails exactly when the value does |
| ParserValues.MetaKvContents | beancount-parser/src/lib.rs:757-760 | `meta_kv` succeeds exactly when every pair does; the keys are exactly those written; each key maps to its last occurrence's value |
| ParserValues.MetaKvFromFailure | beancount-parser/src/lib.rs:757-760 | a failed `meta_kv` is the failure of the first pair that fails |
| ParserValues.ReadTagsLinks | beancount-parser/src/lib.rs:762-785 | the loop puts every tag (without `#`) into the tags and every link (without `^`) into the links |
| NumExprs.RemoveCommasContents | beancount-parser/src/lib.rs:579 | removing commas deletes every `,` and keeps every other character as often as it occurs |
| NumExprs.RemoveCommasAppend | beancount-parser/src/lib.rs:579 | removing commas from two joined texts is removing them from each and joining, so the kept characters stay in order |
| NumExprs.RemoveCommasIdentity | beancount-parser/src/lib.rs:579 | a literal with no comma is unchanged |
| NumExprs.Num | beancount-parser/src/lib.rs:578-581 | `num` never panics; it succeeds exactly when the comma-free text is a decimal literal, with that value; otherwise it fails with `decimal_parse_error` at the token's span |
| NumExprs.NumExprValue | beancount-parser/src/lib.rs:583-611 | `num_expr` builds pest's Pratt tree over the operands, with `+ -` binding looser than `* /`, both left-associative, and the prefix signs applied to their operand; a lone operand is its own value |
| NumExprs.BinaryExprValue | beancount-parser/src/lib.rs:599-609 | in `a ⊕ b` a panic of `a` wins, then a panic of `b`, then the failure of `a`, then that of `b`; two numbers are added, subtracted, multiplied or divided, and dividing by zero panics |
| NumExprs.ClimbLeavesSuffix | beancount-parser/src/lib.rs:83-88 | precedence climbing consumes a prefix of the operator list and leaves the rest untouched |
| Decimals.DecimalWholePart | beancount-parser/src/lib.rs:578-581 | a decimal literal's value is at least its whole part and less than the next integer |
| NumExprs.TightChainIsLeftFold | beancount-parser/src/lib.rs:83-88 | a chain of `*`/`/` builds the left-associated tree |
| NumExprs.LastLooseIsRoot | beancount-parser/src/lib.rs:83-88 | the last `+`/`-` is the root of the tree, with everything before it on the left and the multiplicative chain after it on the right |
| NumExprs.EvalLeftFold | beancount-parser/src/lib.rs:599-609 | evaluating a left fold combines the operands step by step from the left |
| NumExprs.TightExprFolds | beancount-parser/src/lib.rs:583-611 | `a * b / c` evaluates as `(a * b) / c` |
| NumExprs.LooseOperatorSplits | beancount-parser/src/lib.rs:583-611 | the value of `x ⊕ chain` with ⊕ additive is ⊕ applied to the value of everything before it and the value of the multiplicative chain after it, so `+ -` bind looser than `* /` and all associate to the left |
| NumExprs.PrefixSigns | beancount-parser/src/lib.rs:591-598 | prefix `-` negates, prefix `+` is the identity, and `- -` cancels |
| ParserPostings.CompoundFromMeaning | beancount-parser/src/lib.rs:831-854 | `compound_amount` succeeds exactly when every number evaluates, and then the first number is `number_per`, the last number (once a second is read) is `number_total`, and the last commodity is the currency |
| ParserPostings.ReadCompoundAmount | beancount-parser/src/lib.rs:831-854 | the loop that reassigns the three `Option`s computes `CompoundOf` |
| ParserPostings.CostFromMeaning | beancount-parser/src/lib.rs:677-689 | the component loop keeps the last amount written, and sets merge exactly when a `*` appears |
| ParserPostings.CostSpecPlacement | beancount-parser/src/lib.rs:690-703 | a `{{ }}` total cost with two numbers panics; with one number that number is `number_total` and `number_per` is none; a per-unit cost puts its first number in `number_per`; `merge_cost` holds exactly when `*` was written |
| ParserPostings.ReadCostSpec | beancount-parser/src/lib.rs:665-704 | the loop over components computes `CostSpecOf` |
| ParserPostings.PostingContents | beancount-parser/src/lib.rs:542-576 | a parsed posting has the written account and the written flag; units default to the empty amount; cost and price are present exactly when written; the price is `Total` exactly for `@@`; meta starts empty |
| ParserPostings.PostingAccountFirst | beancount-parser/src/lib.rs:548-552 | a posting whose account does not resolve fails with the account's error |
| ParserPostings.ReadPosting | beancount-parser/src/lib.rs:542-576 | computes `PostingOf` |
| ParserDirectives.CustomArgText | beancount-parser/src/lib.rs:816-825 | `get_quoted_str` on a custom value gives a quoted string's inner text, another value's first inner pair's text, and the "quoted string" invalid-state error at the value's span when there is no inner pair; it never panics |
| ParserDirectives.CustomArgsMeaning | beancount-parser/src/lib.rs:260-264 | collecting the values succeeds exactly when each value has a text, and then holds those texts in order; otherwise it is the error of the first value without one |
| ParserDirectives.QuotedCustomArgs | beancount-parser/src/lib.rs:260-264 | values that are all quoted strings give their inner texts, in order |
| ParserDirectives.CustomValueWithoutInnerFails | beancount-parser/src/lib.rs:251-270 | a custom directive with a value that has no inner pair fails with the "quoted string" invalid-state error |
| ParserDirectives.BookingOf | beancount-parser/src/lib.rs:283-315 | no booking written gives none; a known method gives its `Booking`; an unknown one fails with "unknown booking method …" at its span |
| ParserDirectives.PayeeNarration | beancount-parser/src/lib.rs:479-491 | one string gives no payee and that narration; two give the payee then the narration |
| ParserDirectives.BodySetsSplit | beancount-parser/src/lib.rs:515-522 | the tags and links gathered from body lines are the first line's plus the rest's |
| ParserDirectives.BodyStepShape | beancount-parser/src/lib.rs:502-527 | one body line adds at most its tag, its link or its posting, and once a posting exists it never touches the transaction metadata |
| ParserDirectives.BodyFromMeaning | beancount-parser/src/lib.rs:499-532 | the body loop adds exactly the body's tags and links and one posting per posting line, and leaves the transaction metadata once a posting exists |
| ParserDirectives.LeadingPairIsTransactionMeta | beancount-parser/src/lib.rs:507-513 | a key/value line before any posting goes into the transaction metadata |
| ParserDirectives.LaterPairIsPostingMeta | beancount-parser/src/lib.rs:507-513 | a key/value line after a posting goes into the last posting's metadata; earlier postings and the transaction metadata stay |
| ParserDirectives.TransactionContents | beancount-parser/src/lib.rs:470-540 | a transaction's tags are the header's, the body's and every pushed tag; its links are the header's and the body's; one posting per posting line; narration, flag and source as written |
| ParserDirectives.ReadBody | beancount-parser/src/lib.rs:499-532 | the mutating body loop computes `BodyFrom` |
| ParserDirectives.AddPushedTags | beancount-parser/src/lib.rs:528-530 | the loop adds exactly the pushed tags |
| ParserDirectives.ReadTransaction | beancount-parser/src/lib.rs:470-540 | computes `TransactionOf` |
| ParserDirectives.DirectiveTotal | beancount-parser/src/lib.rs:229-281 | option, plugin and include directives, and rules the parser does not know, never fail |
| ParserDirectives.DirectiveShape | beancount-parser/src/lib.rs:207-540 | a parsed directive is of its rule's kind, and every kind but `Unsupported` records the directive's text as its source |
| ParserDirectives.OpenBooking | beancount-parser/src/lib.rs:283-315 | an open without a booking has none; an unknown booking method fails at its span; a known one is stored |
| ParserDirectives.ReadDirective | beancount-parser/src/lib.rs:207-227 | computes `DirectiveOf`, using the readers' loops for transactions and documents |
| Render.ErrorText | beancount-render/src/lib.rs:24-30 | `Io` displays as "an io error occurred" and `Unsupported` as "could not render unsupported directive" |
| Render.RenderWords | beancount-render/src/lib.rs:120-122 | each word is written after a space and its sigil, in order |
| Render.BookingTextInjective | beancount-render/src/lib.rs:123-129 | `Booking::None` writes nothing, and two methods that write anything write different words |
| Render.RenderBooking | beancount-render/src/lib.rs:123-129 | writes ` "strict"`, ` "average"`, ` "fifo"` or ` "lifo"`, and nothing for `None` |
| Render.RenderOpen | beancount-render/src/lib.rs:115-134 | date, ` open `, the account, each currency after a space, the booking, a newline, then the metadata |
| Render.RenderClose | beancount-render/src/lib.rs:136-145 | date, ` close `, the account, a newline, the metadata |
| Render.RenderBalance | beancount-render/src/lib.rs:160-171 | date, ` balance `, the account, a tab, the amount, a newline, the metadata |
| Render.RenderDocument | beancount-render/src/lib.rs:48-58 | date, ` document `, the account, the quoted path, a newline, the metadata |
| Render.RenderNote | beancount-render/src/lib.rs:232-240 | date, ` note `, the account, a space, the comment, a newline, the metadata |
| Render.RenderPad | beancount-render/src/lib.rs:242-252 | date, ` pad `, both accounts separated by a space, a newline, the metadata |
| Render.RenderOption | beancount-render/src/lib.rs:181-187 | `option "name" "value"` and a newline |
| Render.RenderCommodity | beancount-render/src/lib.rs:189-195 | date, ` commodity `, the name, a newline, the metadata |
| Render.RenderCustom | beancount-render/src/lib.rs:197-210 | date, ` custom "name" `, the arguments joined by spaces, a newline, the metadata |
| Render.RenderEvent | beancount-render/src/lib.rs:212-222 | date, ` event `, quoted name and description, a newline, the metadata |
| Render.IncludeAsWrittenUnreadable | beancount-render/src/lib.rs:227 | as written, an include line never reads back as `include "…"`, because its closing quote is `'` |
| Render.IncludeTextReadsBack | beancount-render/src/lib.rs:224-230 | the corrected include line gives back its file name |
| Render.RenderInclude | beancount-render/src/lib.rs:224-230 | writes `include "`, the file name, a closing `'` and a newline |
| Render.RenderPlugin | beancount-render/src/lib.rs:254-264 | `plugin "module"`, the quoted config after a space only if there is one, and a newline |
| Render.RenderPrice | beancount-render/src/lib.rs:266-274 | date, ` price `, the currency, a space, the amount, a newline, the metadata |
| Render.RenderQuery | beancount-render/src/lib.rs:276-286 | date, ` query `, quoted name and query string, a newline, the metadata |
| Render.BareTagsConflate | beancount-render/src/lib.rs:296-301 | as written, a transaction tagged `x` and one linked to `x` get the same header |
| Render.SigiledTagsDiffer | beancount-render/src/lib.rs:288-308 | with sigils the two headers differ, and each word reads back as the tag or link it came from |
| Render.MetaAfterPostingsConflates | beancount-render/src/lib.rs:303-306 | as written, a transaction's metadata and the same metadata on its only posting render identically |
| Render.MetaBeforePostingsDistinguishes | beancount-render/src/lib.rs:288-308 | with the metadata written under the header, those two transactions render differently |
| Render.RenderTransactionHeader | beancount-render/src/lib.rs:291-302 | date, flag, the payee quoted only when present, the quoted narration, each tag and then each link after a bare space, a newline |
| Render.RenderPostings | beancount-render/src/lib.rs:303-305 | each posting's text, in order |
| Render.RenderTransaction | beancount-render/src/lib.rs:288-308 | the header, then the postings, then the transaction metadata |
| Render.DirectiveText | beancount-render/src/lib.rs:60-83 | fails exactly for `Unsupported`, with `Unsupported` as the error |
| Render.RenderDirective | beancount-render/src/lib.rs:60-83 | writes the directive's text and returns `Ok`, or writes nothing and returns the error for `Unsupported` |
| Render.DirectiveTextEndsLine | beancount-render/src/lib.rs:60-83 | every supported directive's text ends with a line break |
| Render.LedgerTextMeaning | beancount-render/src/lib.rs:37-46 | rendering a ledger succeeds exactly when no directive is unsupported, and then the text is each directive's text followed by an empty line |
| Render.LedgerWrittenStops | beancount-render/src/lib.rs:37-46 | what is written before the first unsupported directive is the ledger text of the directives before it |
| Render.RenderLedger | beancount-render/src/lib.rs:37-46 | returns the outcome and writes each directive followed by a newline, stopping at the first unsupported one |
| RenderValues.RenderAccount | beancount-render/src/lib.rs:147-158 | the root's default name, `:`, the parts joined by `:` |
| RenderValues.AccountTextSplits | beancount-render/src/lib.rs:147-158 | splitting the rendered account at `:` gives the root name and then the parts |
| RenderValues.AccountRoundTrip | beancount-render/src/lib.rs:147-158 | an account parsed with the default names renders to text whose segments are the segments that were parsed |
| RenderValues.RenderAmount | beancount-render/src/lib.rs:173-179 | the number, a space, the currency |
| RenderValues.RenderIncompleteAmount | beancount-render/src/lib.rs:375-390 | "num currency" with both parts, the present part alone with one, nothing with neither |
| RenderValues.IncompleteAmountTextAgrees | beancount-render/src/lib.rs:375-390 | a widened amount renders like the amount; the empty incomplete amount renders as nothing |
| RenderValues.CostSpecTextOmits | beancount-render/src/lib.rs:336-349 | the merge marker is never written, and a total number hides the per-unit one |
| RenderValues.EmptyCostSpecText | beancount-render/src/lib.rs:333-373 | an empty cost spec renders as `{}` |
| RenderValues.RenderPiece | beancount-render/src/lib.rs:351-364 | the `first` flag puts ", " before every piece but the first |
| RenderValues.RenderCostSpec | beancount-render/src/lib.rs:333-373 | double braces exactly when there is a total number; the total (else per-unit) number with the currency, only when both exist; then date and label, ", "-separated |
| RenderValues.MetaValueAsWrittenLosesMarks | beancount-render/src/lib.rs:108-109 | as written, the text value `bar` renders unquoted, the tag `trip` without `#`, and a text and a tag with the same content render alike |
| RenderValues.MetaValueTextReadsBack | beancount-render/src/lib.rs:98-113 | corrected, a text value reads back as a quoted string and a tag after `#`; a bool reads back as itself |
| RenderValues.BoolTextReadsBack | beancount-render/src/lib.rs:104 | a rendered bool reads back as itself under the parser's exact comparison with `true` |
| RenderValues.RenderMetaValue | beancount-render/src/lib.rs:98-113 | writes each value's display text: accounts and amounts as rendered, booleans as `true`/`false`, text and tags bare |
| RenderValues.MetaTextHoldsEntries | beancount-render/src/lib.rs:85-96 | every entry of the map is one line of the metadata text, every line is an entry's, and an empty map writes nothing |
| RenderValues.MetaTextEndsLine | beancount-render/src/lib.rs:90-94 | metadata text is empty or ends with a line break |
| RenderValues.RenderEntry | beancount-render/src/lib.rs:91-93 | a tab, the key, `: `, the value, a newline |
| RenderValues.RenderKeyValue | beancount-render/src/lib.rs:85-96 | one entry line per key, in the order the map is walked |
| RenderValues.NewPostingText | beancount-render/src/lib.rs:310-331 | a bare posting is one line: tab, account, tab, units, newline |
| RenderValues.PostingTextEndsLine | beancount-render/src/lib.rs:310-331 | a posting's text ends with a line break |
| RenderValues.RenderCost | beancount-render/src/lib.rs:320-323 | a space and the cost spec, only if there is one |
| RenderValues.RenderPrice | beancount-render/src/lib.rs:324-327 | ` @ ` and the price amount, only if there is one |
| RenderValues.RenderPostingHead | beancount-render/src/lib.rs:313-319 | a tab, the flag and a space if there is one, the account, a tab, the units |
| RenderValues.RenderPostingTail | beancount-render/src/lib.rs:320-328 | the cost, the price, a newline |
| RenderValues.RenderPostingLine | beancount-render/src/lib.rs:313-328 | the posting's head and then its tail |
| RenderValues.RenderPosting | beancount-render/src/lib.rs:310-331 | the posting line, then its metadata |

## Left out

- The pest grammar, `BeancountParser::parse` and lexing. The model starts from pest's output as
  a typed tree. Lexical facts the grammar enforces (date shape, commodity shape, account
  capitalisation) are not modelled.
- The `invalid_state` and `invalid_state_with_span` paths that fire when a child pair is missing,
  and the `unimplemented!`/`unreachable!` arms. They cannot be reached once the tree is typed.
  The exception is `get_quoted_str` on a custom value with no inner pair, which is modelled.
  The `Failed(InvalidState…)` constructors are still modelled and proved.
- The `construct!` macro. Its effect is modelled: the fields of each directive are read in order.
- `ParseState.pushed_tags` counts are `u16`. Pushing one tag 65536 times overflows in the source;
  the model counts with `nat`.
- rust_decimal and BigDecimal are modelled as exact rationals. Rounding, 96-bit overflow and
  the sign of zero are left out. How `Decimal::from_str` rejects text is modelled only for
  unsigned digit strings with an optional fraction, which is what the `num` rule matches.
- The `Io` variant of the renderer's error is never produced, because writes to the `Writer`
  cannot fail.
- HashMap/HashSet iteration order. Metadata, tags, links and pushed tags are visited in an
  uninterpreted order that yields each key exactly once. No output order is stated.
- Root-account lookup iterates a HashMap in the source. The model scans the types in
  declaration order. The two agree whenever no two types share a root name, which is the case
  `RenamedRootResolves` and `DefaultRootResolves` state.
- `ParseError::invalid_input_with_span` is called by `parse` but is not defined in
  `beancount-parser/src/error.rs`. It is modelled like `invalid_state_with_span`, with kind `InvalidInput`.
- The parser and the renderer come from different revisions. `Open.booking` is modelled as
  `Option<Booking>` with builder default `Some(Strict)`. The renderer writes `Booking::None` and
  an absent booking alike, as nothing.
- Renderer and `PriceSpec`: `beancount-render/src/lib.rs` only knows an `IncompleteAmount` price, so the
  model writes ` @ ` and the amount for both `PerUnit` and `Total`.
- The renderer always writes each root type's default name. It does not see option renames.
- `Balance.tolerance` and a document's tags and links are not rendered, as in the source.
- `Render.RenderCustom`: the arguments are joined by spaces after `"name" `, so a custom
  directive with no arguments ends in a space before the newline, as in the source.
- A note's comment is kept as the matched text of the comment rule.
- The legacy top-level crate (`src/`), the `dump_parse` example programs, `beancount-core/src/date.rs`
  (chrono), and the pest rule-renaming table in `error.rs:93-186`. These are foreign or
  duplicate code.
- `ParserDirectives.CustomArgText`: the grammar is not part of this model, so a custom value
  other than a quoted string is known only by its span and the text of its first inner pair.
  Which values have an inner pair, and what its text is, is left to the tree. The
  `debug_assert!` in `get_quoted_str` is not modelled, so the model gives the release-build
  result where a debug build would panic.
- `ParserDirectives.ReadDirective`: the other directive readers are one function,
  `SimpleDirectiveOf`, with no loop. Their field-by-field results are stated through
  `DirectiveShape`, `DirectiveTotal` and `OpenBooking`; no per-directive lemma lists every field.

## Findings

In each row the as-written member is about the function the rest of the model uses. The
corrected member is about a separate corrected function.

| source | as written | input that shows it | evidently intended | confidence | as-written member | corrected member |
|---|---|---|---|---|---|---|
| beancount-render/src/lib.rs:227 | the include line opens the file name with `"` and closes it with `'` | `Include("a.bean")` renders `include "a.bean'` (beancount-render/src/tests.rs:76 expects it to parse again) | close with `"` | not executed | Render.IncludeAsWrittenUnreadable | Render.IncludeTextReadsBack |
| beancount-render/src/lib.rs:296-301 | tags and links are written after a bare space, without `#` or `^` | a transaction tagged `x` and one linked to `x` render the same header | write ` #tag` and ` ^link` | not executed | Render.BareTagsConflate | Render.SigiledTagsDiffer |
| beancount-render/src/lib.rs:108-109 | text and tag metadata values are written bare | the text value `bar` renders `foo: bar`, which is not a quoted string (beancount-render/src/tests.rs:29 expects `foo: "bar"` to parse again) | quote text values and prefix tags with `#` | not executed | RenderValues.MetaValueAsWrittenLosesMarks | RenderValues.MetaValueTextReadsBack |
| beancount-render/src/lib.rs:303-306 | a transaction's own metadata is written after its postings, where it reads as the last posting's | a one-posting transaction with meta `{k: v}` and the same transaction with `{k: v}` on the posting render identically | write transaction metadata under the header | not executed | Render.MetaAfterPostingsConflates | Render.MetaBeforePostingsDistinguishes |
| beancount-parser/src/lib.rs:808 | a `bool` value is true only for the exact text `true` | `key: True`, which the grammar accepts (beancount-parser/src/lib.rs:898), reads as false | compare without regard to case | not executed | ParserValues.CapitalisedTrueIsFalse | ParserValues.BoolFromTextSpellings |
