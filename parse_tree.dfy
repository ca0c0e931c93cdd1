/**
 * The tree pest hands to the parser's semantic layer, one constructor per grammar rule the code
 * matches on. Each node keeps the parts the code reads: its span, its text, its children. The
 * grammar that produces the tree is not part of this model; the shapes below say only what a
 * matched rule contains, so the code's "missing child" failures cannot arise.
 */
module ParseTree {
  import opened Wrappers
  import opened Pest

  /** Text of a tag, link or account component, starting with its one-character sigil (`#`, `^`, `:`). */
  type SigiledText = s: string | |s| >= 1 witness "#"

  /** A `num` token. */
  datatype NumToken = NumToken(span: Span)

  datatype PrefixOp = NegSign | PosSign

  datatype InfixOp = Add | Subtract | Multiply | Divide

  /** A `num_expr`: an operand followed by operator/operand steps, as pest yields them, flat. */
  datatype NumExpr = NumExpr(first: Operand, rest: seq<Step>)

  /** Prefix signs, outermost first, applied to a number or a parenthesised `num_expr`. */
  datatype Operand = Operand(prefixes: seq<PrefixOp>, primary: Primary)

  datatype Primary = Number(token: NumToken) | Group(expr: NumExpr)

  datatype Step = Step(op: InfixOp, operand: Operand)

  /** A `quoted_str`: the span includes the quotes, `inner` is the text between them. */
  datatype QuotedStr = QuotedStr(span: Span, inner: string)

  /** A `date` token, as written. */
  datatype DateToken = DateToken(text: string)

  /** An `account`: the root component and each following `:Component`. */
  datatype AccountNode = AccountNode(span: Span, first: Span, rest: seq<SigiledText>)

  /** An `amount`: a numeric expression and a commodity. */
  datatype AmountNode = AmountNode(num: NumExpr, currency: string)

  /** An `amount_tolerance`: a number, an optional `~ tolerance`, and a commodity. */
  datatype AmountToleranceNode = AmountToleranceNode(span: Span, num: NumExpr, tolerance: Option<NumToken>, currency: string)

  /** An `incomplete_amount`: a number, a commodity, either or both. */
  datatype IncompleteAmountNode = IncompleteAmountNode(num: Option<NumExpr>, currency: Option<string>)

  /** A child of `compound_amount`. */
  datatype CompoundPart = CompoundNum(expr: NumExpr) | CompoundCommodity(commodity: string)

  /** A component of a cost spec. */
  datatype CostComponent =
    | CostDate(date: DateToken)
    | CostLabel(quotedLabel: QuotedStr)
    | CostAmount(parts: seq<CompoundPart>)
    | CostMerge

  /** `{ ... }` (per unit) or `{{ ... }}` (total). */
  datatype CostKind = PerUnitCost | TotalCost

  datatype CostSpecNode = CostSpecNode(span: Span, kind: CostKind, components: seq<CostComponent>)

  /** A `price_annotation`: `@` or `@@` (`total`) with an incomplete amount. */
  datatype PriceAnnotationNode = PriceAnnotationNode(span: Span, total: bool, amount: IncompleteAmountNode)

  datatype PostingNode = PostingNode(
    span: Span,
    flag: Option<string>,
    account: AccountNode,
    units: Option<IncompleteAmountNode>,
    cost: Option<CostSpecNode>,
    price: Option<PriceAnnotationNode>)

  /** The value of a `key_value`, by the rule that matched it. */
  datatype MetaValueNode =
    | TextValue(quoted: QuotedStr)
    | AccountValue(accountNode: AccountNode)
    | DateValue(dateToken: DateToken)
    | CommodityValue(commodity: string)
    | TagValue(tagText: SigiledText)
    | BoolValue(boolText: string)
    | AmountValue(amountNode: AmountNode)
    | NumberValue(expr: NumExpr)

  datatype KeyValueNode = KeyValueNode(span: Span, key: string, value: MetaValueNode)

  /** A child of `tags_links`; the text keeps its sigil. */
  datatype TagLinkNode = TagNode(tagText: SigiledText) | LinkNode(linkText: SigiledText)

  /** The header strings of a transaction: one (the narration) or two (payee and narration). */
  datatype TxnStringsNode = TxnStringsNode(span: Span, first: QuotedStr, second: Option<QuotedStr>)

  /** A line in a transaction body. */
  datatype BodyNode =
    | PostingLine(posting: PostingNode)
    | KeyValueLine(kv: KeyValueNode)
    | TagLine(tagText: SigiledText)
    | LinkLine(linkText: SigiledText)

  /**
   * An entry of `custom_value_list`. A quoted string is read for its inner text. Any other value
   * the grammar admits there (a bool, an amount, a number) is known only by its span and by the
   * text of its first inner pair, which is absent when its rule has no inner pair.
   */
  datatype CustomValueNode =
    | QuotedArg(quoted: QuotedStr)
    | OtherArg(span: Span, firstInner: Option<string>)

  /** One directive pair; its span's text is the directive's source. */
  datatype DirectiveNode =
    | OptionNode(span: Span, name: QuotedStr, val: QuotedStr)
    | PluginNode(span: Span, moduleName: QuotedStr, config: Option<QuotedStr>)
    | CustomNode(span: Span, date: DateToken, name: QuotedStr, args: Option<seq<CustomValueNode>>, meta: seq<KeyValueNode>)
    | IncludeNode(span: Span, filename: QuotedStr)
    | OpenNode(span: Span, date: DateToken, account: AccountNode, currencies: Option<seq<string>>,
        booking: Option<QuotedStr>, meta: seq<KeyValueNode>)
    | CloseNode(span: Span, date: DateToken, account: AccountNode, meta: seq<KeyValueNode>)
    | CommodityNode(span: Span, date: DateToken, commodity: string, meta: seq<KeyValueNode>)
    | NoteNode(span: Span, date: DateToken, account: AccountNode, comment: string, meta: seq<KeyValueNode>)
    | PadNode(span: Span, date: DateToken, padTo: AccountNode, padFrom: AccountNode, meta: seq<KeyValueNode>)
    | QueryNode(span: Span, date: DateToken, name: QuotedStr, query: QuotedStr, meta: seq<KeyValueNode>)
    | EventNode(span: Span, date: DateToken, name: QuotedStr, description: QuotedStr, meta: seq<KeyValueNode>)
    | DocumentNode(span: Span, date: DateToken, account: AccountNode, path: QuotedStr,
        tagsLinks: Option<seq<TagLinkNode>>, meta: seq<KeyValueNode>)
    | PriceNode(span: Span, date: DateToken, currency: string, amount: AmountNode, meta: seq<KeyValueNode>)
    | TransactionNode(span: Span, date: DateToken, flag: string, strings: TxnStringsNode,
        tagsLinks: Option<seq<TagLinkNode>>, body: seq<BodyNode>)
    | BalanceNode(span: Span, date: DateToken, account: AccountNode, amountTolerance: AmountToleranceNode,
        meta: seq<KeyValueNode>)
    | OtherNode(span: Span)

  /** A child of the `file` rule: end of input, a tag push or pop, or a directive. */
  datatype FileItem =
    | EndOfInput(span: Span)
    | PushTagItem(span: Span, tagText: SigiledText)
    | PopTagItem(span: Span, tagText: SigiledText)
    | DirectiveItem(node: DirectiveNode)
}
