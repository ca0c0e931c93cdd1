/**
 * The parser's directive readers: one per directive kind, each recording the directive's own
 * text as its source, and the dispatcher over them.
 */
module ParserDirectives {
  import opened Wrappers
  import opened CoreTypes
  import opened Accounts
  import opened Amounts
  import opened Flags
  import M = Metadata
  import opened Postings
  import opened Directives
  import opened Pest
  import opened ParseTree
  import opened ParseErrors
  import opened Externals
  import opened NumExprs
  import opened ParseStates
  import opened ParserValues
  import opened ParserPostings

  function DateOf(d: DateToken): CoreTypes.Date
  {
    Date(d.text)
  }

  /**
   * `get_quoted_str` on a custom value: the text of the value's first inner pair, which for a
   * quoted string is the text inside the quotes; a value with no inner pair is an invalid state.
   */
  function CustomArgText(v: CustomValueNode): (r: ParseResult<string>)
    ensures r.Panicked? == false
    ensures v.QuotedArg? ==> r == Parsed(v.quoted.inner)
    ensures v.OtherArg? ==> (r.Parsed? <==> v.firstInner.Some?)
    ensures v.OtherArg? && v.firstInner.None? ==> r == Failed(InvalidStateWithSpan("quoted string", v.span))
  {
    match v
    case QuotedArg(q) => Parsed(q.inner)
    case OtherArg(span, inner) =>
      match inner
      case Some(t) => Parsed(t)
      case None => Failed(InvalidStateWithSpan("quoted string", span))
  }

  /** The `custom_value_list` mapped through `get_quoted_str` and collected: the first failure ends it. */
  function CustomArgTexts(vs: seq<CustomValueNode>): ParseResult<seq<string>>
  {
    if |vs| == 0 then Parsed([])
    else
      var t :- CustomArgText(vs[0]);
      var rest :- CustomArgTexts(vs[1..]);
      Parsed([t] + rest)
  }

  /**
   * The collected values succeed exactly when every value has a text, and then hold those texts in
   * order; otherwise the result is the error of the first value without one.
   */
  lemma {:induction false} CustomArgsMeaning(vs: seq<CustomValueNode>)
    ensures CustomArgTexts(vs).Parsed? <==> forall i :: 0 <= i < |vs| ==> CustomArgText(vs[i]).Parsed?
    ensures CustomArgTexts(vs).Parsed? ==>
      |CustomArgTexts(vs).value| == |vs| &&
      forall i :: 0 <= i < |vs| ==> CustomArgTexts(vs).value[i] == CustomArgText(vs[i]).value
    ensures CustomArgTexts(vs).Failed? ==>
      exists i :: 0 <= i < |vs| && CustomArgText(vs[i]).Failed? &&
        (forall j :: 0 <= j < i ==> CustomArgText(vs[j]).Parsed?) &&
        CustomArgTexts(vs).error == CustomArgText(vs[i]).error
    ensures !CustomArgTexts(vs).Panicked?
  {
    if |vs| > 0 {
      CustomArgsMeaning(vs[1..]);
      var head := CustomArgText(vs[0]);
      if head.Parsed? {
        forall i | 1 <= i < |vs| ensures vs[i] == vs[1..][i - 1] { }
        if CustomArgTexts(vs[1..]).Failed? {
          var k :| 0 <= k < |vs[1..]| && CustomArgText(vs[1..][k]).Failed? &&
            (forall j :: 0 <= j < k ==> CustomArgText(vs[1..][j]).Parsed?) &&
            CustomArgTexts(vs[1..]).error == CustomArgText(vs[1..][k]).error;
          assert CustomArgText(vs[k + 1]).Failed?;
        }
      } else {
        assert CustomArgTexts(vs) == Failed(head.error);
      }
    }
  }

  /** A custom directive whose values are all quoted strings gets their inner texts. */
  lemma QuotedCustomArgs(vs: seq<CustomValueNode>)
    requires forall i :: 0 <= i < |vs| ==> vs[i].QuotedArg?
    ensures CustomArgTexts(vs).Parsed?
    ensures |CustomArgTexts(vs).value| == |vs|
    ensures forall i :: 0 <= i < |vs| ==> CustomArgTexts(vs).value[i] == vs[i].quoted.inner
  {
    CustomArgsMeaning(vs);
  }

  /** A custom value with no inner pair, such as a bare bool, makes the whole directive an invalid state. */
  lemma CustomValueWithoutInnerFails(node: DirectiveNode, i: nat, roots: map<AccountType, string>, f: Foreign)
    requires node.CustomNode? && node.args.Some? && i < |node.args.value|
    requires node.args.value[i].OtherArg? && node.args.value[i].firstInner.None?
    ensures SimpleDirectiveOf(node, roots, f).Failed?
    ensures SimpleDirectiveOf(node, roots, f).error.kind == InvalidParserState("quoted string")
  {
    var vs := node.args.value;
    CustomArgsMeaning(vs);
    assert !CustomArgText(vs[i]).Parsed?;
  }

  /** `Booking::try_from` on the quoted method name; an unknown one is an error at the quoted string. */
  function BookingOf(q: Option<QuotedStr>, f: Foreign): (r: ParseResult<Option<Booking>>)
    ensures q.None? ==> r == Parsed(None)
    ensures q.Some? && f.bookingFromText(q.value.inner).Some? ==> r == Parsed(f.bookingFromText(q.value.inner))
    ensures q.Some? && f.bookingFromText(q.value.inner).None? ==>
      r == Failed(InvalidInputWithSpan("unknown booking method " + q.value.span.text, q.value.span))
  {
    match q
    case None => Parsed(None)
    case Some(s) =>
      match f.bookingFromText(s.inner)
      case Some(b) => Parsed(Some(b))
      case None => Failed(InvalidInputWithSpan("unknown booking method " + s.span.text, s.span))
  }

  // ---- Transactions ----

  /** `(payee, narration)`: a single string is the narration; with two, the first is the payee. */
  function PayeeNarration(s: TxnStringsNode): (r: (Option<string>, string))
    ensures s.second.None? ==> r == (None, s.first.inner)
    ensures s.second.Some? ==> r == (Some(s.first.inner), s.second.value.inner)
  {
    match s.second
    case None => (None, s.first.inner)
    case Some(q) => (Some(s.first.inner), q.inner)
  }

  /** What the body loop of `transaction_directive` has gathered. */
  datatype Body = Body(postings: seq<Posting>, meta: M.Meta, tags: set<string>, links: set<string>)

  /**
   * One body line: a posting is appended; a key/value pair goes to the last posting so far, or to
   * the transaction when there is none yet; a tag or link joins its set.
   */
  function BodyStep(b: Body, line: BodyNode, roots: map<AccountType, string>, f: Foreign): ParseResult<Body>
  {
    match line
    case PostingLine(p) =>
      var posting :- PostingOf(p, roots, f);
      Parsed(b.(postings := b.postings + [posting]))
    case KeyValueLine(kv) =>
      var pair :- MetaKvPair(kv, roots, f);
      if |b.postings| > 0 then
        var last := b.postings[|b.postings| - 1];
        Parsed(b.(postings := b.postings[|b.postings| - 1 := last.(meta := last.meta[pair.0 := pair.1])]))
      else
        Parsed(b.(meta := b.meta[pair.0 := pair.1]))
    case TagLine(t) => Parsed(b.(tags := b.tags + {ExtractTag(t)}))
    case LinkLine(l) => Parsed(b.(links := b.links + {ExtractTag(l)}))
  }

  function BodyFrom(b: Body, lines: seq<BodyNode>, roots: map<AccountType, string>, f: Foreign): ParseResult<Body>
    decreases |lines|
  {
    if |lines| == 0 then Parsed(b)
    else
      var b1 :- BodyStep(b, lines[0], roots, f);
      BodyFrom(b1, lines[1..], roots, f)
  }

  /** `transaction_directive`: header, body, then every pushed tag joins the tags. */
  function TransactionOf(node: DirectiveNode, ctx: Context, f: Foreign): ParseResult<Directive>
    requires node.TransactionNode?
  {
    var (payee, narration) := PayeeNarration(node.strings);
    var header := match node.tagsLinks case None => [] case Some(items) => items;
    var b :- BodyFrom(Body([], map[], TagsOf(header), LinksOf(header)), node.body, ctx.roots, f);
    Parsed(TransactionDirective(Transaction(
      DateOf(node.date), FlagFromText(node.flag), payee, narration,
      b.tags + ctx.pushed.Keys, b.links, b.postings, b.meta, Some(node.span.text))))
  }

  /** The tags written on body lines. */
  function BodyTags(lines: seq<BodyNode>): set<string>
  {
    set i | 0 <= i < |lines| && lines[i].TagLine? :: ExtractTag(lines[i].tagText)
  }

  /** The links written on body lines. */
  function BodyLinks(lines: seq<BodyNode>): set<string>
  {
    set i | 0 <= i < |lines| && lines[i].LinkLine? :: ExtractTag(lines[i].linkText)
  }

  /** The number of posting lines. */
  function PostingLines(lines: seq<BodyNode>): nat
  {
    if |lines| == 0 then 0 else (if lines[0].PostingLine? then 1 else 0) + PostingLines(lines[1..])
  }

  lemma BodySetsSplit(lines: seq<BodyNode>)
    requires |lines| > 0
    ensures BodyTags(lines) == (if lines[0].TagLine? then {ExtractTag(lines[0].tagText)} else {}) + BodyTags(lines[1..])
    ensures BodyLinks(lines) == (if lines[0].LinkLine? then {ExtractTag(lines[0].linkText)} else {}) + BodyLinks(lines[1..])
  {
    var tail := lines[1..];
    forall x | x in BodyTags(lines)
      ensures x in (if lines[0].TagLine? then {ExtractTag(lines[0].tagText)} else {}) + BodyTags(tail)
    {
      var i :| 0 <= i < |lines| && lines[i].TagLine? && ExtractTag(lines[i].tagText) == x;
      if i > 0 {
        assert tail[i - 1] == lines[i];
      }
    }
    forall x | x in BodyTags(tail) ensures x in BodyTags(lines) {
      var i :| 0 <= i < |tail| && tail[i].TagLine? && ExtractTag(tail[i].tagText) == x;
      assert lines[i + 1] == tail[i];
    }
    forall x | x in BodyLinks(lines)
      ensures x in (if lines[0].LinkLine? then {ExtractTag(lines[0].linkText)} else {}) + BodyLinks(tail)
    {
      var i :| 0 <= i < |lines| && lines[i].LinkLine? && ExtractTag(lines[i].linkText) == x;
      if i > 0 {
        assert tail[i - 1] == lines[i];
      }
    }
    forall x | x in BodyLinks(tail) ensures x in BodyLinks(lines) {
      var i :| 0 <= i < |tail| && tail[i].LinkLine? && ExtractTag(tail[i].linkText) == x;
      assert lines[i + 1] == tail[i];
    }
  }

  /**
   * The body loop adds the body's tags and links, one posting per posting line, and, once a
   * posting exists, no more transaction metadata.
   */
  lemma {:induction false} BodyFromMeaning(b: Body, lines: seq<BodyNode>, roots: map<AccountType, string>, f: Foreign)
    requires BodyFrom(b, lines, roots, f).Parsed?
    ensures BodyFrom(b, lines, roots, f).value.tags == b.tags + BodyTags(lines)
    ensures BodyFrom(b, lines, roots, f).value.links == b.links + BodyLinks(lines)
    ensures |BodyFrom(b, lines, roots, f).value.postings| == |b.postings| + PostingLines(lines)
    ensures |b.postings| > 0 ==> BodyFrom(b, lines, roots, f).value.meta == b.meta
    decreases |lines|
  {
    if |lines| > 0 {
      var b1 := BodyStep(b, lines[0], roots, f).value;
      assert BodyFrom(b, lines, roots, f) == BodyFrom(b1, lines[1..], roots, f);
      BodyFromMeaning(b1, lines[1..], roots, f);
      BodySetsSplit(lines);
      BodyStepShape(b, lines[0], roots, f);
      assert PostingLines(lines) == (if lines[0].PostingLine? then 1 else 0) + PostingLines(lines[1..]);
    }
  }

  /** One body line adds at most its tag, its link or its posting, and leaves the metadata once a posting exists. */
  lemma BodyStepShape(b: Body, line: BodyNode, roots: map<AccountType, string>, f: Foreign)
    requires BodyStep(b, line, roots, f).Parsed?
    ensures var b1 := BodyStep(b, line, roots, f).value;
      && b1.tags == b.tags + (if line.TagLine? then {ExtractTag(line.tagText)} else {})
      && b1.links == b.links + (if line.LinkLine? then {ExtractTag(line.linkText)} else {})
      && |b1.postings| == |b.postings| + (if line.PostingLine? then 1 else 0)
      && (|b.postings| > 0 ==> b1.meta == b.meta)
  {
  }

  /** A transaction's tags are the header's, the body's and every pushed tag; its links the header's and the body's. */
  lemma TransactionContents(node: DirectiveNode, ctx: Context, f: Foreign)
    requires node.TransactionNode? && TransactionOf(node, ctx, f).Parsed?
    ensures var header := match node.tagsLinks case None => [] case Some(items) => items;
      var t := TransactionOf(node, ctx, f).value.transaction;
      && t.tags == TagsOf(header) + BodyTags(node.body) + ctx.pushed.Keys
      && t.links == LinksOf(header) + BodyLinks(node.body)
      && |t.postings| == PostingLines(node.body)
      && t.narration == PayeeNarration(node.strings).1
      && t.flag == FlagFromText(node.flag)
      && t.source == Some(node.span.text)
  {
    var header := match node.tagsLinks case None => [] case Some(items) => items;
    BodyFromMeaning(Body([], map[], TagsOf(header), LinksOf(header)), node.body, ctx.roots, f);
  }

  /** A key/value line before any posting becomes transaction metadata. */
  lemma LeadingPairIsTransactionMeta(b: Body, kv: KeyValueNode, roots: map<AccountType, string>, f: Foreign)
    requires |b.postings| == 0 && MetaKvPair(kv, roots, f).Parsed?
    ensures BodyStep(b, KeyValueLine(kv), roots, f) == Parsed(b.(meta := b.meta[kv.key := MetaKvPair(kv, roots, f).value.1]))
  {
  }

  /** A key/value line after a posting goes to the last posting; earlier postings and the transaction's metadata stay. */
  lemma LaterPairIsPostingMeta(b: Body, kv: KeyValueNode, roots: map<AccountType, string>, f: Foreign)
    requires |b.postings| > 0 && MetaKvPair(kv, roots, f).Parsed?
    ensures var r := BodyStep(b, KeyValueLine(kv), roots, f);
      var n := |b.postings|;
      && r.Parsed? && r.value.meta == b.meta && |r.value.postings| == n
      && r.value.postings[..n - 1] == b.postings[..n - 1]
      && r.value.postings[n - 1].meta == b.postings[n - 1].meta[kv.key := MetaKvPair(kv, roots, f).value.1]
      && r.value.postings[n - 1].account == b.postings[n - 1].account
  {
  }

  /** The body loop of `transaction_directive`. */
  method ReadBody(start: Body, lines: seq<BodyNode>, roots: map<AccountType, string>, f: Foreign) returns (r: ParseResult<Body>)
    ensures r == BodyFrom(start, lines, roots, f)
  {
    var postings, txMeta, tags, links := start.postings, start.meta, start.tags, start.links;
    var i := 0;
    while i < |lines|
      invariant 0 <= i <= |lines|
      invariant BodyFrom(start, lines, roots, f) == BodyFrom(Body(postings, txMeta, tags, links), lines[i..], roots, f)
    {
      assert lines[i..][1..] == lines[i + 1..];
      match lines[i] {
        case PostingLine(p) =>
          var posting :- ReadPosting(p, roots, f);
          postings := postings + [posting];
        case KeyValueLine(kv) =>
          var pair :- MetaKvPair(kv, roots, f);
          if |postings| > 0 {
            var last := postings[|postings| - 1];
            postings := postings[|postings| - 1 := last.(meta := last.meta[pair.0 := pair.1])];
          } else {
            txMeta := txMeta[pair.0 := pair.1];
          }
        case TagLine(t) => tags := tags + {ExtractTag(t)};
        case LinkLine(l) => links := links + {ExtractTag(l)};
      }
      i := i + 1;
    }
    r := Parsed(Body(postings, txMeta, tags, links));
  }

  /** The loop that adds every pushed tag to a transaction's tags. */
  method AddPushedTags(tags: set<string>, state: ParseState, f: Foreign) returns (r: set<string>)
    requires ValidOrder(f)
    ensures r == tags + state.pushedTags.Keys
  {
    var pushed := state.PushedTags(f);
    r := tags;
    var j := 0;
    while j < |pushed|
      invariant 0 <= j <= |pushed|
      invariant r == tags + set k | 0 <= k < j :: pushed[k]
    {
      r := r + {pushed[j]};
      j := j + 1;
    }
    forall t | t in state.pushedTags.Keys ensures t in r {
      var k :| 0 <= k < |pushed| && pushed[k] == t;
    }
  }

  /** `transaction_directive`: the header, the body loop, then the pushed tags. */
  method ReadTransaction(node: DirectiveNode, state: ParseState, f: Foreign) returns (r: ParseResult<Directive>)
    requires node.TransactionNode? && ValidOrder(f)
    ensures r == TransactionOf(node, state.View(), f)
  {
    var (payee, narration) := PayeeNarration(node.strings);
    var tags: set<string>, links: set<string> := {}, {};
    var header := match node.tagsLinks case None => [] case Some(items) => items;
    tags, links := ReadTagsLinks(header);
    var b :- ReadBody(Body([], map[], tags, links), node.body, state.rootNames, f);
    var allTags := AddPushedTags(b.tags, state, f);
    r := Parsed(TransactionDirective(Transaction(
      DateOf(node.date), FlagFromText(node.flag), payee, narration,
      allTags, b.links, b.postings, b.meta, Some(node.span.text))));
  }

  // ---- The other directives ----

  /** One directive other than a transaction; every one records its own text as its source. */
  function SimpleDirectiveOf(node: DirectiveNode, roots: map<AccountType, string>, f: Foreign): ParseResult<Directive>
    requires !node.TransactionNode?
  {
    var source := Some(node.span.text);
    match node
    case OptionNode(_, name, val) => Parsed(OptionDirective(BcOption(name.inner, val.inner, source)))
    case PluginNode(_, moduleName, config) =>
      Parsed(PluginDirective(Plugin(moduleName.inner, match config case None => None case Some(q) => Some(q.inner), source)))
    case CustomNode(_, date, name, args, meta) =>
      var values :- match args case None => Parsed([]) case Some(vs) => CustomArgTexts(vs);
      var m :- MetaKv(meta, roots, f);
      Parsed(CustomDirective(Custom(DateOf(date), name.inner, values, m, source)))
    case IncludeNode(_, filename) => Parsed(IncludeDirective(Include(filename.inner, source)))
    case OpenNode(_, date, account, currencies, booking, meta) =>
      var a :- AccountOf(account, roots, f);
      var cs := match currencies case None => [] case Some(c) => c;
      var b :- BookingOf(booking, f);
      var m :- MetaKv(meta, roots, f);
      Parsed(OpenDirective(Open(DateOf(date), a, cs, b, m, source)))
    case CloseNode(_, date, account, meta) =>
      var a :- AccountOf(account, roots, f);
      var m :- MetaKv(meta, roots, f);
      Parsed(CloseDirective(Close(DateOf(date), a, m, source)))
    case CommodityNode(_, date, commodity, meta) =>
      var m :- MetaKv(meta, roots, f);
      Parsed(CommodityDirective(Commodity(DateOf(date), commodity, m, source)))
    case NoteNode(_, date, account, comment, meta) =>
      var a :- AccountOf(account, roots, f);
      var m :- MetaKv(meta, roots, f);
      Parsed(NoteDirective(Note(DateOf(date), a, comment, m, source)))
    case PadNode(_, date, padTo, padFrom, meta) =>
      var to :- AccountOf(padTo, roots, f);
      var from :- AccountOf(padFrom, roots, f);
      var m :- MetaKv(meta, roots, f);
      Parsed(PadDirective(Pad(DateOf(date), to, from, m, source)))
    case QueryNode(_, date, name, query, meta) =>
      var m :- MetaKv(meta, roots, f);
      Parsed(QueryDirective(Query(DateOf(date), name.inner, query.inner, m, source)))
    case EventNode(_, date, name, description, meta) =>
      var m :- MetaKv(meta, roots, f);
      Parsed(EventDirective(Event(DateOf(date), name.inner, description.inner, m, source)))
    case DocumentNode(_, date, account, path, tagsLinks, meta) =>
      var a :- AccountOf(account, roots, f);
      var items := match tagsLinks case None => [] case Some(t) => t;
      var m :- MetaKv(meta, roots, f);
      Parsed(DocumentDirective(Document(DateOf(date), a, path.inner, TagsOf(items), LinksOf(items), m, source)))
    case PriceNode(_, date, currency, amount, meta) =>
      var amt :- AmountOf(amount, f);
      var m :- MetaKv(meta, roots, f);
      Parsed(PriceDirective(Price(DateOf(date), currency, amt, m, source)))
    case BalanceNode(_, date, account, amountTolerance, meta) =>
      var a :- AccountOf(account, roots, f);
      var at :- AmountToleranceOf(amountTolerance, f);
      var m :- MetaKv(meta, roots, f);
      Parsed(BalanceDirective(Balance(DateOf(date), a, at.0, at.1, m, source)))
    case OtherNode(_) => Parsed(Unsupported)
  }

  /** `directive`: dispatch on the rule. */
  function DirectiveOf(node: DirectiveNode, ctx: Context, f: Foreign): ParseResult<Directive>
  {
    if node.TransactionNode? then TransactionOf(node, ctx, f) else SimpleDirectiveOf(node, ctx.roots, f)
  }

  /** The directive kind a rule produces. */
  predicate SameKind(node: DirectiveNode, d: Directive)
  {
    match node
    case OptionNode(_, _, _) => d.OptionDirective?
    case PluginNode(_, _, _) => d.PluginDirective?
    case CustomNode(_, _, _, _, _) => d.CustomDirective?
    case IncludeNode(_, _) => d.IncludeDirective?
    case OpenNode(_, _, _, _, _, _) => d.OpenDirective?
    case CloseNode(_, _, _, _) => d.CloseDirective?
    case CommodityNode(_, _, _, _) => d.CommodityDirective?
    case NoteNode(_, _, _, _, _) => d.NoteDirective?
    case PadNode(_, _, _, _, _) => d.PadDirective?
    case QueryNode(_, _, _, _, _) => d.QueryDirective?
    case EventNode(_, _, _, _, _) => d.EventDirective?
    case DocumentNode(_, _, _, _, _, _) => d.DocumentDirective?
    case PriceNode(_, _, _, _, _) => d.PriceDirective?
    case TransactionNode(_, _, _, _, _, _) => d.TransactionDirective?
    case BalanceNode(_, _, _, _, _) => d.BalanceDirective?
    case OtherNode(_) => d.Unsupported?
  }

  /** The source text a directive records, if it kind records one. */
  function SourceOf(d: Directive): Option<string>
  {
    match d
    case OpenDirective(x) => x.source
    case CloseDirective(x) => x.source
    case BalanceDirective(x) => x.source
    case OptionDirective(x) => x.source
    case CommodityDirective(x) => x.source
    case CustomDirective(x) => x.source
    case DocumentDirective(x) => x.source
    case EventDirective(x) => x.source
    case IncludeDirective(x) => x.source
    case NoteDirective(x) => x.source
    case PadDirective(x) => x.source
    case PluginDirective(x) => x.source
    case PriceDirective(x) => x.source
    case QueryDirective(x) => x.source
    case TransactionDirective(x) => x.source
    case Unsupported => None
  }

  /** Option, plugin, include and unsupported rules never fail. */
  lemma DirectiveTotal(node: DirectiveNode, ctx: Context, f: Foreign)
    ensures (node.OptionNode? || node.PluginNode? || node.IncludeNode? || node.OtherNode?) ==>
      DirectiveOf(node, ctx, f).Parsed?
  {
  }

  /** A parsed directive is of the rule's kind and records the directive's text. */
  lemma DirectiveShape(node: DirectiveNode, ctx: Context, f: Foreign)
    ensures DirectiveOf(node, ctx, f).Parsed? ==> SameKind(node, DirectiveOf(node, ctx, f).value)
    ensures DirectiveOf(node, ctx, f).Parsed? && !node.OtherNode? ==>
      SourceOf(DirectiveOf(node, ctx, f).value) == Some(node.span.text)
  {
    if node.TransactionNode? {
      assert DirectiveOf(node, ctx, f) == TransactionOf(node, ctx, f);
    } else {
      assert DirectiveOf(node, ctx, f) == SimpleDirectiveOf(node, ctx.roots, f);
    }
  }

  /** An open directive's booking method: absent when not written, an error when not recognised. */
  lemma OpenBooking(node: DirectiveNode, ctx: Context, f: Foreign)
    requires node.OpenNode? && AccountOf(node.account, ctx.roots, f).Parsed?
    ensures node.booking.None? && MetaKv(node.meta, ctx.roots, f).Parsed? ==>
      DirectiveOf(node, ctx, f).Parsed? && DirectiveOf(node, ctx, f).value.open.booking.None?
    ensures node.booking.Some? && f.bookingFromText(node.booking.value.inner).None? ==>
      DirectiveOf(node, ctx, f) ==
        Failed(InvalidInputWithSpan("unknown booking method " + node.booking.value.span.text, node.booking.value.span))
    ensures DirectiveOf(node, ctx, f).Parsed? && node.booking.Some? ==>
      DirectiveOf(node, ctx, f).value.open.booking == f.bookingFromText(node.booking.value.inner)
  {
  }

  /** `directive`, with the transaction and document readers' loops. */
  method ReadDirective(node: DirectiveNode, state: ParseState, f: Foreign) returns (r: ParseResult<Directive>)
    requires ValidOrder(f)
    ensures r == DirectiveOf(node, state.View(), f)
  {
    if node.TransactionNode? {
      r := ReadTransaction(node, state, f);
    } else if node.DocumentNode? {
      var a :- AccountOf(node.account, state.rootNames, f);
      var items := match node.tagsLinks case None => [] case Some(t) => t;
      var tags, links := ReadTagsLinks(items);
      var m :- MetaKv(node.meta, state.rootNames, f);
      r := Parsed(DocumentDirective(Document(DateOf(node.date), a, node.path.inner, tags, links, m, Some(node.span.text))));
    } else {
      r := SimpleDirectiveOf(node, state.rootNames, f);
    }
  }
}
