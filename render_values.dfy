/**
 * The renderer for the parts of directives: accounts, amounts, cost specs, metadata and
 * postings. Each text function says what is written; each method writes it piece by piece.
 */
module RenderValues {
  import opened Wrappers
  import opened Strings
  import opened CoreTypes
  import opened Accounts
  import opened Amounts
  import opened Flags
  import M = Metadata
  import opened Positions
  import opened Postings
  import opened Externals
  import opened Writers
  import opened ParseTree
  import opened ParseStates
  import opened ParserValues

  // ---- Accounts and amounts ----

  /** The root's default name, then each component, all separated by `:`. */
  function AccountText(a: Account, f: Foreign): string
  {
    f.defaultName(a.ty) + ":" + Join(a.parts, ":")
  }

  method RenderAccount(a: Account, f: Foreign, w: Writer)
    modifies w
    ensures w.text == old(w.text) + AccountText(a, f)
  {
    w.Write(f.defaultName(a.ty) + ":" + Join(a.parts, ":"));
  }

  /**
   * An account with at least one component splits back at the colons into its root's default
   * name and its components, when none of them contains a colon.
   */
  lemma AccountTextSplits(a: Account, f: Foreign)
    requires |a.parts| >= 1 && ':' !in f.defaultName(a.ty) && FreeOf(a.parts, ':')
    ensures SplitOn(AccountText(a, f), ':') == [f.defaultName(a.ty)] + a.parts
  {
    var all := [f.defaultName(a.ty)] + a.parts;
    assert all[1..] == a.parts;
    assert FreeOf(all, ':') by {
      forall i | 0 <= i < |all| ensures ':' !in all[i] {
        if i > 0 {
          assert all[i] == a.parts[i - 1];
        }
      }
    }
    SplitJoin(all, ':');
  }

  /**
   * An account read with the default root names renders back to the root and the components
   * as written, when root names are distinct and no component holds a colon.
   */
  lemma AccountRoundTrip(node: AccountNode, f: Foreign)
    requires DistinctNames(InitialRoots(f)) && ':' !in node.first.text
    requires |node.rest| >= 1 && FreeOf(AccountParts(node.rest), ':')
    requires AccountOf(node, InitialRoots(f), f).Parsed?
    ensures SplitOn(AccountText(AccountOf(node, InitialRoots(f), f).value, f), ':') ==
      [node.first.text] + AccountParts(node.rest)
  {
    var a := AccountOf(node, InitialRoots(f), f).value;
    assert InitialRoots(f)[a.ty] == f.defaultName(a.ty);
    AccountTextSplits(a, f);
  }

  /** `{num} {currency}`. */
  function AmountText(a: Amount, f: Foreign): string
  {
    f.decimalText(a.num) + " " + a.currency
  }

  method RenderAmount(a: Amount, f: Foreign, w: Writer)
    modifies w
    ensures w.text == old(w.text) + AmountText(a, f)
  {
    w.Write(f.decimalText(a.num) + " " + a.currency);
  }

  /** Whichever parts are present, separated by a space when both are. */
  function IncompleteAmountText(a: IncompleteAmount, f: Foreign): string
  {
    match (a.num, a.currency)
    case (Some(n), Some(c)) => f.decimalText(n) + " " + c
    case (None, Some(c)) => c
    case (Some(n), None) => f.decimalText(n)
    case (None, None) => ""
  }

  method RenderIncompleteAmount(a: IncompleteAmount, f: Foreign, w: Writer)
    modifies w
    ensures w.text == old(w.text) + IncompleteAmountText(a, f)
  {
    match (a.num, a.currency) {
      case (Some(n), Some(c)) => w.Write(f.decimalText(n) + " " + c);
      case (None, Some(c)) => w.Write(c);
      case (Some(n), None) => w.Write(f.decimalText(n));
      case (None, None) => w.Write("");
    }
  }

  /** A complete amount renders the same whether or not it is widened first; an empty one renders as nothing. */
  lemma IncompleteAmountTextAgrees(a: Amount, f: Foreign)
    ensures IncompleteAmountText(IncompleteFromAmount(a), f) == AmountText(a, f)
    ensures IncompleteAmountText(NoAmount(), f) == ""
  {
  }

  // ---- Cost specs ----

  /** The pieces between the braces: amount (total preferred over per-unit, shown only with a currency), date, label. */
  function CostSpecPieces(c: CostSpec, f: Foreign): seq<string>
  {
    var number := if c.numberTotal.Some? then c.numberTotal else c.numberPer;
    (if number.Some? && c.currency.Some? then [f.decimalText(number.value) + " " + c.currency.value] else [])
    + (if c.date.Some? then [f.dateText(c.date.value)] else [])
    + (if c.labelText.Some? then [c.labelText.value] else [])
  }

  /** Double braces for a total cost, single for a per-unit one, around the pieces separated by `, `. */
  function CostSpecText(c: CostSpec, f: Foreign): string
  {
    OpeningBrace(c) + Join(CostSpecPieces(c, f), ", ") + ClosingBrace(c)
  }

  function OpeningBrace(c: CostSpec): string
  {
    if c.numberTotal.Some? then "{{" else "{"
  }

  function ClosingBrace(c: CostSpec): string
  {
    if c.numberTotal.Some? then "}}" else "}"
  }

  /** The merge marker is not written, and a per-unit number is hidden by a total one. */
  lemma CostSpecTextOmits(c: CostSpec, f: Foreign)
    ensures forall b :: CostSpecText(c.(mergeCost := b), f) == CostSpecText(c, f)
    ensures c.numberTotal.Some? ==> forall n :: CostSpecText(c.(numberPer := n), f) == CostSpecText(c, f)
  {
  }

  /** An empty cost spec renders as `{}`. */
  lemma EmptyCostSpecText(f: Foreign)
    ensures CostSpecText(EmptyCostSpec(), f) == "{}"
  {
  }

  /** Writes one more piece of a `, `-separated list, preceded by the separator unless it is the first. */
  method RenderPiece(piece: string, first: bool, ghost start: string, ghost pieces: seq<string>, w: Writer)
    requires w.text == start + Join(pieces, ", ") && (first <==> |pieces| == 0)
    modifies w
    ensures w.text == start + Join(pieces + [piece], ", ")
  {
    if !first {
      w.Write(", ");
      AppendAssoc(start, Join(pieces, ", "), ", ");
      w.Write(piece);
      AppendAssoc(start, Join(pieces, ", ") + ", ", piece);
      JoinAppend(pieces, ", ", piece);
    } else {
      assert pieces + [piece] == [piece];
      w.Write(piece);
    }
  }

  /** The cost spec renderer: a `first` flag decides where `, ` goes. */
  method RenderCostSpec(c: CostSpec, f: Foreign, w: Writer)
    modifies w
    ensures w.text == old(w.text) + CostSpecText(c, f)
  {
    ghost var t0 := w.text;
    var doubleBrackets := c.numberTotal.Some?;
    w.Write(if doubleBrackets then "{{" else "{");
    ghost var start := w.text;
    assert start == t0 + OpeningBrace(c);
    var first := true;
    ghost var pieces: seq<string> := [];
    var number := if c.numberTotal.Some? then c.numberTotal else c.numberPer;
    if number.Some? && c.currency.Some? {
      var piece := f.decimalText(number.value) + " " + c.currency.value;
      RenderPiece(piece, first, start, pieces, w);
      first := false;
      pieces := pieces + [piece];
    }
    if c.date.Some? {
      var piece := f.dateText(c.date.value);
      RenderPiece(piece, first, start, pieces, w);
      first := false;
      pieces := pieces + [piece];
    }
    if c.labelText.Some? {
      var piece := c.labelText.value;
      RenderPiece(piece, first, start, pieces, w);
      pieces := pieces + [piece];
    }
    assert pieces == CostSpecPieces(c, f);
    AppendAssoc(t0, OpeningBrace(c), Join(pieces, ", "));
    w.Write(if doubleBrackets then "}}" else "}");
    AppendAssoc(t0, OpeningBrace(c) + Join(pieces, ", "), ClosingBrace(c));
  }

  // ---- Metadata ----

  /** `Renderer<&MetaValue>`: each value's display text; text and tags bare, with no quotes and no `#`. */
  function MetaValueText(v: M.MetaValue, f: Foreign): string
  {
    match v
    case Account(a) => AccountText(a, f)
    case Amount(a) => AmountText(a, f)
    case Bool(b) => if b then "true" else "false"
    case Currency(c) => c
    case Date(d) => f.dateText(d)
    case Number(n) => f.decimalText(n)
    case Tag(t) => t
    case Text(t) => t
  }

  /** The value as the grammar reads it back: text in quotes, a tag after `#`. */
  function MetaValueTextCorrected(v: M.MetaValue, f: Foreign): string
  {
    match v
    case Account(a) => AccountText(a, f)
    case Amount(a) => AmountText(a, f)
    case Bool(b) => if b then "true" else "false"
    case Currency(c) => c
    case Date(d) => f.dateText(d)
    case Number(n) => f.decimalText(n)
    case Tag(t) => "#" + t
    case Text(t) => "\"" + t + "\""
  }

  /** The text between a pair of double quotes that enclose the whole text. */
  function ReadQuoted(s: string): Option<string>
  {
    if |s| >= 2 && s[0] == '"' && s[|s| - 1] == '"' then Some(s[1..|s| - 1]) else None
  }

  /** Corrected text and tag values read back as the grammar's quoted string and tag; so does a bool. */
  lemma MetaValueTextReadsBack(v: M.MetaValue, f: Foreign)
    ensures v.Text? ==> ReadQuoted(MetaValueTextCorrected(v, f)) == Some(v.text)
    ensures v.Tag? ==>
      |MetaValueTextCorrected(v, f)| >= 1 && MetaValueTextCorrected(v, f)[0] == '#' &&
      ExtractTag(MetaValueTextCorrected(v, f)) == v.tag
    ensures v.Bool? ==> BoolFromText(MetaValueTextCorrected(v, f)) == v.flag
  {
    if v.Text? {
      var s := MetaValueTextCorrected(v, f);
      assert s[1..|s| - 1] == v.text;
    }
    if v.Bool? {
      BoolFromTextSpellings();
    }
  }

  /**
   * As written, the text value `bar` renders as `bar`, which is not a quoted string, and the tag
   * `trip` as `trip`, which has no `#`; a text and a tag with the same content render alike.
   */
  lemma MetaValueAsWrittenLosesMarks(f: Foreign)
    ensures MetaValueText(M.Text("bar"), f) == "bar" && ReadQuoted("bar").None?
    ensures MetaValueText(M.Tag("trip"), f) == "trip" && ExtractTag("trip") == "rip"
    ensures forall t :: MetaValueText(M.Text(t), f) == MetaValueText(M.Tag(t), f)
  {
  }

  /** A rendered bool reads back as itself under the parser's exact comparison with `true`. */
  lemma BoolTextReadsBack(b: bool, f: Foreign)
    ensures BoolAsWritten(MetaValueText(M.Bool(b), f)) == b
  {
  }

  method RenderMetaValue(v: M.MetaValue, f: Foreign, w: Writer)
    modifies w
    ensures w.text == old(w.text) + MetaValueText(v, f)
  {
    match v {
      case Account(a) => RenderAccount(a, f, w);
      case Amount(a) => RenderAmount(a, f, w);
      case Bool(b) => w.Write(if b then "true" else "false");
      case Currency(c) => w.Write(c);
      case Date(d) => w.Write(f.dateText(d));
      case Number(n) => w.Write(f.decimalText(n));
      case Tag(t) => w.Write(t);
      case Text(t) => w.Write(t);
    }
  }

  /** One metadata line: a tab, the key, `: `, the value, a newline. */
  function EntryText(k: string, v: M.MetaValue, f: Foreign): string
  {
    "\t" + k + ": " + MetaValueText(v, f) + "\n"
  }

  /** The metadata lines, in the order the map is walked. */
  function MetaEntries(meta: M.Meta, f: Foreign): (r: seq<string>)
    ensures |r| == |f.metaWalk(meta)|
  {
    var walk := f.metaWalk(meta);
    seq(|walk|, i requires 0 <= i < |walk| => EntryText(walk[i].0, walk[i].1, f))
  }

  /** `render_key_value`. */
  function MetaText(meta: M.Meta, f: Foreign): string
  {
    Concat(MetaEntries(meta, f))
  }

  /** Every entry of the map is written as one line of the metadata text, and every line is one entry's. */
  lemma MetaTextHoldsEntries(meta: M.Meta, f: Foreign)
    requires ValidMetaWalk(f)
    ensures forall k :: k in meta ==>
      exists i :: 0 <= i < |MetaEntries(meta, f)| && MetaEntries(meta, f)[i] == EntryText(k, meta[k], f)
    ensures forall i :: 0 <= i < |MetaEntries(meta, f)| ==>
      f.metaWalk(meta)[i].0 in meta &&
      MetaEntries(meta, f)[i] == EntryText(f.metaWalk(meta)[i].0, meta[f.metaWalk(meta)[i].0], f)
    ensures meta == map[] ==> MetaText(meta, f) == ""
  {
    var walk := f.metaWalk(meta);
    assert IsEntryWalk(walk, meta);
    forall k | k in meta
      ensures exists i :: 0 <= i < |MetaEntries(meta, f)| && MetaEntries(meta, f)[i] == EntryText(k, meta[k], f)
    {
      var i :| 0 <= i < |walk| && walk[i].0 == k;
      assert MetaEntries(meta, f)[i] == EntryText(k, meta[k], f);
    }
  }

  /** The metadata text is empty or ends a line. */
  lemma MetaTextEndsLine(meta: M.Meta, f: Foreign)
    ensures MetaText(meta, f) == "" || EndsLine(MetaText(meta, f))
  {
    var entries := MetaEntries(meta, f);
    forall i | 0 <= i < |entries|
      ensures EndsLine(entries[i])
    {
      var walk := f.metaWalk(meta);
      EndsLineAfter("\t" + walk[i].0 + ": " + MetaValueText(walk[i].1, f), "\n");
    }
    ConcatEndsLine(entries);
  }

  /** A text that ends a line, followed by metadata, still ends a line. */
  lemma ThenMeta(s: string, meta: M.Meta, f: Foreign)
    requires EndsLine(s)
    ensures EndsLine(s + MetaText(meta, f))
  {
    MetaTextEndsLine(meta, f);
    EndsLineAfter(s, MetaText(meta, f));
  }

  /** Each entry's line occurs in the metadata text, with whatever lines come before and after it. */
  lemma EntryInMetaText(meta: M.Meta, k: string, f: Foreign) returns (before: string, after: string)
    requires ValidMetaWalk(f) && k in meta
    ensures MetaText(meta, f) == before + EntryText(k, meta[k], f) + after
  {
    var walk := f.metaWalk(meta);
    assert IsEntryWalk(walk, meta);
    var i :| 0 <= i < |walk| && walk[i].0 == k;
    var entries := MetaEntries(meta, f);
    assert entries[i] == EntryText(k, meta[k], f);
    ConcatAround(entries, i);
    before, after := Concat(entries[..i]), Concat(entries[i + 1..]);
  }

  method RenderEntry(k: string, v: M.MetaValue, f: Foreign, w: Writer)
    modifies w
    ensures w.text == old(w.text) + EntryText(k, v, f)
  {
    w.Write("\t" + k + ": ");
    RenderMetaValue(v, f, w);
    w.Write("\n");
  }

  /** `render_key_value`: one line per entry, in the order the map is walked. */
  method RenderKeyValue(meta: M.Meta, f: Foreign, w: Writer)
    modifies w
    ensures w.text == old(w.text) + MetaText(meta, f)
  {
    var walk := f.metaWalk(meta);
    ghost var entries := MetaEntries(meta, f);
    ghost var t0 := w.text;
    for i := 0 to |walk|
      invariant w.text == t0 + Concat(entries[..i])
    {
      var (key, value) := walk[i];
      RenderEntry(key, value, f, w);
      AppendAssoc(t0, Concat(entries[..i]), entries[i]);
      ConcatAppend(entries[..i], entries[i]);
      assert entries[..i + 1] == entries[..i] + [entries[i]];
    }
    assert entries[..|walk|] == entries;
  }

  // ---- Postings ----

  /** The cost, after a space, if there is one. */
  function CostText(c: Option<CostSpec>, f: Foreign): string
  {
    match c
    case None => ""
    case Some(spec) => " " + CostSpecText(spec, f)
  }

  /** The price, after ` @ `, if there is one; both kinds are written the same way. */
  function PriceText(p: Option<PriceSpec>, f: Foreign): string
  {
    match p
    case None => ""
    case Some(spec) => " @ " + IncompleteAmountText(spec.amount, f)
  }

  /** The posting's flag and a space, if it has one. */
  function FlagPrefix(fl: Option<Flag>, f: Foreign): string
  {
    match fl
    case None => ""
    case Some(x) => f.flagText(x) + " "
  }

  /** A tab, the flag prefix, the account, a tab, the units. */
  function PostingHead(p: Posting, f: Foreign): string
  {
    "\t" + FlagPrefix(p.flag, f) + AccountText(p.account, f) + "\t" + IncompleteAmountText(p.units, f)
  }

  /** The cost, the price, a newline. */
  function PostingTail(p: Posting, f: Foreign): string
  {
    CostText(p.cost, f) + PriceText(p.price, f) + "\n"
  }

  /** A posting's own line. */
  function PostingLineText(p: Posting, f: Foreign): string
  {
    PostingHead(p, f) + PostingTail(p, f)
  }

  /** Without a flag, a posting's line starts with a tab and its root's default name. */
  lemma PostingLineStart(p: Posting, f: Foreign)
    requires p.flag.None? && |f.defaultName(p.account.ty)| >= 1
    ensures |PostingLineText(p, f)| >= 2 && PostingLineText(p, f)[1] == f.defaultName(p.account.ty)[0]
  {
    var at := AccountText(p.account, f);
    assert at[0] == f.defaultName(p.account.ty)[0];
    var x := "\t" + FlagPrefix(p.flag, f);
    assert x == "\t";
    var y := x + at;
    assert |y| >= 2 && y[1] == at[0];
    var head := PostingHead(p, f);
    assert head == y + "\t" + IncompleteAmountText(p.units, f);
    assert head[1] == y[1];
    assert PostingLineText(p, f)[1] == head[1];
  }

  /** A posting's line, then the posting's metadata lines. */
  function PostingText(p: Posting, f: Foreign): string
  {
    PostingLineText(p, f) + MetaText(p.meta, f)
  }

  /** A posting's text ends a line. */
  lemma PostingTextEndsLine(p: Posting, f: Foreign)
    ensures EndsLine(PostingText(p, f))
  {
    EndsLineAfter(CostText(p.cost, f) + PriceText(p.price, f), "\n");
    EndsLineAfter(PostingHead(p, f), PostingTail(p, f));
    ThenMeta(PostingLineText(p, f), p.meta, f);
  }

  /** A bare posting is one line: tab, account, tab, units, newline. */
  lemma NewPostingText(a: Account, units: IncompleteAmount, f: Foreign)
    requires ValidMetaWalk(f)
    ensures PostingText(NewPosting(a, units), f) == "\t" + AccountText(a, f) + "\t" + IncompleteAmountText(units, f) + "\n"
  {
    MetaTextHoldsEntries(map[], f);
  }

  method RenderCost(c: Option<CostSpec>, f: Foreign, w: Writer)
    modifies w
    ensures w.text == old(w.text) + CostText(c, f)
  {
    if c.Some? {
      w.Write(" ");
      RenderCostSpec(c.value, f, w);
    }
  }

  method RenderPrice(p: Option<PriceSpec>, f: Foreign, w: Writer)
    modifies w
    ensures w.text == old(w.text) + PriceText(p, f)
  {
    if p.Some? {
      w.Write(" @ ");
      RenderIncompleteAmount(p.value.amount, f, w);
    }
  }

  method RenderPostingHead(p: Posting, f: Foreign, w: Writer)
    modifies w
    ensures w.text == old(w.text) + PostingHead(p, f)
  {
    ghost var t0 := w.text;
    w.Write("\t");
    ghost var a := "\t";
    if p.flag.Some? {
      w.Write(f.flagText(p.flag.value) + " ");
    }
    AppendAssoc(t0, a, FlagPrefix(p.flag, f));
    a := a + FlagPrefix(p.flag, f);
    RenderAccount(p.account, f, w);
    AppendAssoc(t0, a, AccountText(p.account, f));
    a := a + AccountText(p.account, f);
    w.Write("\t");
    AppendAssoc(t0, a, "\t");
    a := a + "\t";
    RenderIncompleteAmount(p.units, f, w);
    AppendAssoc(t0, a, IncompleteAmountText(p.units, f));
  }

  method RenderPostingTail(p: Posting, f: Foreign, w: Writer)
    modifies w
    ensures w.text == old(w.text) + PostingTail(p, f)
  {
    ghost var t0 := w.text;
    RenderCost(p.cost, f, w);
    RenderPrice(p.price, f, w);
    AppendAssoc(t0, CostText(p.cost, f), PriceText(p.price, f));
    w.Write("\n");
    AppendAssoc(t0, CostText(p.cost, f) + PriceText(p.price, f), "\n");
  }

  method RenderPostingLine(p: Posting, f: Foreign, w: Writer)
    modifies w
    ensures w.text == old(w.text) + PostingLineText(p, f)
  {
    ghost var t0 := w.text;
    RenderPostingHead(p, f, w);
    RenderPostingTail(p, f, w);
    AppendAssoc(t0, PostingHead(p, f), PostingTail(p, f));
  }

  /** `Renderer<Posting>`: the posting's line, then its metadata. */
  method RenderPosting(p: Posting, f: Foreign, w: Writer)
    modifies w
    ensures w.text == old(w.text) + PostingText(p, f)
  {
    ghost var t0 := w.text;
    RenderPostingLine(p, f, w);
    RenderKeyValue(p.meta, f, w);
    AppendAssoc(t0, PostingLineText(p, f), MetaText(p.meta, f));
  }
}
