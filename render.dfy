/**
 * The renderer for directives and ledgers: what each directive is written as, the methods that
 * write it, and the fixes to the places where the written text cannot be read back.
 */
module Render {
  import opened Wrappers
  import opened Strings
  import opened CoreTypes
  import opened Accounts
  import opened Amounts
  import opened Flags
  import M = Metadata
  import opened Postings
  import opened Directives
  import opened Externals
  import opened Writers
  import opened ParseTree
  import opened ParserValues
  import opened RenderValues

  /** `BasicRendererError`. */
  datatype RenderError = IoError | UnsupportedDirective

  /** The error's display text. */
  function ErrorText(e: RenderError): (r: string)
    ensures e.IoError? <==> r == "an io error occurred"
    ensures e.UnsupportedDirective? <==> r == "could not render unsupported directive"
  {
    match e
    case IoError => "an io error occurred"
    case UnsupportedDirective => "could not render unsupported directive"
  }

  // ---- Words ----

  /** A space, the sigil and the word. */
  function Word(sigil: string, word: string): string
  {
    " " + sigil + word
  }

  /** Each word after a space and the sigil, in order. */
  function WordsText(words: seq<string>, sigil: string): string
  {
    if |words| == 0 then "" else WordsText(words[..|words| - 1], sigil) + Word(sigil, words[|words| - 1])
  }

  method RenderWords(words: seq<string>, sigil: string, w: Writer)
    modifies w
    ensures w.text == old(w.text) + WordsText(words, sigil)
  {
    ghost var t0 := w.text;
    for i := 0 to |words|
      invariant w.text == t0 + WordsText(words[..i], sigil)
    {
      assert words[..i + 1][..i] == words[..i];
      w.Write(Word(sigil, words[i]));
      AppendAssoc(t0, WordsText(words[..i], sigil), Word(sigil, words[i]));
    }
    assert words[..|words|] == words;
  }

  /** A walk over a set with one element is that element; over the empty set it is empty. */
  lemma SmallOrders(f: Foreign, x: string)
    requires ValidOrder(f)
    ensures f.iterOrder({x}) == [x]
    ensures f.iterOrder({}) == []
  {
    var o := f.iterOrder({x});
    assert IsEnumeration(o, {x});
    EnumerationSize(o, {x});
    assert x in o;
    var none: set<string> := {};
    var e := f.iterOrder(none);
    assert IsEnumeration(e, none);
    EnumerationSize(e, none);
  }

  // ---- Open ----

  /** The booking method in quotes after a space; nothing for `Booking::None` or no method. */
  function BookingText(b: Option<Booking>): string
  {
    match b
    case None => ""
    case Some(Strict) => " \"strict\""
    case Some(NoBooking) => ""
    case Some(Average) => " \"average\""
    case Some(Fifo) => " \"fifo\""
    case Some(Lifo) => " \"lifo\""
  }

  /** Two methods that are written at all are written differently; `Booking::None` is written like no method. */
  lemma BookingTextInjective(a: Booking, b: Booking)
    ensures BookingText(Some(a)) == "" <==> a == NoBooking
    ensures BookingText(Some(a)) == BookingText(Some(b)) ==> a == b
  {
  }

  function OpenText(o: Open, f: Foreign): string
  {
    f.dateText(o.date) + " open " + AccountText(o.account, f) + WordsText(o.currencies, "")
    + BookingText(o.booking) + "\n" + MetaText(o.meta, f)
  }

  method RenderBooking(b: Option<Booking>, w: Writer)
    modifies w
    ensures w.text == old(w.text) + BookingText(b)
  {
    match b {
      case None =>
      case Some(Strict) => w.Write(" \"strict\"");
      case Some(NoBooking) =>
      case Some(Average) => w.Write(" \"average\"");
      case Some(Fifo) => w.Write(" \"fifo\"");
      case Some(Lifo) => w.Write(" \"lifo\"");
    }
  }

  method RenderOpen(o: Open, f: Foreign, w: Writer)
    modifies w
    ensures w.text == old(w.text) + OpenText(o, f)
  {
    ghost var t0 := w.text;
    w.Write(f.dateText(o.date) + " open ");
    ghost var a := f.dateText(o.date) + " open ";
    RenderAccount(o.account, f, w);
    AppendAssoc(t0, a, AccountText(o.account, f));
    a := a + AccountText(o.account, f);
    RenderWords(o.currencies, "", w);
    AppendAssoc(t0, a, WordsText(o.currencies, ""));
    a := a + WordsText(o.currencies, "");
    RenderBooking(o.booking, w);
    AppendAssoc(t0, a, BookingText(o.booking));
    a := a + BookingText(o.booking);
    w.Write("\n");
    AppendAssoc(t0, a, "\n");
    a := a + "\n";
    RenderKeyValue(o.meta, f, w);
    AppendAssoc(t0, a, MetaText(o.meta, f));
  }

  // ---- Directives with an account ----

  function CloseText(c: Close, f: Foreign): string
  {
    f.dateText(c.date) + " close " + AccountText(c.account, f) + "\n" + MetaText(c.meta, f)
  }

  method RenderClose(c: Close, f: Foreign, w: Writer)
    modifies w
    ensures w.text == old(w.text) + CloseText(c, f)
  {
    ghost var t0 := w.text;
    w.Write(f.dateText(c.date) + " close ");
    ghost var a := f.dateText(c.date) + " close ";
    RenderAccount(c.account, f, w);
    AppendAssoc(t0, a, AccountText(c.account, f));
    a := a + AccountText(c.account, f);
    w.Write("\n");
    AppendAssoc(t0, a, "\n");
    a := a + "\n";
    RenderKeyValue(c.meta, f, w);
    AppendAssoc(t0, a, MetaText(c.meta, f));
  }

  /** The tolerance is not written. */
  function BalanceText(b: Balance, f: Foreign): string
  {
    f.dateText(b.date) + " balance " + AccountText(b.account, f) + "\t" + AmountText(b.amount, f)
    + "\n" + MetaText(b.meta, f)
  }

  method RenderBalance(b: Balance, f: Foreign, w: Writer)
    modifies w
    ensures w.text == old(w.text) + BalanceText(b, f)
  {
    ghost var t0 := w.text;
    w.Write(f.dateText(b.date) + " balance ");
    ghost var a := f.dateText(b.date) + " balance ";
    RenderAccount(b.account, f, w);
    AppendAssoc(t0, a, AccountText(b.account, f));
    a := a + AccountText(b.account, f);
    w.Write("\t");
    AppendAssoc(t0, a, "\t");
    a := a + "\t";
    RenderAmount(b.amount, f, w);
    AppendAssoc(t0, a, AmountText(b.amount, f));
    a := a + AmountText(b.amount, f);
    w.Write("\n");
    AppendAssoc(t0, a, "\n");
    a := a + "\n";
    RenderKeyValue(b.meta, f, w);
    AppendAssoc(t0, a, MetaText(b.meta, f));
  }

  /** The document's tags and links are not written. */
  function DocumentText(d: Document, f: Foreign): string
  {
    f.dateText(d.date) + " document " + AccountText(d.account, f) + (" \"" + d.path + "\"\n")
    + MetaText(d.meta, f)
  }

  method RenderDocument(d: Document, f: Foreign, w: Writer)
    modifies w
    ensures w.text == old(w.text) + DocumentText(d, f)
  {
    ghost var t0 := w.text;
    w.Write(f.dateText(d.date) + " document ");
    ghost var a := f.dateText(d.date) + " document ";
    RenderAccount(d.account, f, w);
    AppendAssoc(t0, a, AccountText(d.account, f));
    a := a + AccountText(d.account, f);
    w.Write(" \"" + d.path + "\"\n");
    AppendAssoc(t0, a, " \"" + d.path + "\"\n");
    a := a + (" \"" + d.path + "\"\n");
    RenderKeyValue(d.meta, f, w);
    AppendAssoc(t0, a, MetaText(d.meta, f));
  }

  function NoteText(n: Note, f: Foreign): string
  {
    f.dateText(n.date) + " note " + AccountText(n.account, f) + (" " + n.comment + "\n") + MetaText(n.meta, f)
  }

  method RenderNote(n: Note, f: Foreign, w: Writer)
    modifies w
    ensures w.text == old(w.text) + NoteText(n, f)
  {
    ghost var t0 := w.text;
    w.Write(f.dateText(n.date) + " note ");
    ghost var a := f.dateText(n.date) + " note ";
    RenderAccount(n.account, f, w);
    AppendAssoc(t0, a, AccountText(n.account, f));
    a := a + AccountText(n.account, f);
    w.Write(" " + n.comment + "\n");
    AppendAssoc(t0, a, " " + n.comment + "\n");
    a := a + (" " + n.comment + "\n");
    RenderKeyValue(n.meta, f, w);
    AppendAssoc(t0, a, MetaText(n.meta, f));
  }

  function PadText(p: Pad, f: Foreign): string
  {
    f.dateText(p.date) + " pad " + AccountText(p.padToAccount, f) + " " + AccountText(p.padFromAccount, f)
    + "\n" + MetaText(p.meta, f)
  }

  method RenderPad(p: Pad, f: Foreign, w: Writer)
    modifies w
    ensures w.text == old(w.text) + PadText(p, f)
  {
    ghost var t0 := w.text;
    w.Write(f.dateText(p.date) + " pad ");
    ghost var a := f.dateText(p.date) + " pad ";
    RenderAccount(p.padToAccount, f, w);
    AppendAssoc(t0, a, AccountText(p.padToAccount, f));
    a := a + AccountText(p.padToAccount, f);
    w.Write(" ");
    AppendAssoc(t0, a, " ");
    a := a + " ";
    RenderAccount(p.padFromAccount, f, w);
    AppendAssoc(t0, a, AccountText(p.padFromAccount, f));
    a := a + AccountText(p.padFromAccount, f);
    w.Write("\n");
    AppendAssoc(t0, a, "\n");
    a := a + "\n";
    RenderKeyValue(p.meta, f, w);
    AppendAssoc(t0, a, MetaText(p.meta, f));
  }

  // ---- Directives of plain text ----

  function OptionText(o: BcOption): string
  {
    "option \"" + o.name + "\" \"" + o.val + "\"\n"
  }

  method RenderOption(o: BcOption, w: Writer)
    modifies w
    ensures w.text == old(w.text) + OptionText(o)
  {
    w.Write("option \"" + o.name + "\" \"" + o.val + "\"\n");
  }

  function CommodityText(c: Commodity, f: Foreign): string
  {
    f.dateText(c.date) + " commodity " + c.name + "\n" + MetaText(c.meta, f)
  }

  method RenderCommodity(c: Commodity, f: Foreign, w: Writer)
    modifies w
    ensures w.text == old(w.text) + CommodityText(c, f)
  {
    ghost var t0 := w.text;
    w.Write(f.dateText(c.date) + " commodity " + c.name + "\n");
    RenderKeyValue(c.meta, f, w);
    AppendAssoc(t0, f.dateText(c.date) + " commodity " + c.name + "\n", MetaText(c.meta, f));
  }

  /** The arguments are joined by spaces after the quoted name and a space, even when there are none. */
  function CustomText(c: Custom, f: Foreign): string
  {
    f.dateText(c.date) + " custom \"" + c.name + "\" " + Join(c.args, " ") + "\n" + MetaText(c.meta, f)
  }

  method RenderCustom(c: Custom, f: Foreign, w: Writer)
    modifies w
    ensures w.text == old(w.text) + CustomText(c, f)
  {
    ghost var t0 := w.text;
    w.Write(f.dateText(c.date) + " custom \"" + c.name + "\" " + Join(c.args, " "));
    ghost var a := f.dateText(c.date) + " custom \"" + c.name + "\" " + Join(c.args, " ");
    w.Write("\n");
    AppendAssoc(t0, a, "\n");
    RenderKeyValue(c.meta, f, w);
    AppendAssoc(t0, a + "\n", MetaText(c.meta, f));
  }

  function EventText(e: Event, f: Foreign): string
  {
    f.dateText(e.date) + " event \"" + e.name + "\" \"" + e.description + "\"\n" + MetaText(e.meta, f)
  }

  method RenderEvent(e: Event, f: Foreign, w: Writer)
    modifies w
    ensures w.text == old(w.text) + EventText(e, f)
  {
    ghost var t0 := w.text;
    w.Write(f.dateText(e.date) + " event \"" + e.name + "\" \"" + e.description + "\"\n");
    RenderKeyValue(e.meta, f, w);
    AppendAssoc(t0, f.dateText(e.date) + " event \"" + e.name + "\" \"" + e.description + "\"\n", MetaText(e.meta, f));
  }

  /** `Renderer<Include>`: the file name is opened with a double quote and closed with a single one. */
  function IncludeText(i: Include): string
  {
    "include \"" + i.filename + "'\n"
  }

  /** The include line corrected, with the file name in double quotes. */
  function IncludeTextCorrected(i: Include): string
  {
    "include \"" + i.filename + "\"\n"
  }

  /** The file name of an include line: the text between `include "` and the closing `"` at the line's end. */
  function ReadInclude(s: string): Option<string>
  {
    if |s| >= 11 && s[..9] == "include \"" && s[|s| - 2..] == "\"\n" then Some(s[9..|s| - 2]) else None
  }

  /** The corrected include line gives back its file name. */
  lemma IncludeTextReadsBack(i: Include)
    ensures ReadInclude(IncludeTextCorrected(i)) == Some(i.filename)
  {
    var s := IncludeTextCorrected(i);
    assert s[..9] == "include \"";
    assert s[|s| - 2..] == "\"\n";
    assert s[9..|s| - 2] == i.filename;
  }

  /** The include line as written never reads back: its file name is never closed with a double quote. */
  lemma IncludeAsWrittenUnreadable(i: Include)
    ensures ReadInclude(IncludeText(i)) == None
  {
    var s := IncludeText(i);
    assert s[|s| - 2] == '\'';
    assert s[|s| - 2..][0] == '\'';
  }

  method RenderInclude(i: Include, w: Writer)
    modifies w
    ensures w.text == old(w.text) + IncludeText(i)
  {
    w.Write("include \"" + i.filename + "'\n");
  }

  /** The configuration, quoted after a space, only if there is one. */
  function ConfigText(config: Option<string>): string
  {
    match config
    case None => ""
    case Some(c) => " \"" + c + "\""
  }

  /** The module name in quotes, then the configuration, quoted after a space, only if there is one. */
  function PluginText(p: Plugin): string
  {
    "plugin \"" + p.moduleName + "\"" + ConfigText(p.config) + "\n"
  }

  method RenderPlugin(p: Plugin, w: Writer)
    modifies w
    ensures w.text == old(w.text) + PluginText(p)
  {
    ghost var t0 := w.text;
    w.Write("plugin \"" + p.moduleName + "\"");
    if p.config.Some? {
      w.Write(" \"" + p.config.value + "\"");
    }
    AppendAssoc(t0, "plugin \"" + p.moduleName + "\"", ConfigText(p.config));
    w.Write("\n");
    AppendAssoc(t0, "plugin \"" + p.moduleName + "\"" + ConfigText(p.config), "\n");
  }

  function PriceDirectiveText(p: Price, f: Foreign): string
  {
    f.dateText(p.date) + " price " + p.currency + " " + AmountText(p.amount, f) + "\n" + MetaText(p.meta, f)
  }

  method RenderPrice(p: Price, f: Foreign, w: Writer)
    modifies w
    ensures w.text == old(w.text) + PriceDirectiveText(p, f)
  {
    ghost var t0 := w.text;
    w.Write(f.dateText(p.date) + " price " + p.currency + " ");
    ghost var a := f.dateText(p.date) + " price " + p.currency + " ";
    RenderAmount(p.amount, f, w);
    AppendAssoc(t0, a, AmountText(p.amount, f));
    a := a + AmountText(p.amount, f);
    w.Write("\n");
    AppendAssoc(t0, a, "\n");
    a := a + "\n";
    RenderKeyValue(p.meta, f, w);
    AppendAssoc(t0, a, MetaText(p.meta, f));
  }

  function QueryText(q: Query, f: Foreign): string
  {
    f.dateText(q.date) + " query \"" + q.name + "\" \"" + q.queryString + "\"\n" + MetaText(q.meta, f)
  }

  method RenderQuery(q: Query, f: Foreign, w: Writer)
    modifies w
    ensures w.text == old(w.text) + QueryText(q, f)
  {
    ghost var t0 := w.text;
    w.Write(f.dateText(q.date) + " query \"" + q.name + "\" \"" + q.queryString + "\"\n");
    RenderKeyValue(q.meta, f, w);
    AppendAssoc(t0, f.dateText(q.date) + " query \"" + q.name + "\" \"" + q.queryString + "\"\n", MetaText(q.meta, f));
  }

  // ---- Transactions ----

  /** The payee, quoted after a space, if there is one. */
  function PayeeText(payee: Option<string>): string
  {
    match payee
    case None => ""
    case Some(p) => " \"" + p + "\""
  }

  /** Date, flag, payee and narration: the header before the tags and links. */
  function TransactionLead(t: Transaction, f: Foreign): string
  {
    f.dateText(t.date) + " " + f.flagText(t.flag) + PayeeText(t.payee) + (" \"" + t.narration + "\"")
  }

  /** The header line: tags and links after a space each, in the set's order, with neither `#` nor `^`. */
  function TransactionHeader(t: Transaction, f: Foreign): string
  {
    TransactionLead(t, f) + WordsText(f.iterOrder(t.tags), "") + WordsText(f.iterOrder(t.links), "") + "\n"
  }

  /** The header line corrected: tags after ` #`, links after ` ^`, each in the set's order. */
  function TransactionHeaderCorrected(t: Transaction, f: Foreign): string
  {
    TransactionLead(t, f) + WordsText(f.iterOrder(t.tags), "#") + WordsText(f.iterOrder(t.links), "^") + "\n"
  }

  /** As written, a transaction tagged `x` and one linked to `x` have the same header. */
  lemma BareTagsConflate(t: Transaction, x: string, f: Foreign)
    requires ValidOrder(f)
    ensures TransactionHeader(t.(tags := {x}, links := {}), f) ==
      TransactionHeader(t.(tags := {}, links := {x}), f)
  {
    SmallOrders(f, x);
  }

  /** Corrected, the two headers differ, and each word reads back as the tag or link it came from. */
  lemma SigiledTagsDiffer(t: Transaction, x: string, f: Foreign)
    requires ValidOrder(f)
    ensures TransactionHeaderCorrected(t.(tags := {x}, links := {}), f) !=
      TransactionHeaderCorrected(t.(tags := {}, links := {x}), f)
    ensures ExtractTag("#" + x) == x && ExtractTag("^" + x) == x
  {
    SmallOrders(f, x);
    var lead := TransactionLead(t, f);
    assert TransactionLead(t.(tags := {x}, links := {}), f) == lead;
    assert TransactionLead(t.(tags := {}, links := {x}), f) == lead;
    var a := TransactionHeaderCorrected(t.(tags := {x}, links := {}), f);
    var b := TransactionHeaderCorrected(t.(tags := {}, links := {x}), f);
    assert a == lead + (" #" + x + "\n");
    assert b == lead + (" ^" + x + "\n");
    assert a[|lead| + 1] == '#' && b[|lead| + 1] == '^';
  }

  /** The postings' texts, in order. */
  function PostingsText(ps: seq<Posting>, f: Foreign): string
  {
    if |ps| == 0 then "" else PostingsText(ps[..|ps| - 1], f) + PostingText(ps[|ps| - 1], f)
  }

  /** `Renderer<Transaction>`: the header, the postings, and then the transaction's own metadata. */
  function TransactionText(t: Transaction, f: Foreign): string
  {
    TransactionHeader(t, f) + PostingsText(t.postings, f) + MetaText(t.meta, f)
  }

  /** Corrected: the sigiled header, the transaction's own metadata right under it, and then the postings. */
  function TransactionTextCorrected(t: Transaction, f: Foreign): string
  {
    TransactionHeaderCorrected(t, f) + MetaText(t.meta, f) + PostingsText(t.postings, f)
  }

  /** A transaction with its metadata moved onto its one posting, which had none. */
  function MetaMovedToPosting(t: Transaction, p: Posting): Transaction
  {
    t.(meta := map[], postings := [p.(meta := t.meta)])
  }

  /**
   * As written, a transaction's metadata lands after its last posting, so a transaction with
   * metadata and one whose posting carries that metadata instead are written the same.
   */
  lemma MetaAfterPostingsConflates(t: Transaction, p: Posting, f: Foreign)
    requires ValidMetaWalk(f) && t.postings == [p] && p.meta == map[] && t.meta != map[]
    ensures MetaMovedToPosting(t, p) != t
    ensures TransactionText(t, f) == TransactionText(MetaMovedToPosting(t, p), f)
  {
    var t' := MetaMovedToPosting(t, p);
    assert t'.meta != t.meta;
    var header, line, meta := TransactionHeader(t, f), PostingLineText(p, f), MetaText(t.meta, f);
    MovedPieces(t, p, f);
    assert TransactionText(t, f) == (header + line) + meta;
    assert TransactionText(t', f) == header + (line + meta);
    AppendAssoc(header, line, meta);
  }

  /** Moving the metadata to the posting keeps the header and the posting line. */
  lemma MovedPieces(t: Transaction, p: Posting, f: Foreign)
    requires ValidMetaWalk(f) && t.postings == [p] && p.meta == map[]
    ensures TransactionHeader(MetaMovedToPosting(t, p), f) == TransactionHeader(t, f)
    ensures PostingsText(t.postings, f) == PostingLineText(p, f)
    ensures PostingsText(MetaMovedToPosting(t, p).postings, f) == PostingLineText(p, f) + MetaText(t.meta, f)
    ensures MetaText(MetaMovedToPosting(t, p).meta, f) == ""
  {
    var p' := p.(meta := t.meta);
    assert PostingLineText(p', f) == PostingLineText(p, f);
    EmptyMetaText(f);
    SinglePostingText(p, f);
    SinglePostingText(p', f);
    assert PostingLineText(p, f) + "" == PostingLineText(p, f);
  }

  /** A metadata key as the grammar writes it: it starts with a lower-case letter. */
  predicate KeyLike(k: string)
  {
    |k| >= 1 && 'a' <= k[0] <= 'z'
  }

  /** A metadata line starts with a tab and the key's first character. */
  lemma EntryTextStart(k: string, v: M.MetaValue, f: Foreign)
    requires |k| >= 1
    ensures |EntryText(k, v, f)| >= 2 && EntryText(k, v, f)[1] == k[0]
  {
    var x := "\t" + k;
    assert x[1] == k[0];
    assert EntryText(k, v, f) == x + ": " + MetaValueText(v, f) + "\n";
  }

  /** Metadata text starts with a tab and the first key's lower-case initial. */
  lemma MetaTextStart(m: M.Meta, f: Foreign)
    requires ValidMetaWalk(f) && m != map[] && forall k :: k in m ==> KeyLike(k)
    ensures |MetaText(m, f)| >= 2 && 'a' <= MetaText(m, f)[1] <= 'z'
  {
    var walk := f.metaWalk(m);
    assert IsEntryWalk(walk, m);
    var k :| k in m;
    var i :| 0 <= i < |walk| && walk[i].0 == k;
    var key := walk[0].0;
    assert key in m;
    var entries := MetaEntries(m, f);
    assert entries[0] == EntryText(key, walk[0].1, f);
    EntryTextStart(key, walk[0].1, f);
    assert Concat(entries) == entries[0] + Concat(entries[1..]);
  }

  /** Metadata with no entries is written as nothing. */
  lemma EmptyMetaText(f: Foreign)
    requires ValidMetaWalk(f)
    ensures MetaText(map[], f) == ""
  {
    MetaTextHoldsEntries(map[], f);
  }

  /** The text of a single posting. */
  lemma SinglePostingText(p: Posting, f: Foreign)
    ensures PostingsText([p], f) == PostingText(p, f)
  {
    assert [p][..0] == [];
  }

  /**
   * Written in the corrected order, the two transactions above differ: the line after the header
   * starts with a key in one and with the posting's account in the other, when the posting has no
   * flag and its root's name does not start with a lower-case letter.
   */
  lemma MetaBeforePostingsDistinguishes(t: Transaction, p: Posting, f: Foreign)
    requires ValidMetaWalk(f) && t.postings == [p] && p.meta == map[] && t.meta != map[]
    requires forall k :: k in t.meta ==> KeyLike(k)
    requires p.flag.None? && |f.defaultName(p.account.ty)| >= 1 && !('a' <= f.defaultName(p.account.ty)[0] <= 'z')
    ensures TransactionTextCorrected(t, f) != TransactionTextCorrected(MetaMovedToPosting(t, p), f)
  {
    var t' := MetaMovedToPosting(t, p);
    var p' := p.(meta := t.meta);
    var h := TransactionHeaderCorrected(t, f);
    var m := MetaText(t.meta, f);
    var line := PostingLineText(p, f);
    EmptyMetaText(f);
    MetaTextStart(t.meta, f);
    PostingLineStart(p, f);
    SinglePostingText(p, f);
    SinglePostingText(p', f);
    assert TransactionHeaderCorrected(t', f) == h;
    assert PostingLineText(p', f) == line;
    assert PostingText(p, f) == line + "";
    var a := TransactionTextCorrected(t, f);
    var b := TransactionTextCorrected(t', f);
    assert a == (h + m) + (line + "");
    assert b == (h + "") + (line + m);
    assert a[|h| + 1] == m[1];
    assert b[|h| + 1] == line[1];
  }

  method RenderTransactionHeader(t: Transaction, f: Foreign, w: Writer)
    modifies w
    ensures w.text == old(w.text) + TransactionHeader(t, f)
  {
    ghost var t0 := w.text;
    w.Write(f.dateText(t.date) + " " + f.flagText(t.flag));
    ghost var a := f.dateText(t.date) + " " + f.flagText(t.flag);
    if t.payee.Some? {
      w.Write(" \"" + t.payee.value + "\"");
    }
    AppendAssoc(t0, a, PayeeText(t.payee));
    a := a + PayeeText(t.payee);
    w.Write(" \"" + t.narration + "\"");
    AppendAssoc(t0, a, " \"" + t.narration + "\"");
    a := a + (" \"" + t.narration + "\"");
    assert a == TransactionLead(t, f);
    RenderWords(f.iterOrder(t.tags), "", w);
    AppendAssoc(t0, a, WordsText(f.iterOrder(t.tags), ""));
    a := a + WordsText(f.iterOrder(t.tags), "");
    RenderWords(f.iterOrder(t.links), "", w);
    AppendAssoc(t0, a, WordsText(f.iterOrder(t.links), ""));
    a := a + WordsText(f.iterOrder(t.links), "");
    w.Write("\n");
    AppendAssoc(t0, a, "\n");
  }

  method RenderPostings(ps: seq<Posting>, f: Foreign, w: Writer)
    modifies w
    ensures w.text == old(w.text) + PostingsText(ps, f)
  {
    ghost var t0 := w.text;
    for i := 0 to |ps|
      invariant w.text == t0 + PostingsText(ps[..i], f)
    {
      assert ps[..i + 1][..i] == ps[..i];
      RenderPosting(ps[i], f, w);
      AppendAssoc(t0, PostingsText(ps[..i], f), PostingText(ps[i], f));
    }
    assert ps[..|ps|] == ps;
  }

  /** `Renderer<Transaction>`: the header, each posting, and then the transaction's metadata. */
  method RenderTransaction(t: Transaction, f: Foreign, w: Writer)
    modifies w
    ensures w.text == old(w.text) + TransactionText(t, f)
  {
    ghost var t0 := w.text;
    RenderTransactionHeader(t, f, w);
    RenderPostings(t.postings, f, w);
    AppendAssoc(t0, TransactionHeader(t, f), PostingsText(t.postings, f));
    RenderKeyValue(t.meta, f, w);
    AppendAssoc(t0, TransactionHeader(t, f) + PostingsText(t.postings, f), MetaText(t.meta, f));
  }

  // ---- Directives and ledgers ----

  /** `Renderer<Directive>`: the directive's text, or an error for an unsupported one. */
  function DirectiveText(d: Directive, f: Foreign): (r: Result<string, RenderError>)
    ensures r.Err? <==> d.Unsupported?
    ensures r.Err? ==> r.error == UnsupportedDirective
  {
    match d
    case OpenDirective(o) => Ok(OpenText(o, f))
    case CloseDirective(c) => Ok(CloseText(c, f))
    case BalanceDirective(b) => Ok(BalanceText(b, f))
    case OptionDirective(o) => Ok(OptionText(o))
    case CommodityDirective(c) => Ok(CommodityText(c, f))
    case CustomDirective(c) => Ok(CustomText(c, f))
    case DocumentDirective(doc) => Ok(DocumentText(doc, f))
    case EventDirective(e) => Ok(EventText(e, f))
    case IncludeDirective(i) => Ok(IncludeText(i))
    case NoteDirective(n) => Ok(NoteText(n, f))
    case PadDirective(p) => Ok(PadText(p, f))
    case PluginDirective(p) => Ok(PluginText(p))
    case PriceDirective(p) => Ok(PriceDirectiveText(p, f))
    case QueryDirective(q) => Ok(QueryText(q, f))
    case TransactionDirective(t) => Ok(TransactionText(t, f))
    case Unsupported => Err(UnsupportedDirective)
  }

  method RenderDirective(d: Directive, f: Foreign, w: Writer) returns (r: Result<(), RenderError>)
    modifies w
    ensures DirectiveText(d, f).Ok? ==> r == Ok(()) && w.text == old(w.text) + DirectiveText(d, f).value
    ensures DirectiveText(d, f).Err? ==> r == Err(DirectiveText(d, f).error) && w.text == old(w.text)
  {
    r := Ok(());
    match d {
      case OpenDirective(o) => RenderOpen(o, f, w);
      case CloseDirective(c) => RenderClose(c, f, w);
      case BalanceDirective(b) => RenderBalance(b, f, w);
      case OptionDirective(o) => RenderOption(o, w);
      case CommodityDirective(c) => RenderCommodity(c, f, w);
      case CustomDirective(c) => RenderCustom(c, f, w);
      case DocumentDirective(doc) => RenderDocument(doc, f, w);
      case EventDirective(e) => RenderEvent(e, f, w);
      case IncludeDirective(i) => RenderInclude(i, w);
      case NoteDirective(n) => RenderNote(n, f, w);
      case PadDirective(p) => RenderPad(p, f, w);
      case PluginDirective(p) => RenderPlugin(p, w);
      case PriceDirective(p) => RenderPrice(p, f, w);
      case QueryDirective(q) => RenderQuery(q, f, w);
      case TransactionDirective(t) => RenderTransaction(t, f, w);
      case Unsupported => r := Err(UnsupportedDirective);
    }
  }

  /** Every directive's text ends with a line break. */
  lemma DirectiveTextEndsLine(d: Directive, f: Foreign)
    requires !d.Unsupported?
    ensures EndsLine(DirectiveText(d, f).value)
  {
    match d {
      case OpenDirective(o) =>
        ThenMeta(f.dateText(o.date) + " open " + AccountText(o.account, f) + WordsText(o.currencies, "")
          + BookingText(o.booking) + "\n", o.meta, f);
      case CloseDirective(c) =>
        ThenMeta(f.dateText(c.date) + " close " + AccountText(c.account, f) + "\n", c.meta, f);
      case BalanceDirective(b) =>
        ThenMeta(f.dateText(b.date) + " balance " + AccountText(b.account, f) + "\t" + AmountText(b.amount, f)
          + "\n", b.meta, f);
      case OptionDirective(o) =>
      case CommodityDirective(c) =>
        ThenMeta(f.dateText(c.date) + " commodity " + c.name + "\n", c.meta, f);
      case CustomDirective(c) =>
        ThenMeta(f.dateText(c.date) + " custom \"" + c.name + "\" " + Join(c.args, " ") + "\n", c.meta, f);
      case DocumentDirective(doc) =>
        EndsLineAfter(f.dateText(doc.date) + " document " + AccountText(doc.account, f), " \"" + doc.path + "\"\n");
        ThenMeta(f.dateText(doc.date) + " document " + AccountText(doc.account, f) + (" \"" + doc.path + "\"\n"), doc.meta, f);
      case EventDirective(e) =>
        ThenMeta(f.dateText(e.date) + " event \"" + e.name + "\" \"" + e.description + "\"\n", e.meta, f);
      case IncludeDirective(i) =>
      case NoteDirective(n) =>
        EndsLineAfter(f.dateText(n.date) + " note " + AccountText(n.account, f), " " + n.comment + "\n");
        ThenMeta(f.dateText(n.date) + " note " + AccountText(n.account, f) + (" " + n.comment + "\n"), n.meta, f);
      case PadDirective(p) =>
        ThenMeta(f.dateText(p.date) + " pad " + AccountText(p.padToAccount, f) + " " + AccountText(p.padFromAccount, f)
          + "\n", p.meta, f);
      case PluginDirective(p) =>
      case PriceDirective(p) =>
        ThenMeta(f.dateText(p.date) + " price " + p.currency + " " + AmountText(p.amount, f) + "\n", p.meta, f);
      case QueryDirective(q) =>
        ThenMeta(f.dateText(q.date) + " query \"" + q.name + "\" \"" + q.queryString + "\"\n", q.meta, f);
      case TransactionDirective(t) =>
        PostingsTextEndsLine(t.postings, f);
        EndsLineAfter(TransactionHeader(t, f), PostingsText(t.postings, f));
        ThenMeta(TransactionHeader(t, f) + PostingsText(t.postings, f), t.meta, f);
    }
  }

  /** The postings' text is empty or ends a line. */
  lemma {:induction false} PostingsTextEndsLine(ps: seq<Posting>, f: Foreign)
    ensures PostingsText(ps, f) == "" || EndsLine(PostingsText(ps, f))
  {
    if |ps| > 0 {
      PostingTextEndsLine(ps[|ps| - 1], f);
      EndsLineAfter(PostingsText(ps[..|ps| - 1], f), PostingText(ps[|ps| - 1], f));
    }
  }

  /** The ledger's text: each directive followed by an empty line; the first unsupported directive makes it an error. */
  function LedgerText(ds: seq<Directive>, f: Foreign): Result<string, RenderError>
  {
    if |ds| == 0 then Ok("")
    else match DirectiveText(ds[0], f)
      case Err(e) => Err(e)
      case Ok(s) => (match LedgerText(ds[1..], f)
        case Err(e) => Err(e)
        case Ok(rest) => Ok(s + "\n" + rest))
  }

  /** What is written before rendering stops: the directives up to the first unsupported one. */
  function LedgerWritten(ds: seq<Directive>, f: Foreign): string
  {
    if |ds| == 0 then ""
    else match DirectiveText(ds[0], f)
      case Err(_) => ""
      case Ok(s) => s + "\n" + LedgerWritten(ds[1..], f)
  }

  /** No directive is unsupported. */
  predicate AllSupported(ds: seq<Directive>)
  {
    forall i :: 0 <= i < |ds| ==> !ds[i].Unsupported?
  }

  /**
   * A ledger renders without error exactly when none of its directives is unsupported; then its
   * text is everything written, and otherwise the error is the unsupported-directive error.
   */
  lemma {:induction false} LedgerTextMeaning(ds: seq<Directive>, f: Foreign)
    ensures LedgerText(ds, f).Ok? <==> AllSupported(ds)
    ensures LedgerText(ds, f).Ok? ==> LedgerText(ds, f).value == LedgerWritten(ds, f)
    ensures LedgerText(ds, f).Err? ==> LedgerText(ds, f).error == UnsupportedDirective
  {
    if |ds| > 0 {
      LedgerTextMeaning(ds[1..], f);
      if AllSupported(ds) {
        assert AllSupported(ds[1..]) by {
          forall i | 0 <= i < |ds[1..]| ensures !ds[1..][i].Unsupported? {
            assert ds[1..][i] == ds[i + 1];
          }
        }
      } else if !ds[0].Unsupported? {
        var i :| 0 <= i < |ds| && ds[i].Unsupported?;
        assert ds[1..][i - 1] == ds[i];
      }
    }
  }

  /** Rendering stops at the first unsupported directive: what is written is the text of the ledger before it. */
  lemma {:induction false} LedgerWrittenStops(ds: seq<Directive>, i: nat, f: Foreign)
    requires i < |ds| && ds[i].Unsupported? && AllSupported(ds[..i])
    ensures LedgerText(ds[..i], f).Ok?
    ensures LedgerWritten(ds, f) == LedgerText(ds[..i], f).value
  {
    LedgerTextMeaning(ds[..i], f);
    if i == 0 {
    } else {
      var before := ds[..i];
      var rest := ds[1..][..i - 1];
      assert rest == before[1..];
      assert AllSupported(rest) by {
        forall j | 0 <= j < |rest| ensures !rest[j].Unsupported? {
          assert rest[j] == before[j + 1];
        }
      }
      LedgerWrittenStops(ds[1..], i - 1, f);
      LedgerTextMeaning(ds[..i][1..], f);
      assert ds[..i][0] == ds[0];
    }
  }

  /** The outcome of rendering, without the text. */
  function Outcome(ds: seq<Directive>, f: Foreign): Result<(), RenderError>
  {
    match LedgerText(ds, f)
    case Ok(_) => Ok(())
    case Err(e) => Err(e)
  }

  /** `Renderer<Ledger>`: each directive and an empty line, stopping at the first error. */
  method RenderLedger(l: Ledger, f: Foreign, w: Writer) returns (r: Result<(), RenderError>)
    modifies w
    ensures r == Outcome(l.directives, f)
    ensures w.text == old(w.text) + LedgerWritten(l.directives, f)
  {
    var ds := l.directives;
    ghost var t0 := w.text;
    ghost var done := "";
    var i := 0;
    while i < |ds|
      invariant i <= |ds|
      invariant w.text == t0 + done
      invariant LedgerWritten(ds, f) == done + LedgerWritten(ds[i..], f)
      invariant Outcome(ds, f) == Outcome(ds[i..], f)
    {
      assert ds[i..][0] == ds[i] && ds[i..][1..] == ds[i + 1..];
      r := RenderDirective(ds[i], f, w);
      if r.Err? {
        return;
      }
      ghost var s := DirectiveText(ds[i], f).value;
      AppendAssoc(t0, done, s);
      w.Write("\n");
      AppendAssoc(t0, done + s, "\n");
      AppendAssoc(done, s + "\n", LedgerWritten(ds[i + 1..], f));
      AppendAssoc(done, s, "\n");
      done := done + s + "\n";
      i := i + 1;
    }
    r := Ok(());
  }
}
