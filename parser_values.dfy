/**
 * The parser's readers for the small values inside directives: tags, accounts, amounts,
 * metadata entries and tag/link lists.
 */
module ParserValues {
  import opened Wrappers
  import opened CoreTypes
  import opened Accounts
  import opened Amounts
  import M = Metadata
  import opened Pest
  import opened ParseTree
  import opened ParseErrors
  import opened Externals
  import opened NumExprs
  import opened ParseStates

  /** `extract_tag`, and the `[1..]` of tag, link and account-component texts: drop the sigil. */
  function ExtractTag(text: SigiledText): (r: string)
    ensures |r| == |text| - 1
    ensures [text[0]] + r == text
  {
    text[1..]
  }

  // ---- Accounts ----

  /** The first root type in `types` that is currently named `name`. */
  function FindRoot(types: seq<AccountType>, roots: map<AccountType, string>, name: string): (r: Option<AccountType>)
    ensures r.Some? ==> r.value in types && r.value in roots && roots[r.value] == name
    ensures r.None? ==> forall t :: t in types && t in roots ==> roots[t] != name
  {
    if |types| == 0 then None
    else if types[0] in roots && roots[types[0]] == name then Some(types[0])
    else FindRoot(types[1..], roots, name)
  }

  /** The components after the root, each without its leading `:`. */
  function AccountParts(rest: seq<SigiledText>): (r: seq<string>)
    ensures |r| == |rest|
    ensures forall i :: 0 <= i < |rest| ==> [rest[i][0]] + r[i] == rest[i]
  {
    seq(|rest|, i requires 0 <= i < |rest| => ExtractTag(rest[i]))
  }

  /**
   * `account`: the root component must be the current name of some root type; if none has
   * that name the error is pest's "Invalid root account" over the root component.
   */
  function AccountOf(node: AccountNode, roots: map<AccountType, string>, f: Foreign): (r: ParseResult<Account>)
    ensures r.Parsed? <==> exists t :: t in roots && roots[t] == node.first.text
    ensures r.Parsed? ==> r.value.ty in roots && roots[r.value.ty] == node.first.text
    ensures r.Parsed? ==> r.value.parts == AccountParts(node.rest)
    ensures !r.Parsed? ==> r == Failed(FromPest(ErrorFromSpan(CustomError("Invalid root account"), node.first), f))
  {
    AllTypesListed();
    match FindRoot(AllAccountTypes, roots, node.first.text)
    case Some(t) => Parsed(Account(t, AccountParts(node.rest)))
    case None => Failed(FromPest(ErrorFromSpan(CustomError("Invalid root account"), node.first), f))
  }

  /** Root names no two types share. */
  predicate DistinctNames(roots: map<AccountType, string>)
  {
    forall a, b :: a in roots && b in roots && roots[a] == roots[b] ==> a == b
  }

  /**
   * After an option renames root `t` to `name`, an account written with that root is of type `t`,
   * provided no other root still has that name.
   */
  lemma RenamedRootResolves(roots: map<AccountType, string>, t: AccountType, name: string, node: AccountNode, f: Foreign)
    requires DistinctNames(roots[t := name]) && node.first.text == name
    ensures AccountOf(node, roots[t := name], f) == Parsed(Account(t, AccountParts(node.rest)))
  {
    var r := AccountOf(node, roots[t := name], f);
    assert t in roots[t := name] && roots[t := name][t] == name;
  }

  /** With the default names, a recognised root component is exactly one type's default name. */
  lemma DefaultRootResolves(node: AccountNode, t: AccountType, f: Foreign)
    requires DistinctNames(InitialRoots(f)) && node.first.text == f.defaultName(t)
    ensures AccountOf(node, InitialRoots(f), f) == Parsed(Account(t, AccountParts(node.rest)))
  {
    assert InitialRoots(f)[t] == node.first.text;
  }

  // ---- Amounts ----

  /** `amount`: the numeric expression, then the commodity. */
  function AmountOf(node: AmountNode, f: Foreign): (r: ParseResult<Amount>)
    ensures r.Parsed? <==> NumExprValue(node.num, f).Parsed?
    ensures r.Parsed? ==> r.value == Amount(NumExprValue(node.num, f).value, node.currency)
    ensures !r.Parsed? ==> r == NumExprValue(node.num, f).PropagateFailure()
  {
    var n :- NumExprValue(node.num, f);
    Parsed(Amount(n, node.currency))
  }

  /** `amount_tolerance`: the number is read before the tolerance, so its failure wins. */
  function AmountToleranceOf(node: AmountToleranceNode, f: Foreign): (r: ParseResult<(Amount, Option<Decimal>)>)
    ensures !NumExprValue(node.num, f).Parsed? ==> r == NumExprValue(node.num, f).PropagateFailure()
    ensures r.Parsed? ==> r.value.0 == Amount(NumExprValue(node.num, f).value, node.currency)
    ensures r.Parsed? ==> (r.value.1.Some? <==> node.tolerance.Some?)
    ensures r.Parsed? && node.tolerance.Some? ==>
      Num(node.tolerance.value, f).Parsed? && r.value.1 == Some(Num(node.tolerance.value, f).value)
    ensures NumExprValue(node.num, f).Parsed? && node.tolerance.Some? && !Num(node.tolerance.value, f).Parsed? ==>
      r == Num(node.tolerance.value, f).PropagateFailure()
  {
    var n :- NumExprValue(node.num, f);
    var tolerance :- match node.tolerance
      case None => Parsed(None)
      case Some(t) => (var v :- Num(t, f); Parsed(Some(v)));
    Parsed((Amount(n, node.currency), tolerance))
  }

  /** The optional number of an `incomplete_amount`. */
  function OptionalNum(e: Option<NumExpr>, f: Foreign): ParseResult<Option<Decimal>>
  {
    match e
    case None => Parsed(None)
    case Some(x) => (var v :- NumExprValue(x, f); Parsed(Some(v)))
  }

  /** `incomplete_amount`: each part present exactly when it was written. */
  function IncompleteAmountOf(node: IncompleteAmountNode, f: Foreign): (r: ParseResult<IncompleteAmount>)
    ensures node.num.None? ==> r == Parsed(IncompleteAmount(None, node.currency))
    ensures node.num.Some? ==> (r.Parsed? <==> NumExprValue(node.num.value, f).Parsed?)
    ensures node.num.Some? && r.Parsed? ==>
      r.value == IncompleteAmount(Some(NumExprValue(node.num.value, f).value), node.currency)
  {
    var n :- OptionalNum(node.num, f);
    Parsed(IncompleteAmount(n, node.currency))
  }

  /** A fully written incomplete amount reads as the amount with the same parts. */
  lemma CompleteIncompleteAmount(e: NumExpr, currency: string, f: Foreign)
    requires NumExprValue(e, f).Parsed?
    ensures IncompleteAmountOf(IncompleteAmountNode(Some(e), Some(currency)), f)
      == Parsed(IncompleteFromAmount(AmountOf(AmountNode(e, currency), f).value))
  {
  }

  /** `price_annotation`: whether it is `@@`, and the amount. */
  function PriceAnnotationOf(node: PriceAnnotationNode, f: Foreign): (r: ParseResult<(bool, IncompleteAmount)>)
    ensures r.Parsed? <==> IncompleteAmountOf(node.amount, f).Parsed?
    ensures r.Parsed? ==> r.value == (node.total, IncompleteAmountOf(node.amount, f).value)
  {
    var a :- IncompleteAmountOf(node.amount, f);
    Parsed((node.total, a))
  }

  // ---- Metadata ----

  /** The `bool` rule's value as the code reads it: only the exact text `true` is true. */
  function BoolAsWritten(text: string): bool
  {
    text == "true"
  }

  /** The grammar accepts `True`, which the code reads as false: the metadata value `key: True` is `Bool(false)`. */
  lemma CapitalisedTrueIsFalse(roots: map<AccountType, string>, f: Foreign)
    ensures !BoolAsWritten("True") && !BoolAsWritten("TRUE")
    ensures MetaValueOf(BoolValue("True"), roots, f) == Parsed(M.Bool(false))
  {
  }

  function LowerChar(c: char): (d: char)
    ensures 'A' <= c <= 'Z' ==> d as int == c as int + 32
    ensures !('A' <= c <= 'Z') ==> d == c
  {
    if 'A' <= c <= 'Z' then (c as int + 32) as char else c
  }

  function Lower(s: string): (r: string)
    ensures |r| == |s| && forall i :: 0 <= i < |s| ==> r[i] == LowerChar(s[i])
  {
    seq(|s|, i requires 0 <= i < |s| => LowerChar(s[i]))
  }

  /** The `bool` value read without regard to letter case, so every spelling of `true` is true. */
  function BoolFromText(text: string): bool
  {
    Lower(text) == "true"
  }

  /** Upper- and lower-case spellings of `true` are true, of `false` false, and lower case agrees with the code. */
  lemma BoolFromTextSpellings()
    ensures BoolFromText("true") && BoolFromText("True") && BoolFromText("TRUE")
    ensures !BoolFromText("false") && !BoolFromText("False") && !BoolFromText("FALSE")
    ensures forall s :: BoolAsWritten(s) ==> BoolFromText(s)
  {
    assert Lower("True") == "true";
    assert Lower("TRUE") == "true";
    assert Lower("true") == "true";
    assert Lower("False")[0] == 'f';
    assert Lower("FALSE")[0] == 'f';
  }

  /** `meta_kv_pair`'s value, by the rule that matched. */
  function MetaValueOf(v: MetaValueNode, roots: map<AccountType, string>, f: Foreign): (r: ParseResult<M.MetaValue>)
    ensures v.TextValue? ==> r == Parsed(M.Text(v.quoted.inner))
    ensures v.DateValue? ==> r == Parsed(M.Date(Date(v.dateToken.text)))
    ensures v.CommodityValue? ==> r == Parsed(M.Currency(v.commodity))
    ensures v.TagValue? ==> r == Parsed(M.Tag(ExtractTag(v.tagText)))
    ensures v.BoolValue? ==> r.Parsed? && r.value.Bool? && (r.value.flag <==> v.boolText == "true")
    ensures v.AccountValue? ==> (r.Parsed? <==> AccountOf(v.accountNode, roots, f).Parsed?)
    ensures v.AccountValue? && AccountOf(v.accountNode, roots, f).Parsed? ==>
      r == Parsed(M.Account(AccountOf(v.accountNode, roots, f).value))
    ensures v.AccountValue? && !AccountOf(v.accountNode, roots, f).Parsed? ==>
      r == AccountOf(v.accountNode, roots, f).PropagateFailure()
    ensures v.AmountValue? ==> (r.Parsed? <==> AmountOf(v.amountNode, f).Parsed?)
    ensures v.AmountValue? && AmountOf(v.amountNode, f).Parsed? ==>
      r == Parsed(M.Amount(AmountOf(v.amountNode, f).value))
    ensures v.AmountValue? && !AmountOf(v.amountNode, f).Parsed? ==>
      r == AmountOf(v.amountNode, f).PropagateFailure()
    ensures v.NumberValue? ==> (r.Parsed? <==> NumExprValue(v.expr, f).Parsed?)
    ensures v.NumberValue? && NumExprValue(v.expr, f).Parsed? ==>
      r == Parsed(M.Number(NumExprValue(v.expr, f).value))
    ensures v.NumberValue? && !NumExprValue(v.expr, f).Parsed? ==>
      r == NumExprValue(v.expr, f).PropagateFailure()
  {
    match v
    case TextValue(q) => Parsed(M.Text(q.inner))
    case AccountValue(a) => (var acc :- AccountOf(a, roots, f); Parsed(M.Account(acc)))
    case DateValue(d) => Parsed(M.Date(Date(d.text)))
    case CommodityValue(c) => Parsed(M.Currency(c))
    case TagValue(t) => Parsed(M.Tag(ExtractTag(t)))
    case BoolValue(b) => Parsed(M.Bool(BoolAsWritten(b)))
    case AmountValue(a) => (var amt :- AmountOf(a, f); Parsed(M.Amount(amt)))
    case NumberValue(e) => (var n :- NumExprValue(e, f); Parsed(M.Number(n)))
  }

  /** `meta_kv_pair`: the key as written and its value. */
  function MetaKvPair(kv: KeyValueNode, roots: map<AccountType, string>, f: Foreign): (r: ParseResult<(string, M.MetaValue)>)
    ensures r.Parsed? <==> MetaValueOf(kv.value, roots, f).Parsed?
    ensures r.Parsed? ==> r.value == (kv.key, MetaValueOf(kv.value, roots, f).value)
  {
    var v :- MetaValueOf(kv.value, roots, f);
    Parsed((kv.key, v))
  }

  /** Collecting key/value pairs into a map after `acc`: a later key replaces an earlier one; the first error ends it. */
  function MetaKvFrom(acc: M.Meta, list: seq<KeyValueNode>, roots: map<AccountType, string>, f: Foreign): ParseResult<M.Meta>
    decreases |list|
  {
    if |list| == 0 then Parsed(acc)
    else
      var kv :- MetaKvPair(list[0], roots, f);
      MetaKvFrom(acc[kv.0 := kv.1], list[1..], roots, f)
  }

  /** `meta_kv`. */
  function MetaKv(list: seq<KeyValueNode>, roots: map<AccountType, string>, f: Foreign): ParseResult<M.Meta>
  {
    MetaKvFrom(map[], list, roots, f)
  }

  /** No entry after position `i` has the same key. */
  predicate LastWithKey(list: seq<KeyValueNode>, i: nat)
    requires i < |list|
  {
    forall j :: i < j < |list| ==> list[j].key != list[i].key
  }

  /** The keys written in a list of pairs. */
  function KeysOf(list: seq<KeyValueNode>): set<string>
  {
    if |list| == 0 then {} else {list[0].key} + KeysOf(list[1..])
  }

  lemma {:induction false} KeysOfIndex(list: seq<KeyValueNode>, k: string)
    ensures k in KeysOf(list) <==> exists i :: 0 <= i < |list| && list[i].key == k
  {
    if |list| > 0 {
      KeysOfIndex(list[1..], k);
      if k in KeysOf(list[1..]) {
        var i :| 0 <= i < |list[1..]| && list[1..][i].key == k;
        assert list[i + 1].key == k;
      }
      if exists i :: 0 <= i < |list| && list[i].key == k {
        var i :| 0 <= i < |list| && list[i].key == k;
        if i > 0 {
          assert list[1..][i - 1].key == k;
        }
      }
    }
  }

  /** Collecting succeeds exactly when every pair does. */
  lemma {:induction false} MetaKvFromParsed(acc: M.Meta, list: seq<KeyValueNode>, roots: map<AccountType, string>, f: Foreign)
    ensures MetaKvFrom(acc, list, roots, f).Parsed? <==>
      forall i :: 0 <= i < |list| ==> MetaKvPair(list[i], roots, f).Parsed?
    decreases |list|
  {
    if |list| > 0 && MetaKvPair(list[0], roots, f).Parsed? {
      var kv := MetaKvPair(list[0], roots, f).value;
      MetaKvFromParsed(acc[kv.0 := kv.1], list[1..], roots, f);
      assert forall i :: 1 <= i < |list| ==> list[i] == list[1..][i - 1];
    }
  }

  /** The collected keys are those of `acc` and those written. */
  lemma {:induction false} MetaKvFromKeys(acc: M.Meta, list: seq<KeyValueNode>, roots: map<AccountType, string>, f: Foreign)
    requires MetaKvFrom(acc, list, roots, f).Parsed?
    ensures MetaKvFrom(acc, list, roots, f).value.Keys == acc.Keys + KeysOf(list)
    decreases |list|
  {
    if |list| > 0 {
      var kv := MetaKvPair(list[0], roots, f).value;
      MetaKvFromKeys(acc[kv.0 := kv.1], list[1..], roots, f);
    }
  }

  /** A key written only once more is mapped to its last occurrence's value. */
  lemma {:induction false} MetaKvFromLast(acc: M.Meta, list: seq<KeyValueNode>, i: nat, roots: map<AccountType, string>, f: Foreign)
    requires MetaKvFrom(acc, list, roots, f).Parsed? && i < |list| && LastWithKey(list, i)
    ensures MetaKvPair(list[i], roots, f).Parsed?
    ensures list[i].key in MetaKvFrom(acc, list, roots, f).value
    ensures MetaKvFrom(acc, list, roots, f).value[list[i].key] == MetaKvPair(list[i], roots, f).value.1
    decreases |list|
  {
    var kv := MetaKvPair(list[0], roots, f).value;
    var acc1, tail := acc[kv.0 := kv.1], list[1..];
    if i == 0 {
      MetaKvFromKept(acc1, tail, kv.0, roots, f);
    } else {
      assert LastWithKey(tail, i - 1) by {
        forall j | i - 1 < j < |tail| ensures tail[j].key != tail[i - 1].key {
          assert list[j + 1] == tail[j];
        }
      }
      MetaKvFromLast(acc1, tail, i - 1, roots, f);
    }
  }

  /** A key of `acc` never written again keeps its value. */
  lemma {:induction false} MetaKvFromKept(acc: M.Meta, list: seq<KeyValueNode>, k: string, roots: map<AccountType, string>, f: Foreign)
    requires MetaKvFrom(acc, list, roots, f).Parsed? && k in acc
    requires forall j :: 0 <= j < |list| ==> list[j].key != k
    ensures k in MetaKvFrom(acc, list, roots, f).value
    ensures MetaKvFrom(acc, list, roots, f).value[k] == acc[k]
    decreases |list|
  {
    if |list| > 0 {
      var kv := MetaKvPair(list[0], roots, f).value;
      assert list[0].key != k;
      assert forall j :: 0 <= j < |list[1..]| ==> list[1..][j].key != k by {
        forall j | 0 <= j < |list[1..]| ensures list[1..][j].key != k {
          assert list[1..][j] == list[j + 1];
        }
      }
      MetaKvFromKept(acc[kv.0 := kv.1], list[1..], k, roots, f);
    }
  }

  /** A failed collection is the failure of the first pair that fails. */
  lemma {:induction false} MetaKvFromFailure(acc: M.Meta, list: seq<KeyValueNode>, roots: map<AccountType, string>, f: Foreign)
    returns (i: nat)
    requires !MetaKvFrom(acc, list, roots, f).Parsed?
    ensures i < |list| && !MetaKvPair(list[i], roots, f).Parsed?
    ensures forall j :: 0 <= j < i ==> MetaKvPair(list[j], roots, f).Parsed?
    ensures MetaKvFrom(acc, list, roots, f) == MetaKvPair(list[i], roots, f).PropagateFailure()
    decreases |list|
  {
    var p := MetaKvPair(list[0], roots, f);
    if p.Parsed? {
      var i1 := MetaKvFromFailure(acc[p.value.0 := p.value.1], list[1..], roots, f);
      i := i1 + 1;
      assert list[i] == list[1..][i1];
      forall j | 0 <= j < i ensures MetaKvPair(list[j], roots, f).Parsed? {
        if j > 0 {
          assert list[j] == list[1..][j - 1];
        }
      }
    } else {
      i := 0;
    }
  }

  /**
   * `meta_kv` succeeds exactly when every pair does; its keys are the written keys, each mapped
   * to the value of its last occurrence.
   */
  lemma MetaKvContents(list: seq<KeyValueNode>, roots: map<AccountType, string>, f: Foreign)
    ensures MetaKv(list, roots, f).Parsed? <==> forall i :: 0 <= i < |list| ==> MetaKvPair(list[i], roots, f).Parsed?
    ensures MetaKv(list, roots, f).Parsed? ==>
      forall k :: k in MetaKv(list, roots, f).value <==> exists i :: 0 <= i < |list| && list[i].key == k
    ensures MetaKv(list, roots, f).Parsed? ==>
      forall i :: 0 <= i < |list| && LastWithKey(list, i) ==>
        MetaKv(list, roots, f).value[list[i].key] == MetaKvPair(list[i], roots, f).value.1
  {
    MetaKvFromParsed(map[], list, roots, f);
    if MetaKv(list, roots, f).Parsed? {
      MetaKvFromKeys(map[], list, roots, f);
      forall k ensures k in MetaKv(list, roots, f).value <==> exists i :: 0 <= i < |list| && list[i].key == k {
        KeysOfIndex(list, k);
      }
      forall i | 0 <= i < |list| && LastWithKey(list, i)
        ensures MetaKv(list, roots, f).value[list[i].key] == MetaKvPair(list[i], roots, f).value.1
      {
        MetaKvFromLast(map[], list, i, roots, f);
      }
    }
  }

  // ---- Tags and links ----

  /** The tags of a `tags_links` list, without their sigils. */
  function TagsOf(items: seq<TagLinkNode>): set<string>
  {
    set i | 0 <= i < |items| && items[i].TagNode? :: ExtractTag(items[i].tagText)
  }

  /** The links of a `tags_links` list, without their sigils. */
  function LinksOf(items: seq<TagLinkNode>): set<string>
  {
    set i | 0 <= i < |items| && items[i].LinkNode? :: ExtractTag(items[i].linkText)
  }

  /** `tags_links`: one pass that sorts each item into the tag or the link set. */
  method ReadTagsLinks(items: seq<TagLinkNode>) returns (tags: set<string>, links: set<string>)
    ensures tags == TagsOf(items) && links == LinksOf(items)
  {
    tags, links := {}, {};
    var i := 0;
    while i < |items|
      invariant 0 <= i <= |items|
      invariant tags == TagsOf(items[..i]) && links == LinksOf(items[..i])
    {
      TagsOfStep(items, i);
      match items[i] {
        case TagNode(t) => tags := tags + {ExtractTag(t)};
        case LinkNode(l) => links := links + {ExtractTag(l)};
      }
      i := i + 1;
    }
    assert items[..i] == items;
  }

  lemma TagsOfStep(items: seq<TagLinkNode>, i: nat)
    requires i < |items|
    ensures TagsOf(items[..i + 1]) == TagsOf(items[..i]) + (if items[i].TagNode? then {ExtractTag(items[i].tagText)} else {})
    ensures LinksOf(items[..i + 1]) == LinksOf(items[..i]) + (if items[i].LinkNode? then {ExtractTag(items[i].linkText)} else {})
  {
    var a, b := items[..i], items[..i + 1];
    assert forall j :: 0 <= j < i ==> b[j] == a[j];
    assert TagsOf(b) == TagsOf(a) + (if items[i].TagNode? then {ExtractTag(items[i].tagText)} else {}) by {
      forall x | x in TagsOf(b) ensures x in TagsOf(a) + (if items[i].TagNode? then {ExtractTag(items[i].tagText)} else {}) {
        var j :| 0 <= j < |b| && b[j].TagNode? && ExtractTag(b[j].tagText) == x;
        if j < i {
          assert a[j] == b[j];
        }
      }
    }
    assert LinksOf(b) == LinksOf(a) + (if items[i].LinkNode? then {ExtractTag(items[i].linkText)} else {}) by {
      forall x | x in LinksOf(b) ensures x in LinksOf(a) + (if items[i].LinkNode? then {ExtractTag(items[i].linkText)} else {}) {
        var j :| 0 <= j < |b| && b[j].LinkNode? && ExtractTag(b[j].linkText) == x;
        if j < i {
          assert a[j] == b[j];
        }
      }
    }
  }
}
