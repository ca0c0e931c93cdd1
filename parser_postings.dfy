/** The parser's readers for a posting and its parts: compound amounts, cost specs and prices. */
module ParserPostings {
  import opened Wrappers
  import opened CoreTypes
  import opened Accounts
  import opened Amounts
  import opened Flags
  import opened Positions
  import opened Postings
  import opened ParseTree
  import opened ParseErrors
  import opened Externals
  import opened NumExprs
  import opened ParserValues

  /** The (per-unit number, total number, currency) a `compound_amount` yields. */
  type Compound = (Option<Decimal>, Option<Decimal>, Option<Currency>)

  /**
   * `compound_amount` from `acc` on: the first number fills the per-unit slot, every later one
   * the total slot; a commodity sets the currency; the first failing number ends it.
   */
  function CompoundFrom(acc: Compound, parts: seq<CompoundPart>, f: Foreign): ParseResult<Compound>
    decreases |parts|
  {
    if |parts| == 0 then Parsed(acc)
    else match parts[0]
      case CompoundNum(e) =>
        var n :- NumExprValue(e, f);
        CompoundFrom(if acc.0.None? then (Some(n), acc.1, acc.2) else (acc.0, Some(n), acc.2), parts[1..], f)
      case CompoundCommodity(c) => CompoundFrom((acc.0, acc.1, Some(c)), parts[1..], f)
  }

  function CompoundOf(parts: seq<CompoundPart>, f: Foreign): ParseResult<Compound>
  {
    CompoundFrom((None, None, None), parts, f)
  }

  /** The numeric expressions among the parts, in order. */
  function NumsOf(parts: seq<CompoundPart>): seq<NumExpr>
  {
    if |parts| == 0 then []
    else (if parts[0].CompoundNum? then [parts[0].expr] else []) + NumsOf(parts[1..])
  }

  /** The commodities among the parts, in order. */
  function CommoditiesOf(parts: seq<CompoundPart>): seq<string>
  {
    if |parts| == 0 then []
    else (if parts[0].CompoundCommodity? then [parts[0].commodity] else []) + CommoditiesOf(parts[1..])
  }

  /** Every number evaluates. */
  predicate AllEvaluate(nums: seq<NumExpr>, f: Foreign)
  {
    forall i :: 0 <= i < |nums| ==> NumExprValue(nums[i], f).Parsed?
  }

  /**
   * The slots `r` holds after reading numbers `nums` and commodities `coms` from `acc`: the
   * per-unit slot the first number (unless `acc` had one), the total slot the last number once a
   * second has been seen, and the currency the last commodity.
   */
  predicate Slots(r: Compound, acc: Compound, nums: seq<NumExpr>, coms: seq<string>, f: Foreign)
    requires AllEvaluate(nums, f)
  {
    && r.0 == (if acc.0.Some? || |nums| == 0 then acc.0 else Some(NumExprValue(nums[0], f).value))
    && r.1 == (if |nums| == 0 || (acc.0.None? && |nums| == 1) then acc.1
               else Some(NumExprValue(nums[|nums| - 1], f).value))
    && r.2 == (if |coms| == 0 then acc.2 else Some(coms[|coms| - 1]))
  }

  /**
   * A compound amount succeeds exactly when every number evaluates. Then the per-unit slot holds
   * the first number (unless `acc` had one), the total slot the last number once a second has
   * been seen, and the currency the last commodity.
   */
  lemma CompoundFromMeaning(acc: Compound, parts: seq<CompoundPart>, f: Foreign)
    ensures CompoundFrom(acc, parts, f).Parsed? <==> AllEvaluate(NumsOf(parts), f)
    ensures CompoundFrom(acc, parts, f).Parsed? ==>
      var r, nums, coms := CompoundFrom(acc, parts, f).value, NumsOf(parts), CommoditiesOf(parts);
      && r.0 == (if acc.0.Some? || |nums| == 0 then acc.0 else Some(NumExprValue(nums[0], f).value))
      && r.1 == (if |nums| == 0 || (acc.0.None? && |nums| == 1) then acc.1
                 else Some(NumExprValue(nums[|nums| - 1], f).value))
      && r.2 == (if |coms| == 0 then acc.2 else Some(coms[|coms| - 1]))
  {
    if CompoundFrom(acc, parts, f).Parsed? {
      CompoundFromValues(acc, parts, f);
    }
    if AllEvaluate(NumsOf(parts), f) {
      CompoundFromEvaluates(acc, parts, f);
    }
  }

  /** A compound amount that parses has evaluated every number and filled its slots. */
  lemma {:induction false} CompoundFromValues(acc: Compound, parts: seq<CompoundPart>, f: Foreign)
    requires CompoundFrom(acc, parts, f).Parsed?
    ensures AllEvaluate(NumsOf(parts), f)
    ensures Slots(CompoundFrom(acc, parts, f).value, acc, NumsOf(parts), CommoditiesOf(parts), f)
    decreases |parts|
  {
    if |parts| > 0 {
      var tail := parts[1..];
      match parts[0]
      case CompoundNum(e) =>
        var v := NumExprValue(e, f).value;
        var acc1 := if acc.0.None? then (Some(v), acc.1, acc.2) else (acc.0, Some(v), acc.2);
        assert CompoundFrom(acc, parts, f) == CompoundFrom(acc1, tail, f);
        CompoundFromValues(acc1, tail, f);
        assert NumsOf(parts) == [e] + NumsOf(tail);
        assert CommoditiesOf(parts) == CommoditiesOf(tail);
        NumSlotsStep(acc, acc1, e, v, NumsOf(tail), CommoditiesOf(tail), CompoundFrom(acc1, tail, f).value, f);
      case CompoundCommodity(c) =>
        assert CompoundFrom(acc, parts, f) == CompoundFrom((acc.0, acc.1, Some(c)), tail, f);
        CompoundFromValues((acc.0, acc.1, Some(c)), tail, f);
        assert NumsOf(parts) == NumsOf(tail);
        assert CommoditiesOf(parts) == [c] + CommoditiesOf(tail);
        CommoditySlotsStep(acc, c, NumsOf(tail), CommoditiesOf(tail), CompoundFrom((acc.0, acc.1, Some(c)), tail, f).value, f);
    }
  }

  /** Reading one commodity before the rest. */
  lemma CommoditySlotsStep(acc: Compound, c: string, nums: seq<NumExpr>, coms: seq<string>, r: Compound, f: Foreign)
    requires AllEvaluate(nums, f) && Slots(r, (acc.0, acc.1, Some(c)), nums, coms, f)
    ensures Slots(r, acc, nums, [c] + coms, f)
  {
  }

  /** Reading one number that evaluates to `v` before the rest. */
  lemma NumSlotsStep(acc: Compound, acc1: Compound, e: NumExpr, v: Decimal, nums: seq<NumExpr>, coms: seq<string>,
                     r: Compound, f: Foreign)
    requires NumExprValue(e, f) == Parsed(v)
    requires acc1 == if acc.0.None? then (Some(v), acc.1, acc.2) else (acc.0, Some(v), acc.2)
    requires AllEvaluate(nums, f) && Slots(r, acc1, nums, coms, f)
    ensures AllEvaluate([e] + nums, f) && Slots(r, acc, [e] + nums, coms, f)
  {
    assert forall i :: 0 < i < |[e] + nums| ==> ([e] + nums)[i] == nums[i - 1];
  }

  /** A compound amount whose numbers all evaluate parses. */
  lemma {:induction false} CompoundFromEvaluates(acc: Compound, parts: seq<CompoundPart>, f: Foreign)
    requires AllEvaluate(NumsOf(parts), f)
    ensures CompoundFrom(acc, parts, f).Parsed?
    decreases |parts|
  {
    if |parts| > 0 {
      var tail := parts[1..];
      match parts[0]
      case CompoundNum(e) =>
        assert NumsOf(parts) == [e] + NumsOf(tail);
        assert NumsOf(parts)[0] == e;
        assert forall i :: 0 <= i < |NumsOf(tail)| ==> NumsOf(tail)[i] == NumsOf(parts)[i + 1];
        var v := NumExprValue(e, f).value;
        var acc1 := if acc.0.None? then (Some(v), acc.1, acc.2) else (acc.0, Some(v), acc.2);
        CompoundFromEvaluates(acc1, tail, f);
        assert CompoundFrom(acc, parts, f) == CompoundFrom(acc1, tail, f);
      case CompoundCommodity(c) =>
        assert NumsOf(parts) == NumsOf(tail);
        CompoundFromEvaluates((acc.0, acc.1, Some(c)), tail, f);
        assert CompoundFrom(acc, parts, f) == CompoundFrom((acc.0, acc.1, Some(c)), tail, f);
    }
  }

  /** `compound_amount`, one part at a time. */
  method ReadCompoundAmount(parts: seq<CompoundPart>, f: Foreign) returns (r: ParseResult<Compound>)
    ensures r == CompoundOf(parts, f)
  {
    var numberPer: Option<Decimal> := None;
    var numberTotal: Option<Decimal> := None;
    var currency: Option<Currency> := None;
    var i := 0;
    while i < |parts|
      invariant 0 <= i <= |parts|
      invariant CompoundOf(parts, f) == CompoundFrom((numberPer, numberTotal, currency), parts[i..], f)
    {
      assert parts[i..][1..] == parts[i + 1..];
      match parts[i] {
        case CompoundNum(e) =>
          var n := NumExprValue(e, f);
          if !n.Parsed? {
            return n.PropagateFailure();
          }
          if numberPer.None? {
            numberPer := Some(n.value);
          } else {
            numberTotal := Some(n.value);
          }
        case CompoundCommodity(c) =>
          currency := Some(c);
      }
      i := i + 1;
    }
    r := Parsed((numberPer, numberTotal, currency));
  }

  // ---- Cost specs ----

  /** What the component loop of `cost_spec` has gathered so far. */
  datatype CostParts = CostParts(amount: Compound, date: Option<CoreTypes.Date>, labelText: Option<string>, merge: bool)

  const NoCostParts := CostParts((None, None, None), None, None, false)

  /** The component loop of `cost_spec`: each component sets its part; a later one replaces an earlier. */
  function CostFrom(acc: CostParts, comps: seq<CostComponent>, f: Foreign): ParseResult<CostParts>
    decreases |comps|
  {
    if |comps| == 0 then Parsed(acc)
    else match comps[0]
      case CostDate(d) => CostFrom(acc.(date := Some(Date(d.text))), comps[1..], f)
      case CostLabel(q) => CostFrom(acc.(labelText := Some(q.inner)), comps[1..], f)
      case CostAmount(parts) =>
        var a :- CompoundOf(parts, f);
        CostFrom(acc.(amount := a), comps[1..], f)
      case CostMerge => CostFrom(acc.(merge := true), comps[1..], f)
  }

  const TotalCostPanic := "Per-unit cost may not be specified using total cost"

  /**
   * `cost_spec`. In `{{ }}` the one number written is the total; writing two panics.
   */
  function CostSpecOf(node: CostSpecNode, f: Foreign): ParseResult<CostSpec>
  {
    var acc :- CostFrom(NoCostParts, node.components, f);
    if node.kind == TotalCost && acc.amount.1.Some? then Panicked(TotalCostPanic)
    else
      var a := if node.kind == TotalCost then (None, acc.amount.0, acc.amount.2) else acc.amount;
      Parsed(CostSpec(a.0, a.1, a.2, acc.date, acc.labelText, acc.merge))
  }

  /** The compound parts of the last amount component, if any. */
  function LastAmount(comps: seq<CostComponent>): Option<seq<CompoundPart>>
  {
    if |comps| == 0 then None
    else match LastAmount(comps[1..])
      case Some(p) => Some(p)
      case None => if comps[0].CostAmount? then Some(comps[0].parts) else None
  }

  /** Whether a `*` appears. */
  predicate HasMerge(comps: seq<CostComponent>)
  {
    exists i :: 0 <= i < |comps| && comps[i].CostMerge?
  }

  /** The component loop keeps the last amount written, and records a merge iff a `*` appears. */
  lemma {:induction false} CostFromMeaning(acc: CostParts, comps: seq<CostComponent>, f: Foreign)
    requires CostFrom(acc, comps, f).Parsed?
    ensures LastAmount(comps).None? ==> CostFrom(acc, comps, f).value.amount == acc.amount
    ensures LastAmount(comps).Some? ==>
      CompoundOf(LastAmount(comps).value, f).Parsed? &&
      CostFrom(acc, comps, f).value.amount == CompoundOf(LastAmount(comps).value, f).value
    ensures CostFrom(acc, comps, f).value.merge <==> acc.merge || HasMerge(comps)
    decreases |comps|
  {
    if |comps| > 0 {
      var tail := comps[1..];
      var acc1 := match comps[0]
        case CostDate(d) => acc.(date := Some(Date(d.text)))
        case CostLabel(q) => acc.(labelText := Some(q.inner))
        case CostAmount(parts) => acc.(amount := CompoundOf(parts, f).value)
        case CostMerge => acc.(merge := true);
      assert CostFrom(acc, comps, f) == CostFrom(acc1, tail, f);
      CostFromMeaning(acc1, tail, f);
      assert HasMerge(comps) <==> comps[0].CostMerge? || HasMerge(tail) by {
        if HasMerge(comps) && !comps[0].CostMerge? {
          var i :| 0 <= i < |comps| && comps[i].CostMerge?;
          assert tail[i - 1] == comps[i];
        }
        if HasMerge(tail) {
          var i :| 0 <= i < |tail| && tail[i].CostMerge?;
          assert comps[i + 1] == tail[i];
        }
      }
    }
  }

  /**
   * A total cost whose last amount holds two or more numbers panics; with one number, that number
   * is the total and no per-unit number is set; a per-unit cost keeps the compound amount's slots.
   */
  lemma CostSpecPlacement(node: CostSpecNode, f: Foreign)
    requires CostFrom(NoCostParts, node.components, f).Parsed?
    requires LastAmount(node.components).Some?
    ensures var nums := NumsOf(LastAmount(node.components).value);
      && (node.kind == TotalCost && |nums| >= 2 ==> CostSpecOf(node, f) == Panicked(TotalCostPanic))
      && (node.kind == TotalCost && |nums| == 1 ==>
            CostSpecOf(node, f).Parsed? && CostSpecOf(node, f).value.numberPer.None? &&
            NumExprValue(nums[0], f).Parsed? && CostSpecOf(node, f).value.numberTotal == Some(NumExprValue(nums[0], f).value))
      && (node.kind == PerUnitCost && |nums| >= 1 ==>
            CostSpecOf(node, f).Parsed? && NumExprValue(nums[0], f).Parsed? &&
            CostSpecOf(node, f).value.numberPer == Some(NumExprValue(nums[0], f).value))
    ensures CostSpecOf(node, f).Parsed? ==>
      (CostSpecOf(node, f).value.mergeCost <==> HasMerge(node.components))
  {
    CostFromMeaning(NoCostParts, node.components, f);
    CompoundFromMeaning((None, None, None), LastAmount(node.components).value, f);
  }

  /** `cost_spec`, one component at a time. */
  method ReadCostSpec(node: CostSpecNode, f: Foreign) returns (r: ParseResult<CostSpec>)
    ensures r == CostSpecOf(node, f)
  {
    var amount: Compound := (None, None, None);
    var date: Option<CoreTypes.Date> := None;
    var labelText: Option<string> := None;
    var merge := false;
    var comps := node.components;
    var i := 0;
    while i < |comps|
      invariant 0 <= i <= |comps|
      invariant CostFrom(NoCostParts, comps, f).Parsed? <==>
        CostFrom(CostParts(amount, date, labelText, merge), comps[i..], f).Parsed?
      invariant CostFrom(NoCostParts, comps, f) == CostFrom(CostParts(amount, date, labelText, merge), comps[i..], f)
    {
      assert comps[i..][1..] == comps[i + 1..];
      match comps[i] {
        case CostDate(d) => date := Some(Date(d.text));
        case CostLabel(q) => labelText := Some(q.inner);
        case CostAmount(parts) =>
          var a := ReadCompoundAmount(parts, f);
          if !a.Parsed? {
            return a.PropagateFailure();
          }
          amount := a.value;
        case CostMerge => merge := true;
      }
      i := i + 1;
    }
    if node.kind == TotalCost {
      if amount.1.Some? {
        return Panicked(TotalCostPanic);
      }
      amount := (None, amount.0, amount.2);
    }
    r := Parsed(CostSpec(amount.0, amount.1, amount.2, date, labelText, merge));
  }

  // ---- Postings ----

  /** The optional cost of a posting. */
  function OptionalCost(node: Option<CostSpecNode>, f: Foreign): ParseResult<Option<CostSpec>>
  {
    match node
    case None => Parsed(None)
    case Some(c) => (var spec :- CostSpecOf(c, f); Parsed(Some(spec)))
  }

  /** The optional price of a posting: `@@` a total price, `@` a per-unit price. */
  function OptionalPrice(node: Option<PriceAnnotationNode>, f: Foreign): ParseResult<Option<PriceSpec>>
  {
    match node
    case None => Parsed(None)
    case Some(p) =>
      var anno :- PriceAnnotationOf(p, f);
      Parsed(Some(if anno.0 then Total(anno.1) else PerUnit(anno.1)))
  }

  /**
   * `posting`: flag, account, units (absent units are an empty incomplete amount), cost and
   * price, read in that order; a posting starts with no metadata.
   */
  function PostingOf(node: PostingNode, roots: map<AccountType, string>, f: Foreign): ParseResult<Posting>
  {
    var flag := match node.flag case None => None case Some(s) => Some(FlagFromText(s));
    var account :- AccountOf(node.account, roots, f);
    var units :- match node.units
      case None => Parsed(NoAmount())
      case Some(u) => IncompleteAmountOf(u, f);
    var cost :- OptionalCost(node.cost, f);
    var price :- OptionalPrice(node.price, f);
    Parsed(Posting(account, units, cost, price, flag, map[]))
  }

  /**
   * What a parsed posting holds: the written account; units only where written; a price exactly
   * when one was written, total exactly for `@@`; the written flag; no metadata.
   */
  lemma PostingContents(node: PostingNode, roots: map<AccountType, string>, f: Foreign)
    requires PostingOf(node, roots, f).Parsed?
    ensures var p := PostingOf(node, roots, f).value;
      && AccountOf(node.account, roots, f) == Parsed(p.account)
      && (node.units.None? ==> p.units == NoAmount())
      && (node.cost.Some? <==> p.cost.Some?)
      && (node.price.Some? <==> p.price.Some?)
      && (node.price.Some? ==> (p.price.value.Total? <==> node.price.value.total))
      && (node.price.Some? ==> p.price.value.amount == IncompleteAmountOf(node.price.value.amount, f).value)
      && (node.flag.Some? ==> p.flag == Some(FlagFromText(node.flag.value)))
      && (node.flag.None? ==> p.flag.None?)
      && p.meta == map[]
  {
  }

  /** The account is read first: a posting with an unknown root fails with that account error. */
  lemma PostingAccountFirst(node: PostingNode, roots: map<AccountType, string>, f: Foreign)
    requires !AccountOf(node.account, roots, f).Parsed?
    ensures PostingOf(node, roots, f) == AccountOf(node.account, roots, f).PropagateFailure()
  {
  }

  /** `posting`; the cost is read by `cost_spec`'s loop. */
  method ReadPosting(node: PostingNode, roots: map<AccountType, string>, f: Foreign) returns (r: ParseResult<Posting>)
    ensures r == PostingOf(node, roots, f)
  {
    var flag := match node.flag case None => None case Some(s) => Some(FlagFromText(s));
    var account :- AccountOf(node.account, roots, f);
    var units :- match node.units
      case None => Parsed(NoAmount())
      case Some(u) => IncompleteAmountOf(u, f);
    var cost: Option<CostSpec> := None;
    if node.cost.Some? {
      var spec :- ReadCostSpec(node.cost.value, f);
      cost := Some(spec);
    }
    var price :- OptionalPrice(node.price, f);
    r := Parsed(Posting(account, units, cost, price, flag, map[]));
  }
}
