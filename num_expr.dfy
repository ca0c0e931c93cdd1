/**
 * Numbers and numeric expressions: `num` reads one literal, `num_expr` evaluates a flat list of
 * operands and operators with pest's Pratt parser and the precedence table
 * `+ -` (left, loosest) < `* /` (left) < prefix `- +`.
 */
module NumExprs {
  import opened Wrappers
  import opened CoreTypes
  import opened Pest
  import opened ParseTree
  import opened ParseErrors
  import opened Externals
  import opened Decimals

  /** `s.replace(',', "")`. */
  function RemoveCommas(s: string): string
  {
    if |s| == 0 then "" else (if s[0] == ',' then "" else [s[0]]) + RemoveCommas(s[1..])
  }

  /** Removing commas deletes every comma and keeps every other character as often as it occurs. */
  lemma {:induction false} RemoveCommasContents(s: string)
    ensures multiset(RemoveCommas(s)) == multiset(s)[',' := 0]
  {
    if |s| > 0 {
      RemoveCommasContents(s[1..]);
      assert s == [s[0]] + s[1..];
      assert multiset(s) == multiset{s[0]} + multiset(s[1..]);
    }
  }

  /** Removing commas works piece by piece, so the characters that stay keep their order. */
  lemma {:induction false} RemoveCommasAppend(a: string, b: string)
    ensures RemoveCommas(a + b) == RemoveCommas(a) + RemoveCommas(b)
  {
    if |a| > 0 {
      assert (a + b)[0] == a[0];
      assert (a + b)[1..] == a[1..] + b;
      RemoveCommasAppend(a[1..], b);
    } else {
      assert a + b == b;
    }
  }

  /** A text with no comma passes through unchanged. */
  lemma {:induction false} RemoveCommasIdentity(s: string)
    requires ',' !in s
    ensures RemoveCommas(s) == s
  {
    if |s| > 0 {
      assert ',' !in s[1..];
      RemoveCommasIdentity(s[1..]);
      assert [s[0]] + s[1..] == s;
    }
  }

  /** `num`: a literal with its thousands separators removed, read as a decimal. */
  function Num(token: NumToken, f: Foreign): (r: ParseResult<Decimal>)
    ensures !r.Panicked?
    ensures r.Parsed? <==> DecimalFromText(RemoveCommas(token.span.text)).Some?
    ensures r.Parsed? ==> r.value == DecimalFromText(RemoveCommas(token.span.text)).value
    ensures r.Failed? ==>
      r.error == DecimalParseError(DecimalFault(RemoveCommas(token.span.text)), token.span, f)
  {
    var s := RemoveCommas(token.span.text);
    match DecimalFromText(s)
    case Some(v) => Parsed(v)
    case None => Failed(DecimalParseError(DecimalFault(s), token.span, f))
  }

  // ---- The Pratt parser over a flat operand/operator list ----

  /** The shape the Pratt parser builds: operands at the leaves, infix operators inside. */
  datatype Tree<T> = Leaf(value: T) | Node(op: InfixOp, lhs: Tree<T>, rhs: Tree<T>)

  /** The precedence table: additive operators bind loosest, multiplicative tighter. */
  function Precedence(op: InfixOp): nat
  {
    match op
    case Add | Subtract => 1
    case Multiply | Divide => 2
  }

  predicate Tight(op: InfixOp)
  {
    Precedence(op) == 2
  }

  predicate AllTight<T>(chain: seq<(InfixOp, T)>)
  {
    forall i :: 0 <= i < |chain| ==> Tight(chain[i].0)
  }

  /** The rest of the list is empty or starts with a loose operator. */
  predicate StartsLoose<T>(tail: seq<(InfixOp, T)>)
  {
    |tail| == 0 || !Tight(tail[0].0)
  }

  /**
   * Pratt parsing: extend `lhs` with every following operator that binds tighter than
   * `minPrec`; a left-associative operator parses its right operand at its own precedence.
   * Returns the tree and the part of the list left unparsed.
   */
  function Climb<T>(lhs: Tree<T>, rest: seq<(InfixOp, T)>, minPrec: nat): (r: (Tree<T>, seq<(InfixOp, T)>))
    ensures |r.1| <= |rest|
    ensures |r.1| == 0 || Precedence(r.1[0].0) <= minPrec
    decreases |rest|
  {
    if |rest| == 0 || Precedence(rest[0].0) <= minPrec then (lhs, rest)
    else
      var op := rest[0].0;
      var inner := Climb(Leaf(rest[0].1), rest[1..], Precedence(op));
      Climb(Node(op, lhs, inner.0), inner.1, minPrec)
  }

  /** What a climb leaves unparsed is a tail of its input: it consumes a prefix and nothing else. */
  lemma {:induction false} ClimbLeavesSuffix<T>(lhs: Tree<T>, rest: seq<(InfixOp, T)>, minPrec: nat)
    ensures Climb(lhs, rest, minPrec).1 == rest[|rest| - |Climb(lhs, rest, minPrec).1|..]
    decreases |rest|
  {
    if |rest| > 0 && Precedence(rest[0].0) > minPrec {
      var op := rest[0].0;
      var inner := Climb(Leaf(rest[0].1), rest[1..], Precedence(op));
      ClimbLeavesSuffix(Leaf(rest[0].1), rest[1..], Precedence(op));
      ClimbLeavesSuffix(Node(op, lhs, inner.0), inner.1, minPrec);
      var out := Climb(Node(op, lhs, inner.0), inner.1, minPrec).1;
      assert Climb(lhs, rest, minPrec).1 == out;
      SuffixOfSuffix(rest, inner.1, out);
    }
  }

  lemma SuffixOfSuffix<X>(a: seq<X>, b: seq<X>, c: seq<X>)
    requires |b| < |a| && b == a[1..][|a| - 1 - |b|..]
    requires |c| <= |b| && c == b[|b| - |c|..]
    ensures c == a[|a| - |c|..]
  {
    assert b == a[|a| - |b|..];
  }

  /** The tree for a whole expression. */
  function PrattTree<T>(first: T, rest: seq<(InfixOp, T)>): Tree<T>
  {
    Climb(Leaf(first), rest, 0).0
  }

  /** The reference shape of a left-associative chain: each operator takes everything to its left. */
  function LeftFold<T>(lhs: Tree<T>, chain: seq<(InfixOp, T)>): Tree<T>
    decreases |chain|
  {
    if |chain| == 0 then lhs else LeftFold(Node(chain[0].0, lhs, Leaf(chain[0].1)), chain[1..])
  }

  /** A parse at the loosest levels swallows a whole tight chain as a left fold. */
  lemma {:induction false} ClimbTightChain<T>(lhs: Tree<T>, chain: seq<(InfixOp, T)>, tail: seq<(InfixOp, T)>, m: nat)
    requires m < 2 && AllTight(chain) && StartsLoose(tail)
    ensures Climb(lhs, chain + tail, m) == Climb(LeftFold(lhs, chain), tail, m)
    decreases |chain|
  {
    if |chain| > 0 {
      var s := chain + tail;
      assert s[0] == chain[0];
      assert s[1..] == chain[1..] + tail;
      var rhsTail := chain[1..] + tail;
      assert |rhsTail| == 0 || Precedence(rhsTail[0].0) <= 2;
      assert Climb(Leaf(chain[0].1), rhsTail, 2) == (Leaf(chain[0].1), rhsTail);
      assert AllTight(chain[1..]) by {
        forall i | 0 <= i < |chain[1..]| ensures Tight(chain[1..][i].0) {
          assert chain[1..][i] == chain[i + 1];
        }
      }
      ClimbTightChain(Node(chain[0].0, lhs, Leaf(chain[0].1)), chain[1..], tail, m);
    } else {
      assert chain + tail == tail;
    }
  }

  /** A loose operator at the top level takes the following tight chain as its right operand. */
  lemma ClimbLooseStep<T>(lhs: Tree<T>, op: InfixOp, y: T, chain: seq<(InfixOp, T)>, tail: seq<(InfixOp, T)>)
    requires !Tight(op) && AllTight(chain) && StartsLoose(tail)
    ensures Climb(lhs, [(op, y)] + chain + tail, 0)
      == Climb(Node(op, lhs, LeftFold(Leaf(y), chain)), tail, 0)
  {
    var s := [(op, y)] + chain + tail;
    assert s[0] == (op, y);
    assert s[1..] == chain + tail;
    ClimbTightChain(Leaf(y), chain, tail, 1);
    assert Climb(LeftFold(Leaf(y), chain), tail, 1) == (LeftFold(Leaf(y), chain), tail);
  }

  /** The length of the longest prefix made of tight operators. */
  function TightPrefix<T>(s: seq<(InfixOp, T)>): (k: nat)
    ensures k <= |s| && AllTight(s[..k]) && StartsLoose(s[k..])
  {
    if |s| == 0 || !Tight(s[0].0) then 0
    else
      var k := 1 + TightPrefix(s[1..]);
      assert AllTight(s[..k]) by {
        forall i | 0 <= i < k ensures Tight(s[..k][i].0) {
          if i > 0 {
            assert s[..k][i] == s[1..][..k - 1][i - 1];
          }
        }
      }
      assert s[k..] == s[1..][k - 1..];
      k
  }

  /** A chain of only tight operators is their left fold: `a * b / c` is `(a * b) / c`. */
  lemma TightChainIsLeftFold<T>(first: T, chain: seq<(InfixOp, T)>)
    requires AllTight(chain)
    ensures PrattTree(first, chain) == LeftFold(Leaf(first), chain)
  {
    assert chain + [] == chain;
    ClimbTightChain(Leaf(first), chain, [], 0);
  }

  /** Consuming one loose operator and the tight chain after it, at the top level. */
  lemma LooseGroup<T>(t0: Tree<T>, s1: seq<(InfixOp, T)>, after: seq<(InfixOp, T)>)
    returns (t1: Tree<T>, s3: seq<(InfixOp, T)>)
    requires |s1| > 0 && !Tight(s1[0].0) && StartsLoose(after)
    ensures |s3| < |s1|
    ensures Climb(t0, s1, 0) == Climb(t1, s3, 0)
    ensures Climb(t0, s1 + after, 0) == Climb(t1, s3 + after, 0)
  {
    var op, y, c1;
    op, y, c1, s3 := LooseSplit(s1, after);
    t1 := Node(op, t0, LeftFold(Leaf(y), c1));
    ClimbLooseStep(t0, op, y, c1, s3);
    ClimbLooseStep(t0, op, y, c1, s3 + after);
  }

  /** A list that starts with a loose operator is that operator, a tight chain, and the rest. */
  lemma LooseSplit<T>(s1: seq<(InfixOp, T)>, after: seq<(InfixOp, T)>)
    returns (op: InfixOp, y: T, c1: seq<(InfixOp, T)>, s3: seq<(InfixOp, T)>)
    requires |s1| > 0 && !Tight(s1[0].0) && StartsLoose(after)
    ensures !Tight(op) && AllTight(c1) && StartsLoose(s3) && StartsLoose(s3 + after) && |s3| < |s1|
    ensures s1 == [(op, y)] + c1 + s3
    ensures s1 + after == [(op, y)] + c1 + (s3 + after)
  {
    op, y := s1[0].0, s1[0].1;
    var s2 := s1[1..];
    var k1 := TightPrefix(s2);
    c1, s3 := s2[..k1], s2[k1..];
    assert s2 == c1 + s3;
  }

  /**
   * The last loose operator is the root: its left operand is everything before it, its right
   * operand the tight chain after it. With `TightChainIsLeftFold`, this fixes the tree of every
   * expression: `+ -` bind looser than `* /`, and all of them associate to the left.
   */
  lemma {:induction false} LastLooseIsRoot<T>(lhs: Tree<T>, s: seq<(InfixOp, T)>, op: InfixOp, y: T, chain: seq<(InfixOp, T)>)
    requires !Tight(op) && AllTight(chain)
    ensures Climb(lhs, s + [(op, y)] + chain, 0).0
      == Node(op, Climb(lhs, s, 0).0, LeftFold(Leaf(y), chain))
    decreases |s|
  {
    var after := [(op, y)] + chain;
    var c0, s1 := TightSplit(s, op, y, chain);
    var t0 := LeftFold(lhs, c0);
    ClimbTightChain(lhs, c0, s1 + after, 0);
    ClimbTightChain(lhs, c0, s1, 0);
    if |s1| == 0 {
      ClimbLooseStep(t0, op, y, chain, []);
    } else {
      var t1, s3 := LooseGroup(t0, s1, after);
      assert s3 + after == s3 + [(op, y)] + chain;
      LastLooseIsRoot(t1, s3, op, y, chain);
    }
  }

  /** A list is its leading tight chain and the rest, before and after appending a loose operator. */
  lemma TightSplit<T>(s: seq<(InfixOp, T)>, op: InfixOp, y: T, chain: seq<(InfixOp, T)>)
    returns (c0: seq<(InfixOp, T)>, s1: seq<(InfixOp, T)>)
    requires !Tight(op)
    ensures AllTight(c0) && StartsLoose(s1) && StartsLoose(s1 + ([(op, y)] + chain)) && |s1| <= |s|
    ensures s == c0 + s1
    ensures s + [(op, y)] + chain == c0 + (s1 + ([(op, y)] + chain))
    ensures |s1| == 0 ==> s1 + ([(op, y)] + chain) == [(op, y)] + chain + []
  {
    var k := TightPrefix(s);
    c0, s1 := s[..k], s[k..];
    assert s == c0 + s1;
  }

  // ---- Evaluation ----

  /**
   * One infix step of `map_infix`. Operand values are computed left to right before the step,
   * so a panic on the left wins, then a panic on the right; otherwise `lhs?` then `rhs?` return
   * the first error. Dividing by zero panics.
   */
  function ApplyInfix(op: InfixOp, lhs: ParseResult<Decimal>, rhs: ParseResult<Decimal>): ParseResult<Decimal>
  {
    if lhs.Panicked? then lhs
    else if rhs.Panicked? then rhs
    else if lhs.Failed? then lhs
    else if rhs.Failed? then rhs
    else
      match op
      case Add => Parsed(lhs.value + rhs.value)
      case Subtract => Parsed(lhs.value - rhs.value)
      case Multiply => Parsed(lhs.value * rhs.value)
      case Divide => if rhs.value == 0.0 then Panicked("Division by zero") else Parsed(lhs.value / rhs.value)
  }

  function EvalTree(t: Tree<ParseResult<Decimal>>): ParseResult<Decimal>
  {
    match t
    case Leaf(v) => v
    case Node(op, l, r) => ApplyInfix(op, EvalTree(l), EvalTree(r))
  }

  /** `map_prefix`: `-` flips the sign, `+` changes nothing; a failure passes through. */
  function ApplyPrefix(op: PrefixOp, v: ParseResult<Decimal>): ParseResult<Decimal>
  {
    match v
    case Parsed(x) => if op == NegSign then Parsed(-x) else v
    case _ => v
  }

  /** Prefixes apply innermost first: `- + 3` is `-(+(3))`. */
  function ApplyPrefixes(ops: seq<PrefixOp>, v: ParseResult<Decimal>): ParseResult<Decimal>
  {
    if |ops| == 0 then v else ApplyPrefix(ops[0], ApplyPrefixes(ops[1..], v))
  }

  function OperandValue(u: Operand, f: Foreign): ParseResult<Decimal>
    decreases u
  {
    ApplyPrefixes(u.prefixes, PrimaryValue(u.primary, f))
  }

  /** `map_primary`: a number literal or a nested expression. */
  function PrimaryValue(p: Primary, f: Foreign): ParseResult<Decimal>
    decreases p
  {
    match p
    case Number(token) => Num(token, f)
    case Group(e) => NumExprValue(e, f)
  }

  /** `num_expr`: the Pratt parser's tree over the operands, evaluated step by step. */
  function NumExprValue(e: NumExpr, f: Foreign): (r: ParseResult<Decimal>)
    ensures |e.rest| == 0 ==> r == OperandValue(e.first, f)
    decreases e
  {
    var steps := seq(|e.rest|, i requires 0 <= i < |e.rest| => (e.rest[i].op, OperandValue(e.rest[i].operand, f)));
    EvalTree(PrattTree(OperandValue(e.first, f), steps))
  }

  /** The operator/value list the Pratt parser sees for a list of steps. */
  function StepValues(steps: seq<Step>, f: Foreign): (r: seq<(InfixOp, ParseResult<Decimal>)>)
    ensures |r| == |steps|
    ensures forall i :: 0 <= i < |steps| ==> r[i] == (steps[i].op, OperandValue(steps[i].operand, f))
  {
    seq(|steps|, i requires 0 <= i < |steps| => (steps[i].op, OperandValue(steps[i].operand, f)))
  }

  lemma NumExprValueSteps(e: NumExpr, f: Foreign)
    ensures NumExprValue(e, f) == EvalTree(PrattTree(OperandValue(e.first, f), StepValues(e.rest, f)))
  {
    var steps := seq(|e.rest|, i requires 0 <= i < |e.rest| => (e.rest[i].op, OperandValue(e.rest[i].operand, f)));
    assert steps == StepValues(e.rest, f);
  }

  lemma StepValuesAppend(a: seq<Step>, b: seq<Step>, f: Foreign)
    ensures StepValues(a + b, f) == StepValues(a, f) + StepValues(b, f)
  {
  }

  predicate AllTightSteps(steps: seq<Step>)
  {
    forall i :: 0 <= i < |steps| ==> Tight(steps[i].op)
  }

  /** The value of a left fold is the step-by-step combination of its operands. */
  function FoldValues(acc: ParseResult<Decimal>, chain: seq<(InfixOp, ParseResult<Decimal>)>): ParseResult<Decimal>
    decreases |chain|
  {
    if |chain| == 0 then acc else FoldValues(ApplyInfix(chain[0].0, acc, chain[0].1), chain[1..])
  }

  lemma {:induction false} EvalLeftFold(t: Tree<ParseResult<Decimal>>, chain: seq<(InfixOp, ParseResult<Decimal>)>)
    ensures EvalTree(LeftFold(t, chain)) == FoldValues(EvalTree(t), chain)
    decreases |chain|
  {
    if |chain| > 0 {
      EvalLeftFold(Node(chain[0].0, t, Leaf(chain[0].1)), chain[1..]);
    }
  }

  /** `a * b / c` evaluates as `(a * b) / c`: a purely multiplicative expression folds from the left. */
  lemma TightExprFolds(e: NumExpr, f: Foreign)
    requires AllTightSteps(e.rest)
    ensures NumExprValue(e, f) == FoldValues(OperandValue(e.first, f), StepValues(e.rest, f))
  {
    var steps := StepValues(e.rest, f);
    assert AllTight(steps);
    NumExprValueSteps(e, f);
    TightChainIsLeftFold(OperandValue(e.first, f), steps);
    EvalLeftFold(Leaf(OperandValue(e.first, f)), steps);
  }

  /**
   * `x ⊕ y * z ...` with `⊕` additive: the value is `⊕` applied to the value of everything before
   * it and the value of the multiplicative chain after it. So `1 + 2 * 3` is `1 + (2 * 3)` and
   * `8 - 2 - 1` is `(8 - 2) - 1`.
   */
  lemma LooseOperatorSplits(first: Operand, before: seq<Step>, op: InfixOp, u: Operand, chain: seq<Step>, f: Foreign)
    requires !Tight(op) && AllTightSteps(chain)
    ensures NumExprValue(NumExpr(first, before + [Step(op, u)] + chain), f)
      == ApplyInfix(op, NumExprValue(NumExpr(first, before), f), NumExprValue(NumExpr(u, chain), f))
  {
    StepValuesAppend(before + [Step(op, u)], chain, f);
    StepValuesAppend(before, [Step(op, u)], f);
    var sb := StepValues(before, f);
    var sc := StepValues(chain, f);
    var uv := OperandValue(u, f);
    assert StepValues([Step(op, u)], f) == [(op, uv)];
    assert StepValues(before + [Step(op, u)] + chain, f) == sb + [(op, uv)] + sc;
    assert AllTight(sc);
    LastLooseIsRoot(Leaf(OperandValue(first, f)), sb, op, uv, sc);
    TightChainIsLeftFold(uv, sc);
    NumExprValueSteps(NumExpr(first, before + [Step(op, u)] + chain), f);
    NumExprValueSteps(NumExpr(first, before), f);
    NumExprValueSteps(NumExpr(u, chain), f);
  }

  /**
   * `a ⊕ b`: a panic in `a` wins, then a panic in `b`, then the failure of `a`, then that of `b`;
   * two numbers combine by the operator, and dividing by zero panics.
   */
  lemma BinaryExprValue(a: Operand, op: InfixOp, b: Operand, f: Foreign)
    ensures InfixOrder(op, OperandValue(a, f), OperandValue(b, f), NumExprValue(NumExpr(a, [Step(op, b)]), f))
  {
    BinaryExprTree(a, op, b, f);
    InfixStepOrder(op, OperandValue(a, f), OperandValue(b, f));
  }

  /** The order in which one infix step reports a panic or a failure, and what it computes otherwise. */
  predicate InfixOrder(op: InfixOp, va: ParseResult<Decimal>, vb: ParseResult<Decimal>, r: ParseResult<Decimal>)
  {
    (va.Panicked? ==> r == va) &&
    (!va.Panicked? && vb.Panicked? ==> r == vb) &&
    (va.Failed? && !vb.Panicked? ==> r == va) &&
    (va.Parsed? && vb.Failed? ==> r == vb) &&
    (va.Parsed? && vb.Parsed? ==>
      match op
      case Add => r == Parsed(va.value + vb.value)
      case Subtract => r == Parsed(va.value - vb.value)
      case Multiply => r == Parsed(va.value * vb.value)
      case Divide =>
        if vb.value == 0.0 then r == Panicked("Division by zero") else r == Parsed(va.value / vb.value))
  }

  lemma InfixStepOrder(op: InfixOp, va: ParseResult<Decimal>, vb: ParseResult<Decimal>)
    ensures InfixOrder(op, va, vb, ApplyInfix(op, va, vb))
  {
  }

  /** A single infix step is one node over the two operands. */
  lemma BinaryExprTree(a: Operand, op: InfixOp, b: Operand, f: Foreign)
    ensures NumExprValue(NumExpr(a, [Step(op, b)]), f) == ApplyInfix(op, OperandValue(a, f), OperandValue(b, f))
  {
    var va, vb := OperandValue(a, f), OperandValue(b, f);
    NumExprValueSteps(NumExpr(a, [Step(op, b)]), f);
    assert StepValues([Step(op, b)], f) == [(op, vb)];
    assert Climb(Leaf(vb), [], Precedence(op)) == (Leaf(vb), []);
    assert Climb(Leaf(va), [(op, vb)], 0) == Climb(Node(op, Leaf(va), Leaf(vb)), [], 0);
  }

  /** A prefix `-` negates and a prefix `+` is the identity. */
  lemma PrefixSigns(p: Primary, f: Foreign)
    ensures PrimaryValue(p, f).Parsed? ==>
      OperandValue(Operand([NegSign], p), f) == Parsed(-PrimaryValue(p, f).value)
    ensures OperandValue(Operand([PosSign], p), f) == PrimaryValue(p, f)
    ensures OperandValue(Operand([NegSign, NegSign], p), f) == PrimaryValue(p, f)
  {
    var v := PrimaryValue(p, f);
    assert [NegSign][1..] == [];
    assert [PosSign][1..] == [];
    assert [NegSign, NegSign][1..] == [NegSign];
    assert ApplyPrefixes([], v) == v;
    assert ApplyPrefixes([NegSign], v) == ApplyPrefix(NegSign, ApplyPrefixes([], v));
    assert OperandValue(Operand([NegSign], p), f) == ApplyPrefixes([NegSign], v);
    assert OperandValue(Operand([PosSign], p), f) == ApplyPrefix(PosSign, v);
    assert OperandValue(Operand([NegSign, NegSign], p), f) == ApplyPrefix(NegSign, ApplyPrefix(NegSign, v));
  }
}
