/**
 * `parse`: walk the items of a file in order, keeping the pushed tags and the root names, and
 * collect the directives into a ledger.
 */
module Parser {
  import opened Wrappers
  import opened Strings
  import opened Accounts
  import opened Directives
  import opened Pest
  import opened ParseTree
  import opened ParseErrors
  import opened Externals
  import opened ParseStates
  import opened ParserValues
  import opened ParserDirectives

  /** The pushed tags as the end-of-input error lists them: each quoted, separated by commas. */
  function UnbalancedTags(order: seq<string>): string
  {
    Join(seq(|order|, i requires 0 <= i < |order| => "'" + order[i] + "'"), ", ")
  }

  /** The list is empty exactly when no tag is listed. */
  lemma UnbalancedTagsEmpty(order: seq<string>)
    ensures UnbalancedTags(order) == "" <==> |order| == 0
  {
    var parts := seq(|order|, i requires 0 <= i < |order| => "'" + order[i] + "'");
    if |order| > 0 {
      JoinStartsWithFirst(parts, ", ");
    }
  }

  /** The joined text is at least as long as its first part; `UnbalancedTagsEmpty` uses it for a non-empty list. */
  lemma {:induction false} JoinStartsWithFirst(parts: seq<string>, sep: string)
    requires |parts| >= 1
    ensures |Join(parts, sep)| >= |parts[0]|
  {
  }

  /** The root names after a directive: an option that renames a root rebinds it. */
  function Rebound(roots: map<AccountType, string>, d: Directive, f: Foreign): map<AccountType, string>
  {
    if d.OptionDirective? && f.rootNameChange(d.option).Some? then
      roots[f.rootNameChange(d.option).value.0 := f.rootNameChange(d.option).value.1]
    else roots
  }

  /**
   * The loop of `parse` from context `ctx`, having collected `acc`: end of input fails if any tag
   * is still pushed and otherwise stops; a push counts the tag; a pop of an absent tag fails;
   * a directive is read with the current context and appended.
   */
  function ParseFrom(items: seq<FileItem>, ctx: Context, acc: seq<Directive>, f: Foreign): ParseResult<Ledger>
    decreases |items|
  {
    if |items| == 0 then Parsed(Ledger(acc))
    else match items[0]
      case EndOfInput(span) =>
        var listed := UnbalancedTags(f.iterOrder(ctx.pushed.Keys));
        if listed != "" then Failed(InvalidInputWithSpan("Unbalanced pushed tag(s): " + listed, span))
        else Parsed(Ledger(acc))
      case PushTagItem(_, t) => ParseFrom(items[1..], ctx.(pushed := Pushed(ctx.pushed, ExtractTag(t))), acc, f)
      case PopTagItem(span, t) =>
        (match Popped(ctx.pushed, ExtractTag(t))
         case Err(msg) => Failed(InvalidInputWithSpan(msg, span))
         case Ok(m) => ParseFrom(items[1..], ctx.(pushed := m), acc, f))
      case DirectiveItem(node) =>
        var d :- DirectiveOf(node, ctx, f);
        ParseFrom(items[1..], ctx.(roots := Rebound(ctx.roots, d, f)), acc + [d], f)
  }

  /** `parse` over the items of the `file` rule. */
  function ParseLedger(items: seq<FileItem>, f: Foreign): ParseResult<Ledger>
  {
    ParseFrom(items, Context(InitialRoots(f), map[]), [], f)
  }

  /** The pushed tags, each quoted, separated by commas, as the end-of-input error lists them. */
  method ListPushedTags(state: ParseState, f: Foreign) returns (listed: string)
    requires ValidOrder(f)
    ensures listed == UnbalancedTags(f.iterOrder(state.pushedTags.Keys))
  {
    var pushed := state.PushedTags(f);
    var quoted: seq<string> := [];
    for j := 0 to |pushed|
      invariant quoted == seq(j, k requires 0 <= k < j => "'" + pushed[k] + "'")
    {
      quoted := quoted + ["'" + pushed[j] + "'"];
    }
    listed := Join(quoted, ", ");
  }

  /** `parse`. */
  method Parse(items: seq<FileItem>, f: Foreign) returns (r: ParseResult<Ledger>)
    requires ValidOrder(f)
    ensures r == ParseLedger(items, f)
  {
    var state := new ParseState(f);
    var directives: seq<Directive> := [];
    var i := 0;
    while i < |items|
      invariant 0 <= i <= |items|
      invariant state.Valid()
      invariant ParseLedger(items, f) == ParseFrom(items[i..], state.View(), directives, f)
    {
      assert items[i..][1..] == items[i + 1..];
      match items[i] {
        case EndOfInput(span) =>
          var listed := ListPushedTags(state, f);
          if listed != "" {
            return Failed(InvalidInputWithSpan("Unbalanced pushed tag(s): " + listed, span));
          }
          return Parsed(Ledger(directives));
        case PushTagItem(_, t) =>
          state.PushTag(ExtractTag(t));
        case PopTagItem(span, t) =>
          var popped := state.PopTag(ExtractTag(t));
          if popped.Err? {
            return Failed(InvalidInputWithSpan(popped.error, span));
          }
        case DirectiveItem(node) =>
          var d :- ReadDirective(node, state, f);
          if d.OptionDirective? && f.rootNameChange(d.option).Some? {
            var (ty, name) := f.rootNameChange(d.option).value;
            state.SetRootName(ty, name);
          }
          directives := directives + [d];
      }
      i := i + 1;
    }
    r := Parsed(Ledger(directives));
  }

  // ---- Properties of the loop ----

  /** At end of input the parse succeeds exactly when no tag is pushed; otherwise it names them. */
  lemma EndOfInputBalanced(span: Span, rest: seq<FileItem>, ctx: Context, acc: seq<Directive>, f: Foreign)
    requires ValidOrder(f)
    ensures ctx.pushed == map[] ==> ParseFrom([EndOfInput(span)] + rest, ctx, acc, f) == Parsed(Ledger(acc))
    ensures ctx.pushed != map[] ==>
      ParseFrom([EndOfInput(span)] + rest, ctx, acc, f) ==
        Failed(InvalidInputWithSpan("Unbalanced pushed tag(s): " + UnbalancedTags(f.iterOrder(ctx.pushed.Keys)), span))
  {
    var order := f.iterOrder(ctx.pushed.Keys);
    UnbalancedTagsEmpty(order);
    if ctx.pushed != map[] {
      var t :| t in ctx.pushed;
      assert t in order;
    }
  }

  /** Popping a tag that is not pushed fails at the pop. */
  lemma PopAbsentFails(span: Span, t: SigiledText, rest: seq<FileItem>, ctx: Context, acc: seq<Directive>, f: Foreign)
    requires ExtractTag(t) !in ctx.pushed
    ensures ParseFrom([PopTagItem(span, t)] + rest, ctx, acc, f) ==
      Failed(InvalidInputWithSpan("Attempting to pop absent tag: '" + ExtractTag(t) + "'", span))
  {
  }

  /** After an option that renames a root, the rest of the file is read with the new name. */
  lemma OptionRenamesRoot(node: DirectiveNode, rest: seq<FileItem>, ctx: Context, acc: seq<Directive>, f: Foreign)
    requires node.OptionNode?
    requires f.rootNameChange(BcOption(node.name.inner, node.val.inner, Some(node.span.text))).Some?
    ensures var opt := BcOption(node.name.inner, node.val.inner, Some(node.span.text));
      var (ty, name) := f.rootNameChange(opt).value;
      ParseFrom([DirectiveItem(node)] + rest, ctx, acc, f) ==
        ParseFrom(rest, ctx.(roots := ctx.roots[ty := name]), acc + [OptionDirective(opt)], f)
  {
    assert ([DirectiveItem(node)] + rest)[1..] == rest;
  }

  /** The directive items before the first end of input. */
  function DirectiveNodes(items: seq<FileItem>): seq<DirectiveNode>
  {
    if |items| == 0 || items[0].EndOfInput? then []
    else (if items[0].DirectiveItem? then [items[0].node] else []) + DirectiveNodes(items[1..])
  }

  /**
   * `ds` is what was collected before, then one directive per node, in order, each of its node's
   * kind and, except for the rules `parse` does not read, recording its node's text.
   */
  predicate CollectsNodes(ds: seq<Directive>, acc: seq<Directive>, nodes: seq<DirectiveNode>)
  {
    && |ds| == |acc| + |nodes|
    && ds[..|acc|] == acc
    && (forall k :: 0 <= k < |nodes| ==> SameKind(nodes[k], ds[|acc| + k]))
    && (forall k :: 0 <= k < |nodes| && !nodes[k].OtherNode? ==> SourceOf(ds[|acc| + k]) == Some(nodes[k].span.text))
  }

  /**
   * A parsed ledger holds what was collected before, then one directive per directive item up
   * to the end of input, in order, each of its rule's kind and recording its own text.
   */
  lemma {:induction false} ParseFromDirectives(items: seq<FileItem>, ctx: Context, acc: seq<Directive>, f: Foreign)
    requires ParseFrom(items, ctx, acc, f).Parsed?
    ensures CollectsNodes(ParseFrom(items, ctx, acc, f).value.directives, acc, DirectiveNodes(items))
    decreases |items|, 1
  {
    if |items| > 0 && !items[0].EndOfInput? {
      if items[0].DirectiveItem? {
        DirectiveCase(items, ctx, acc, f);
      } else {
        TagCase(items, ctx, acc, f);
      }
    }
  }

  /** The step of `ParseFromDirectives` at a tag push or pop. */
  lemma {:induction false} TagCase(items: seq<FileItem>, ctx: Context, acc: seq<Directive>, f: Foreign)
    requires |items| > 0 && (items[0].PushTagItem? || items[0].PopTagItem?) && ParseFrom(items, ctx, acc, f).Parsed?
    ensures CollectsNodes(ParseFrom(items, ctx, acc, f).value.directives, acc, DirectiveNodes(items))
    decreases |items|, 0
  {
    var next := TagStep(items, ctx, acc, f);
    ParseFromDirectives(items[1..], next, acc, f);
    assert DirectiveNodes(items) == DirectiveNodes(items[1..]);
  }

  /** The step of `ParseFromDirectives` at a directive item. */
  lemma {:induction false} DirectiveCase(items: seq<FileItem>, ctx: Context, acc: seq<Directive>, f: Foreign)
    requires |items| > 0 && items[0].DirectiveItem? && ParseFrom(items, ctx, acc, f).Parsed?
    ensures CollectsNodes(ParseFrom(items, ctx, acc, f).value.directives, acc, DirectiveNodes(items))
    decreases |items|, 0
  {
    var node := items[0].node;
    var tail := items[1..];
    var d := DirectiveStep(items, ctx, acc, f);
    DirectiveShape(node, ctx, f);
    ParseFromDirectives(tail, ctx.(roots := Rebound(ctx.roots, d, f)), acc + [d], f);
    assert DirectiveNodes(items) == [node] + DirectiveNodes(tail);
    ConsNodes(node, d, DirectiveNodes(tail), ParseFrom(items, ctx, acc, f).value.directives, acc);
  }

  /** A tag push, or a pop that succeeds, continues the loop in a context that differs only in the pushed tags. */
  lemma TagStep(items: seq<FileItem>, ctx: Context, acc: seq<Directive>, f: Foreign) returns (next: Context)
    requires |items| > 0 && (items[0].PushTagItem? || items[0].PopTagItem?) && ParseFrom(items, ctx, acc, f).Parsed?
    ensures next.roots == ctx.roots
    ensures ParseFrom(items, ctx, acc, f) == ParseFrom(items[1..], next, acc, f)
  {
    match items[0] {
      case PushTagItem(_, t) => next := ctx.(pushed := Pushed(ctx.pushed, ExtractTag(t)));
      case PopTagItem(_, t) => next := ctx.(pushed := Popped(ctx.pushed, ExtractTag(t)).value);
    }
  }

  /** A directive item that parses continues the loop with the directive appended. */
  lemma DirectiveStep(items: seq<FileItem>, ctx: Context, acc: seq<Directive>, f: Foreign) returns (d: Directive)
    requires |items| > 0 && items[0].DirectiveItem? && ParseFrom(items, ctx, acc, f).Parsed?
    ensures DirectiveOf(items[0].node, ctx, f) == Parsed(d)
    ensures ParseFrom(items, ctx, acc, f) == ParseFrom(items[1..], ctx.(roots := Rebound(ctx.roots, d, f)), acc + [d], f)
  {
    d := DirectiveOf(items[0].node, ctx, f).value;
  }

  /** Collecting `d` for `node` and then the rest is collecting `node` and the rest. */
  lemma ConsNodes(node: DirectiveNode, d: Directive, rest: seq<DirectiveNode>, ds: seq<Directive>, acc: seq<Directive>)
    requires CollectsNodes(ds, acc + [d], rest)
    requires SameKind(node, d) && (!node.OtherNode? ==> SourceOf(d) == Some(node.span.text))
    ensures CollectsNodes(ds, acc, [node] + rest)
  {
    var n := |acc|;
    var nodes := [node] + rest;
    assert ds[..n + 1][..n] == ds[..n];
    assert ds[n] == ds[..n + 1][n] == (acc + [d])[n];
    forall k | 0 < k < |nodes|
      ensures SameKind(nodes[k], ds[n + k])
      ensures !nodes[k].OtherNode? ==> SourceOf(ds[n + k]) == Some(nodes[k].span.text)
    {
      assert nodes[k] == rest[k - 1];
      assert |acc + [d]| + (k - 1) == n + k;
    }
  }

  // ---- Pushed and popped tags must balance ----

  /** A run of tag pushes and pops closed by end of input. */
  predicate TagsOnly(items: seq<FileItem>)
  {
    |items| >= 1 && items[|items| - 1].EndOfInput? &&
    forall i :: 0 <= i < |items| - 1 ==> items[i].PushTagItem? || items[i].PopTagItem?
  }

  function Pushes(items: seq<FileItem>, tag: string): nat
  {
    if |items| == 0 then 0
    else (if items[0].PushTagItem? && ExtractTag(items[0].tagText) == tag then 1 else 0) + Pushes(items[1..], tag)
  }

  function Pops(items: seq<FileItem>, tag: string): nat
  {
    if |items| == 0 then 0
    else (if items[0].PopTagItem? && ExtractTag(items[0].tagText) == tag then 1 else 0) + Pops(items[1..], tag)
  }

  /** No prefix pops a tag more often than it was pushed (counting the pushes already outstanding). */
  ghost predicate NeverOverPopped(items: seq<FileItem>, m: TagCounts)
  {
    forall k, t {:trigger Pops(items[..k], t)} :: 0 <= k <= |items| ==> Pops(items[..k], t) <= Count(m, t) + Pushes(items[..k], t)
  }

  /** In the end every tag is popped as often as it is pushed. */
  ghost predicate EndsBalanced(items: seq<FileItem>, m: TagCounts)
  {
    forall t {:trigger Pops(items, t)} :: Pops(items, t) == Count(m, t) + Pushes(items, t)
  }

  /**
   * A file of tag pushes and pops parses exactly when no prefix pops a tag more often than it is
   * pushed and every tag ends popped as often as it is pushed.
   */
  lemma {:induction false} TagBalance(items: seq<FileItem>, ctx: Context, acc: seq<Directive>, f: Foreign)
    requires ValidOrder(f) && TagsOnly(items) && Positive(ctx.pushed)
    ensures ParseFrom(items, ctx, acc, f).Parsed? <==> NeverOverPopped(items, ctx.pushed) && EndsBalanced(items, ctx.pushed)
    decreases |items|
  {
    var m := ctx.pushed;
    var x := items[0];
    var tail := items[1..];
    if x.EndOfInput? {
      assert |items| == 1;
      EndOfInputBalanced(x.span, tail, ctx, acc, f);
      assert [x] + tail == items;
      EndOfInputCounts(items, m);
    } else {
      assert TagsOnly(tail) by {
        forall i | 0 <= i < |tail| - 1 ensures tail[i].PushTagItem? || tail[i].PopTagItem? {
          assert tail[i] == items[i + 1];
        }
      }
      var tag := ExtractTag(x.tagText);
      if x.PushTagItem? {
        var m1 := Pushed(m, tag);
        PushedCounts(m, tag);
        TagBalance(tail, ctx.(pushed := m1), acc, f);
        StepCounts(items, m, m1);
      } else {
        PoppedCounts(m, tag);
        if tag in m {
          var m1 := Popped(m, tag).value;
          TagBalance(tail, ctx.(pushed := m1), acc, f);
          StepCounts(items, m, m1);
        } else {
          assert Pops(items[..1], tag) == 1 by {
            assert items[..1][1..] == [];
          }
          assert Pushes(items[..1], tag) == 0 by {
            assert items[..1][1..] == [];
          }
        }
      }
    }
  }

  /** With nothing but end of input left, the conditions say that no tag is outstanding. */
  lemma EndOfInputCounts(items: seq<FileItem>, m: TagCounts)
    requires |items| == 1 && items[0].EndOfInput? && Positive(m)
    ensures NeverOverPopped(items, m) && EndsBalanced(items, m) <==> m == map[]
  {
    forall k, t | 0 <= k <= 1 ensures Pops(items[..k], t) == 0 && Pushes(items[..k], t) == 0 {
      if k == 1 {
        assert items[..k][1..] == [];
      }
    }
    assert items[..1] == items;
    if m != map[] {
      var t :| t in m;
      assert Pops(items, t) != Count(m, t) + Pushes(items, t);
    }
  }

  /**
   * One push or pop moves the outstanding counts from `m` to `m1`; the conditions on the whole
   * run are those on the rest from `m1`, given that the first step itself was allowed.
   */
  lemma StepCounts(items: seq<FileItem>, m: TagCounts, m1: TagCounts)
    requires |items| >= 1 && (items[0].PushTagItem? || items[0].PopTagItem?)
    requires var tag := ExtractTag(items[0].tagText);
      && (items[0].PushTagItem? ==> Count(m1, tag) == Count(m, tag) + 1)
      && (items[0].PopTagItem? ==> Count(m, tag) >= 1 && Count(m1, tag) == Count(m, tag) - 1)
      && forall t :: t != tag ==> Count(m1, t) == Count(m, t)
    ensures NeverOverPopped(items, m) <==> NeverOverPopped(items[1..], m1)
    ensures EndsBalanced(items, m) <==> EndsBalanced(items[1..], m1)
  {
    var tail := items[1..];
    var tag := ExtractTag(items[0].tagText);
    forall k, t | 1 <= k <= |items|
      ensures Pops(items[..k], t) - Pushes(items[..k], t) == Pops(tail[..k - 1], t) - Pushes(tail[..k - 1], t)
        + (if items[0].PopTagItem? && t == tag then 1 else 0) - (if items[0].PushTagItem? && t == tag then 1 else 0)
    {
      assert items[..k][1..] == tail[..k - 1];
    }
    forall t ensures Count(m1, t) == Count(m, t)
      + (if items[0].PushTagItem? && t == tag then 1 else 0) - (if items[0].PopTagItem? && t == tag then 1 else 0)
    {
    }
    assert items[..|items|] == items && tail[..|tail|] == tail;
    if NeverOverPopped(items, m) {
      forall k, t | 0 <= k <= |tail| ensures Pops(tail[..k], t) <= Count(m1, t) + Pushes(tail[..k], t) {
        assert Pops(items[..k + 1], t) <= Count(m, t) + Pushes(items[..k + 1], t);
      }
    }
    if NeverOverPopped(tail, m1) {
      forall k, t | 0 <= k <= |items| ensures Pops(items[..k], t) <= Count(m, t) + Pushes(items[..k], t) {
        if k == 0 {
          assert items[..0] == [];
        } else {
          assert Pops(tail[..k - 1], t) <= Count(m1, t) + Pushes(tail[..k - 1], t);
        }
      }
    }
    if EndsBalanced(items, m) {
      forall t ensures Pops(tail, t) == Count(m1, t) + Pushes(tail, t) {
        assert Pops(items[..|items|], t) == Count(m, t) + Pushes(items[..|items|], t);
      }
    }
    if EndsBalanced(tail, m1) {
      forall t ensures Pops(items, t) == Count(m, t) + Pushes(items, t) {
        assert Pops(tail[..|tail|], t) == Count(m1, t) + Pushes(tail[..|tail|], t);
      }
    }
  }
}
