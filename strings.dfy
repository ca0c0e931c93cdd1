/** Text helpers shared by the parser and the renderer: joining, splitting and enumerating sets of keys. */
module Strings {

  /** `parts.join(sep)`: the parts with `sep` between neighbours. */
  function Join(parts: seq<string>, sep: string): string
  {
    if |parts| == 0 then ""
    else if |parts| == 1 then parts[0]
    else parts[0] + sep + Join(parts[1..], sep)
  }

  /** The text split at every occurrence of the character `c`; the inverse of joining with `[c]`. */
  function SplitOn(s: string, c: char): (r: seq<string>)
    ensures |r| >= 1
  {
    if |s| == 0 then [""]
    else if s[0] == c then [""] + SplitOn(s[1..], c)
    else var rest := SplitOn(s[1..], c); [[s[0]] + rest[0]] + rest[1..]
  }

  /** No part contains the separator character. */
  predicate FreeOf(parts: seq<string>, c: char)
  {
    forall i :: 0 <= i < |parts| ==> c !in parts[i]
  }

  /** Splitting a single part that does not contain `c` gives that part back alone. */
  lemma {:induction false} SplitPlain(s: string, c: char)
    requires c !in s
    ensures SplitOn(s, c) == [s]
  {
    if |s| > 0 {
      assert c !in s[1..];
      SplitPlain(s[1..], c);
      assert s[0] != c;
      assert [s[0]] + s[1..] == s;
    }
  }

  /** Splitting `a + [c] + b` cuts exactly at the `c` that was inserted, if `a` holds no `c`. */
  lemma {:induction false} SplitAfterPlain(a: string, c: char, b: string)
    requires c !in a
    ensures SplitOn(a + [c] + b, c) == [a] + SplitOn(b, c)
  {
    if |a| == 0 {
      assert a + [c] + b == [c] + b;
      assert ([c] + b)[1..] == b;
    } else {
      assert (a + [c] + b)[1..] == a[1..] + [c] + b;
      assert c !in a[1..];
      SplitAfterPlain(a[1..], c, b);
      assert [a[0]] + a[1..] == a;
    }
  }

  /** Splitting undoes joining, provided no part contains the separator. */
  lemma {:induction false} SplitJoin(parts: seq<string>, c: char)
    requires |parts| >= 1
    requires FreeOf(parts, c)
    ensures SplitOn(Join(parts, [c]), c) == parts
  {
    if |parts| == 1 {
      SplitPlain(parts[0], c);
    } else {
      assert FreeOf(parts[1..], c) by {
        forall i | 0 <= i < |parts[1..]| ensures c !in parts[1..][i] {
          assert parts[1..][i] == parts[i + 1];
        }
      }
      assert c !in parts[0];
      SplitJoin(parts[1..], c);
      SplitAfterPlain(parts[0], c, Join(parts[1..], [c]));
      assert [parts[0]] + parts[1..] == parts;
    }
  }

  /** Concatenation of all the texts in order. */
  function Concat(texts: seq<string>): string
  {
    if |texts| == 0 then "" else texts[0] + Concat(texts[1..])
  }

  lemma {:induction false} ConcatAppend(texts: seq<string>, t: string)
    ensures Concat(texts + [t]) == Concat(texts) + t
  {
    if |texts| == 0 {
      assert texts + [t] == [t];
    } else {
      assert (texts + [t])[1..] == texts[1..] + [t];
      ConcatAppend(texts[1..], t);
    }
  }

  /** Joining one more part adds the separator and the part. */
  lemma {:induction false} JoinAppend(parts: seq<string>, sep: string, p: string)
    requires |parts| >= 1
    ensures Join(parts + [p], sep) == Join(parts, sep) + sep + p
  {
    if |parts| == 1 {
      assert (parts + [p])[1..] == [p];
    } else {
      assert (parts + [p])[1..] == parts[1..] + [p];
      JoinAppend(parts[1..], sep, p);
    }
  }

  /** Appending is associative; stated once so that writers can regroup what they have written. */
  lemma AppendAssoc(a: string, b: string, c: string)
    ensures (a + b) + c == a + (b + c)
  {
  }

  /** A common prefix can be dropped. */
  lemma DropPrefix(p: string, x: string, y: string)
    requires p + x == p + y
    ensures x == y
  {
    assert x == (p + x)[|p|..];
    assert y == (p + y)[|p|..];
  }

  /** The text ends with a line break. */
  predicate EndsLine(s: string)
  {
    |s| >= 1 && s[|s| - 1] == '\n'
  }

  /** Appending a text that ends a line, or nothing, to one that does, ends a line. */
  lemma EndsLineAfter(s: string, t: string)
    requires EndsLine(t) || (EndsLine(s) && t == "")
    ensures EndsLine(s + t)
  {
    if t == "" {
      assert s + t == s;
    }
  }

  /** Texts that each end a line concatenate to nothing or to a text that ends a line. */
  lemma {:induction false} ConcatEndsLine(texts: seq<string>)
    requires forall i :: 0 <= i < |texts| ==> EndsLine(texts[i])
    ensures Concat(texts) == "" || EndsLine(Concat(texts))
  {
    if |texts| > 0 {
      ConcatEndsLine(texts[1..]);
      EndsLineAfter(texts[0], Concat(texts[1..]));
    }
  }

  /** The concatenation around any one of its texts. */
  lemma {:induction false} ConcatAround(texts: seq<string>, i: nat)
    requires i < |texts|
    ensures Concat(texts) == Concat(texts[..i]) + texts[i] + Concat(texts[i + 1..])
  {
    if i == 0 {
      assert texts[..0] == [];
    } else {
      ConcatAround(texts[1..], i - 1);
      assert texts[1..][..i - 1] == texts[1..i];
      assert texts[1..][i - 1 + 1..] == texts[i + 1..];
      assert texts[..i][0] == texts[0] && texts[..i][1..] == texts[1..i];
    }
  }

  /** `order` lists every element of `s` exactly once: the shape of a walk over a hash set's keys. */
  predicate IsEnumeration(order: seq<string>, s: set<string>)
  {
    (forall i :: 0 <= i < |order| ==> order[i] in s)
    && (forall x :: x in s ==> x in order)
    && (forall i, j :: 0 <= i < j < |order| ==> order[i] != order[j])
  }

  /** A walk over a set is as long as the set is large. */
  lemma {:induction false} EnumerationSize(order: seq<string>, s: set<string>)
    requires IsEnumeration(order, s)
    ensures |order| == |s|
  {
    if |order| == 0 {
      assert forall x :: x !in s;
      assert s == {};
    } else {
      var rest, others := order[1..], s - {order[0]};
      forall x | x in others ensures x in rest {
        var i :| 0 <= i < |order| && order[i] == x;
        assert i != 0;
        assert rest[i - 1] == x;
      }
      forall i, j | 0 <= i < j < |rest| ensures rest[i] != rest[j] {
        assert rest[i] == order[i + 1] && rest[j] == order[j + 1];
      }
      forall i | 0 <= i < |rest| ensures rest[i] in others {
        assert rest[i] == order[i + 1];
      }
      EnumerationSize(rest, others);
    }
  }
}
