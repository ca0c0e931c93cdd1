/**
 * Decimal text: reading an unsigned decimal literal (what `Decimal::from_str` accepts once the
 * grammar has matched a number) and writing a natural number in base ten (`usize` display).
 */
module Decimals {
  import opened Wrappers

  predicate IsDigit(c: char)
  {
    '0' <= c <= '9'
  }

  predicate AllDigits(s: string)
  {
    forall i :: 0 <= i < |s| ==> IsDigit(s[i])
  }

  function DigitValue(c: char): nat
    requires IsDigit(c)
  {
    c as int - '0' as int
  }

  function DigitChar(d: nat): (c: char)
    requires d < 10
    ensures IsDigit(c) && DigitValue(c) == d
  {
    ('0' as int + d) as char
  }

  /** The value of a string of digits, most significant first. */
  function DigitsValue(s: string): nat
    requires AllDigits(s)
  {
    if |s| == 0 then 0 else DigitsValue(s[..|s| - 1]) * 10 + DigitValue(s[|s| - 1])
  }

  function Pow10(k: nat): (r: nat)
    ensures r >= 1
  {
    if k == 0 then 1 else 10 * Pow10(k - 1)
  }

  /** The position of the first '.', or `|s|` when there is none. */
  function DotIndex(s: string): (k: nat)
    ensures k <= |s|
    ensures k < |s| ==> s[k] == '.'
    ensures forall i :: 0 <= i < k ==> s[i] != '.'
  {
    if |s| == 0 then 0 else if s[0] == '.' then 0 else 1 + DotIndex(s[1..])
  }

  /**
   * An unsigned decimal literal: one or more digits, optionally followed by '.' and more digits.
   * Anything else is rejected.
   */
  function DecimalFromText(s: string): Option<real>
  {
    var k := DotIndex(s);
    var whole := s[..k];
    if |whole| == 0 || !AllDigits(whole) then None
    else if k == |s| then Some(DigitsValue(whole) as real)
    else
      var frac := s[k + 1..];
      if !AllDigits(frac) then None
      else Some(DigitsValue(whole) as real + DigitsValue(frac) as real / Pow10(|frac|) as real)
  }

  /** A string of k digits is worth less than ten to the k. */
  lemma {:induction false} DigitsBelowPow10(s: string)
    requires AllDigits(s)
    ensures DigitsValue(s) < Pow10(|s|)
  {
    if |s| > 0 {
      var p := s[..|s| - 1];
      assert AllDigits(p) by {
        forall i | 0 <= i < |p| ensures IsDigit(p[i]) { assert p[i] == s[i]; }
      }
      DigitsBelowPow10(p);
      assert DigitsValue(s) == DigitsValue(p) * 10 + DigitValue(s[|s| - 1]);
      assert DigitsValue(p) * 10 <= (Pow10(|p|) - 1) * 10;
    }
  }

  /** The digits after the point add less than one: a literal lies between its whole part and the next integer. */
  lemma DecimalWholePart(s: string)
    requires DecimalFromText(s).Some?
    ensures DigitsValue(s[..DotIndex(s)]) as real <= DecimalFromText(s).value
    ensures DecimalFromText(s).value < DigitsValue(s[..DotIndex(s)]) as real + 1.0
  {
    var k := DotIndex(s);
    if k < |s| {
      var frac := s[k + 1..];
      DigitsBelowPow10(frac);
      var d, p := DigitsValue(frac) as real, Pow10(|frac|) as real;
      assert 0.0 <= d < p;
      assert d / p < 1.0;
    }
  }

  /** `usize` display: the shortest base-ten digit string. */
  function NatText(n: nat): (r: string)
    ensures |r| >= 1 && AllDigits(r)
  {
    if n < 10 then [DigitChar(n)] else NatText(n / 10) + [DigitChar(n % 10)]
  }

  /** Reading the digits back gives the number. */
  lemma {:induction false} NatTextValue(n: nat)
    ensures DigitsValue(NatText(n)) == n
  {
    if n >= 10 {
      NatTextValue(n / 10);
      var r := NatText(n);
      assert r[..|r| - 1] == NatText(n / 10);
    }
  }

  /** Writing a number and reading it as a decimal literal gives the same value. */
  lemma NatTextReadsBack(n: nat)
    ensures DecimalFromText(NatText(n)) == Some(n as real)
  {
    var s := NatText(n);
    assert DotIndex(s) == |s|;
    assert s[..|s|] == s;
    NatTextValue(n);
  }

  /** The longest run of digits a text starts with. */
  function DigitRun(t: string): (r: string)
    ensures AllDigits(r)
  {
    if |t| == 0 || !IsDigit(t[0]) then [] else [t[0]] + DigitRun(t[1..])
  }

  /** A digit string followed by a non-digit is exactly the digit run of the whole text. */
  lemma {:induction false} DigitRunOf(x: string, s: string)
    requires AllDigits(x)
    requires |s| >= 1 && !IsDigit(s[0])
    ensures DigitRun(x + s) == x
  {
    if |x| == 0 {
      assert x + s == s;
    } else {
      assert (x + s)[1..] == x[1..] + s;
      DigitRunOf(x[1..], s);
      assert [x[0]] + x[1..] == x;
    }
  }

  /** Two digit strings each followed by a non-digit can only give equal texts if the digits are equal. */
  lemma DigitPrefixUnique(x: string, s1: string, y: string, s2: string)
    requires AllDigits(x) && AllDigits(y)
    requires |s1| >= 1 && !IsDigit(s1[0]) && |s2| >= 1 && !IsDigit(s2[0])
    requires x + s1 == y + s2
    ensures x == y
  {
    DigitRunOf(x, s1);
    DigitRunOf(y, s2);
  }

  /** Different numbers are written differently. */
  lemma NatTextInjective(a: nat, b: nat)
    requires NatText(a) == NatText(b)
    ensures a == b
  {
    NatTextValue(a);
    NatTextValue(b);
  }
}
