/**
 * Decimal rendering of natural numbers, as Python's `str(n)` / `f"{n}"`
 * produces it for a non-negative int, and the facts about it that seat
 * labels rely on: it is injective and its characters are digits only.
 */
module Decimal {

  predicate IsDigit(c: char) { '0' <= c <= '9' }

  predicate AllDigits(s: string) { forall i :: 0 <= i < |s| ==> IsDigit(s[i]) }

  function DigitChar(d: nat): (c: char)
    requires d < 10
    ensures IsDigit(c) && (c as int) - ('0' as int) == d
  {
    ('0' as int + d) as char
  }

  /** Decimal digits of `n`, most significant first, without leading zeros. */
  function NatToString(n: nat): (s: string)
    decreases n
  {
    if n < 10 then [DigitChar(n)] else NatToString(n / 10) + [DigitChar(n % 10)]
  }

  /** The value of a string of decimal digits (the inverse of NatToString). */
  function DigitsValue(s: string): nat
    requires AllDigits(s)
  {
    if s == [] then 0
    else DigitsValue(s[..|s| - 1]) * 10 + ((s[|s| - 1] as int) - ('0' as int))
  }

  lemma {:induction false} NatToStringDigits(n: nat)
    ensures |NatToString(n)| >= 1
    ensures AllDigits(NatToString(n))
    decreases n
  {
    if n >= 10 {
      NatToStringDigits(n / 10);
    }
  }

  /** Reading the rendering back gives the number: the round trip. */
  lemma {:induction false} DigitsValueOfNatToString(n: nat)
    ensures AllDigits(NatToString(n))
    ensures DigitsValue(NatToString(n)) == n
    decreases n
  {
    NatToStringDigits(n);
    if n >= 10 {
      var s := NatToString(n);
      DigitsValueOfNatToString(n / 10);
      assert s[..|s| - 1] == NatToString(n / 10);
    }
  }

  lemma NatToStringInjective(a: nat, b: nat)
    requires NatToString(a) == NatToString(b)
    ensures a == b
  {
    DigitsValueOfNatToString(a);
    DigitsValueOfNatToString(b);
  }

  /**
   * Splitting `p + a + sep + b` at a separator character that occurs in
   * neither `a` nor `a'` recovers both parts.
   */
  lemma SplitAtSeparator(p: string, a: string, b: string, a': string, b': string, sep: char)
    requires forall i :: 0 <= i < |a| ==> a[i] != sep
    requires forall i :: 0 <= i < |a'| ==> a'[i] != sep
    requires p + a + [sep] + b == p + a' + [sep] + b'
    ensures a == a' && b == b'
  {
    var l := p + a + [sep] + b;
    var r := p + a' + [sep] + b';
    var k := if |a| < |a'| then |a| else |a'|;
    assert l[|p| + k] == r[|p| + k];
    assert a == l[|p|..|p| + |a|] == r[|p|..|p| + |a'|] == a';
    assert b == l[|p| + |a| + 1..] == r[|p| + |a'| + 1..] == b';
  }
}
