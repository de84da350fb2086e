/**
 * Decimal rendering of natural numbers, as Go's `%d` verb prints a
 * non-negative integer: shortest digit string, no sign, no leading zeros.
 */
module Decimal {
  predicate IsDigit(c: char) {
    '0' <= c <= '9'
  }

  predicate AllDigits(s: string) {
    forall k :: 0 <= k < |s| ==> IsDigit(s[k])
  }

  function DigitChar(d: nat): (c: char)
    requires d < 10
    ensures IsDigit(c) && (c == '0' <==> d == 0)
  {
    (d + '0' as int) as char
  }

  function DigitValue(c: char): (d: nat)
    requires IsDigit(c)
    ensures d < 10 && DigitChar(d) == c
  {
    (c as int - '0' as int) as nat
  }

  /** The text `%d` produces for `n`. */
  function NatToString(n: nat): (s: string)
    ensures |s| >= 1 && AllDigits(s)
    ensures (s[0] == '0') <==> n == 0
    ensures n < 10 <==> |s| == 1
  {
    if n < 10 then [DigitChar(n)]
    else NatToString(n / 10) + [DigitChar(n % 10)]
  }

  /** Reads a digit string back as a number; the inverse of NatToString. */
  function ParseDecimal(s: string): nat
    requires AllDigits(s)
  {
    if s == [] then 0
    else ParseDecimal(s[..|s| - 1]) * 10 + DigitValue(s[|s| - 1])
  }

  lemma {:induction false} ParseNatToString(n: nat)
    ensures ParseDecimal(NatToString(n)) == n
  {
    var s := NatToString(n);
    if n < 10 {
      assert s[..0] == [];
    } else {
      assert s[..|s| - 1] == NatToString(n / 10);
      ParseNatToString(n / 10);
    }
  }

  /** Distinct numbers print differently, so a printed index names exactly one number. */
  lemma NatToStringInjective(m: nat, n: nat)
    ensures NatToString(m) == NatToString(n) ==> m == n
  {
    ParseNatToString(m);
    ParseNatToString(n);
  }

  /**
   * A digit string followed by text that starts with a non-digit can be split
   * in only one way: this is what lets a reader recover an index from a message.
   */
  lemma SplitAtDigits(d1: string, s1: string, d2: string, s2: string)
    requires AllDigits(d1) && AllDigits(d2)
    requires s1 != [] && !IsDigit(s1[0])
    requires s2 != [] && !IsDigit(s2[0])
    requires d1 + s1 == d2 + s2
    ensures d1 == d2 && s1 == s2
  {
    assert d1 == (d1 + s1)[..|d1|];
    assert d2 == (d2 + s2)[..|d2|];
    assert s1 == (d1 + s1)[|d1|..];
    assert s2 == (d2 + s2)[|d2|..];
  }
}
