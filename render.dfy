/**
 * Rendering of integers inside JavaScript template literals (`${filmId}`):
 * an optional minus sign followed by the decimal digits, most significant
 * first, without leading zeros. `ParseInt` reads such a text back; the round
 * trip shows that the rendering never maps two integers to the same text.
 */
module Render {

  import opened Wrappers

  function Digit(d: nat): (c: char)
    requires d < 10
    ensures '0' <= c <= '9' && (c as int) - ('0' as int) == d
  {
    "0123456789"[d]
  }

  predicate IsDigit(c: char) {
    '0' <= c <= '9'
  }

  function DigitValue(c: char): nat
    requires IsDigit(c)
  {
    (c as int) - ('0' as int)
  }

  /** Decimal digits of `n`. */
  function NatText(n: nat): (s: string)
    ensures |s| >= 1
    ensures forall k :: 0 <= k < |s| ==> IsDigit(s[k])
    ensures n >= 10 ==> s[0] != '0'
  {
    if n < 10 then [Digit(n)] else NatText(n / 10) + [Digit(n % 10)]
  }

  /** `${k}` for an integer `k`. */
  function IntText(k: int): (s: string)
    ensures |s| >= 1
    ensures (s[0] == '-') <==> k < 0
  {
    if k < 0 then "-" + NatText(-k) else NatText(k)
  }

  /** An optional leading character followed by decimal digits only. */
  predicate IntShaped(s: string) {
    |s| >= 1 && forall i :: 1 <= i < |s| ==> IsDigit(s[i])
  }

  /** Past its first character, the rendering of an integer holds only digits. */
  lemma IntTextShaped(k: int)
    ensures IntShaped(IntText(k))
  {
    var s := IntText(k);
    if k < 0 {
      var t := NatText(-k);
      assert forall i :: 1 <= i < |s| ==> s[i] == t[i - 1];
    }
  }

  /** The number a string of decimal digits denotes. */
  function DigitsValue(s: string): nat
    requires forall k :: 0 <= k < |s| ==> IsDigit(s[k])
  {
    if s == [] then 0 else DigitsValue(s[..|s| - 1]) * 10 + DigitValue(s[|s| - 1])
  }

  /** Reads back the text `IntText` produces; `None` on anything else. */
  function ParseInt(s: string): (r: Option<int>)
  {
    if s == [] then None
    else if s[0] == '-' then
      if |s| > 1 && forall k :: 1 <= k < |s| ==> IsDigit(s[k]) then Some(-(DigitsValue(s[1..]) as int)) else None
    else if forall k :: 0 <= k < |s| ==> IsDigit(s[k]) then Some(DigitsValue(s))
    else None
  }

  lemma {:induction false} NatTextRoundTrip(n: nat)
    ensures DigitsValue(NatText(n)) == n
  {
    if n >= 10 {
      var s := NatText(n);
      assert s[..|s| - 1] == NatText(n / 10);
      NatTextRoundTrip(n / 10);
    }
  }

  /** Reading back a minus sign and the digits of `n` gives `-n`. */
  lemma NegativeRoundTrip(n: nat)
    requires n > 0
    ensures ParseInt("-" + NatText(n)) == Some(-(n as int))
  {
    var t := NatText(n);
    var s := "-" + t;
    assert s[1..] == t;
    assert forall i :: 1 <= i < |s| ==> IsDigit(s[i]) by {
      assert forall i :: 1 <= i < |s| ==> s[i] == t[i - 1];
    }
    NatTextRoundTrip(n);
  }

  /** Reading back the digits of `n` gives `n`. */
  lemma NonNegativeRoundTrip(n: nat)
    ensures ParseInt(NatText(n)) == Some(n as int)
  {
    NatTextRoundTrip(n);
  }

  /** Equal texts read back alike. */
  lemma ParseSame(s: string, t: string)
    requires s == t
    ensures ParseInt(s) == ParseInt(t)
  {
  }

  /** Reading back the rendering of `k` gives `k`. */
  lemma IntTextRoundTrip(k: int)
    ensures ParseInt(IntText(k)) == Some(k)
  {
    if k < 0 {
      NegativeRoundTrip(-k);
      ParseSame(IntText(k), "-" + NatText(-k));
    } else {
      NonNegativeRoundTrip(k);
      ParseSame(IntText(k), NatText(k));
    }
  }

  /** Two integers render to the same text exactly when they are equal. */
  lemma IntTextInjective(a: int, b: int)
    ensures IntText(a) == IntText(b) <==> a == b
  {
    IntTextRoundTrip(a);
    IntTextRoundTrip(b);
  }
}
