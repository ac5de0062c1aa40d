/** Decimal digits: the value a placeholder's digits accumulate to, and the
    text `%d` prints for an integer. */
module Decimal {

  /** The largest 32-bit `int`. */
  const INT_MAX: int := 0x7FFF_FFFF

  predicate IsDigit(c: char)
  {
    '0' <= c <= '9'
  }

  predicate AllDigits(s: seq<char>)
  {
    forall i :: 0 <= i < |s| ==> IsDigit(s[i])
  }

  function DigitValue(c: char): nat
    requires IsDigit(c)
  {
    c as int - '0' as int
  }

  function DigitChar(d: nat): (c: char)
    requires d < 10
    ensures IsDigit(c) && DigitValue(c) == d
  {
    ('0' as int + d) as char
  }

  /** Horner's rule over the digits, left to right: `index = index * 10 + digit`. */
  function DecimalValue(ds: seq<char>): nat
    requires AllDigits(ds)
  {
    if ds == [] then 0 else DecimalValue(ds[..|ds| - 1]) * 10 + DigitValue(ds[|ds| - 1])
  }

  /** Appending a digit multiplies by ten and adds it. */
  lemma DecimalSnoc(ds: seq<char>, c: char)
    requires AllDigits(ds) && IsDigit(c)
    ensures AllDigits(ds + [c])
    ensures DecimalValue(ds + [c]) == DecimalValue(ds) * 10 + DigitValue(c)
  {
    assert (ds + [c])[..|ds|] == ds;
  }

  /** A prefix of a digit string never has a larger value than the whole. */
  lemma {:induction false} DecimalPrefixBelow(ds: seq<char>, m: nat)
    requires AllDigits(ds) && m <= |ds|
    ensures DecimalValue(ds[..m]) <= DecimalValue(ds)
    decreases |ds| - m
  {
    if m < |ds| {
      var shorter := ds[..|ds| - 1];
      assert shorter[..m] == ds[..m];
      DecimalPrefixBelow(shorter, m);
      assert DecimalValue(shorter) <= DecimalValue(ds);
    } else {
      assert ds[..m] == ds;
    }
  }

  /** The digits `%d` prints for a non-negative value: no sign, no padding. */
  function NatToDecimal(n: nat): (s: seq<char>)
    ensures 1 <= |s| && AllDigits(s)
    ensures DecimalValue(s) == n
    ensures s[0] == '0' ==> s == "0"
    decreases n
  {
    if n < 10 then [DigitChar(n)]
    else
      var high := NatToDecimal(n / 10);
      DecimalSnoc(high, DigitChar(n % 10));
      high + [DigitChar(n % 10)]
  }

  function Pow10(k: nat): (p: nat)
    ensures p >= 1
  {
    if k == 0 then 1 else 10 * Pow10(k - 1)
  }

  /** A value below 10^k takes at most k digits. */
  lemma {:induction false} NatToDecimalLength(n: nat, k: nat)
    requires 1 <= k && n < Pow10(k)
    ensures |NatToDecimal(n)| <= k
    decreases k
  {
    if n >= 10 {
      NatToDecimalLength(n / 10, k - 1);
    }
  }

  /** Text of a signed decimal integer: digits, optionally after a minus sign. */
  predicate IsIntText(s: seq<char>)
  {
    (1 <= |s| && AllDigits(s)) || (2 <= |s| && s[0] == '-' && AllDigits(s[1..]))
  }

  /** The integer an integer text denotes. */
  function IntValue(s: seq<char>): int
    requires IsIntText(s)
  {
    if s[0] == '-' then -(DecimalValue(s[1..]) as int) else DecimalValue(s)
  }

  /** `%d`: a minus sign for a negative value, then the magnitude. */
  function IntToDecimal(i: int): (s: seq<char>)
    ensures IsIntText(s) && IntValue(s) == i
    ensures s[0] == '-' <==> i < 0
    ensures var ds := if i < 0 then s[1..] else s; ds[0] == '0' ==> ds == "0"
  {
    if i < 0 then
      var m := NatToDecimal(-i);
      assert ("-" + m)[1..] == m;
      "-" + m
    else NatToDecimal(i)
  }
}
