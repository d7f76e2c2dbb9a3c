/**
 * Java's Integer.toString(int): the signed decimal numeral of a 32-bit
 * integer, with a leading '-' for negatives and no leading zeros.
 */
module Decimal {

  /** Java's int. */
  newtype Int32 = x: int | -0x8000_0000 <= x < 0x8000_0000

  predicate IsDigit(c: char)
  {
    '0' <= c <= '9'
  }

  function DigitChar(d: nat): (c: char)
    requires d < 10
    ensures IsDigit(c)
  {
    ['0', '1', '2', '3', '4', '5', '6', '7', '8', '9'][d]
  }

  function DigitValue(c: char): (d: nat)
    requires IsDigit(c)
    ensures d < 10 && DigitChar(d) == c
  {
    (c as int - '0' as int) as nat
  }

  /** The decimal digits of n, most significant first, without leading zeros. */
  function NatToString(n: nat): (s: string)
    ensures s != [] && (forall i :: 0 <= i < |s| ==> IsDigit(s[i]))
    ensures |s| > 1 ==> s[0] != '0'
    decreases n
  {
    if n < 10 then [DigitChar(n)] else NatToString(n / 10) + [DigitChar(n % 10)]
  }

  /** Integer.toString. */
  function ToString(n: Int32): string
  {
    if n < 0 then "-" + NatToString(-(n as int)) else NatToString(n as int)
  }

  /** The value of a string of digits. */
  function DigitsValue(s: string): nat
    requires forall i :: 0 <= i < |s| ==> IsDigit(s[i])
    decreases |s|
  {
    if s == [] then 0 else DigitsValue(s[..|s| - 1]) * 10 + DigitValue(s[|s| - 1])
  }

  /** Integer.parseInt on a numeral: an optional '-' and then digits. */
  function ParseInt(s: string): int
    requires s != [] && (forall i :: 1 <= i < |s| ==> IsDigit(s[i]))
    requires s[0] == '-' || IsDigit(s[0])
    requires s[0] == '-' ==> |s| > 1
  {
    if s[0] == '-' then -(DigitsValue(s[1..]) as int) else DigitsValue(s)
  }

  lemma {:induction false} NatToStringRoundTrip(n: nat)
    ensures DigitsValue(NatToString(n)) == n
    decreases n
  {
    var s := NatToString(n);
    if n >= 10 {
      NatToStringRoundTrip(n / 10);
      assert s[..|s| - 1] == NatToString(n / 10);
    }
  }

  /**
   * The numeral Integer.toString writes is a well-formed numeral for that
   * same value: reading it back gives n, and it has no leading zeros.
   */
  lemma ToStringRoundTrip(n: Int32)
    ensures var s := ToString(n);
            && s != [] && (s[0] == '-' || IsDigit(s[0]))
            && (forall i :: 1 <= i < |s| ==> IsDigit(s[i]))
            && ParseInt(s) == n as int
            && (s[0] == '-' <==> n < 0)
            && var digits := if n < 0 then s[1..] else s;
               |digits| > 1 ==> digits[0] != '0'
  {
    var s := ToString(n);
    if n < 0 {
      var digits := NatToString(-(n as int));
      NatToStringRoundTrip(-(n as int));
      assert s == "-" + digits;
      assert s[1..] == digits;
      assert forall i :: 1 <= i < |s| ==> s[i] == digits[i - 1];
    } else {
      NatToStringRoundTrip(n as int);
    }
  }

  /** Different versions are rendered differently. */
  lemma ToStringInjective(m: Int32, n: Int32)
    requires ToString(m) == ToString(n)
    ensures m == n
  {
    ToStringRoundTrip(m);
    ToStringRoundTrip(n);
  }
}
