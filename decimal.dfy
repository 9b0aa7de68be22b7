// Decimal text for integers: the "%d" and "%02d" conversions of
// QString::asprintf, QString::toInt in base 10, and C++'s integer division,
// which truncates toward zero. Used by the duration formatters and parsers.
module Decimal {

  import opened Wrappers
  import Text

  const Int32Min: int := -0x8000_0000
  const Int32Max: int := 0x7fff_ffff

  /** C++ `/` on int: the quotient truncated toward zero. */
  function CDiv(a: int, b: int): (q: int)
    requires b > 0
    ensures a >= 0 ==> q == a / b
    ensures a < 0 ==> q == -((-a) / b)
  {
    if a >= 0 then a / b else -((-a) / b)
  }

  /** C++ `%` on int: the remainder takes the sign of the dividend. */
  function CMod(a: int, b: int): (r: int)
    requires b > 0
    ensures a >= 0 ==> r == a % b
    ensures a < 0 ==> r == -((-a) % b)
  {
    if a >= 0 then a % b else -((-a) % b)
  }

  /** Quotient and remainder put the dividend back together, and the remainder is smaller than the divisor. */
  lemma CDivMod(a: int, b: int)
    requires b > 0
    ensures CDiv(a, b) * b + CMod(a, b) == a
    ensures -b < CMod(a, b) < b
    ensures a >= 0 ==> CMod(a, b) >= 0
    ensures a <= 0 ==> CMod(a, b) <= 0
  {
  }

  predicate IsDigit(c: char)
  {
    '0' <= c <= '9'
  }

  predicate AllDigits(s: string)
  {
    forall i :: 0 <= i < |s| ==> IsDigit(s[i])
  }

  function DigitChar(d: nat): (c: char)
    requires d < 10
    ensures IsDigit(c) && c as int - '0' as int == d
  {
    ('0' as int + d) as char
  }

  function DigitValue(c: char): (d: nat)
    requires IsDigit(c)
    ensures d < 10 && DigitChar(d) == c
  {
    c as int - '0' as int
  }

  /** The digits of n, most significant first, without leading zeros. */
  function NatToString(n: nat): (s: string)
    ensures |s| >= 1 && AllDigits(s)
    ensures n >= 10 ==> s[0] != '0'
  {
    if n < 10 then [DigitChar(n)] else NatToString(n / 10) + [DigitChar(n % 10)]
  }

  /** The number a digit string denotes. */
  function DigitsValue(s: string): nat
    requires AllDigits(s)
  {
    if s == [] then 0 else DigitsValue(s[..|s| - 1]) * 10 + DigitValue(s[|s| - 1])
  }

  lemma {:induction false} NatToStringValue(n: nat)
    ensures DigitsValue(NatToString(n)) == n
  {
    if n >= 10 {
      NatToStringValue(n / 10);
      var s := NatToString(n);
      assert s[..|s| - 1] == NatToString(n / 10);
    }
  }

  /** "%d": a minus sign before the digits of a negative number. */
  function IntToString(n: int): (s: string)
    ensures |s| >= 1
    ensures n >= 0 ==> s == NatToString(n)
    ensures n < 0 ==> s == "-" + NatToString(-n)
  {
    if n < 0 then "-" + NatToString(-n) else NatToString(n)
  }

  /** "%02d": at least two characters, padded with a leading zero. */
  function Pad2(n: int): (s: string)
    ensures |s| >= 2
    ensures 0 <= n < 10 ==> s == ['0', DigitChar(n)]
    ensures !(0 <= n < 10) ==> s == IntToString(n)
  {
    if 0 <= n < 10 then ['0', DigitChar(n)] else IntToString(n)
  }

  /**
   * QString::toUShort in base 10 with its failure value: the digits' value
   * when it fits 16 bits, otherwise 0.
   */
  function ToUShort(s: string): (r: nat)
    ensures r < 0x1_0000
    ensures s != [] && AllDigits(s) && DigitsValue(s) < 0x1_0000 ==> r == DigitsValue(s)
    ensures s == [] ==> r == 0
  {
    if s == [] || !AllDigits(s) then 0
    else if DigitsValue(s) < 0x1_0000 then DigitsValue(s)
    else 0
  }

  /** The value of a sign and a digit string, when it is a 32-bit int. */
  function Magnitude(digits: string, negative: bool): (r: Option<int>)
    ensures r.Some? ==> Int32Min <= r.value <= Int32Max
  {
    if digits == [] || !AllDigits(digits) then None
    else
      var d: int := DigitsValue(digits);
      var v := if negative then -d else d;
      if Int32Min <= v <= Int32Max then Some(v) else None
  }

  /**
   * QString::toInt in base 10: an optional sign and at least one digit, in
   * the 32-bit range; None where toInt reports failure.
   */
  function ParseInt(s: string): (r: Option<int>)
    ensures r.Some? ==> Int32Min <= r.value <= Int32Max
  {
    if |s| > 0 && s[0] == '-' then Magnitude(s[1..], true)
    else if |s| > 0 && s[0] == '+' then Magnitude(s[1..], false)
    else Magnitude(s, false)
  }

  /** Every 32-bit int is read back from its "%d" text. */
  lemma IntToStringParses(n: int)
    requires Int32Min <= n <= Int32Max
    ensures ParseInt(IntToString(n)) == Some(n)
  {
    if n < 0 {
      NatToStringValue(-n);
      assert ("-" + NatToString(-n))[1..] == NatToString(-n);
      assert Magnitude(NatToString(-n), true) == Some(n);
    } else {
      NatToStringValue(n);
      assert Magnitude(NatToString(n), false) == Some(n);
    }
  }

  /** Every 32-bit int is read back from its "%02d" text. */
  lemma Pad2Parses(n: int)
    requires Int32Min <= n <= Int32Max
    ensures ParseInt(Pad2(n)) == Some(n)
  {
    if 0 <= n < 10 {
      var s := Pad2(n);
      assert s[..|s| - 1] == ['0'];
      assert ['0'][..0] == [];
      assert DigitsValue(['0']) == 0;
      assert DigitsValue(s) == n;
    } else {
      IntToStringParses(n);
    }
  }

  /** Neither text contains a colon. */
  lemma NoColon(n: int)
    ensures ':' !in IntToString(n) && ':' !in Pad2(n)
  {
    var s := NatToString(if n < 0 then -n else n);
    assert forall i :: 0 <= i < |s| ==> IsDigit(s[i]);
  }

  /** "%d:%02d" of a quotient and a remainder: the form every duration is written in. */
  function MinutesSeconds(minutes: int, seconds: int): (s: string)
    ensures Text.Split(s, ':') == [IntToString(minutes), Pad2(seconds)]
  {
    NoColon(minutes);
    NoColon(seconds);
    Text.SplitAtSep(IntToString(minutes), Pad2(seconds), ':');
    Text.SplitWithoutSep(Pad2(seconds), ':');
    IntToString(minutes) + ":" + Pad2(seconds)
  }
}
