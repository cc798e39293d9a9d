/**
 * The date strings the controller keeps: Integer.toString of the year, and
 * of the month and the day with a "0" put in front of values below 10.
 */
module Dates {

  function DigitChar(d: nat): char
    requires d < 10
  {
    "0123456789"[d]
  }

  predicate IsDigit(c: char) {
    '0' <= c <= '9'
  }

  function DigitValue(c: char): nat
    requires IsDigit(c)
  {
    (c as int - '0' as int) as nat
  }

  /** The decimal digits of n, with no leading zero. */
  function NatString(n: nat): (s: string)
    ensures |s| >= 1 && (forall i :: 0 <= i < |s| ==> IsDigit(s[i]))
    ensures n >= 10 ==> s[0] != '0'
  {
    if n < 10 then [DigitChar(n)] else NatString(n / 10) + [DigitChar(n % 10)]
  }

  /** Integer.toString: a minus sign in front of the digits of a negative value. */
  function DecimalString(n: int): string {
    if n < 0 then "-" + NatString(-n) else NatString(n)
  }

  /** The value of a string of decimal digits. */
  function ParseDigits(s: string): nat
    requires forall i :: 0 <= i < |s| ==> IsDigit(s[i])
  {
    if s == [] then 0 else ParseDigits(s[..|s| - 1]) * 10 + DigitValue(s[|s| - 1])
  }

  /** Reading the digits of n back gives n. */
  lemma {:induction false} ParseNatString(n: nat)
    ensures ParseDigits(NatString(n)) == n
  {
    if n >= 10 {
      ParseNatString(n / 10);
      var s := NatString(n);
      assert s[..|s| - 1] == NatString(n / 10);
    }
  }

  /** The constructor's padding: a "0" in front of values below 10. */
  function TwoDigit(n: int): string {
    var s := DecimalString(n);
    if n < 10 then "0" + s else s
  }

  /** Day and month numbers 0..99 come out as exactly two digits that read back as the number. */
  lemma TwoDigitRoundTrip(n: int)
    requires 0 <= n < 100
    ensures var s := TwoDigit(n);
      |s| == 2 && (forall i :: 0 <= i < 2 ==> IsDigit(s[i])) && ParseDigits(s) == n
  {
    ParseNatString(n);
    if n < 10 {
      var s := TwoDigit(n);
      assert s[..1] == "0";
    } else {
      assert NatString(n / 10) == [DigitChar(n / 10)];
    }
  }

  /** Values of 10 and more, and the year, are written as they are. */
  lemma TwoDigitKeepsLongerValues(n: int)
    requires n >= 10
    ensures TwoDigit(n) == DecimalString(n) && TwoDigit(n)[0] != '0'
  {
  }
}
