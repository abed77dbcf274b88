/**
  The decimal text of an integer, as a JavaScript template literal `${n}` writes it
  for an integral number: an optional '-' followed by digits without leading zeros.
  The reminder ids of the demo suggestion source are built with it.
 */
module Decimal {

  predicate IsDigit(c: char) {
    '0' <= c <= '9'
  }

  function DigitChar(d: nat): (c: char)
    requires d < 10
    ensures IsDigit(c) && c as int - '0' as int == d
  {
    ('0' as int + d) as char
  }

  /**
    The quotient of `n` by ten, by repeated subtraction: it keeps the arithmetic
    of every unfolding of the decimal text linear.
   */
  function Div10(n: nat): (q: nat)
    ensures 10 * q <= n < 10 * q + 10
  {
    if n < 10 then 0 else 1 + Div10(n - 10)
  }

  /** Decimal digits of a natural number, most significant first. */
  function NatToString(n: nat): (s: string)
    ensures |s| >= 1
    ensures |s| == 1 <==> n < 10
    ensures forall i :: 0 <= i < |s| ==> IsDigit(s[i])
    ensures n > 0 ==> s[0] != '0'
    decreases n
  {
    if n < 10 then [DigitChar(n)] else NatToString(Div10(n)) + [DigitChar(n - 10 * Div10(n))]
  }

  /** Decimal text of any integer: a leading '-' exactly for negative numbers. */
  function IntToString(n: int): (s: string)
    ensures |s| >= 1
    ensures s[0] == '-' <==> n < 0
  {
    if n < 0 then "-" + NatToString(-n) else NatToString(n)
  }

  /** Two natural numbers with the same decimal text are equal. */
  lemma {:induction false} NatToStringInjective(a: nat, b: nat)
    requires NatToString(a) == NatToString(b)
    ensures a == b
  {
    var s := NatToString(a);
    if a < 10 || b < 10 {
      assert a < 10 && b < 10;
      assert s == [DigitChar(a)] && s == [DigitChar(b)];
    } else {
      var n := |s|;
      var qa, qb := Div10(a), Div10(b);
      assert s == NatToString(qa) + [DigitChar(a - 10 * qa)];
      assert s == NatToString(qb) + [DigitChar(b - 10 * qb)];
      assert s[..n - 1] == NatToString(qa) && s[..n - 1] == NatToString(qb);
      assert s[n - 1] == DigitChar(a - 10 * qa) && s[n - 1] == DigitChar(b - 10 * qb);
      NatToStringInjective(qa, qb);
    }
  }

  /** Two integers with the same decimal text are equal. */
  lemma IntToStringInjective(a: int, b: int)
    requires IntToString(a) == IntToString(b)
    ensures a == b
  {
    var s := IntToString(a);
    if a < 0 {
      assert b < 0;
      assert s[1..] == NatToString(-a) && s[1..] == NatToString(-b);
      NatToStringInjective(-a, -b);
    } else {
      assert b >= 0;
      NatToStringInjective(a, b);
    }
  }
}
