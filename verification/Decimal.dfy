/** Decimal numerals, as printf writes them and as a digit loop reads them. */
module Decimal {

  predicate IsDigit(c: char) { '0' <= c <= '9' }

  predicate AllDigits(s: string) { forall i :: 0 <= i < |s| ==> IsDigit(s[i]) }

  function DigitValue(c: char): nat
    requires IsDigit(c)
  {
    (c - '0') as nat
  }

  function DigitChar(d: nat): (c: char)
    requires d < 10
    ensures IsDigit(c) && DigitValue(c) == d
  {
    '0' + d as char
  }

  /** The numeral of n, without leading zeros. */
  function Dec(n: nat): (s: string)
    ensures s != "" && AllDigits(s)
    ensures n > 0 ==> s[0] != '0'
    ensures Num(s) == n
  {
    if n < 10 then
      assert Num([DigitChar(n)]) == 10 * Num([DigitChar(n)][..0]) + n;
      [DigitChar(n)]
    else
      var s := Dec(n / 10) + [DigitChar(n % 10)];
      assert s[..|s| - 1] == Dec(n / 10);
      s
  }

  /** The value of a run of digits; leading zeros count for nothing. */
  function Num(s: string): nat
    requires AllDigits(s)
  {
    if s == "" then 0 else 10 * Num(s[..|s| - 1]) + DigitValue(s[|s| - 1])
  }

  /** Length of the longest prefix made of digits. */
  function DigitLen(s: string): (n: nat)
    ensures n <= |s| && AllDigits(s[..n])
    ensures n < |s| ==> !IsDigit(s[n])
  {
    if s == "" || !IsDigit(s[0]) then 0
    else
      var n := 1 + DigitLen(s[1..]);
      assert forall i :: 1 <= i < n ==> s[i] == s[1..][i - 1];
      n
  }

  /** Digits followed by anything that is not a digit are read up to exactly there. */
  lemma {:induction false} DigitLenAppend(d: string, rest: string)
    requires AllDigits(d) && (rest == "" || !IsDigit(rest[0]))
    ensures DigitLen(d + rest) == |d|
  {
    if d == "" {
      assert d + rest == rest;
    } else {
      assert (d + rest)[1..] == d[1..] + rest;
      DigitLenAppend(d[1..], rest);
    }
  }

  /** A numeral without a leading zero is the numeral of its value. */
  lemma {:induction false} DecOfNum(s: string)
    requires s != "" && AllDigits(s) && (|s| > 1 ==> s[0] != '0')
    ensures Dec(Num(s)) == s && (s != "0" ==> Num(s) > 0)
  {
    var d := s[|s| - 1];
    assert DigitChar(DigitValue(d)) == d;
    if |s| == 1 {
      assert s[..0] == "";
      assert s == [d];
    } else {
      var t := s[..|s| - 1];
      assert t != "0";
      DecOfNum(t);
      DecSnoc(Num(t), DigitValue(d));
      assert s == t + [d];
    }
  }

  lemma {:induction false} DecSnoc(n: nat, v: nat)
    requires n > 0 && v < 10
    ensures Dec(10 * n + v) == Dec(n) + [DigitChar(v)]
  {
  }
}
