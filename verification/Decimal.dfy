/** Decimal digit strings and their values, shared by the parsers. */
module Decimal {

  predicate IsDigit(c: char) {
    '0' <= c <= '9'
  }

  predicate AllDigits(s: string) {
    forall i :: 0 <= i < |s| ==> IsDigit(s[i])
  }

  function Digit(c: char): nat
    requires IsDigit(c)
  {
    (c - '0') as nat
  }

  function Value(s: string): nat
    requires AllDigits(s)
  {
    if s == "" then 0 else 10 * Value(s[..|s| - 1]) + Digit(s[|s| - 1])
  }

  function Print(n: nat): (s: string)
    ensures s != "" && AllDigits(s)
  {
    if n < 10 then ['0' + n as char] else Print(n / 10) + ['0' + (n % 10) as char]
  }

  /** Printing a number and reading it back gives the number. */
  lemma {:induction false} PrintValue(n: nat)
    ensures Value(Print(n)) == n
    decreases n
  {
    if n < 10 {
      var s := Print(n);
      assert s[..0] == "" && Value(s[..0]) == 0;
    } else {
      PrintValue(n / 10);
      var s := Print(n);
      assert s[..|s| - 1] == Print(n / 10);
    }
  }

  function Pow10(n: nat): (p: nat)
    ensures p > 0
  {
    if n == 0 then 1 else 10 * Pow10(n - 1)
  }

  lemma {:induction false} ValueBound(s: string)
    requires AllDigits(s)
    ensures Value(s) < Pow10(|s|)
    decreases |s|
  {
    if s != "" {
      ValueBound(s[..|s| - 1]);
    }
  }

  /** The most significant digit counts for all the places after it. */
  lemma {:induction false} ValueFromLeft(s: string)
    requires AllDigits(s) && s != ""
    ensures Value(s) == Digit(s[0]) * Pow10(|s| - 1) + Value(s[1..])
    decreases |s|
  {
    var n := |s| - 1;
    if n == 0 {
      assert s[..0] == "" && s[1..] == "";
    } else {
      ValueFromLeft(s[..n]);
      assert s[..n][1..] == s[1..][..n - 1];
      assert s[1..][n - 1] == s[n];
      Scale(Digit(s[0]), Pow10(n - 1));
    }
  }

  lemma Scale(d: nat, p: nat)
    ensures 10 * (d * p) == d * (10 * p)
  {
  }
}
