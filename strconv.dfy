/**
 * Decimal formatting and parsing of Go's `int` as done by strconv.Itoa and
 * strconv.Atoi, on a 64-bit platform. The CLI formats user and enrollment IDs
 * with Itoa (or "%d", which prints the same digits) and reads them back with Atoi.
 */
module Strconv {
  import opened Wrappers

  const MinInt: int := -0x8000_0000_0000_0000
  const MaxInt: int := 0x7FFF_FFFF_FFFF_FFFF

  /** Go's `int` on a 64-bit platform. */
  type Int = x: int | MinInt <= x <= MaxInt

  predicate IsDigit(c: char) {
    '0' <= c <= '9'
  }

  predicate AllDigits(s: string) {
    forall i :: 0 <= i < |s| ==> IsDigit(s[i])
  }

  function DigitChar(d: nat): (c: char)
    requires d < 10
    ensures IsDigit(c) && c as int - '0' as int == d
  {
    ('0' as int + d) as char
  }

  /** The decimal digits of `n`, most significant first, without leading zeros. */
  function NatDigits(n: nat): (s: string)
    ensures |s| >= 1 && AllDigits(s)
    ensures s[0] == '0' ==> n == 0
  {
    if n < 10 then [DigitChar(n)] else NatDigits(n / 10) + [DigitChar(n % 10)]
  }

  /** The value of a string of decimal digits, read most significant first. */
  function DigitsValue(s: string): nat
    requires AllDigits(s)
  {
    if s == [] then 0 else DigitsValue(s[..|s| - 1]) * 10 + (s[|s| - 1] as int - '0' as int)
  }

  lemma {:induction false} DigitsValueOfNatDigits(n: nat)
    ensures DigitsValue(NatDigits(n)) == n
  {
    if n >= 10 {
      var s := NatDigits(n);
      assert s[..|s| - 1] == NatDigits(n / 10);
      DigitsValueOfNatDigits(n / 10);
    }
  }

  /** strconv.Itoa: an optional minus sign followed by the digits of |n|. */
  function Itoa(n: int): (s: string)
    ensures |s| >= 1
    ensures (s[0] == '-') == (n < 0)
    ensures AllDigits(if n < 0 then s[1..] else s)
    ensures '/' !in s
  {
    if n < 0 then "-" + NatDigits(-n) else NatDigits(n)
  }

  /**
   * strconv.Atoi: an optional '+' or '-' followed by at least one decimal digit
   * (leading zeros allowed, no spaces or underscores), whose value must fit in a
   * 64-bit int. Every other string is a syntax or range error, here None.
   */
  function Atoi(s: string): (r: Option<Int>)
    ensures r.Some? ==> |s| >= 1
    ensures r.Some? && s[0] != '-' && s[0] != '+' ==> AllDigits(s) && r.value == DigitsValue(s)
  {
    if |s| == 0 then None
    else
      var digits := if s[0] == '-' || s[0] == '+' then s[1..] else s;
      if |digits| == 0 || !AllDigits(digits) then None
      else
        var magnitude: int := DigitsValue(digits);
        var v := if s[0] == '-' then -magnitude else magnitude;
        if MinInt <= v <= MaxInt then Some(v) else None
  }

  /** Atoi reads back exactly the value Itoa printed, for every 64-bit int. */
  lemma AtoiItoa(n: Int)
    ensures Atoi(Itoa(n)) == Some(n)
  {
    var m: int := n;
    if m < 0 {
      AtoiNegative(-m);
    } else {
      AtoiUnsigned(m);
    }
  }

  lemma AtoiUnsigned(n: nat)
    requires n <= MaxInt
    ensures Atoi(NatDigits(n)) == Some(n)
  {
    var s := NatDigits(n);
    assert IsDigit(s[0]);
    DigitsValueOfNatDigits(n);
  }

  lemma AtoiNegative(n: nat)
    requires 0 < n <= -MinInt
    ensures Atoi("-" + NatDigits(n)) == Some(-(n as int))
  {
    var d := NatDigits(n);
    var s := "-" + d;
    assert s[0] == '-' && s[1..] == d;
    DigitsValueOfNatDigits(n);
  }

  /** A string holding a character other than a digit after its optional sign never parses. */
  lemma AtoiRejectsNonDigit(s: string, i: nat)
    requires 0 < i < |s| && !IsDigit(s[i])
    ensures Atoi(s) == None
  {
  }
}
