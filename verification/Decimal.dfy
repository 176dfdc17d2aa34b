/** Decimal text of integers, as big.Int writes and reads it. */
module Decimal {
  import opened Basics

  function DigitChar(d: nat): (c: char)
    requires d < 10
    ensures '0' <= c <= '9'
  {
    '0' + d as char
  }

  predicate IsDigit(c: char) { '0' <= c <= '9' }

  function DigitValue(c: char): (d: nat)
    requires IsDigit(c)
    ensures d < 10
  {
    (c - '0') as nat
  }

  function Digits(n: nat): (s: string)
    ensures s != [] && forall i :: 0 <= i < |s| ==> IsDigit(s[i])
  {
    if n < 10 then [DigitChar(n)] else Digits(n / 10) + [DigitChar(n % 10)]
  }

  function ToString(z: int): string { if z < 0 then "-" + Digits(-z) else Digits(z) }

  function ParseDigits(s: string): Option<nat> {
    if s == [] || !IsDigit(s[|s| - 1]) then None
    else if |s| == 1 then Some(DigitValue(s[0]))
    else
      var high := ParseDigits(s[..|s| - 1]);
      if high.None? then None else Some(high.value * 10 + DigitValue(s[|s| - 1]))
  }

  /** SetString in base 10: an optional sign and at least one digit. */
  function Parse(s: string): Option<int> {
    if s == [] then None
    else if s[0] == '-' then
      var n: Option<int> := ParseDigits(s[1..]);
      if n.None? then None else Some(0 - n.value)
    else if s[0] == '+' then
      var n := ParseDigits(s[1..]);
      if n.None? then None else Some(n.value)
    else
      var n := ParseDigits(s);
      if n.None? then None else Some(n.value)
  }

  lemma {:induction false} ParseDigitsAccepts(s: string)
    ensures ParseDigits(s).Some? <==> s != [] && forall i :: 0 <= i < |s| ==> '0' <= s[i] <= '9'
  {
    if |s| > 1 {
      ParseDigitsAccepts(s[..|s| - 1]);
    }
  }

  /** Exactly the strings of digits, at least one, with or without a sign in front are decimal. */
  lemma ParseAccepts(s: string)
    ensures
      var digits := if s != [] && (s[0] == '-' || s[0] == '+') then s[1..] else s;
      Parse(s).Some? <==> digits != [] && forall i :: 0 <= i < |digits| ==> '0' <= digits[i] <= '9'
  {
    ParseDigitsAccepts(if s != [] && (s[0] == '-' || s[0] == '+') then s[1..] else s);
  }

  lemma {:induction false} ParseDigitsOfDigits(n: nat)
    ensures ParseDigits(Digits(n)) == Some(n)
  {
    if n >= 10 {
      ParseDigitsOfDigits(n / 10);
      assert Digits(n)[..|Digits(n)| - 1] == Digits(n / 10);
    }
  }

  lemma ParseOfToString(z: int)
    ensures Parse(ToString(z)) == Some(z)
  {
    ParseDigitsOfDigits(if z < 0 then -z else z);
    if z < 0 {
      assert ToString(z)[1..] == Digits(-z);
    }
  }

  lemma {:induction false} ToStringInjective(a: int, b: int)
    requires ToString(a) == ToString(b)
    ensures a == b
  {
    ParseOfToString(a);
    ParseOfToString(b);
  }
}
