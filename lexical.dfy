/** Character classes and decimal conversion shared by both scanners (scanner.h and noalloc.c). */
module Lexical {

  /** `scanner_is_number`: an ASCII decimal digit. */
  predicate IsNumber(c: char) {
    '0' <= c <= '9'
  }

  /** The five characters both scanners skip: space, tab, carriage return, line feed, vertical tab. */
  predicate IsWhitespace(c: char) {
    c == ' ' || c == '\t' || c == '\r' || c == '\n' || c == '\U{000B}'
  }

  /** `c - '0'` in C: the digit's value when `c` is a digit, some other integer otherwise. */
  function DigitValue(c: char): int {
    c as int - '0' as int
  }

  /** The character of a decimal digit. */
  function DigitChar(d: nat): (c: char)
    requires d < 10
    ensures IsNumber(c) && DigitValue(c) == d
  {
    ('0' as int + d) as char
  }

  /** The left-to-right accumulation `ans = ans * 10 + (c - '0')` over the characters of `s`. */
  function DecimalValue(s: string): int
    decreases |s|
  {
    if s == [] then 0 else DecimalValue(s[..|s| - 1]) * 10 + DigitValue(s[|s| - 1])
  }

  predicate AllDigits(s: string) {
    forall i :: 0 <= i < |s| ==> IsNumber(s[i])
  }

  predicate AllWhitespace(s: string) {
    forall i :: 0 <= i < |s| ==> IsWhitespace(s[i])
  }

  /** The value of a run of digits is never negative. */
  lemma {:induction false} DecimalValueNonNegative(s: string)
    requires AllDigits(s)
    ensures DecimalValue(s) >= 0
  {
    if s != [] {
      DecimalValueNonNegative(s[..|s| - 1]);
    }
  }

  /** The length of the longest prefix of `s` made of digits: where a greedy digit scan stops. */
  function DigitRun(s: string): (n: nat)
    ensures n <= |s|
    ensures n == |s| || !IsNumber(s[n])
  {
    if s != [] && IsNumber(s[0]) then 1 + DigitRun(s[1..]) else 0
  }

  /** Everything a digit run covers is a digit. */
  lemma {:induction false} DigitRunDigits(s: string)
    ensures AllDigits(s[..DigitRun(s)])
  {
    if s != [] && IsNumber(s[0]) {
      DigitRunDigits(s[1..]);
      assert forall i :: 1 <= i < 1 + DigitRun(s[1..]) ==> s[i] == s[1..][..DigitRun(s[1..])][i - 1];
    }
  }

  /** The decimal spelling of `n`: most significant digit first, no sign, no leading zero. */
  function Decimal(n: nat): (s: string)
    ensures |s| > 0 && AllDigits(s)
    ensures |s| > 1 ==> s[0] != '0'
  {
    if n < 10 then [DigitChar(n)] else Decimal(n / 10) + [DigitChar(n % 10)]
  }

  /** Reading back the spelling of a number gives the number. */
  lemma {:induction false} DecimalRoundTrip(n: nat)
    ensures DecimalValue(Decimal(n)) == n
  {
    if n >= 10 {
      var s := Decimal(n);
      assert s[..|s| - 1] == Decimal(n / 10);
      DecimalRoundTrip(n / 10);
    }
  }

  /** A digit run followed by a non-digit (or nothing) is exactly what a greedy digit scan takes. */
  lemma {:induction false} DigitRunOfRunThenOther(d: string, rest: string)
    requires AllDigits(d)
    requires rest == [] || !IsNumber(rest[0])
    ensures DigitRun(d + rest) == |d|
    ensures (d + rest)[..|d|] == d
    decreases |d|
  {
    if d == [] {
      assert d + rest == rest;
    } else {
      assert (d + rest)[1..] == d[1..] + rest;
      DigitRunOfRunThenOther(d[1..], rest);
    }
  }

  /** A digit run from `i` reaches `j` when every character between is a digit and `s[j]` is not. */
  lemma {:induction false} DigitRunSpan(s: string, i: nat, j: nat)
    requires i <= j <= |s|
    requires forall m :: i <= m < j ==> IsNumber(s[m])
    requires j == |s| || !IsNumber(s[j])
    ensures DigitRun(s[i..]) == j - i
    decreases j - i
  {
    if i < j {
      assert s[i..][1..] == s[i + 1..];
      DigitRunSpan(s, i + 1, j);
    } else if j < |s| {
      assert s[i..][0] == s[j];
    }
  }

  /** One more digit on the right: the value so far times ten, plus that digit. */
  lemma DecimalValueExtend(s: string, i: nat, j: nat)
    requires i < j <= |s|
    ensures DecimalValue(s[i..j]) == DecimalValue(s[i..j - 1]) * 10 + DigitValue(s[j - 1])
  {
    assert s[i..j][..j - i - 1] == s[i..j - 1];
  }

  /** `strlen`: the number of characters before the first NUL. */
  function StrLen(s: string): (n: nat)
    ensures n <= |s|
    ensures forall i :: 0 <= i < n ==> s[i] != '\0'
    ensures n == |s| || s[n] == '\0'
  {
    if s == [] || s[0] == '\0' then 0 else 1 + StrLen(s[1..])
  }
}
