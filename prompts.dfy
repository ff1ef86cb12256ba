/** The text shown before each question is read: the 1-based question number
    as `%d` prints it, then the question. */
module Prompts {

  predicate IsDigit(c: char) {
    '0' <= c <= '9'
  }

  predicate AllDigits(s: string) {
    forall i :: 0 <= i < |s| ==> IsDigit(s[i])
  }

  function DigitChar(d: nat): (c: char)
    requires d < 10
    ensures IsDigit(c) && c as int - '0' as int == d
  {
    ('0' as int + d) as char
  }

  /** Decimal notation of `n`: only digits, and no leading zero unless `n` is 0. */
  function DecimalString(n: nat): (s: string)
    ensures |s| >= 1 && AllDigits(s)
    ensures s[0] == '0' ==> n == 0
    decreases n
  {
    if n < 10 then [DigitChar(n)] else DecimalString(n / 10) + [DigitChar(n % 10)]
  }

  /** The number a string of digits denotes. */
  function DecimalValue(s: string): nat
    requires AllDigits(s)
  {
    if s == [] then 0
    else DecimalValue(s[..|s| - 1]) * 10 + (s[|s| - 1] as int - '0' as int)
  }

  /** Reading back the decimal notation gives the number. */
  lemma {:induction false} DecimalRoundTrip(n: nat)
    ensures DecimalValue(DecimalString(n)) == n
    decreases n
  {
    var s := DecimalString(n);
    if n >= 10 {
      DecimalRoundTrip(n / 10);
      assert s[..|s| - 1] == DecimalString(n / 10);
    }
  }

  /** Different numbers are printed differently. */
  lemma DecimalStringInjective(m: nat, n: nat)
    requires DecimalString(m) == DecimalString(n)
    ensures m == n
  {
    DecimalRoundTrip(m);
    DecimalRoundTrip(n);
  }

  /** The prompt for question number `n` (1-based). */
  function PromptText(n: nat, question: string): string {
    DecimalString(n) + ".  What is " + question + " ?  "
  }

  /** Length of the longest prefix of `s` made of digits. */
  function LeadingDigits(s: string): (k: nat)
    ensures k <= |s| && AllDigits(s[..k])
    ensures k < |s| ==> !IsDigit(s[k])
  {
    if s == [] || !IsDigit(s[0]) then 0
    else
      var k := 1 + LeadingDigits(s[1..]);
      assert s[..k] == [s[0]] + s[1..][..k - 1];
      k
  }

  /** The number a prompt starts with. */
  function PromptNumber(p: string): nat {
    DecimalValue(p[..LeadingDigits(p)])
  }

  lemma {:induction false} LeadingDigitsOfNumber(d: string, rest: string)
    requires AllDigits(d)
    requires rest != [] && !IsDigit(rest[0])
    ensures LeadingDigits(d + rest) == |d|
  {
    if d == [] {
      assert d + rest == rest;
    } else {
      assert (d + rest)[0] == d[0] && (d + rest)[1..] == d[1..] + rest;
      LeadingDigitsOfNumber(d[1..], rest);
    }
  }

  /** The prompt for question number `n` starts with `n` and ends with the
      question followed by " ?  ". */
  lemma PromptTextParts(n: nat, question: string)
    ensures PromptNumber(PromptText(n, question)) == n
    ensures var p := PromptText(n, question);
      p[|p| - |question| - 4..] == question + " ?  "
  {
    var d := DecimalString(n);
    var rest := ".  What is " + question + " ?  ";
    var p := PromptText(n, question);
    assert p == d + rest;
    assert p == (d + ".  What is ") + (question + " ?  ");
    assert p[|p| - |question| - 4..] == question + " ?  ";
    LeadingDigitsOfNumber(d, rest);
    assert (d + rest)[..|d|] == d;
    DecimalRoundTrip(n);
  }
}
