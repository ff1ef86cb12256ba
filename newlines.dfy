/** The clean-up `prompt` applies to the line it reads: every newline
    character is replaced by nothing. */
module Newlines {

  /** `s` with every '\n' removed and every other character kept, in order. */
  function StripNewlines(s: string): (r: string)
    ensures '\n' !in r
    ensures |r| <= |s|
  {
    if s == [] then []
    else if s[0] == '\n' then StripNewlines(s[1..])
    else [s[0]] + StripNewlines(s[1..])
  }

  /** Stripping works piece by piece: together with the one-character cases
      below, this determines the function on every string. */
  lemma {:induction false} StripNewlinesAppend(a: string, b: string)
    ensures StripNewlines(a + b) == StripNewlines(a) + StripNewlines(b)
  {
    if a == [] {
      assert a + b == b;
    } else {
      assert (a + b)[0] == a[0] && (a + b)[1..] == a[1..] + b;
      StripNewlinesAppend(a[1..], b);
    }
  }

  /** On one character: a newline disappears, anything else stays. */
  lemma StripNewlinesChar(c: char)
    ensures StripNewlines([c]) == if c == '\n' then [] else [c]
  {
  }

  /** Every character other than '\n' occurs as often in the result as in
      the input, and '\n' does not occur at all. */
  lemma {:induction false} StripNewlinesCounts(s: string)
    ensures multiset(StripNewlines(s))['\n'] == 0
    ensures forall c :: c != '\n' ==> multiset(StripNewlines(s))[c] == multiset(s)[c]
  {
    if s != [] {
      StripNewlinesCounts(s[1..]);
      assert s == [s[0]] + s[1..];
      assert multiset(s) == multiset{s[0]} + multiset(s[1..]);
    }
  }

  /** A string without newlines comes back unchanged. */
  lemma {:induction false} StripNewlinesNoNewline(s: string)
    requires '\n' !in s
    ensures StripNewlines(s) == s
  {
    if s != [] {
      assert s[0] != '\n';
      assert '\n' !in s[1..];
      StripNewlinesNoNewline(s[1..]);
      assert s == [s[0]] + s[1..];
    }
  }

  /** Stripping twice is stripping once. */
  lemma StripNewlinesIdempotent(s: string)
    ensures StripNewlines(StripNewlines(s)) == StripNewlines(s)
  {
  }
}
