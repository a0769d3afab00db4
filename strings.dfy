/** Small facts about strings shared by the email-shape check and the HTML rewrite. */
module Strings {

  /** Number of positions of `s` that hold `c`. */
  function Occurrences(s: string, c: char): nat
    decreases |s|
  {
    if s == [] then 0
    else (if s[0] == c then 1 else 0) + Occurrences(s[1..], c)
  }

  /** Counting distributes over concatenation. */
  lemma {:induction false} OccurrencesAppend(a: string, b: string, c: char)
    ensures Occurrences(a + b, c) == Occurrences(a, c) + Occurrences(b, c)
    decreases |a|
  {
    if a == [] {
      assert a + b == b;
    } else {
      assert (a + b)[1..] == a[1..] + b;
      OccurrencesAppend(a[1..], b, c);
    }
  }

  /** A character occurs zero times exactly when it is not in the string. */
  lemma {:induction false} OccurrencesZero(s: string, c: char)
    ensures Occurrences(s, c) == 0 <==> c !in s
    decreases |s|
  {
    if s != [] {
      OccurrencesZero(s[1..], c);
      assert s == [s[0]] + s[1..];
    }
  }
}
