/** Texts put together with a separator, and when they can be told apart again. */
module Separators {

  /** How often a character occurs. */
  function Count(c: char, s: string): nat {
    if s == "" then 0 else (if s[0] == c then 1 else 0) + Count(c, s[1..])
  }

  lemma {:induction false} CountFree(c: char, s: string)
    requires c !in s
    ensures Count(c, s) == 0
  {
    if s == "" {
    } else {
      CountFree(c, s[1..]);
    }
  }

  lemma TailOfJoined(c: char, a: string, rest: string)
    requires a != ""
    ensures (a + [c] + rest)[0] == a[0] && (a + [c] + rest)[1..] == a[1..] + [c] + rest
  {
  }

  /** Two first parts in which the separator occurs equally often, with whatever behind them: equal texts have
      equal parts. */
  lemma {:induction false} SplitAgain(c: char, a: string, rest1: string, b: string, rest2: string)
    requires Count(c, a) == Count(c, b) && a + [c] + rest1 == b + [c] + rest2
    ensures a == b && rest1 == rest2
    decreases a
  {
    if a == "" {
      if b != "" { TailOfJoined(c, b, rest2); }
      assert (a + [c] + rest1)[0] == c && (a + [c] + rest1)[1..] == rest1;
      EmptyFirst(c, rest1, b, rest2);
    } else if b == "" {
      EmptyFirst(c, rest2, a, rest1);
    } else {
      TailOfJoined(c, a, rest1);
      TailOfJoined(c, b, rest2);
      SplitAgain(c, a[1..], rest1, b[1..], rest2);
      assert a == [a[0]] + a[1..] && b == [b[0]] + b[1..];
    }
  }

  lemma EmptyFirst(c: char, rest1: string, b: string, rest2: string)
    requires Count(c, b) == 0 && "" + [c] + rest1 == b + [c] + rest2
    ensures b == "" && rest1 == rest2
  {
    assert ("" + [c] + rest1)[0] == c && ("" + [c] + rest1)[1..] == rest1;
    if b == "" {
      assert (b + [c] + rest2)[1..] == rest2;
    } else {
      TailOfJoined(c, b, rest2);
    }
  }
}
