/** Taking concatenations apart. */
module Sequences {
  lemma Split<T>(a: seq<T>, b: seq<T>, c: seq<T>, d: seq<T>)
    requires |a| == |c| && a + b == c + d
    ensures a == c && b == d
  {
    assert a == (a + b)[..|a|] && c == (c + d)[..|a|];
    assert b == (a + b)[|a|..] && d == (c + d)[|a|..];
  }
}
