/** Facts about sequences shared by both scripts. */
module Sequences {

  /** `sub` is `s` with some elements removed, the rest kept in their order. */
  ghost predicate SubsequenceOf<T>(sub: seq<T>, s: seq<T>)
    decreases |s|
  {
    if sub == [] then true
    else if s == [] then false
    else if sub[0] == s[0] then SubsequenceOf(sub[1..], s[1..])
    else SubsequenceOf(sub, s[1..])
  }

  /** Python's `s[:n]` for any integer `n`: a negative `n` counts from the end. */
  function PySliceTo<T>(s: seq<T>, n: int): (r: seq<T>)
    ensures |r| <= |s| && r == s[..|r|]
    ensures 0 <= n ==> |r| == if n < |s| then n else |s|
    ensures n < 0 ==> |r| == if |s| + n < 0 then 0 else |s| + n
  {
    if 0 <= n then
      if n < |s| then s[..n] else s
    else
      if |s| + n < 0 then [] else s[..|s| + n]
  }

  /** Every prefix of a subsequence of `s` is still a subsequence of `s`. */
  lemma {:induction false} SubsequenceOfPrefix<T>(sub: seq<T>, s: seq<T>, k: nat)
    requires SubsequenceOf(sub, s) && k <= |sub|
    ensures SubsequenceOf(sub[..k], s)
    decreases |s|
  {
    if k > 0 {
      if sub[0] == s[0] {
        SubsequenceOfPrefix(sub[1..], s[1..], k - 1);
        assert sub[..k][1..] == sub[1..][..k - 1];
      } else {
        SubsequenceOfPrefix(sub, s[1..], k);
      }
    }
  }

  /** Behind a fixed prefix `a`, taking one more element of `s` appends that element. */
  lemma AppendTakeNext<T>(a: seq<T>, s: seq<T>, i: nat)
    requires i < |s|
    ensures a + s[..i + 1] == (a + s[..i]) + [s[i]]
  {
    assert s[..i + 1] == s[..i] + [s[i]];
  }
}
