/** Order-preserving selection on sequences. */
module Seqs {

  /** `sub` is `s` with some elements dropped and the rest kept in order. */
  predicate IsSubsequence<T(==)>(sub: seq<T>, s: seq<T>)
    decreases |s|
  {
    |sub| == 0 ||
    (|s| > 0 && ((sub[0] == s[0] && IsSubsequence(sub[1..], s[1..])) || IsSubsequence(sub, s[1..])))
  }

  /** The elements of `s` satisfying `keep`, in their original order. */
  function Filter<T(==,!new)>(keep: T -> bool, s: seq<T>): (r: seq<T>)
    ensures |r| <= |s|
    ensures forall i :: 0 <= i < |r| ==> r[i] in s && keep(r[i])
    ensures forall i :: 0 <= i < |s| && keep(s[i]) ==> s[i] in r
    ensures forall x :: multiset(r)[x] == if keep(x) then multiset(s)[x] else 0
    decreases |s|
  {
    if |s| == 0 then []
    else
      assert s == [s[0]] + s[1..];
      if keep(s[0]) then [s[0]] + Filter(keep, s[1..])
      else Filter(keep, s[1..])
  }

  function Map<T, U>(f: T -> U, s: seq<T>): (r: seq<U>)
    ensures |r| == |s|
    ensures forall i :: 0 <= i < |s| ==> r[i] == f(s[i])
  {
    seq(|s|, i requires 0 <= i < |s| => f(s[i]))
  }

  lemma MapCons<T, U>(f: T -> U, x: T, s: seq<T>)
    ensures Map(f, [x] + s) == [f(x)] + Map(f, s)
  {
  }

  /** A subsequence is never longer than the sequence it is taken from. */
  lemma {:induction false} SubsequenceNoLonger<T>(sub: seq<T>, s: seq<T>)
    requires IsSubsequence(sub, s)
    ensures |sub| <= |s|
    decreases |s|
  {
    if |sub| > 0 {
      if sub[0] == s[0] && IsSubsequence(sub[1..], s[1..]) {
        SubsequenceNoLonger(sub[1..], s[1..]);
      } else {
        SubsequenceNoLonger(sub, s[1..]);
      }
    }
  }

  /** A subsequence as long as its source is the source itself. */
  lemma {:induction false} SubsequenceSameLength<T>(sub: seq<T>, s: seq<T>)
    requires IsSubsequence(sub, s) && |sub| == |s|
    ensures sub == s
    decreases |s|
  {
    if |s| > 0 {
      if sub[0] == s[0] && IsSubsequence(sub[1..], s[1..]) {
        SubsequenceSameLength(sub[1..], s[1..]);
        assert sub == [sub[0]] + sub[1..] && s == [s[0]] + s[1..];
      } else {
        SubsequenceNoLonger(sub, s[1..]);
      }
    }
  }

  /** A filter result is a subsequence of its input. */
  lemma {:induction false} FilterIsSubsequence<T(!new)>(keep: T -> bool, s: seq<T>)
    ensures IsSubsequence(Filter(keep, s), s)
    decreases |s|
  {
    if |s| > 0 {
      FilterIsSubsequence(keep, s[1..]);
      if keep(s[0]) {
        assert ([s[0]] + Filter(keep, s[1..]))[1..] == Filter(keep, s[1..]);
      }
    }
  }
}
