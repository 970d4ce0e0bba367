/**
 * Array.prototype.filter, which both the calendar (tasks of one day) and the
 * board (tasks of one column) use: the elements of s that satisfy p, in s's order.
 */
module Sequences {

  function Filter<T>(s: seq<T>, p: T -> bool): (r: seq<T>)
    ensures |r| <= |s|
    ensures forall i :: 0 <= i < |r| ==> r[i] in s && p(r[i])
    ensures forall i :: 0 <= i < |s| && p(s[i]) ==> s[i] in r
    decreases |s|
  {
    if s == [] then []
    else if p(s[0]) then [s[0]] + Filter(s[1..], p)
    else Filter(s[1..], p)
  }

  /** The positions i <= j < |s| whose element satisfies p, in increasing order. */
  function MatchingIndices<T>(s: seq<T>, p: T -> bool, i: nat): (idx: seq<int>)
    requires i <= |s|
    ensures forall k :: 0 <= k < |idx| ==> i <= idx[k] < |s| && p(s[idx[k]])
    ensures forall j :: i <= j < |s| && p(s[j]) ==> j in idx
    ensures StrictlyIncreasing(idx)
    decreases |s| - i
  {
    if i == |s| then []
    else if p(s[i]) then [i] + MatchingIndices(s, p, i + 1)
    else MatchingIndices(s, p, i + 1)
  }

  predicate StrictlyIncreasing(idx: seq<int>)
  {
    forall j, k :: 0 <= j < k < |idx| ==> idx[j] < idx[k]
  }

  /** Filter(s[i..], p) is s read at MatchingIndices(s, p, i). */
  lemma {:induction false} FilterAtIndices<T>(s: seq<T>, p: T -> bool, i: nat)
    requires i <= |s|
    ensures |Filter(s[i..], p)| == |MatchingIndices(s, p, i)|
    ensures forall k :: 0 <= k < |MatchingIndices(s, p, i)| ==>
      Filter(s[i..], p)[k] == s[MatchingIndices(s, p, i)[k]]
    decreases |s| - i
  {
    if i < |s| {
      FilterAtIndices(s, p, i + 1);
      assert s[i..][1..] == s[i + 1..];
      assert s[i..][0] == s[i];
    }
  }

  /** The whole-sequence instance: Filter(s, p) is s read at the increasing list
      of exactly the positions whose element satisfies p. */
  lemma FilterIsSubsequence<T>(s: seq<T>, p: T -> bool)
    ensures var idx := MatchingIndices(s, p, 0);
      && StrictlyIncreasing(idx)
      && (forall j :: j in idx <==> 0 <= j < |s| && p(s[j]))
      && |Filter(s, p)| == |idx|
      && (forall k :: 0 <= k < |idx| ==> 0 <= idx[k] < |s| && Filter(s, p)[k] == s[idx[k]])
  {
    FilterAtIndices(s, p, 0);
    assert s[0..] == s;
  }

  /** How often each value occurs: filtering keeps all copies of a value that
      satisfies p and none of a value that does not. */
  lemma {:induction false} FilterMultiplicity<T>(s: seq<T>, p: T -> bool, x: T)
    ensures multiset(Filter(s, p))[x] == if p(x) then multiset(s)[x] else 0
    decreases |s|
  {
    if s != [] {
      FilterMultiplicity(s[1..], p, x);
      assert s == [s[0]] + s[1..];
    }
  }

  /** Filtering a concatenation filters each part: order across parts is kept. */
  lemma {:induction false} FilterAppend<T>(a: seq<T>, b: seq<T>, p: T -> bool)
    ensures Filter(a + b, p) == Filter(a, p) + Filter(b, p)
    decreases |a|
  {
    if a == [] {
      assert a + b == b;
    } else {
      FilterAppend(a[1..], b, p);
      assert (a + b)[1..] == a[1..] + b;
      assert (a + b)[0] == a[0];
    }
  }

  /** A filter whose predicate holds everywhere returns its input unchanged. */
  lemma {:induction false} FilterAll<T>(s: seq<T>, p: T -> bool)
    requires forall i :: 0 <= i < |s| ==> p(s[i])
    ensures Filter(s, p) == s
    decreases |s|
  {
    if s != [] {
      FilterAll(s[1..], p);
    }
  }
}
