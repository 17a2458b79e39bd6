/**
 Generic sequence operations that the JavaScript code uses on arrays:
 `filter`, `findIndex` with a strict-equality test, and `includes`.
 */
module Seqs {

  /** `s.includes(x)`: whether some element equals `x`. */
  function Contains<T(==)>(s: seq<T>, x: T): (b: bool)
    ensures b <==> exists i :: 0 <= i < |s| && s[i] == x
  {
    if |s| == 0 then false
    else s[0] == x || Contains(s[1..], x)
  }

  /** `s.findIndex(e => e === x)`: the first index holding `x`, or -1. */
  function IndexOf<T(==)>(s: seq<T>, x: T): (k: int)
    ensures -1 <= k < |s|
    ensures k == -1 <==> x !in s
    ensures 0 <= k ==> IsFirstIndex(s, x, k)
  {
    if |s| == 0 then -1
    else if s[0] == x then 0
    else
      var k := IndexOf(s[1..], x);
      if k == -1 then -1 else k + 1
  }

  /** `k` is the first position of `x` in `s`. */
  ghost predicate IsFirstIndex<T>(s: seq<T>, x: T, k: int) {
    && 0 <= k < |s|
    && s[k] == x
    && forall j :: 0 <= j < k ==> s[j] != x
  }

  /** A sequence has at most one first position of a value. */
  lemma FirstIndexUnique<T>(s: seq<T>, x: T, k: int, k': int)
    requires IsFirstIndex(s, x, k) && IsFirstIndex(s, x, k')
    ensures k == k'
  {
  }

  /** `s.filter(keep)`: the elements satisfying `keep`, in their original order. */
  function Filter<T(!new)>(s: seq<T>, keep: T -> bool): (r: seq<T>)
    ensures |r| <= |s|
    ensures forall i :: 0 <= i < |r| ==> keep(r[i])
  {
    if |s| == 0 then []
    else (if keep(s[0]) then [s[0]] else []) + Filter(s[1..], keep)
  }

  /** Filtering keeps every element satisfying `keep` as often as it occurs, and nothing else. */
  lemma {:induction false} FilterCounts<T(!new)>(s: seq<T>, keep: T -> bool)
    ensures forall x :: multiset(Filter(s, keep))[x] == if keep(x) then multiset(s)[x] else 0
  {
    if |s| > 0 {
      assert s == [s[0]] + s[1..];
      FilterCounts(s[1..], keep);
    }
  }

  /** Filtering distributes over concatenation, so it keeps the original order. */
  lemma {:induction false} FilterAppend<T(!new)>(a: seq<T>, b: seq<T>, keep: T -> bool)
    ensures Filter(a + b, keep) == Filter(a, keep) + Filter(b, keep)
  {
    if |a| == 0 {
      assert a + b == b;
    } else {
      assert (a + b)[1..] == a[1..] + b;
      FilterAppend(a[1..], b, keep);
    }
  }

  /** A sequence all of whose elements satisfy `keep` is its own filter. */
  lemma {:induction false} FilterAllKept<T(!new)>(s: seq<T>, keep: T -> bool)
    requires forall i :: 0 <= i < |s| ==> keep(s[i])
    ensures Filter(s, keep) == s
  {
    if |s| > 0 {
      FilterAllKept(s[1..], keep);
    }
  }
}
