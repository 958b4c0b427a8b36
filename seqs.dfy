/** `Array.prototype.filter` and the subsequence relation it produces. */
module Seqs {

  /** `s.filter(p)`: the elements of `s` satisfying `p`, in their order. */
  function Filter<T>(s: seq<T>, p: T -> bool): (r: seq<T>)
    ensures |r| <= |s|
    ensures forall k :: 0 <= k < |r| ==> r[k] in s && p(r[k])
    ensures forall k :: 0 <= k < |s| && p(s[k]) ==> s[k] in r
  {
    if s == [] then [] else (if p(s[0]) then [s[0]] else []) + Filter(s[1..], p)
  }

  /** `a` is obtained from `b` by deleting elements, keeping the order of the rest. */
  ghost predicate IsSubsequence<T>(a: seq<T>, b: seq<T>)
    decreases |b|
  {
    if a == [] then true
    else if b == [] then false
    else (a[0] == b[0] && IsSubsequence(a[1..], b[1..])) || IsSubsequence(a, b[1..])
  }

  lemma {:induction false} SubsequenceReflexive<T>(s: seq<T>)
    ensures IsSubsequence(s, s)
  {
    if s != [] {
      SubsequenceReflexive(s[1..]);
    }
  }

  /** Dropping an element of the longer sequence keeps a subsequence relation
      to a suffix of it. */
  lemma {:induction false} SubsequenceOfTail<T>(a: seq<T>, b: seq<T>)
    requires b != [] && IsSubsequence(a, b[1..])
    ensures IsSubsequence(a, b)
  {
  }

  /** A subsequence is no longer than the sequence, and its elements come from it. */
  lemma {:induction false} SubsequenceElements<T>(a: seq<T>, b: seq<T>)
    requires IsSubsequence(a, b)
    ensures |a| <= |b|
    ensures forall x :: x in a ==> x in b
    decreases |b|
  {
    if a != [] {
      if a[0] == b[0] && IsSubsequence(a[1..], b[1..]) {
        SubsequenceElements(a[1..], b[1..]);
        assert forall x :: x in a ==> x == a[0] || x in a[1..];
      } else {
        SubsequenceElements(a, b[1..]);
      }
    }
  }

  /** A filter result is a subsequence of its input. */
  lemma {:induction false} FilterIsSubsequence<T>(s: seq<T>, p: T -> bool)
    ensures IsSubsequence(Filter(s, p), s)
  {
    if s != [] {
      FilterIsSubsequence(s[1..], p);
      var r := Filter(s, p);
      if p(s[0]) {
        assert r[0] == s[0] && r[1..] == Filter(s[1..], p);
      } else {
        assert r == Filter(s[1..], p);
      }
    }
  }

  /** The filter keeps every occurrence of an element it accepts and none of
      one it rejects. */
  lemma {:induction false} FilterMultiplicity<T>(s: seq<T>, p: T -> bool, x: T)
    ensures multiset(Filter(s, p))[x] == if p(x) then multiset(s)[x] else 0
  {
    if s != [] {
      FilterMultiplicity(s[1..], p, x);
      assert s == [s[0]] + s[1..];
    }
  }

  /** A filter whose predicate holds of every element keeps the whole input. */
  lemma {:induction false} FilterKeepsAll<T>(s: seq<T>, p: T -> bool)
    requires forall x :: x in s ==> p(x)
    ensures Filter(s, p) == s
  {
    if s != [] {
      FilterKeepsAll(s[1..], p);
      assert s == [s[0]] + s[1..];
    }
  }

  /** A filter whose predicate holds of no element keeps nothing. */
  lemma {:induction false} FilterRejectsAll<T>(s: seq<T>, p: T -> bool)
    requires forall k :: 0 <= k < |s| ==> !p(s[k])
    ensures Filter(s, p) == []
  {
    if s != [] {
      FilterRejectsAll(s[1..], p);
    }
  }

  /** Filtering again with the same predicate changes nothing. */
  lemma {:induction false} FilterIdempotent<T>(s: seq<T>, p: T -> bool)
    ensures Filter(Filter(s, p), p) == Filter(s, p)
  {
    FilterKeepsAll(Filter(s, p), p);
  }

  /** A stronger predicate keeps a subsequence of what a weaker one keeps. */
  lemma {:induction false} FilterMonotone<T>(s: seq<T>, p: T -> bool, q: T -> bool)
    requires forall x :: x in s && p(x) ==> q(x)
    ensures IsSubsequence(Filter(s, p), Filter(s, q))
  {
    if s != [] {
      FilterMonotone(s[1..], p, q);
      var rp, rq := Filter(s, p), Filter(s, q);
      var tp, tq := Filter(s[1..], p), Filter(s[1..], q);
      if p(s[0]) {
        assert rp == [s[0]] + tp && rq == [s[0]] + tq;
        assert rp[1..] == tp && rq[1..] == tq;
      } else if q(s[0]) {
        assert rp == tp && rq == [s[0]] + tq;
        assert rq[1..] == tq;
        SubsequenceOfTail(tp, rq);
      } else {
        assert rp == tp && rq == tq;
      }
    }
  }
}
