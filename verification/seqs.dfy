/** The sequence combinators the reconciliation is written with:
    `Array.prototype.filter` and `Array.prototype.map` over immutable sequences,
    together with an index-based description of what a filter keeps. */
module Seqs {

  /** The elements of `s` that satisfy `p`, in their original order
      (JavaScript's `s.filter(p)`). */
  function Filter<T>(p: T -> bool, s: seq<T>): (r: seq<T>)
    ensures |r| <= |s|
    ensures forall i :: 0 <= i < |r| ==> p(r[i])
  {
    if |s| == 0 then []
    else if p(s[0]) then [s[0]] + Filter(p, s[1..])
    else Filter(p, s[1..])
  }

  /** `f` applied to every element of `s` (JavaScript's `s.map(f)`). */
  function Map<T, U>(f: T -> U, s: seq<T>): (r: seq<U>)
    ensures |r| == |s|
    ensures forall i :: 0 <= i < |s| ==> r[i] == f(s[i])
  {
    if |s| == 0 then [] else [f(s[0])] + Map(f, s[1..])
  }

  /** True when `idx` is strictly increasing. */
  predicate Increasing(idx: seq<nat>)
  {
    forall k, m :: 0 <= k < m < |idx| ==> idx[k] < idx[m]
  }

  /** The positions `j` with `lo <= j < |s|` at which `s[j]` satisfies `p`,
      listed in increasing order. */
  function MatchingIndicesFrom<T>(p: T -> bool, s: seq<T>, lo: nat): (idx: seq<nat>)
    requires lo <= |s|
    ensures Increasing(idx)
    ensures forall k :: 0 <= k < |idx| ==> lo <= idx[k] < |s| && p(s[idx[k]])
    ensures forall j :: lo <= j < |s| ==> (j in idx <==> p(s[j]))
    decreases |s| - lo
  {
    if lo == |s| then []
    else if p(s[lo]) then [lo] + MatchingIndicesFrom(p, s, lo + 1)
    else MatchingIndicesFrom(p, s, lo + 1)
  }

  /** Every position of `s` whose element satisfies `p`, in increasing order. */
  function MatchingIndices<T>(p: T -> bool, s: seq<T>): (idx: seq<nat>)
    ensures Increasing(idx)
    ensures forall k :: 0 <= k < |idx| ==> idx[k] < |s| && p(s[idx[k]])
    ensures forall j :: 0 <= j < |s| ==> (j in idx <==> p(s[j]))
  {
    MatchingIndicesFrom(p, s, 0)
  }

  /** The filter of a suffix keeps as many elements as the suffix has
      matching positions. */
  lemma {:induction false} FilterSuffixLength<T>(p: T -> bool, s: seq<T>, lo: nat)
    requires lo <= |s|
    ensures |Filter(p, s[lo..])| == |MatchingIndicesFrom(p, s, lo)|
    decreases |s| - lo
  {
    if lo < |s| {
      assert s[lo..][1..] == s[lo + 1..];
      FilterSuffixLength(p, s, lo + 1);
    }
  }

  /** The `k`-th element kept by the filter of a suffix is the element at the
      `k`-th matching position of that suffix. */
  lemma {:induction false} FilterSuffixAt<T>(p: T -> bool, s: seq<T>, lo: nat, k: nat)
    requires lo <= |s|
    requires k < |Filter(p, s[lo..])|
    requires k < |MatchingIndicesFrom(p, s, lo)|
    ensures Filter(p, s[lo..])[k] == s[MatchingIndicesFrom(p, s, lo)[k]]
    decreases |s| - lo
  {
    var t := s[lo..];
    assert t[0] == s[lo] && t[1..] == s[lo + 1..];
    var rest := Filter(p, s[lo + 1..]);
    var restIdx := MatchingIndicesFrom(p, s, lo + 1);
    if p(s[lo]) {
      assert Filter(p, t) == [s[lo]] + rest;
      assert MatchingIndicesFrom(p, s, lo) == [lo] + restIdx;
      if k > 0 {
        FilterSuffixAt(p, s, lo + 1, k - 1);
      }
    } else {
      assert Filter(p, t) == rest;
      assert MatchingIndicesFrom(p, s, lo) == restIdx;
      FilterSuffixAt(p, s, lo + 1, k);
    }
  }

  /** `Filter(p, s)` is `s` read at the matching positions, in increasing
      order: it keeps the relative order and the multiplicity of the elements
      that satisfy `p`, and nothing else. */
  lemma FilterAtIndices<T>(p: T -> bool, s: seq<T>)
    ensures |Filter(p, s)| == |MatchingIndices(p, s)|
    ensures forall k :: 0 <= k < |Filter(p, s)| ==> Filter(p, s)[k] == s[MatchingIndices(p, s)[k]]
  {
    assert s[0..] == s;
    FilterSuffixLength(p, s, 0);
    forall k | 0 <= k < |Filter(p, s)|
      ensures Filter(p, s)[k] == s[MatchingIndices(p, s)[k]]
    {
      FilterSuffixAt(p, s, 0, k);
    }
  }

  /** Filtering distributes over concatenation. */
  lemma {:induction false} FilterAppend<T>(p: T -> bool, a: seq<T>, b: seq<T>)
    ensures Filter(p, a + b) == Filter(p, a) + Filter(p, b)
  {
    if |a| > 0 {
      FilterAppend(p, a[1..], b);
      assert (a + b)[1..] == a[1..] + b;
    } else {
      assert a + b == b;
    }
  }

  /** A one-element sequence is kept whole or dropped whole. */
  lemma SingletonFilter<T>(p: T -> bool, x: T)
    ensures Filter(p, [x]) == if p(x) then [x] else []
  {
  }

  /** Removing an element that `p` rejects does not change the filter. */
  lemma FilterSkipsRejected<T>(p: T -> bool, s: seq<T>, j: nat)
    requires j < |s| && !p(s[j])
    ensures Filter(p, s[..j] + s[j + 1..]) == Filter(p, s)
  {
    var front, x, back := s[..j], s[j], s[j + 1..];
    assert s == (front + [x]) + back;
    calc {
      Filter(p, s);
      { FilterAppend(p, front + [x], back); }
      Filter(p, front + [x]) + Filter(p, back);
      { FilterAppend(p, front, [x]); SingletonFilter(p, x); }
      Filter(p, front) + Filter(p, back);
      { FilterAppend(p, front, back); }
      Filter(p, front + back);
    }
  }

  /** Two sequences of equal length whose elements pass their filters at the
      same positions have the same matching positions. */
  lemma {:induction false} MatchingIndicesAgree<T>(p: T -> bool, s: seq<T>, q: T -> bool, s': seq<T>, lo: nat)
    requires |s| == |s'| && lo <= |s|
    requires forall j :: 0 <= j < |s| ==> p(s[j]) == q(s'[j])
    ensures MatchingIndicesFrom(p, s, lo) == MatchingIndicesFrom(q, s', lo)
    decreases |s| - lo
  {
    if lo < |s| {
      MatchingIndicesAgree(p, s, q, s', lo + 1);
    }
  }

  /** Predicates that agree on every element of `s` filter it alike. */
  lemma {:induction false} FilterCongruent<T>(p: T -> bool, q: T -> bool, s: seq<T>)
    requires forall j :: 0 <= j < |s| ==> p(s[j]) == q(s[j])
    ensures Filter(p, s) == Filter(q, s)
  {
    if |s| > 0 {
      FilterCongruent(p, q, s[1..]);
    }
  }
}
