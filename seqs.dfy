/** Order-preserving selection over sequences: the `Array.prototype.filter`
    that the pages use for searching and for dropping a deleted article. */
module Seqs {

  import opened Types

  /** `Array.prototype.find`: the first element that satisfies `p`, if any. */
  function Find<T>(s: seq<T>, p: T -> bool): (r: Option<T>)
    ensures r.None? <==> forall i :: 0 <= i < |s| ==> !p(s[i])
    ensures r.Some? ==> exists i :: 0 <= i < |s| && s[i] == r.value && p(s[i])
                                   && forall j :: 0 <= j < i ==> !p(s[j])
  {
    if s == [] then None
    else if p(s[0]) then Some(s[0])
    else
      var r := Find(s[1..], p);
      assert forall j :: 1 <= j < |s| ==> s[j] == s[1..][j - 1];
      r
  }

  /** Keeps, in their original order, the elements that satisfy `p`. */
  function Filter<T(!new)>(s: seq<T>, p: T -> bool): (r: seq<T>)
    ensures |r| <= |s|
    ensures forall x :: x in r <==> x in s && p(x)
  {
    if s == [] then []
    else (if p(s[0]) then [s[0]] else []) + Filter(s[1..], p)
  }

  /** `idx` lists, in increasing order, the positions of `b` at which the
      elements of `a` sit. */
  ghost predicate EmbedsAt<T>(a: seq<T>, b: seq<T>, idx: seq<nat>)
  {
    && |idx| == |a|
    && (forall k :: 0 <= k < |idx| ==> idx[k] < |b| && a[k] == b[idx[k]])
    && (forall k, l :: 0 <= k < l < |idx| ==> idx[k] < idx[l])
  }

  /** `a` is obtained from `b` by deleting elements, without reordering. */
  ghost predicate IsSubsequence<T>(a: seq<T>, b: seq<T>)
  {
    exists idx :: EmbedsAt(a, b, idx)
  }

  /** The positions of `s` kept by `Filter(s, p)`, shifted by `offset`. */
  function KeptPositions<T(!new)>(s: seq<T>, p: T -> bool, offset: nat): (idx: seq<nat>)
    ensures |idx| == |Filter(s, p)|
    ensures forall k :: 0 <= k < |idx| ==> offset <= idx[k] < offset + |s|
  {
    if s == [] then []
    else (if p(s[0]) then [offset] else []) + KeptPositions(s[1..], p, offset + 1)
  }

  lemma {:induction false} KeptPositionsEmbed<T(!new)>(s: seq<T>, p: T -> bool, offset: nat, b: seq<T>)
    requires offset + |s| <= |b| && b[offset..offset + |s|] == s
    ensures EmbedsAt(Filter(s, p), b, KeptPositions(s, p, offset))
  {
    if s != [] {
      assert b[offset + 1..offset + 1 + |s[1..]|] == s[1..] by {
        assert b[offset + 1..offset + |s|] == b[offset..offset + |s|][1..];
      }
      KeptPositionsEmbed(s[1..], p, offset + 1, b);
      assert b[offset] == s[0] by { assert b[offset..offset + |s|][0] == s[0]; }
    }
  }

  /** Filtering yields a subsequence of its input: nothing is added or reordered. */
  lemma FilterIsSubsequence<T(!new)>(s: seq<T>, p: T -> bool)
    ensures IsSubsequence(Filter(s, p), s)
  {
    assert s[0..|s|] == s;
    KeptPositionsEmbed(s, p, 0, s);
  }

  /** Every sequence is a subsequence of itself, at positions 0, 1, 2, ... */
  lemma SubsequenceOfSelf<T>(s: seq<T>)
    ensures IsSubsequence(s, s)
  {
    var idx: seq<nat> := seq(|s|, (i: int) requires 0 <= i => i as nat);
    assert EmbedsAt(s, s, idx);
  }

  /** Filtering distributes over concatenation. */
  lemma {:induction false} FilterAppend<T(!new)>(a: seq<T>, b: seq<T>, p: T -> bool)
    ensures Filter(a + b, p) == Filter(a, p) + Filter(b, p)
  {
    if a != [] {
      assert (a + b)[1..] == a[1..] + b;
      FilterAppend(a[1..], b, p);
    } else {
      assert a + b == b;
    }
  }

  /** Filtering twice with the same test changes nothing more. */
  lemma {:induction false} FilterIdempotent<T(!new)>(s: seq<T>, p: T -> bool)
    ensures Filter(Filter(s, p), p) == Filter(s, p)
  {
    if s != [] {
      var head := if p(s[0]) then [s[0]] else [];
      FilterIdempotent(s[1..], p);
      FilterAppend(head, Filter(s[1..], p), p);
      assert Filter(head, p) == head by {
        if p(s[0]) { assert head[1..] == []; }
      }
    }
  }

  /** When every element passes, filtering is the identity (order and content). */
  lemma {:induction false} FilterKeepsAll<T(!new)>(s: seq<T>, p: T -> bool)
    requires forall x :: x in s ==> p(x)
    ensures Filter(s, p) == s
  {
    if s != [] {
      FilterKeepsAll(s[1..], p);
      assert [s[0]] + s[1..] == s;
    }
  }

  /** Each value keeps its multiplicity if it passes and disappears otherwise. */
  lemma {:induction false} FilterMultiplicity<T(!new)>(s: seq<T>, p: T -> bool, x: T)
    ensures multiset(Filter(s, p))[x] == if p(x) then multiset(s)[x] else 0
  {
    if s != [] {
      FilterMultiplicity(s[1..], p, x);
      assert s == [s[0]] + s[1..];
      assert multiset(s) == multiset([s[0]]) + multiset(s[1..]);
    }
  }
}
