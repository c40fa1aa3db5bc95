/** A disjoint-set forest over the elements [0, m), standing in for the
    library's weighted quick-union class. Only its contract is modelled: a
    component-label array where `id[x]` names the representative of x's set
    (the quick-find representation). */
module DisjointSet {

  /** x and y are elements and lie in the same set of the labelling s. */
  predicate Same(s: seq<int>, x: int, y: int)
  {
    0 <= x < |s| && 0 <= y < |s| && s[x] == s[y]
  }

  /** Every label is itself an element whose own label is that label:
      the representative returned by find is a member of the set it names. */
  predicate Canonical(s: seq<int>)
  {
    forall x :: 0 <= x < |s| ==> 0 <= s[x] < |s| && s[s[x]] == s[x]
  }

  /** The labelling where every element is alone in its set. */
  function Singletons(m: nat): (s: seq<int>)
    ensures |s| == m && Canonical(s)
    ensures forall x, y :: Same(s, x, y) <==> 0 <= x < m && x == y
  {
    seq(m, i => i)
  }

  /** The labelling after merging the sets of a and b: every member of a's
      set takes b's label. */
  function Merge(s: seq<int>, a: int, b: int): (r: seq<int>)
    requires 0 <= a < |s| && 0 <= b < |s|
    ensures |r| == |s|
    ensures Canonical(s) ==> Canonical(r)
  {
    seq(|s|, i requires 0 <= i < |s| => if s[i] == s[a] then s[b] else s[i])
  }

  /** After merging a and b, two elements share a set exactly when they
      already did, or one was with a and the other with b. */
  lemma MergeSame(s: seq<int>, a: int, b: int)
    requires 0 <= a < |s| && 0 <= b < |s|
    ensures forall x, y :: Same(Merge(s, a, b), x, y) <==>
      Same(s, x, y) || (Same(s, x, a) && Same(s, y, b)) || (Same(s, x, b) && Same(s, y, a))
  {
  }

  /** The labelling after merging a and b when `wanted` holds and both are
      elements, unchanged otherwise: one guarded union. */
  function MergeIf(s: seq<int>, wanted: bool, a: int, b: int): (r: seq<int>)
    ensures |r| == |s|
  {
    if wanted && 0 <= a < |s| && 0 <= b < |s| then Merge(s, a, b) else s
  }

  /** The labelling after merging the pairs of ps, first to last. A pair
      that names a non-element is skipped. */
  function MergeAll(s: seq<int>, ps: seq<(int, int)>): (r: seq<int>)
    ensures |r| == |s|
    ensures Canonical(s) ==> Canonical(r)
  {
    if ps == [] then s
    else
      var t, last := MergeAll(s, ps[..|ps| - 1]), ps[|ps| - 1];
      if 0 <= last.0 < |s| && 0 <= last.1 < |s| then Merge(t, last.0, last.1) else t
  }

  /** Merging two lists one after the other is merging their concatenation. */
  lemma {:induction false} MergeAllAppend(s: seq<int>, ps: seq<(int, int)>, qs: seq<(int, int)>)
    ensures MergeAll(MergeAll(s, ps), qs) == MergeAll(s, ps + qs)
  {
    if qs != [] {
      var init, last := qs[..|qs| - 1], qs[|qs| - 1];
      MergeAllAppend(s, ps, init);
      assert (ps + qs)[..|ps + qs| - 1] == ps + init;
    } else {
      assert ps + qs == ps;
    }
  }

  /** Merging never separates two elements. */
  lemma {:induction false} MergeAllKeepsSame(s: seq<int>, ps: seq<(int, int)>, x: int, y: int)
    requires Same(s, x, y)
    ensures Same(MergeAll(s, ps), x, y)
  {
    if ps != [] {
      var init, last := ps[..|ps| - 1], ps[|ps| - 1];
      MergeAllKeepsSame(s, init, x, y);
      if 0 <= last.0 < |s| && 0 <= last.1 < |s| {
        MergeSame(MergeAll(s, init), last.0, last.1);
      }
    }
  }

  /** After merging a list of pairs of elements, each pair lies in one set. */
  lemma {:induction false} MergeAllJoinsPairs(s: seq<int>, ps: seq<(int, int)>, k: int)
    requires forall p :: p in ps ==> 0 <= p.0 < |s| && 0 <= p.1 < |s|
    requires 0 <= k < |ps|
    ensures Same(MergeAll(s, ps), ps[k].0, ps[k].1)
  {
    var init := ps[..|ps| - 1];
    var last := ps[|ps| - 1];
    var mid := MergeAll(s, init);
    assert last in ps;
    MergeSame(mid, last.0, last.1);
    if k < |ps| - 1 {
      assert init[k] == ps[k];
      assert forall p :: p in init ==> p in ps;
      MergeAllJoinsPairs(s, init, k);
    } else {
      assert Same(mid, last.0, last.0) && Same(mid, last.1, last.1);
    }
  }

  /** Merging an already-joined pair changes nothing (union is a no-op). */
  lemma MergeSameIsNoop(s: seq<int>, a: int, b: int)
    requires Same(s, a, b)
    ensures Merge(s, a, b) == s
  {
  }

  /** Every set of s lies within a set of t. */
  ghost predicate Finer(s: seq<int>, t: seq<int>)
  {
    |s| == |t| && forall x, y :: Same(s, x, y) ==> Same(t, x, y)
  }

  /** Merging the same pair, when wanted, in both labellings keeps the first
      finer than the second. */
  lemma MergeBothKeepsFiner(s: seq<int>, t: seq<int>, wanted: bool, a: int, b: int)
    requires Finer(s, t)
    ensures Finer(MergeIf(s, wanted, a, b), MergeIf(t, wanted, a, b))
  {
    if wanted && 0 <= a < |s| && 0 <= b < |s| {
      MergeSame(s, a, b);
      MergeSame(t, a, b);
    }
  }

  /** Merging a pair in the coarser labelling only keeps it coarser. */
  lemma MergeCoarserKeepsFiner(s: seq<int>, t: seq<int>, wanted: bool, a: int, b: int)
    requires Finer(s, t)
    ensures Finer(s, MergeIf(t, wanted, a, b))
  {
    if wanted && 0 <= a < |t| && 0 <= b < |t| {
      MergeSame(t, a, b);
    }
  }

  /** A disjoint-set forest of a fixed number of elements. */
  class QuickFindUF {
    const id: array<int>

    ghost predicate Valid()
      reads id
    {
      Canonical(id[..])
    }

    /** Creates m singleton sets. */
    constructor (m: nat)
      ensures Valid() && fresh(id)
      ensures id[..] == Singletons(m)
    {
      var a := new int[m];
      var i := 0;
      while i < m
        invariant 0 <= i <= m
        invariant forall k :: 0 <= k < i ==> a[k] == k
      {
        a[i] := i;
        i := i + 1;
      }
      assert a[..] == Singletons(m);
      id := a;
    }

    /** The representative of p's set: an element of that set, which is
        its own representative. */
    function Find(p: int): (r: int)
      reads id
      requires Valid() && 0 <= p < id.Length
      ensures 0 <= r < id.Length && Same(id[..], p, r) && id[r] == r
      ensures forall q :: 0 <= q < id.Length ==> (Same(id[..], p, q) <==> id[q] == r)
    {
      id[p]
    }

    /** Merges the sets of p and q. */
    method Union(p: int, q: int)
      requires Valid() && 0 <= p < id.Length && 0 <= q < id.Length
      modifies id
      ensures Valid()
      ensures id[..] == Merge(old(id[..]), p, q)
    {
      var pid := id[p];
      var qid := id[q];
      var i := 0;
      while i < id.Length
        invariant 0 <= i <= id.Length
        invariant forall k :: 0 <= k < i ==> id[k] == Merge(old(id[..]), p, q)[k]
        invariant forall k :: i <= k < id.Length ==> id[k] == old(id[k])
      {
        if id[i] == pid {
          id[i] := qid;
        }
        i := i + 1;
      }
      assert id[..] == Merge(old(id[..]), p, q);
    }
  }
}
