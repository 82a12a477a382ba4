/** Order-preserving filtering of a sequence, the shape shared by the stop-count
    filter and the 24-hour window: walk the input once and append what passes. */
module Filtering {

  /** The elements of `s` that satisfy `p`, in input order. */
  function Keep<T>(s: seq<T>, p: T -> bool): (r: seq<T>)
    ensures |r| <= |s|
  {
    if s == [] then [] else Keep(s[..|s| - 1], p) + (if p(s[|s| - 1]) then [s[|s| - 1]] else [])
  }

  lemma {:induction false} KeepAppend<T>(a: seq<T>, b: seq<T>, p: T -> bool)
    ensures Keep(a + b, p) == Keep(a, p) + Keep(b, p)
  {
    if b == [] {
      assert a + b == a;
    } else {
      var n := |b| - 1;
      assert (a + b)[..|a + b| - 1] == a + b[..n];
      KeepAppend(a, b[..n], p);
    }
  }

  lemma {:induction false} KeepCons<T>(x: T, s: seq<T>, p: T -> bool)
    ensures Keep([x] + s, p) == (if p(x) then [x] else []) + Keep(s, p)
  {
    KeepAppend([x], s, p);
    assert [x][..0] == [];
    assert Keep([x][..0], p) == [];
  }

  /** An element is kept exactly when it occurs in the input and passes. */
  lemma {:induction false} KeepMembership<T>(s: seq<T>, p: T -> bool, x: T)
    ensures x in Keep(s, p) <==> x in s && p(x)
  {
    if s != [] {
      var n := |s| - 1;
      assert s == s[..n] + [s[n]];
      KeepMembership(s[..n], p, x);
    }
  }

  /** Each occurrence of a passing element is kept exactly once, and no other element is kept. */
  lemma {:induction false} KeepCount<T>(s: seq<T>, p: T -> bool, x: T)
    ensures multiset(Keep(s, p))[x] == if p(x) then multiset(s)[x] else 0
  {
    if s != [] {
      var n := |s| - 1;
      assert s == s[..n] + [s[n]];
      KeepCount(s[..n], p, x);
    }
  }

  /** The input positions that `Keep` selects. */
  function KeptPositions<T>(s: seq<T>, p: T -> bool): seq<nat> {
    if s == [] then [] else KeptPositions(s[..|s| - 1], p) + (if p(s[|s| - 1]) then [|s| - 1] else [])
  }

  /** The selected positions are strictly increasing (order kept, each position at
      most once), are exactly the positions whose element passes, and the kept
      sequence reads the input at those positions. */
  lemma {:induction false} KeptPositionsSpec<T>(s: seq<T>, p: T -> bool)
    ensures |KeptPositions(s, p)| == |Keep(s, p)|
    ensures forall k :: 0 <= k < |KeptPositions(s, p)| ==>
      KeptPositions(s, p)[k] < |s| && Keep(s, p)[k] == s[KeptPositions(s, p)[k]]
    ensures forall k, l :: 0 <= k < l < |KeptPositions(s, p)| ==> KeptPositions(s, p)[k] < KeptPositions(s, p)[l]
    ensures forall i :: 0 <= i < |s| ==> (p(s[i]) <==> i in KeptPositions(s, p))
  {
    if s != [] {
      var n := |s| - 1;
      var front := s[..n];
      KeptPositionsSpec(front, p);
      var f := KeptPositions(front, p);
      assert forall i :: 0 <= i < n ==> front[i] == s[i];
      assert n !in f;
      if p(s[n]) {
        assert Keep(s, p) == Keep(front, p) + [s[n]];
        assert KeptPositions(s, p) == f + [n];
      } else {
        assert Keep(s, p) == Keep(front, p);
        assert KeptPositions(s, p) == f;
      }
    }
  }

  /** `[f(x) for x in s]`: one image per element, in order. */
  function MapSeq<A, B>(s: seq<A>, f: A -> B): (r: seq<B>)
    ensures |r| == |s| && forall k :: 0 <= k < |s| ==> r[k] == f(s[k])
  {
    if s == [] then [] else MapSeq(s[..|s| - 1], f) + [f(s[|s| - 1])]
  }

  lemma MapSeqSnoc<A, B>(s: seq<A>, x: A, f: A -> B)
    ensures MapSeq(s + [x], f) == MapSeq(s, f) + [f(x)]
  {
    assert (s + [x])[..|s|] == s;
  }
}
