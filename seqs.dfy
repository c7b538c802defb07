/** Python's `list(filter(p, xs))` and what it promises: the kept elements,
    in their original order, with their original multiplicity. */
module Seqs {
  import opened Wrappers

  /** `r` can be obtained from `s` by deleting elements. */
  predicate IsSubsequence<T(==)>(r: seq<T>, s: seq<T>)
    decreases |s|
  {
    if r == [] then true
    else if s == [] then false
    else (r[|r| - 1] == s[|s| - 1] && IsSubsequence(r[..|r| - 1], s[..|s| - 1]))
         || IsSubsequence(r, s[..|s| - 1])
  }

  /** Every sequence is a subsequence of itself. */
  lemma {:induction false} IsSubsequenceRefl<T>(s: seq<T>)
    ensures IsSubsequence(s, s)
    decreases |s|
  {
    if s != [] {
      IsSubsequenceRefl(s[..|s| - 1]);
    }
  }

  /** Dropping the last element of `a + b`, for a non-empty `b`. */
  lemma ConcatInit<T>(a: seq<T>, b: seq<T>)
    requires b != []
    ensures (a + b)[..|a + b| - 1] == a + b[..|b| - 1]
    ensures (a + b)[|a + b| - 1] == b[|b| - 1]
  {
  }

  predicate Distinct<T(==)>(s: seq<T>)
  {
    forall i, j :: 0 <= i < j < |s| ==> s[i] != s[j]
  }

  /** Python's `list(filter(p, s))`. */
  function Filter<T>(s: seq<T>, p: T -> bool): seq<T>
    decreases |s|
  {
    if s == [] then []
    else Filter(s[..|s| - 1], p) + (if p(s[|s| - 1]) then [s[|s| - 1]] else [])
  }

  /** Every kept element satisfies `p`, and every element of `s` that satisfies
      `p` is kept, as often as it occurs in `s`. */
  lemma {:induction false} FilterKeepsExactly<T>(s: seq<T>, p: T -> bool)
    ensures forall x :: x in Filter(s, p) ==> x in s && p(x)
    ensures forall x :: p(x) ==> multiset(Filter(s, p))[x] == multiset(s)[x]
    ensures forall x :: !p(x) ==> multiset(Filter(s, p))[x] == 0
    decreases |s|
  {
    if s != [] {
      var init := s[..|s| - 1];
      FilterKeepsExactly(init, p);
      assert s == init + [s[|s| - 1]];
    }
  }

  /** An element is kept exactly when it occurs in `s` and satisfies `p`. */
  lemma FilterMembership<T>(s: seq<T>, p: T -> bool)
    ensures forall x :: x in Filter(s, p) <==> x in s && p(x)
  {
    FilterKeepsExactly(s, p);
    forall x | x in s && p(x)
      ensures x in Filter(s, p)
    {
      assert multiset(s)[x] > 0;
    }
  }

  /** The kept elements stay in their original order. */
  lemma {:induction false} FilterIsSubsequence<T>(s: seq<T>, p: T -> bool)
    ensures IsSubsequence(Filter(s, p), s)
    decreases |s|
  {
    if s != [] {
      var init := s[..|s| - 1];
      var r := Filter(s, p);
      FilterIsSubsequence(init, p);
      if p(s[|s| - 1]) {
        assert r[..|r| - 1] == Filter(init, p);
      } else if r != [] {
        assert r == Filter(init, p);
      }
    }
  }

  /** Filtering a list without repetitions gives a list without repetitions. */
  lemma {:induction false} FilterDistinct<T>(s: seq<T>, p: T -> bool)
    requires Distinct(s)
    ensures Distinct(Filter(s, p))
    decreases |s|
  {
    if s != [] {
      var init := s[..|s| - 1];
      assert Distinct(init);
      FilterDistinct(init, p);
      FilterKeepsExactly(init, p);
      var r := Filter(s, p);
      if p(s[|s| - 1]) {
        forall i, j | 0 <= i < j < |r| ensures r[i] != r[j] {
          if j == |r| - 1 {
            assert r[i] in Filter(init, p);
          }
        }
      }
    }
  }

  /** Python's `next(filter(p, s))` as a position: the first index whose
      element satisfies `p`, or None when there is none. */
  function FirstIndex<T>(s: seq<T>, p: T -> bool): (r: Option<nat>)
    ensures r.Some? ==> r.value < |s| && p(s[r.value])
    ensures r.Some? ==> forall j :: 0 <= j < r.value ==> !p(s[j])
    ensures r.None? ==> forall j :: 0 <= j < |s| ==> !p(s[j])
    decreases |s|
  {
    if s == [] then None
    else if p(s[0]) then Some(0)
    else
      match FirstIndex(s[1..], p)
      case None => None
      case Some(i) => Some(i + 1)
  }

  /** Elements after the first match never change which one matches first. */
  lemma {:induction false} FirstIndexPrefix<T>(s: seq<T>, more: seq<T>, p: T -> bool)
    requires FirstIndex(s, p).Some?
    ensures FirstIndex(s + more, p) == FirstIndex(s, p)
    decreases |s|
  {
    assert (s + more)[0] == s[0];
    if !p(s[0]) {
      assert (s + more)[1..] == s[1..] + more;
      FirstIndexPrefix(s[1..], more, p);
    }
  }
}
