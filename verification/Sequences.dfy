// List operations: in-place filters, trimming to the newest entries, insertion; and the size of subsets.
module Sequences {
  function Filter<T>(keep: T -> bool, s: seq<T>): (r: seq<T>)
    ensures |r| <= |s|
  {
    if s == [] then [] else Filter(keep, s[..|s| - 1]) + if keep(s[|s| - 1]) then [s[|s| - 1]] else []
  }

  function TakeLast<T>(n: nat, s: seq<T>): (r: seq<T>)
    ensures |r| == if |s| > n then n else |s|
  {
    if |s| > n then s[|s| - n..] else s
  }

  function InsertAt<T>(s: seq<T>, i: nat, x: T): seq<T>
    requires i <= |s|
  {
    s[..i] + [x] + s[i..]
  }

  function Map<T, U>(f: T -> U, s: seq<T>): (r: seq<U>)
    ensures |r| == |s| && forall i :: 0 <= i < |s| ==> r[i] == f(s[i])
  {
    seq(|s|, i requires 0 <= i < |s| => f(s[i]))
  }

  /** Every pair of entries, in list order, is related. */
  ghost predicate Pairwise<T(!new)>(rel: (T, T) -> bool, s: seq<T>) {
    forall i, j :: 0 <= i < j < |s| ==> rel(s[i], s[j])
  }

  lemma {:induction false} FilterMember<T>(keep: T -> bool, s: seq<T>, x: T)
    ensures x in Filter(keep, s) <==> x in s && keep(x)
  {
    if s != [] {
      FilterMember(keep, s[..|s| - 1], x);
      assert s == s[..|s| - 1] + [s[|s| - 1]];
    }
  }

  lemma {:induction false} FilterPairwise<T(!new)>(keep: T -> bool, rel: (T, T) -> bool, s: seq<T>)
    requires Pairwise(rel, s)
    ensures Pairwise(rel, Filter(keep, s))
  {
    if s != [] {
      var front := s[..|s| - 1];
      FilterPairwise(keep, rel, front);
      forall i | 0 <= i < |Filter(keep, front)| ensures rel(Filter(keep, front)[i], s[|s| - 1]) {
        FilterMember(keep, front, Filter(keep, front)[i]);
      }
    }
  }

  lemma TakeLastPairwise<T(!new)>(n: nat, rel: (T, T) -> bool, s: seq<T>)
    requires Pairwise(rel, s)
    ensures Pairwise(rel, TakeLast(n, s))
  {
  }

  /** A new entry related both ways to all others may be inserted anywhere. */
  lemma InsertPairwise<T(!new)>(rel: (T, T) -> bool, s: seq<T>, i: nat, x: T)
    requires Pairwise(rel, s) && i <= |s|
    requires forall k :: 0 <= k < |s| ==> rel(s[k], x) && rel(x, s[k])
    ensures Pairwise(rel, InsertAt(s, i, x))
  {
  }

  lemma SubsetSize<T>(a: set<T>, b: set<T>)
    requires a <= b
    ensures |a| <= |b|
  {
    assert b == a + (b - a);
  }
}
