/** Permutations of `[0, n)` and the reindexing `a[perm]` that numpy performs
    when an array is indexed by an integer array along its first axis. */
module Permutations {

  /** `p` lists every position of `[0, n)` exactly once, as the result of
      `numpy.random.permutation(n)` does. */
  predicate IsPermutation(p: seq<nat>, n: nat) {
    && |p| == n
    && (forall j :: 0 <= j < n ==> p[j] < n)
    && (forall j, k :: 0 <= j < k < n ==> p[j] != p[k])
  }

  /** `a[p]`: row `j` of the result is row `p[j]` of `a`. */
  function Reindex<E>(a: seq<E>, p: seq<nat>): (r: seq<E>)
    requires forall j :: 0 <= j < |p| ==> p[j] < |a|
    ensures |r| == |p|
    ensures forall j :: 0 <= j < |p| ==> r[j] == a[p[j]]
  {
    seq(|p|, j requires 0 <= j < |p| => a[p[j]])
  }

  /** The positions `[0, n)` as a set. */
  function Positions(n: nat): (r: set<nat>)
    ensures forall k :: k in r <==> 0 <= k < n
  {
    if n == 0 then {} else Positions(n - 1) + {n - 1}
  }

  /** The entries of `p` as a set. */
  function Elements(p: seq<nat>): (r: set<nat>)
    ensures forall x :: x in r <==> x in p
  {
    if |p| == 0 then {} else Elements(p[..|p| - 1]) + {p[|p| - 1]}
  }

  lemma {:induction false} PositionsCard(n: nat)
    ensures |Positions(n)| == n
  {
    if n > 0 {
      PositionsCard(n - 1);
      assert n - 1 !in Positions(n - 1);
    }
  }

  /** A sequence without repetitions has as many distinct elements as entries. */
  lemma {:induction false} DistinctCard(p: seq<nat>)
    requires forall j, k :: 0 <= j < k < |p| ==> p[j] != p[k]
    ensures |Elements(p)| == |p|
  {
    if |p| > 0 {
      var q := p[..|p| - 1];
      DistinctCard(q);
      assert p[|p| - 1] !in q;
    }
  }

  /** Every position of `[0, n)` occurs in a permutation of `[0, n)`. */
  lemma PermutationIsOnto(p: seq<nat>, n: nat)
    requires IsPermutation(p, n)
    ensures forall k :: 0 <= k < n ==> k in p
  {
    var image := Elements(p);
    DistinctCard(p);
    PositionsCard(n);
    assert image <= Positions(n);
    var missing := Positions(n) - image;
    assert Positions(n) == image + missing;
    assert image * missing == {};
    assert |missing| == 0;
  }

  /** Removing the entry `p[j0] == n - 1` from a permutation of `[0, n)`
      leaves a permutation of `[0, n - 1)`. */
  lemma DropLast(p: seq<nat>, n: nat, j0: nat) returns (q: seq<nat>)
    requires IsPermutation(p, n) && j0 < n && p[j0] == n - 1
    ensures IsPermutation(q, n - 1)
    ensures forall j :: 0 <= j < j0 ==> q[j] == p[j]
    ensures forall j :: j0 <= j < n - 1 ==> q[j] == p[j + 1]
  {
    q := p[..j0] + p[j0 + 1..];
    forall j | 0 <= j < n - 1
      ensures q[j] < n - 1
    {
      if j < j0 {
        assert q[j] == p[j] && p[j] != p[j0];
      } else {
        assert q[j] == p[j + 1] && p[j + 1] != p[j0];
      }
    }
  }

  /** Reindexing by `p` is reindexing the shorter array by `q` with the last
      row put back at the position `j0` where `p` held it. */
  lemma ReindexSplit<E>(a: seq<E>, p: seq<nat>, q: seq<nat>, j0: nat)
    requires IsPermutation(p, |a|) && j0 < |a| && p[j0] == |a| - 1
    requires IsPermutation(q, |a| - 1)
    requires forall j :: 0 <= j < j0 ==> q[j] == p[j]
    requires forall j :: j0 <= j < |a| - 1 ==> q[j] == p[j + 1]
    ensures Reindex(a, p) == Reindex(a[..|a| - 1], q)[..j0] + [a[|a| - 1]] + Reindex(a[..|a| - 1], q)[j0..]
  {
  }

  lemma InsertMultiset<E>(x: seq<E>, y: E, j: nat)
    requires j <= |x|
    ensures multiset(x[..j] + [y] + x[j..]) == multiset(x) + multiset{y}
  {
    assert x == x[..j] + x[j..];
  }

  /** A position of `k` in `p`. */
  lemma IndexOf(p: seq<nat>, k: nat) returns (j: nat)
    requires k in p
    ensures j < |p| && p[j] == k
  {
    j :| 0 <= j < |p| && p[j] == k;
  }

  /** Reindexing by a permutation rearranges the rows without losing or
      duplicating any: `a[perm]` is a permutation of `a`. */
  lemma {:induction false} ReindexPreservesMultiset<E>(a: seq<E>, p: seq<nat>)
    requires IsPermutation(p, |a|)
    ensures multiset(Reindex(a, p)) == multiset(a)
  {
    var n := |a|;
    if n > 0 {
      PermutationIsOnto(p, n);
      var j0 := IndexOf(p, n - 1);
      var q := DropLast(p, n, j0);
      var front := a[..n - 1];
      var last := a[n - 1];
      ReindexPreservesMultiset(front, q);
      var x := Reindex(front, q);
      ReindexSplit(a, p, q, j0);
      InsertMultiset(x, last, j0);
      assert multiset(Reindex(a, p)) == multiset(front) + multiset{last};
      assert a == front + [last];
    }
  }
}
