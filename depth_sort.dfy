/**
 * sort(data, P): the order in which the splats are drawn. Each splat
 * gets the depth key P(2,0) x + P(2,1) y + P(2,2) z of its centre, and the
 * indices 0 .. N - 1 are sorted by ascending key. Ties may come out in any
 * order.
 */
module DepthSort {

  import opened Dense
  import opened Gaussian

  /** The view matrix: 4 x 4. */
  ghost predicate ViewMatrix(P: Matrix) {
    P.Valid() && P.rows == 4 && P.cols == 4
  }

  /** Centres: an N x 3 position block. */
  ghost predicate Centres(g: GaussianData) {
    g.xyz.Valid() && g.xyz.cols == 3
  }

  /** proj_row.dot(center): row 2, columns 0-2 of P against the centre of splat i. */
  function Depth(g: GaussianData, P: Matrix, i: nat): real
    requires Centres(g) && ViewMatrix(P) && i < g.xyz.rows
  {
    P.At(2, 0) * g.xyz.At(i, 0) + P.At(2, 1) * g.xyz.At(i, 1) + P.At(2, 2) * g.xyz.At(i, 2)
  }

  /** The depths vector: one key per splat. */
  function Depths(g: GaussianData, P: Matrix): (d: seq<real>)
    requires Centres(g) && ViewMatrix(P)
    ensures |d| == g.xyz.rows && forall i :: 0 <= i < |d| ==> d[i] == Depth(g, P, i)
  {
    seq(g.xyz.rows, i requires 0 <= i < g.xyz.rows => Depth(g, P, i))
  }

  /** The indices 0, 1, ..., n - 1. */
  function Iota(n: nat): (s: seq<int>)
    ensures |s| == n && forall k :: 0 <= k < n ==> s[k] == k
  {
    if n == 0 then [] else Iota(n - 1) + [n - 1]
  }

  /** Every entry indexes keys. */
  predicate IndexesInto(s: seq<int>, keys: seq<real>) {
    forall k :: 0 <= k < |s| ==> 0 <= s[k] < |keys|
  }

  /** The indices are in non-decreasing order of their keys. */
  ghost predicate SortedBy(s: seq<int>, keys: seq<real>) {
    IndexesInto(s, keys) && forall p, q :: 0 <= p < q < |s| ==> keys[s[p]] <= keys[s[q]]
  }

  /** The position in lo .. a.Length - 1 whose index has the smallest key. */
  method MinKeyIndex(a: array<int>, keys: seq<real>, lo: nat) returns (m: nat)
    requires lo < a.Length && IndexesInto(a[..], keys)
    ensures lo <= m < a.Length
    ensures forall k :: lo <= k < a.Length ==> keys[a[m]] <= keys[a[k]]
  {
    assert forall k :: 0 <= k < a.Length ==> a[..][k] == a[k];
    m := lo;
    for j := lo + 1 to a.Length
      invariant lo <= m < a.Length
      invariant forall k :: lo <= k < j ==> keys[a[m]] <= keys[a[k]]
    {
      if keys[a[j]] < keys[a[m]] {
        m := j;
      }
    }
  }

  /** The first i entries are in key order. */
  ghost predicate SortedPrefix(s: seq<int>, keys: seq<real>, i: nat) {
    IndexesInto(s, keys) && forall p, q :: 0 <= p < q < i && q < |s| ==> keys[s[p]] <= keys[s[q]]
  }

  /** No key among the first i entries exceeds a key after them. */
  ghost predicate PrefixBelow(s: seq<int>, keys: seq<real>, i: nat) {
    IndexesInto(s, keys) && forall p, q :: 0 <= p < i <= q < |s| ==> keys[s[p]] <= keys[s[q]]
  }

  /** One selection step: swapping the minimum of the suffix into place i extends the sorted prefix. */
  lemma SelectStep(s: seq<int>, keys: seq<real>, i: nat, m: nat)
    requires i <= m < |s| && SortedPrefix(s, keys, i) && PrefixBelow(s, keys, i)
    requires forall k :: i <= k < |s| ==> keys[s[m]] <= keys[s[k]]
    ensures SortedPrefix(s[i := s[m]][m := s[i]], keys, i + 1)
    ensures PrefixBelow(s[i := s[m]][m := s[i]], keys, i + 1)
  {
    var t := s[i := s[m]][m := s[i]];
    assert forall k :: 0 <= k < |s| ==> t[k] == if k == i then s[m] else if k == m then s[i] else s[k];
  }

  /** Exchange a[i] and a[j]. */
  method Swap(a: array<int>, i: nat, j: nat)
    requires i < a.Length && j < a.Length
    modifies a
    ensures a[..] == old(a[..])[i := old(a[j])][j := old(a[i])]
    ensures multiset(a[..]) == multiset(old(a[..]))
  {
    a[i], a[j] := a[j], a[i];
  }

  /**
   * Sorts the indices in a by ascending key, in place, with the comparator
   * keys[i] < keys[j]. A selection sort stands for the parallel sort: only the
   * result, a sorted permutation, is promised.
   */
  method SortByKey(a: array<int>, keys: seq<real>)
    requires IndexesInto(a[..], keys)
    modifies a
    ensures SortedBy(a[..], keys)
    ensures multiset(a[..]) == multiset(old(a[..]))
  {
    for i := 0 to a.Length
      invariant SortedPrefix(a[..], keys, i) && PrefixBelow(a[..], keys, i)
      invariant multiset(a[..]) == multiset(old(a[..]))
    {
      var m := MinKeyIndex(a, keys, i);
      SelectStep(a[..], keys, i, m);
      Swap(a, i, m);
    }
  }

  /**
   * sort(data, P): fill depths and depth_index = 0 .. N - 1, then sort
   * depth_index by depth. The result lists every splat exactly once, smallest
   * key first.
   */
  method Sort(g: GaussianData, P: Matrix) returns (order: seq<int>)
    requires Centres(g) && ViewMatrix(P)
    ensures |order| == g.xyz.rows
    ensures multiset(order) == multiset(Iota(g.xyz.rows))
    ensures SortedBy(order, Depths(g, P))
  {
    var n := g.xyz.rows;
    var depthIndex := new int[n];
    var depths := new real[n];
    for i := 0 to n
      invariant forall k :: 0 <= k < i ==> depths[k] == Depth(g, P, k) && depthIndex[k] == k
    {
      depths[i] := P.At(2, 0) * g.xyz.At(i, 0) + P.At(2, 1) * g.xyz.At(i, 1) + P.At(2, 2) * g.xyz.At(i, 2);
      depthIndex[i] := i;
    }
    assert depths[..] == Depths(g, P);
    assert depthIndex[..] == Iota(n);
    SortByKey(depthIndex, depths[..]);
    order := depthIndex[..];
  }

  /** Each of 0 .. n - 1 occurs once in Iota(n), nothing else occurs. */
  lemma {:induction false} IotaCount(n: nat, v: int)
    ensures multiset(Iota(n))[v] == if 0 <= v < n then 1 else 0
  {
    if n > 0 {
      IotaCount(n - 1, v);
      assert Iota(n) == Iota(n - 1) + [n - 1];
    }
  }

  /** A value at two different positions occurs at least twice. */
  lemma TwiceCounted(s: seq<int>, p: nat, q: nat)
    requires p < q < |s| && s[p] == s[q]
    ensures multiset(s)[s[p]] >= 2
  {
    assert s == s[..q] + s[q..];
    assert s[p] in s[..q] && s[q] in s[q..];
  }

  /**
   * A sequence with the multiset of 0 .. n - 1 is a permutation of it: it has
   * length n, holds only indices below n, holds each of them, and never
   * repeats one.
   */
  lemma PermutationOfRange(s: seq<int>, n: nat)
    requires multiset(s) == multiset(Iota(n))
    ensures |s| == n
    ensures forall k :: 0 <= k < |s| ==> 0 <= s[k] < n
    ensures forall v :: 0 <= v < n ==> v in s
    ensures forall p, q :: 0 <= p < q < |s| ==> s[p] != s[q]
  {
    assert |s| == |multiset(s)| == |multiset(Iota(n))| == n;
    forall k | 0 <= k < |s|
      ensures 0 <= s[k] < n
    {
      assert s[k] in multiset(s);
      IotaCount(n, s[k]);
    }
    forall v | 0 <= v < n
      ensures v in s
    {
      IotaCount(n, v);
      assert v in multiset(s);
    }
    forall p, q | 0 <= p < q < |s|
      ensures s[p] != s[q]
    {
      if s[p] == s[q] {
        TwiceCounted(s, p, q);
        IotaCount(n, s[p]);
        assert false;
      }
    }
  }

  /**
   * The keys read only row 2, columns 0-2 of P: replacing the translation
   * column, or any other row, leaves every depth as it was.
   */
  lemma DepthsIgnoreTranslation(g: GaussianData, P: Matrix, Q: Matrix)
    requires Centres(g) && ViewMatrix(P) && ViewMatrix(Q)
    requires forall j :: 0 <= j < 3 ==> P.At(2, j) == Q.At(2, j)
    ensures Depths(g, P) == Depths(g, Q)
  {
    assert P.At(2, 0) == Q.At(2, 0) && P.At(2, 1) == Q.At(2, 1) && P.At(2, 2) == Q.At(2, 2);
    assert forall i :: 0 <= i < g.xyz.rows ==> Depths(g, P)[i] == Depths(g, Q)[i];
  }
}
