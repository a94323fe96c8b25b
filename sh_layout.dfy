/**
 * Index arithmetic of the colour coefficients. For maximum degree d each
 * colour channel has C = (d+1)^2 coefficients: one DC term and C - 1 higher
 * band terms. The file stores the higher-band terms channel-major (all of
 * channel 0, then channel 1, then channel 2); the loader requests them
 * coefficient-major, three channels of band coefficient i next to each other.
 */
module ShLayout {

  import opened Arith

  /** sh_coeffs = (max_sh_degree + 1) * (max_sh_degree + 1) */
  function ShCoeffs(maxShDegree: int): (c: nat)
    ensures maxShDegree == -1 ==> c == 0
    ensures maxShDegree != -1 ==> c >= 1
  {
    SquareAtLeastOne(maxShDegree + 1);
    (maxShDegree + 1) * (maxShDegree + 1)
  }

  /** num_extra = 3 * (sh_coeffs - 1): the number of f_rest properties read. */
  function RestCount(c: nat): (n: nat)
    requires c >= 1
    ensures 3 + n == 3 * c
  {
    3 * (c - 1)
  }

  /** Position in the request list (and SH column minus 3) of coefficient i of channel k. */
  function Slot(i: nat, k: nat): nat {
    3 * i + k
  }

  /** The file index n of f_rest_n holding coefficient i of channel k: i + k * (C - 1). */
  function FileIndex(c: nat, i: nat, k: nat): nat
    requires c >= 1
  {
    i + k * (c - 1)
  }

  /** Which f_rest_n sits at request position j. */
  function RestSource(c: nat, j: nat): nat
    requires c >= 1
  {
    FileIndex(c, j / 3, j % 3)
  }

  /** Which request position reads f_rest_n (the inverse of RestSource). */
  function RestSlot(c: nat, n: nat): nat
    requires c >= 2
  {
    Slot(n % (c - 1), n / (c - 1))
  }

  /** Position Slot(i, k) reads coefficient i of channel k. */
  lemma SourceAtSlot(c: nat, i: nat, k: nat)
    requires c >= 1 && i < c - 1 && k < 3
    ensures Slot(i, k) < RestCount(c)
    ensures RestSource(c, Slot(i, k)) == FileIndex(c, i, k)
  {
    DivModUnique(Slot(i, k), 3, i, k);
  }

  /** A file index below 3(C - 1) is coefficient n % (C - 1) of channel n / (C - 1). */
  lemma FileIndexSplit(c: nat, n: nat)
    requires c >= 2 && n < RestCount(c)
    ensures n / (c - 1) < 3 && n == FileIndex(c, n % (c - 1), n / (c - 1))
  {
    var m := c - 1;
    var q := n / m;
    assert n == q * m + n % m;
    if q >= 3 {
      MulLe(3, q, m);
      assert false;
    }
  }

  /** Every request position reads a file index in range, and reading back its slot recovers it. */
  lemma {:induction false} SlotOfSource(c: nat, j: nat)
    requires c >= 1 && j < RestCount(c)
    ensures RestSource(c, j) < RestCount(c)
    ensures c >= 2 ==> RestSlot(c, RestSource(c, j)) == j
  {
    var m := c - 1;
    var i, k := j / 3, j % 3;
    assert i < m;
    assert RestSource(c, j) == i + k * m;
    assert i + k * m < 3 * m by {
      assert k * m <= 2 * m by {
        if k == 1 { } else if k == 2 { }
      }
    }
    if c >= 2 {
      DivModUnique(i + k * m, m, k, i);
    }
  }

  /** Every file index below 3(C - 1) is read at exactly the position RestSlot gives. */
  lemma {:induction false} SourceOfSlot(c: nat, n: nat)
    requires c >= 2 && n < RestCount(c)
    ensures RestSlot(c, n) < RestCount(c)
    ensures RestSource(c, RestSlot(c, n)) == n
  {
    FileIndexSplit(c, n);
    SourceAtSlot(c, n % (c - 1), n / (c - 1));
  }

  /** The band coefficient b and channel k of file index n: RestSlot(C, n) is Slot(b, k). */
  lemma SlotOf(c: nat, n: nat) returns (b: nat, k: nat)
    requires c >= 2 && n < RestCount(c)
    ensures b < c - 1 && k < 3
    ensures RestSlot(c, n) == Slot(b, k) && FileIndex(c, b, k) == n
  {
    FileIndexSplit(c, n);
    b, k := n % (c - 1), n / (c - 1);
  }

  /**
   * The interleave is a bijection of [0, 3(C - 1)): different request positions
   * read different f_rest properties, and every f_rest property below
   * 3(C - 1) is read at position RestSlot(C, n).
   */
  lemma RestInterleaveBijective(c: nat)
    requires c >= 1
    ensures forall j1, j2 :: 0 <= j1 < j2 < RestCount(c) ==> RestSource(c, j1) != RestSource(c, j2)
    ensures forall n :: 0 <= n < RestCount(c) ==> RestSlot(c, n) < RestCount(c) && RestSource(c, RestSlot(c, n)) == n
  {
    if c >= 2 {
      forall j1, j2 | 0 <= j1 < j2 < RestCount(c)
        ensures RestSource(c, j1) != RestSource(c, j2)
      {
        SlotOfSource(c, j1);
        SlotOfSource(c, j2);
      }
      forall n | 0 <= n < RestCount(c)
        ensures RestSlot(c, n) < RestCount(c) && RestSource(c, RestSlot(c, n)) == n
      {
        SourceOfSlot(c, n);
      }
    }
  }
}
