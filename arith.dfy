/** Facts about natural-number multiplication and division used by the index arithmetic. */
module Arith {

  /** Multiplying by a natural number keeps the order. */
  lemma MulLe(a: nat, b: nat, m: nat)
    requires a <= b
    ensures a * m <= b * m
  {
    assert b * m == a * m + (b - a) * m;
  }

  /** Of two decompositions a * m + ra == b * m + rb with ra < m, the first quotient is not smaller. */
  lemma QuotientAtLeast(m: nat, a: nat, ra: nat, b: nat, rb: nat)
    requires m > 0 && ra < m && a * m + ra == b * m + rb
    ensures a >= b
  {
    if a < b {
      assert (a + 1) * m == a * m + m;
      MulLe(a + 1, b, m);
      assert false;
    }
  }

  /** Quotient and remainder are determined by any decomposition n == q * m + r, 0 <= r < m. */
  lemma DivModUnique(n: nat, m: nat, q: nat, r: nat)
    requires m > 0 && r < m && n == q * m + r
    ensures n / m == q && n % m == r
  {
    var q', r' := n / m, n % m;
    assert n == q' * m + r';
    QuotientAtLeast(m, q', r', q, r);
    QuotientAtLeast(m, q, r, q', r');
  }

  /** Entry o of row i in a row-major buffer of n rows of stride s lies inside the buffer. */
  lemma RowOffsetBound(i: nat, n: nat, s: nat, o: nat)
    requires i < n && o < s
    ensures i * s + o < n * s
  {
    assert (i + 1) * s == i * s + s;
    MulLe(i + 1, n, s);
  }

  /** The previous rows of a row-major buffer end where row i begins. */
  lemma RowStart(i: nat, n: nat, s: nat)
    requires i < n
    ensures i * s + s <= n * s && (n - 1) * s + s == n * s
  {
    assert (i + 1) * s == i * s + s;
    MulLe(i + 1, n, s);
    assert (n - 1) * s + s == n * s;
  }

  /** A position inside a row-major buffer of n rows of stride s is entry o of some row i. */
  lemma SplitOffset(p: nat, n: nat, s: nat) returns (i: nat, o: nat)
    requires p < n * s
    ensures i < n && o < s && p == i * s + o
  {
    i, o := p / s, p % s;
    assert p == i * s + o;
    if i >= n {
      MulLe(n, i, s);
    }
  }

  /** A square is never negative, and at least 1 unless its root is 0. */
  lemma SquareAtLeastOne(e: int)
    ensures e * e >= 0 && (e != 0 ==> e * e >= 1)
  {
    var a := if e >= 0 then e else -e;
    assert e * e == a * a;
    if a >= 1 {
      MulLe(1, a, a);
    }
  }
}
