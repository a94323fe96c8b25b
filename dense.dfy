/**
 * Eigen's dynamic float matrix (MatrixXf) as a value: stored column by column,
 * as Eigen stores it, with an explicit row and column count so that a matrix
 * with no rows still knows how many columns it has.
 */
module Dense {

  datatype Matrix = Matrix(rows: nat, cols: nat, columns: seq<seq<real>>) {

    /** Every column holds exactly `rows` entries. */
    ghost predicate Valid() {
      |columns| == cols && forall j :: 0 <= j < cols ==> |columns[j]| == rows
    }

    /** The entry m(i, j). */
    function At(i: nat, j: nat): real
      requires Valid() && i < rows && j < cols
    {
      columns[j][i]
    }

    /** m.row(i) */
    function Row(i: nat): (r: seq<real>)
      requires Valid() && i < rows
      ensures |r| == cols
      ensures forall j :: 0 <= j < cols ==> r[j] == At(i, j)
    {
      seq(cols, j requires 0 <= j < cols => columns[j][i])
    }

    /** m.col(j) = v */
    function SetColumn(j: nat, v: seq<real>): (m: Matrix)
      requires Valid() && j < cols && |v| == rows
      ensures m.Valid() && m.rows == rows && m.cols == cols
      ensures forall i, c :: 0 <= i < rows && 0 <= c < cols ==>
                m.At(i, c) == if c == j then v[i] else At(i, c)
    {
      Matrix(rows, cols, columns[j := v])
    }

    /** m.row(i) = r */
    function SetRow(i: nat, r: seq<real>): (m: Matrix)
      requires Valid() && i < rows && |r| == cols
      ensures m.Valid() && m.rows == rows && m.cols == cols
      ensures forall k, c :: 0 <= k < rows && 0 <= c < cols ==>
                m.At(k, c) == if k == i then r[c] else At(k, c)
    {
      Matrix(rows, cols, seq(cols, c requires 0 <= c < cols => columns[c][i := r[c]]))
    }
  }

  /**
   * A freshly sized matrix. Eigen leaves the entries uninitialised; every
   * caller in the loader overwrites all of them, so zero stands in for them.
   */
  function Zero(rows: nat, cols: nat): (m: Matrix)
    ensures m.Valid() && m.rows == rows && m.cols == cols
  {
    Matrix(rows, cols, seq(cols, _ => seq(rows, _ => 0.0)))
  }

  /** Two valid matrices of the same shape with the same entries are equal. */
  lemma Ext(a: Matrix, b: Matrix)
    requires a.Valid() && b.Valid() && a.rows == b.rows && a.cols == b.cols
    requires forall i, j :: 0 <= i < a.rows && 0 <= j < a.cols ==> a.At(i, j) == b.At(i, j)
    ensures a == b
  {
    forall j | 0 <= j < a.cols
      ensures a.columns[j] == b.columns[j]
    {
      assert forall i | 0 <= i < a.rows :: a.columns[j][i] == a.At(i, j);
    }
  }
}
