/** Two-dimensional numeric tables (numpy 2-D arrays) as sequences of rows. */
module Tables {

  /** A table of reals, row-major: `a[i][j]` is row i, column j. */
  type Matrix = seq<seq<real>>

  /** `a` has `rows` rows of `cols` entries each. */
  predicate IsShape(a: Matrix, rows: nat, cols: nat) {
    |a| == rows && forall i :: 0 <= i < rows ==> |a[i]| == cols
  }

  /** A 2-D array with at least one row: its width is `Width(a)`. */
  predicate Rectangular(a: Matrix) {
    0 < |a| && IsShape(a, |a|, |a[0]|)
  }

  /** `a.shape[1]` */
  function Width(a: Matrix): nat
    requires 0 < |a|
  {
    |a[0]|
  }

  /** `a[:, c]` */
  function Column(a: Matrix, c: nat): (col: seq<real>)
    requires forall i :: 0 <= i < |a| ==> c < |a[i]|
    ensures |col| == |a| && forall i :: 0 <= i < |a| ==> col[i] == a[i][c]
  {
    seq(|a|, i requires 0 <= i < |a| => a[i][c])
  }

  /** A rows x cols table with every entry equal to v (`v + np.zeros([rows, cols])`). */
  function Filled(rows: nat, cols: nat, v: real): (a: Matrix)
    ensures IsShape(a, rows, cols)
    ensures forall i, j :: 0 <= i < rows && 0 <= j < cols ==> a[i][j] == v
  {
    seq(rows, i => seq(cols, j => v))
  }
}
