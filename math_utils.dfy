/** Conversion of a vector into a one-column matrix (MathUtils.kt). */
module MathUtils {
  import opened LinearAlgebra

  /** The column matrix of `v`: one row per entry, and exactly one column. */
  function ToRealMatrix(v: Vector): (m: Matrix)
    ensures |m| == |v|
    ensures HasShape(m, |v|, 1)
    ensures forall i :: 0 <= i < |v| ==> m[i][0] == v[i]
  {
    seq(|v|, i requires 0 <= i < |v| => [v[i]])
  }

  /** Taking column 0 of the column matrix gives the vector back. */
  lemma ColumnOfToRealMatrix(v: Vector)
    ensures Column(ToRealMatrix(v), 0) == v
  {
  }

  /** A one-column matrix is the column matrix of its column 0. */
  lemma ToRealMatrixOfColumn(m: Matrix)
    requires HasShape(m, |m|, 1)
    ensures ToRealMatrix(Column(m, 0)) == m
  {
    var r := ToRealMatrix(Column(m, 0));
    forall i | 0 <= i < |m| ensures r[i] == m[i] {
      assert |r[i]| == |m[i]| == 1;
    }
  }
}
