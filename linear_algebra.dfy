/**
 * Dense real matrices and vectors: the part of the matrix library that the
 * network uses (entry-wise sums, scaling, matrix-vector products, outer products).
 * A matrix is a sequence of rows.
 */
module LinearAlgebra {

  type Vector = seq<real>
  type Matrix = seq<seq<real>>

  /** Column dimension: the length of the first row. */
  function Cols(m: Matrix): nat {
    if |m| == 0 then 0 else |m[0]|
  }

  /** Every row has the column dimension. */
  predicate Rectangular(m: Matrix) {
    forall i :: 0 <= i < |m| ==> |m[i]| == Cols(m)
  }

  predicate HasShape(m: Matrix, rows: nat, cols: nat) {
    |m| == rows && forall i :: 0 <= i < |m| ==> |m[i]| == cols
  }

  predicate SameShape(a: Matrix, b: Matrix) {
    |a| == |b| && forall i :: 0 <= i < |a| ==> |a[i]| == |b[i]|
  }

  lemma SameShapeKeepsRectangular(a: Matrix, b: Matrix)
    requires SameShape(a, b) && Rectangular(a)
    ensures Rectangular(b) && Cols(b) == Cols(a)
  {
  }

  /** A matrix of the shape of `m` whose entries are all zero. */
  function ZeroLike(m: Matrix): (z: Matrix)
    ensures SameShape(z, m)
    ensures forall i, j :: 0 <= i < |z| && 0 <= j < |z[i]| ==> z[i][j] == 0.0
  {
    seq(|m|, i requires 0 <= i < |m| => seq(|m[i]|, j => 0.0))
  }

  function Add(a: Matrix, b: Matrix): (r: Matrix)
    requires SameShape(a, b)
    ensures SameShape(r, a)
    ensures forall i, j :: 0 <= i < |r| && 0 <= j < |r[i]| ==> r[i][j] == a[i][j] + b[i][j]
  {
    seq(|a|, i requires 0 <= i < |a| => seq(|a[i]|, j requires 0 <= j < |a[i]| => a[i][j] + b[i][j]))
  }

  function Subtract(a: Matrix, b: Matrix): (r: Matrix)
    requires SameShape(a, b)
    ensures SameShape(r, a)
    ensures forall i, j :: 0 <= i < |r| && 0 <= j < |r[i]| ==> r[i][j] == a[i][j] - b[i][j]
  {
    seq(|a|, i requires 0 <= i < |a| => seq(|a[i]|, j requires 0 <= j < |a[i]| => a[i][j] - b[i][j]))
  }

  function ScalarMultiply(a: Matrix, k: real): (r: Matrix)
    ensures SameShape(r, a)
    ensures forall i, j :: 0 <= i < |r| && 0 <= j < |r[i]| ==> r[i][j] == a[i][j] * k
  {
    seq(|a|, i requires 0 <= i < |a| => seq(|a[i]|, j requires 0 <= j < |a[i]| => a[i][j] * k))
  }

  lemma AddAssociative(a: Matrix, b: Matrix, c: Matrix)
    requires SameShape(a, b) && SameShape(b, c)
    ensures Add(Add(a, b), c) == Add(a, Add(b, c))
  {
    var l, r := Add(Add(a, b), c), Add(a, Add(b, c));
    assert |l| == |r|;
    forall i | 0 <= i < |l| ensures l[i] == r[i] {
      assert |l[i]| == |r[i]|;
      forall j | 0 <= j < |l[i]| ensures l[i][j] == r[i][j] {
      }
    }
  }

  lemma AddZeroLeft(z: Matrix, a: Matrix)
    requires SameShape(z, a)
    requires forall i, j :: 0 <= i < |z| && 0 <= j < |z[i]| ==> z[i][j] == 0.0
    ensures Add(z, a) == a
  {
    var l := Add(z, a);
    forall i | 0 <= i < |l| ensures l[i] == a[i] {
      assert |l[i]| == |a[i]|;
    }
  }

  lemma AddZeroRight(a: Matrix, z: Matrix)
    requires SameShape(a, z)
    requires forall i, j :: 0 <= i < |z| && 0 <= j < |z[i]| ==> z[i][j] == 0.0
    ensures Add(a, z) == a
  {
    var l := Add(a, z);
    forall i | 0 <= i < |l| ensures l[i] == a[i] {
      assert |l[i]| == |a[i]|;
    }
  }

  /** Sum of the entries of a vector. */
  function Sum(v: Vector): real {
    if |v| == 0 then 0.0 else v[0] + Sum(v[1..])
  }

  lemma {:induction false} SumNonNegative(v: Vector)
    requires forall i :: 0 <= i < |v| ==> v[i] >= 0.0
    ensures Sum(v) >= 0.0
  {
    if |v| > 0 {
      SumNonNegative(v[1..]);
    }
  }

  /** A sum of non-negative entries with one positive entry is positive. */
  lemma {:induction false} SumPositive(v: Vector, k: nat)
    requires forall i :: 0 <= i < |v| ==> v[i] >= 0.0
    requires k < |v| && v[k] > 0.0
    ensures Sum(v) > 0.0
  {
    SumNonNegative(v[1..]);
    if k > 0 {
      assert v[1..][k - 1] == v[k];
      SumPositive(v[1..], k - 1);
    }
  }

  lemma {:induction false} SumZero(v: Vector)
    requires forall i :: 0 <= i < |v| ==> v[i] == 0.0
    ensures Sum(v) == 0.0
  {
    if |v| > 0 {
      SumZero(v[1..]);
    }
  }

  function Dot(u: Vector, v: Vector): real
    requires |u| == |v|
  {
    if |u| == 0 then 0.0 else u[0] * v[0] + Dot(u[1..], v[1..])
  }

  /** The matrix-vector product m · v. */
  function Operate(m: Matrix, v: Vector): (r: Vector)
    requires forall i :: 0 <= i < |m| ==> |m[i]| == |v|
    ensures |r| == |m|
    ensures forall i :: 0 <= i < |r| ==> r[i] == Dot(m[i], v)
  {
    seq(|m|, i requires 0 <= i < |m| => Dot(m[i], v))
  }

  /** Column `j` of `m`. */
  function Column(m: Matrix, j: nat): (c: Vector)
    requires forall i :: 0 <= i < |m| ==> j < |m[i]|
    ensures |c| == |m|
    ensures forall i :: 0 <= i < |c| ==> c[i] == m[i][j]
  {
    seq(|m|, i requires 0 <= i < |m| => m[i][j])
  }

  /** The product of the transpose of `m` with v. */
  function TransposeOperate(m: Matrix, v: Vector): (r: Vector)
    requires Rectangular(m) && |v| == |m|
    ensures |r| == Cols(m)
    ensures forall j :: 0 <= j < |r| ==> r[j] == Dot(Column(m, j), v)
  {
    seq(Cols(m), j requires 0 <= j < Cols(m) => Dot(Column(m, j), v))
  }

  /** The outer product u ⊗ v: entry (i, j) is u[i] * v[j]. */
  function OuterProduct(u: Vector, v: Vector): (r: Matrix)
    ensures HasShape(r, |u|, |v|)
  {
    seq(|u|, i requires 0 <= i < |u| => seq(|v|, j requires 0 <= j < |v| => u[i] * v[j]))
  }

  /** Entry (i, j) of u ⊗ v is u[i] * v[j]. */
  lemma OuterProductEntries(u: Vector, v: Vector)
    ensures forall i, j :: 0 <= i < |u| && 0 <= j < |v| ==> OuterProduct(u, v)[i][j] == u[i] * v[j]
  {
  }

  function VectorAdd(u: Vector, v: Vector): (r: Vector)
    requires |u| == |v|
    ensures |r| == |u|
    ensures forall i :: 0 <= i < |r| ==> r[i] == u[i] + v[i]
  {
    seq(|u|, i requires 0 <= i < |u| => u[i] + v[i])
  }

  function VectorSubtract(u: Vector, v: Vector): (r: Vector)
    requires |u| == |v|
    ensures |r| == |u|
    ensures forall i :: 0 <= i < |r| ==> r[i] == u[i] - v[i]
  {
    seq(|u|, i requires 0 <= i < |u| => u[i] - v[i])
  }

  /** Entry-wise product. */
  function EbeMultiply(u: Vector, v: Vector): (r: Vector)
    requires |u| == |v|
    ensures |r| == |u|
    ensures forall i :: 0 <= i < |r| ==> r[i] == u[i] * v[i]
  {
    seq(|u|, i requires 0 <= i < |u| => u[i] * v[i])
  }

  /** Applies `f` to every entry. */
  function Map(f: real -> real, v: Vector): (r: Vector)
    ensures |r| == |v|
    ensures forall i :: 0 <= i < |r| ==> r[i] == f(v[i])
  {
    seq(|v|, i requires 0 <= i < |v| => f(v[i]))
  }
}
