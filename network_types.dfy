/**
 * The values the network passes around: weight matrices, bias vectors (kept as
 * one-column matrices), gradients, labelled examples, and the exceptions the
 * modelled code raises.
 */
module NetworkTypes {
  import opened Results
  import opened LinearAlgebra
  import opened MathUtils

  datatype NetworkError =
    /** Fewer than two weight matrices, i.e. fewer than three layers. */
    | InvalidLayerCount(weightCount: int)
    /** A layer number outside `1..max`. */
    | LayerOutOfBounds(layer: int, max: int)
    /** A matrix entry index outside the matrix. */
    | EntryOutOfBounds(row: int, column: int)
    /** Vectors or matrices whose dimensions do not fit the operation. */
    | DimensionMismatch(found: int, expected: int)
    /** A matrix built with a non-positive number of rows or columns. */
    | NonPositiveDimension(size: int)
    /** `subList` of an empty list of layer sizes. */
    | EmptyLayerSizes
    | RowDimensionDiff(expected: int, actual: int)
    | ColumnDimensionDiff(expected: int, actual: int)
    | GradientCheckFailed(expectedEntry: real, actualEntry: real)

  /** Weights from one layer into the next: entry (n, k) weighs input neuron k for neuron n. */
  datatype WeightMatrix = WeightMatrix(matrix: Matrix) {
    /** `zero()`: the all-zero matrix of the same shape. */
    function Zero(): (z: WeightMatrix)
      ensures SameShape(z.matrix, matrix)
      ensures forall i, j :: 0 <= i < |z.matrix| && 0 <= j < |z.matrix[i]| ==> z.matrix[i][j] == 0.0
    {
      WeightMatrix(ZeroLike(matrix))
    }

    /**
     * `copyWithNeuronPerturbed(epsilon, neuron, previousLayerNeuron)`: a copy in
     * which exactly the entry (neuron, previousLayerNeuron) is increased by
     * `epsilon`; an index outside the matrix is an error.
     */
    function CopyWithNeuronPerturbed(epsilon: real, neuron: int, previousLayerNeuron: int)
      : (r: Result<WeightMatrix, NetworkError>)
      ensures r.Ok? <==> 0 <= neuron < |matrix| && 0 <= previousLayerNeuron < |matrix[neuron]|
      ensures r.Err? ==> r.error == EntryOutOfBounds(neuron, previousLayerNeuron)
      ensures r.Ok? ==> SameShape(r.value.matrix, matrix)
      ensures r.Ok? ==> r.value.matrix[neuron][previousLayerNeuron] == matrix[neuron][previousLayerNeuron] + epsilon
      ensures r.Ok? ==> forall i, j :: 0 <= i < |matrix| && 0 <= j < |matrix[i]| && (i, j) != (neuron, previousLayerNeuron)
                          ==> r.value.matrix[i][j] == matrix[i][j]
    {
      if 0 <= neuron < |matrix| && 0 <= previousLayerNeuron < |matrix[neuron]| then
        var row := matrix[neuron];
        Ok(WeightMatrix(matrix[neuron := row[previousLayerNeuron := row[previousLayerNeuron] + epsilon]]))
      else Err(EntryOutOfBounds(neuron, previousLayerNeuron))
    }
  }

  /** The biases of one layer, held as a one-column matrix. */
  datatype BiasVector = BiasVector(matrix: Matrix) {
    predicate IsColumn() {
      HasShape(matrix, |matrix|, 1)
    }

    /** `vector`: column 0 of the matrix. */
    function Vector(): (v: Vector)
      requires IsColumn()
      ensures |v| == |matrix|
      ensures forall i :: 0 <= i < |v| ==> v[i] == matrix[i][0]
    {
      Column(matrix, 0)
    }

    /** `zero()`: the all-zero column of the same length. */
    function Zero(): (z: BiasVector)
      ensures SameShape(z.matrix, matrix)
      ensures forall i, j :: 0 <= i < |z.matrix| && 0 <= j < |z.matrix[i]| ==> z.matrix[i][j] == 0.0
    {
      BiasVector(ZeroLike(matrix))
    }

    /** `copyWithNeuronPerturbed(delta, neuron)`: only entry `neuron` changes, by `delta`. */
    function CopyWithNeuronPerturbed(delta: real, neuron: int): (r: Result<BiasVector, NetworkError>)
      requires IsColumn()
      ensures r.Ok? <==> 0 <= neuron < |matrix|
      ensures r.Err? ==> r.error == EntryOutOfBounds(neuron, 0)
      ensures r.Ok? ==> r.value.IsColumn() && |r.value.matrix| == |matrix|
      ensures r.Ok? ==> r.value.Vector()[neuron] == Vector()[neuron] + delta
      ensures r.Ok? ==> forall i :: 0 <= i < |matrix| && i != neuron ==> r.value.Vector()[i] == Vector()[i]
    {
      if 0 <= neuron < |matrix| then Ok(BiasVector(matrix[neuron := [matrix[neuron][0] + delta]]))
      else Err(EntryOutOfBounds(neuron, 0))
    }
  }

  /** The bias column holding `v` (`toRealMatrix`), which `Vector` reads back. */
  lemma BiasOfVector(v: Vector)
    ensures BiasVector(ToRealMatrix(v)).IsColumn()
    ensures BiasVector(ToRealMatrix(v)).Vector() == v
  {
    ColumnOfToRealMatrix(v);
  }

  /** A labelled example: an input vector and the expected output vector. */
  datatype LabeledData = LabeledData(data: Vector, labelVector: Vector)

  /** Per-layer partial derivatives of the cost, shaped like the weights and biases. */
  datatype Gradient = Gradient(weightDecs: seq<WeightMatrix>, biasDecs: seq<BiasVector>)

  /** The weights and biases of a network, layer by layer. */
  datatype Parameters = Parameters(weights: seq<WeightMatrix>, biases: seq<BiasVector>)

  /** One entry per layer, each of the shape of the matching weight matrix or bias vector. */
  predicate ShapedLike(g: Gradient, weights: seq<WeightMatrix>, biases: seq<BiasVector>) {
    && |g.weightDecs| == |weights|
    && |g.biasDecs| == |biases|
    && (forall l :: 0 <= l < |weights| ==> SameShape(g.weightDecs[l].matrix, weights[l].matrix))
    && (forall l :: 0 <= l < |biases| ==> SameShape(g.biasDecs[l].matrix, biases[l].matrix))
  }

  predicate IsZero(g: Gradient) {
    && (forall l, i, j :: 0 <= l < |g.weightDecs| && 0 <= i < |g.weightDecs[l].matrix| && 0 <= j < |g.weightDecs[l].matrix[i]|
          ==> g.weightDecs[l].matrix[i][j] == 0.0)
    && (forall l, i, j :: 0 <= l < |g.biasDecs| && 0 <= i < |g.biasDecs[l].matrix| && 0 <= j < |g.biasDecs[l].matrix[i]|
          ==> g.biasDecs[l].matrix[i][j] == 0.0)
  }

  /** `weights.map { it.zero() }` and `biases.map { it.zero() }`: the accumulators' starting value. */
  function ZeroGradient(weights: seq<WeightMatrix>, biases: seq<BiasVector>): (g: Gradient)
    ensures ShapedLike(g, weights, biases)
    ensures IsZero(g)
  {
    Gradient(seq(|weights|, l requires 0 <= l < |weights| => weights[l].Zero()),
             seq(|biases|, l requires 0 <= l < |biases| => biases[l].Zero()))
  }

  predicate SameShapes(a: Gradient, b: Gradient) {
    ShapedLike(a, b.weightDecs, b.biasDecs)
  }

  /** Layer-by-layer, entry-by-entry sum of two gradients. */
  function AddGradients(a: Gradient, b: Gradient): (r: Gradient)
    requires SameShapes(a, b)
    ensures SameShapes(r, a)
    ensures forall l :: 0 <= l < |r.weightDecs| ==> r.weightDecs[l].matrix == Add(a.weightDecs[l].matrix, b.weightDecs[l].matrix)
    ensures forall l :: 0 <= l < |r.biasDecs| ==> r.biasDecs[l].matrix == Add(a.biasDecs[l].matrix, b.biasDecs[l].matrix)
  {
    Gradient(seq(|a.weightDecs|, l requires 0 <= l < |a.weightDecs| =>
                   WeightMatrix(Add(a.weightDecs[l].matrix, b.weightDecs[l].matrix))),
             seq(|a.biasDecs|, l requires 0 <= l < |a.biasDecs| =>
                   BiasVector(Add(a.biasDecs[l].matrix, b.biasDecs[l].matrix))))
  }

  lemma SameShapesTransitive(a: Gradient, b: Gradient, c: Gradient)
    requires SameShapes(a, b) && SameShapes(b, c)
    ensures SameShapes(a, c) && SameShapes(c, a)
  {
  }

  lemma ShapedLikeSame(a: Gradient, b: Gradient, weights: seq<WeightMatrix>, biases: seq<BiasVector>)
    requires ShapedLike(a, weights, biases) && ShapedLike(b, weights, biases)
    ensures SameShapes(a, b)
  {
  }

  lemma ShapedLikeTransfer(a: Gradient, b: Gradient, weights: seq<WeightMatrix>, biases: seq<BiasVector>)
    requires SameShapes(a, b) && ShapedLike(b, weights, biases)
    ensures ShapedLike(a, weights, biases)
  {
  }

  /** Adding gradients is associative, so a sum does not depend on how it is grouped. */
  lemma AddGradientsAssociative(a: Gradient, b: Gradient, c: Gradient)
    requires SameShapes(a, b) && SameShapes(b, c)
    ensures SameShapes(AddGradients(a, b), c) && SameShapes(a, AddGradients(b, c))
    ensures AddGradients(AddGradients(a, b), c) == AddGradients(a, AddGradients(b, c))
  {
    var l, r := AddGradients(AddGradients(a, b), c), AddGradients(a, AddGradients(b, c));
    forall k | 0 <= k < |l.weightDecs| ensures l.weightDecs[k] == r.weightDecs[k] {
      AddAssociative(a.weightDecs[k].matrix, b.weightDecs[k].matrix, c.weightDecs[k].matrix);
    }
    forall k | 0 <= k < |l.biasDecs| ensures l.biasDecs[k] == r.biasDecs[k] {
      AddAssociative(a.biasDecs[k].matrix, b.biasDecs[k].matrix, c.biasDecs[k].matrix);
    }
    assert l.weightDecs == r.weightDecs && l.biasDecs == r.biasDecs;
  }

  /** An all-zero gradient is a left identity of the sum. */
  lemma AddZeroGradientLeft(z: Gradient, a: Gradient)
    requires SameShapes(z, a) && IsZero(z)
    ensures AddGradients(z, a) == a
  {
    var r := AddGradients(z, a);
    forall k | 0 <= k < |r.weightDecs| ensures r.weightDecs[k] == a.weightDecs[k] {
      AddZeroLeft(z.weightDecs[k].matrix, a.weightDecs[k].matrix);
    }
    forall k | 0 <= k < |r.biasDecs| ensures r.biasDecs[k] == a.biasDecs[k] {
      AddZeroLeft(z.biasDecs[k].matrix, a.biasDecs[k].matrix);
    }
    assert r.weightDecs == a.weightDecs && r.biasDecs == a.biasDecs;
  }

  /** An all-zero gradient is a right identity of the sum. */
  lemma AddZeroGradientRight(a: Gradient, z: Gradient)
    requires SameShapes(a, z) && IsZero(z)
    ensures AddGradients(a, z) == a
  {
    var r := AddGradients(a, z);
    forall k | 0 <= k < |r.weightDecs| ensures r.weightDecs[k] == a.weightDecs[k] {
      AddZeroRight(a.weightDecs[k].matrix, z.weightDecs[k].matrix);
    }
    forall k | 0 <= k < |r.biasDecs| ensures r.biasDecs[k] == a.biasDecs[k] {
      AddZeroRight(a.biasDecs[k].matrix, z.biasDecs[k].matrix);
    }
    assert r.weightDecs == a.weightDecs && r.biasDecs == a.biasDecs;
  }

  /**
   * `for ((w1, w2) in acc.zip(g)) { w1.matrix += w2.matrix }` for the weights, then the
   * same for the biases: every accumulator matrix gets the matching matrix added.
   */
  method AccumulateGradient(acc: Gradient, g: Gradient) returns (r: Gradient)
    requires SameShapes(acc, g)
    ensures r == AddGradients(acc, g)
  {
    var weightDecs := acc.weightDecs;
    for l := 0 to |weightDecs|
      invariant |weightDecs| == |acc.weightDecs|
      invariant forall k :: 0 <= k < l ==> weightDecs[k] == WeightMatrix(Add(acc.weightDecs[k].matrix, g.weightDecs[k].matrix))
      invariant forall k :: l <= k < |weightDecs| ==> weightDecs[k] == acc.weightDecs[k]
    {
      weightDecs := weightDecs[l := WeightMatrix(Add(weightDecs[l].matrix, g.weightDecs[l].matrix))];
    }
    var biasDecs := acc.biasDecs;
    for l := 0 to |biasDecs|
      invariant |biasDecs| == |acc.biasDecs|
      invariant forall k :: 0 <= k < l ==> biasDecs[k] == BiasVector(Add(acc.biasDecs[k].matrix, g.biasDecs[k].matrix))
      invariant forall k :: l <= k < |biasDecs| ==> biasDecs[k] == acc.biasDecs[k]
    {
      biasDecs := biasDecs[l := BiasVector(Add(biasDecs[l].matrix, g.biasDecs[l].matrix))];
    }
    r := Gradient(weightDecs, biasDecs);
    assert r.weightDecs == AddGradients(acc, g).weightDecs;
    assert r.biasDecs == AddGradients(acc, g).biasDecs;
  }
}
