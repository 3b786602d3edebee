/**
 * What the network of NeuralNetwork.kt computes, as functions of its parameters:
 * layer shapes and their creation, the forward pass, the cost, the error
 * vectors and gradient of back-propagation, the gradient check, and the
 * mini-batch training schedule. The sigmoid is a parameter `sigma`.
 */
module NetworkMath {
  import opened Results
  import opened LinearAlgebra
  import opened MathUtils
  import opened NetworkTypes
  import LangUtils
  import DataForkJoinTask

  // ---------------------------------------------------------------------------
  // Shapes.

  /**
   * Layer `l` maps `Cols(weights[l])` inputs to `|weights[l]|` neurons, its bias
   * is a column of that many entries, and each layer's output feeds the next.
   */
  predicate Layered(p: Parameters) {
    && |p.weights| >= 1
    && |p.biases| == |p.weights|
    && (forall l :: 0 <= l < |p.weights| ==> Rectangular(p.weights[l].matrix))
    && (forall l :: 0 <= l < |p.weights| ==> p.biases[l].IsColumn() && |p.biases[l].matrix| == |p.weights[l].matrix|)
    && (forall l :: 1 <= l < |p.weights| ==> Cols(p.weights[l].matrix) == |p.weights[l - 1].matrix|)
  }

  function InputSize(p: Parameters): nat
    requires |p.weights| >= 1
  {
    Cols(p.weights[0].matrix)
  }

  function OutputSize(p: Parameters): nat
    requires |p.weights| >= 1
  {
    |p.weights[|p.weights| - 1].matrix|
  }

  /** The neuron count of every layer, input layer first. */
  function LayerSizes(p: Parameters): (sizes: seq<int>)
    requires |p.weights| >= 1
    ensures |sizes| == |p.weights| + 1
  {
    [InputSize(p)] + seq(|p.weights|, l requires 0 <= l < |p.weights| => |p.weights[l].matrix| as int)
  }

  /** Same number of layers and the same shape in every layer. */
  predicate SameParameterShapes(p: Parameters, q: Parameters) {
    && |q.weights| == |p.weights| && |q.biases| == |p.biases|
    && (forall l :: 0 <= l < |p.weights| ==> SameShape(q.weights[l].matrix, p.weights[l].matrix))
    && (forall l :: 0 <= l < |p.biases| ==> SameShape(q.biases[l].matrix, p.biases[l].matrix))
  }

  lemma SameShapesKeepLayered(p: Parameters, q: Parameters)
    requires Layered(p) && SameParameterShapes(p, q)
    ensures Layered(q) && InputSize(q) == InputSize(p) && OutputSize(q) == OutputSize(p)
  {
    forall l | 0 <= l < |p.weights| ensures Rectangular(q.weights[l].matrix) && Cols(q.weights[l].matrix) == Cols(p.weights[l].matrix) {
      SameShapeKeepsRectangular(p.weights[l].matrix, q.weights[l].matrix);
    }
  }

  // ---------------------------------------------------------------------------
  // Creation (the companion object).

  /** The value drawn for entry (row, column) of layer `layer` (a normal-distribution sample). */
  type Sampler = (nat, nat, nat) -> real

  /** A `rows` × `cols` matrix of samples; a non-positive dimension is an error. */
  function SampledMatrix(layer: nat, rows: int, cols: int, sample: Sampler): (r: Result<Matrix, NetworkError>)
    ensures r.Ok? <==> rows >= 1 && cols >= 1
    ensures r.Err? ==> r.error == NonPositiveDimension(if rows < 1 then rows else cols)
    ensures r.Ok? ==> HasShape(r.value, rows, cols)
    ensures r.Ok? ==> forall i, j :: 0 <= i < rows && 0 <= j < cols ==> r.value[i][j] == sample(layer, i, j)
  {
    if rows < 1 then Err(NonPositiveDimension(rows))
    else if cols < 1 then Err(NonPositiveDimension(cols))
    else Ok(seq(rows, i requires 0 <= i < rows => seq(cols, j requires 0 <= j < cols => sample(layer, i, j))))
  }

  /** Weight matrices for the layer pairs from `from` on: height the right size, width the left size. */
  function WeightsFrom(layerSizes: seq<int>, from: nat, sample: Sampler): (r: Result<seq<WeightMatrix>, NetworkError>)
    requires from < |layerSizes|
    ensures r.Ok? <==> forall i :: from <= i < |layerSizes| && from + 1 < |layerSizes| ==> layerSizes[i] >= 1
    ensures r.Ok? ==> |r.value| == |layerSizes| - 1 - from
    ensures r.Ok? ==> forall l :: 0 <= l < |r.value| ==>
                        HasShape(r.value[l].matrix, layerSizes[from + l + 1], layerSizes[from + l])
    decreases |layerSizes| - from
  {
    if from + 1 == |layerSizes| then Ok([])
    else
      var m :- SampledMatrix(from, layerSizes[from + 1], layerSizes[from], sample);
      var rest :- WeightsFrom(layerSizes, from + 1, sample);
      Ok([WeightMatrix(m)] + rest)
  }

  /** `createWeights`: one matrix per pair of adjacent layer sizes. */
  function CreateWeights(layerSizes: seq<int>, sample: Sampler): (r: Result<seq<WeightMatrix>, NetworkError>)
    ensures |layerSizes| == 0 ==> r == Err(EmptyLayerSizes)
    ensures r.Ok? <==> |layerSizes| == 1 || (|layerSizes| >= 2 && forall i :: 0 <= i < |layerSizes| ==> layerSizes[i] >= 1)
    ensures r.Ok? ==> |r.value| == |layerSizes| - 1
    ensures r.Ok? ==> forall l :: 0 <= l < |r.value| ==> HasShape(r.value[l].matrix, layerSizes[l + 1], layerSizes[l])
  {
    if |layerSizes| == 0 then Err(EmptyLayerSizes) else WeightsFrom(layerSizes, 0, sample)
  }

  /** Bias columns for the layers from `from` on. */
  function BiasesFrom(layerSizes: seq<int>, from: nat, sample: Sampler): (r: Result<seq<BiasVector>, NetworkError>)
    requires 1 <= from <= |layerSizes|
    ensures r.Ok? <==> forall i :: from <= i < |layerSizes| ==> layerSizes[i] >= 1
    ensures r.Ok? ==> |r.value| == |layerSizes| - from
    ensures r.Ok? ==> forall l :: 0 <= l < |r.value| ==> HasShape(r.value[l].matrix, layerSizes[from + l], 1)
    decreases |layerSizes| - from
  {
    if from == |layerSizes| then Ok([])
    else
      var m :- SampledMatrix(from - 1, layerSizes[from], 1, sample);
      var rest :- BiasesFrom(layerSizes, from + 1, sample);
      Ok([BiasVector(m)] + rest)
  }

  /** `createBiases`: one column per layer after the input layer. */
  function CreateBiases(layerSizes: seq<int>, sample: Sampler): (r: Result<seq<BiasVector>, NetworkError>)
    ensures |layerSizes| == 0 ==> r == Err(EmptyLayerSizes)
    ensures r.Ok? <==> |layerSizes| >= 1 && forall i :: 1 <= i < |layerSizes| ==> layerSizes[i] >= 1
    ensures r.Ok? ==> |r.value| == |layerSizes| - 1
    ensures r.Ok? ==> forall l :: 0 <= l < |r.value| ==> HasShape(r.value[l].matrix, layerSizes[l + 1], 1)
  {
    if |layerSizes| == 0 then Err(EmptyLayerSizes) else BiasesFrom(layerSizes, 1, sample)
  }

  /**
   * The public constructor: weights, then biases, then the `init` check that
   * there are at least two weight matrices.
   */
  function NewParameters(layerSizes: seq<int>, weightSample: Sampler, biasSample: Sampler)
    : (r: Result<Parameters, NetworkError>)
    ensures r.Ok? ==> Layered(r.value) && |r.value.weights| >= 2 && LayerSizes(r.value) == layerSizes
  {
    var weights :- CreateWeights(layerSizes, weightSample);
    var biases :- CreateBiases(layerSizes, biasSample);
    if |weights| < 2 then Err(InvalidLayerCount(|weights|))
    else
      CreatedLayered(layerSizes, Parameters(weights, biases));
      Ok(Parameters(weights, biases))
  }

  /**
   * Creation succeeds exactly for three or more layer sizes, all positive; the
   * result is layered with those sizes, and its layer count (`layerSize`) is
   * the number of weight matrices plus one.
   */
  lemma NewParametersLaw(layerSizes: seq<int>, weightSample: Sampler, biasSample: Sampler)
    ensures NewParameters(layerSizes, weightSample, biasSample).Ok? <==>
      |layerSizes| >= 3 && forall i :: 0 <= i < |layerSizes| ==> layerSizes[i] >= 1
    ensures NewParameters(layerSizes, weightSample, biasSample).Ok? ==>
      var p := NewParameters(layerSizes, weightSample, biasSample).value;
      Layered(p) && |p.weights| >= 2 && |p.weights| + 1 == |layerSizes| && LayerSizes(p) == layerSizes
  {
    var r := NewParameters(layerSizes, weightSample, biasSample);
    if |layerSizes| >= 3 && forall i :: 0 <= i < |layerSizes| ==> layerSizes[i] >= 1 {
      var ws := WeightsFrom(layerSizes, 0, weightSample);
      var bs := BiasesFrom(layerSizes, 1, biasSample);
      assert ws.Ok? && bs.Ok?;
      var p := Parameters(ws.value, bs.value);
      assert r == Ok(p);
      CreatedLayered(layerSizes, p);
    }
  }

  /** Weights and biases of the shapes the creation functions give form a layered network with those sizes. */
  lemma CreatedLayered(layerSizes: seq<int>, p: Parameters)
    requires |layerSizes| >= 3 && forall i :: 0 <= i < |layerSizes| ==> layerSizes[i] >= 1
    requires |p.weights| == |layerSizes| - 1 && |p.biases| == |layerSizes| - 1
    requires forall l :: 0 <= l < |p.weights| ==> HasShape(p.weights[l].matrix, layerSizes[l + 1], layerSizes[l])
    requires forall l :: 0 <= l < |p.biases| ==> HasShape(p.biases[l].matrix, layerSizes[1 + l], 1)
    ensures Layered(p) && LayerSizes(p) == layerSizes
  {
    assert HasShape(p.weights[0].matrix, layerSizes[1], layerSizes[0]);
    assert Cols(p.weights[0].matrix) == layerSizes[0];
    forall l | 0 <= l < |p.weights| ensures Rectangular(p.weights[l].matrix) {
      assert |p.weights[l].matrix| == layerSizes[l + 1];
    }
    forall l | 1 <= l < |p.weights| ensures Cols(p.weights[l].matrix) == |p.weights[l - 1].matrix| {
      assert HasShape(p.weights[l].matrix, layerSizes[l + 1], layerSizes[l]);
      assert HasShape(p.weights[l - 1].matrix, layerSizes[l], layerSizes[l - 1]);
    }
    assert LayerSizes(p) == layerSizes;
  }

  /** Fewer than three layer sizes (but at least one, all positive) fail the `init` check. */
  lemma TooFewLayers(layerSizes: seq<int>, weightSample: Sampler, biasSample: Sampler)
    requires 1 <= |layerSizes| < 3 && forall i :: 0 <= i < |layerSizes| ==> layerSizes[i] >= 1
    ensures NewParameters(layerSizes, weightSample, biasSample) == Err(InvalidLayerCount(|layerSizes| - 1))
  {
  }

  // ---------------------------------------------------------------------------
  // The forward pass.

  /** z_l = W_l a_l + b_l. */
  function WeightedInput(p: Parameters, sigma: real -> real, input: Vector, l: nat): (z: Vector)
    requires Layered(p) && |input| == InputSize(p) && l < |p.weights|
    ensures |z| == |p.weights[l].matrix|
    decreases l, 1
  {
    var a := Activation(p, sigma, input, l);
    VectorAdd(Operate(p.weights[l].matrix, a), p.biases[l].Vector())
  }

  /** a_0 = input and a_(l+1) = sigma(z_l), entry by entry. */
  function Activation(p: Parameters, sigma: real -> real, input: Vector, l: nat): (a: Vector)
    requires Layered(p) && |input| == InputSize(p) && l <= |p.weights|
    ensures |a| == if l == 0 then |input| else |p.weights[l - 1].matrix|
    decreases l, 0
  {
    if l == 0 then input else Map(sigma, WeightedInput(p, sigma, input, l - 1))
  }

  /** `predict`: the last activation, or the mismatch the first layer raises. */
  function Predict(p: Parameters, sigma: real -> real, input: Vector): (r: Result<Vector, NetworkError>)
    requires Layered(p)
    ensures r.Err? <==> |input| != InputSize(p)
    ensures r.Err? ==> r.error == DimensionMismatch(|input|, InputSize(p))
    ensures r.Ok? ==> |r.value| == OutputSize(p)
  {
    if |input| != InputSize(p) then Err(DimensionMismatch(|input|, InputSize(p)))
    else Ok(Activation(p, sigma, input, |p.weights|))
  }

  /** A sigmoid with values in (0, 1) makes every prediction entry lie in (0, 1). */
  lemma PredictInUnitInterval(p: Parameters, sigma: real -> real, input: Vector)
    requires Layered(p) && |input| == InputSize(p)
    requires forall x :: 0.0 < sigma(x) < 1.0
    ensures forall i :: 0 <= i < |Predict(p, sigma, input).value| ==> 0.0 < Predict(p, sigma, input).value[i] < 1.0
  {
    assert Predict(p, sigma, input).value == Map(sigma, WeightedInput(p, sigma, input, |p.weights| - 1));
  }

  // ---------------------------------------------------------------------------
  // Cost.

  /** The product of two positive reals is positive. */
  lemma MulPos(a: real, b: real)
    requires a > 0.0 && b > 0.0
    ensures a * b > 0.0
  {
  }

  /** Negating both factors keeps the product. */
  lemma NegNeg(a: real, b: real)
    ensures (-a) * (-b) == a * b
  {
  }

  /** Half of a positive product is positive. */
  lemma HalfOfPositiveProduct(t: real, x: real, y: real)
    requires t == 0.5 * (x * y) && x * y > 0.0
    ensures t > 0.0
  {
  }

  /** 0.5 x y for x == y is positive unless x is zero. */
  lemma HalfProductPositive(t: real, x: real, y: real)
    requires t == 0.5 * (x * y) && x == y && x != 0.0
    ensures t > 0.0
  {
    if x > 0.0 {
      MulPos(x, y);
    } else {
      MulPos(-x, -y);
      NegNeg(x, y);
    }
    HalfOfPositiveProduct(t, x, y);
  }

  /** Entry i is half the squared difference of the two vectors at i. */
  function HalfSquaredErrors(prediction: Vector, actual: Vector): (v: Vector)
    requires |prediction| == |actual|
    ensures |v| == |actual|
    ensures forall i :: 0 <= i < |v| ==> v[i] >= 0.0
    ensures forall i :: 0 <= i < |v| ==> (v[i] == 0.0 <==> prediction[i] == actual[i])
  {
    var v := seq(|actual|, i requires 0 <= i < |actual| => 0.5 * ((actual[i] - prediction[i]) * (actual[i] - prediction[i])));
    HalfSquaresLaw(v, prediction, actual);
    v
  }

  lemma HalfSquaresLaw(v: Vector, prediction: Vector, actual: Vector)
    requires |prediction| == |actual| == |v|
    requires forall i :: 0 <= i < |v| ==> v[i] == 0.5 * ((actual[i] - prediction[i]) * (actual[i] - prediction[i]))
    ensures forall i :: 0 <= i < |v| ==> v[i] >= 0.0
    ensures forall i :: 0 <= i < |v| ==> (v[i] == 0.0 <==> prediction[i] == actual[i])
  {
    forall i | 0 <= i < |v| ensures v[i] >= 0.0 && (v[i] == 0.0 <==> prediction[i] == actual[i]) {
      var d := actual[i] - prediction[i];
      if d != 0.0 {
        HalfProductPositive(v[i], d, d);
      } else {
        assert d * d == 0.0 * d;
      }
    }
  }

  /** `cost`: half the sum of the squared differences; never negative. */
  function Cost(prediction: Vector, actual: Vector): (c: real)
    requires |prediction| == |actual|
    ensures c >= 0.0
  {
    var vecCost := HalfSquaredErrors(prediction, actual);
    SumNonNegative(vecCost);
    Sum(vecCost)
  }

  /** The cost is zero exactly when the prediction is the expected output. */
  lemma CostZeroIff(prediction: Vector, actual: Vector)
    requires |prediction| == |actual|
    ensures Cost(prediction, actual) == 0.0 <==> prediction == actual
  {
    var vecCost := HalfSquaredErrors(prediction, actual);
    if prediction != actual {
      var k :| 0 <= k < |actual| && prediction[k] != actual[k];
      SumPositive(vecCost, k);
    } else {
      SumZero(vecCost);
    }
  }

  /** `costDerivative`: the activation minus the expected output. */
  function CostDerivative(activation: Vector, actual: Vector): (d: Vector)
    requires |activation| == |actual|
    ensures |d| == |activation|
    ensures forall i :: 0 <= i < |d| ==> d[i] == activation[i] - actual[i]
  {
    VectorSubtract(activation, actual)
  }

  /** The cost derivative vanishes exactly where the cost does. */
  lemma CostDerivativeZeroIff(activation: Vector, actual: Vector)
    requires |activation| == |actual|
    ensures (forall i :: 0 <= i < |activation| ==> CostDerivative(activation, actual)[i] == 0.0)
        <==> Cost(activation, actual) == 0.0
  {
    CostZeroIff(activation, actual);
    if forall i :: 0 <= i < |activation| ==> CostDerivative(activation, actual)[i] == 0.0 {
      forall i | 0 <= i < |activation| ensures activation[i] == actual[i] {
        assert CostDerivative(activation, actual)[i] == 0.0;
      }
      assert activation == actual;
    }
  }

  /** `activateDerivative`: a (1 - a) for a = sigma(z), entry by entry. */
  function ActivateDerivative(sigma: real -> real, z: Vector): (d: Vector)
    ensures |d| == |z|
    ensures forall i :: 0 <= i < |d| ==> d[i] == sigma(z[i]) * (1.0 - sigma(z[i]))
  {
    var a := Map(sigma, z);
    EbeMultiply(a, seq(|a|, i requires 0 <= i < |a| => 1.0 - a[i]))
  }

  /** a (1 - a) for 0 < a < 1 lies in (0, 1/4], the largest value taken at a = 1/2. */
  lemma DerivativeFactorBounds(a: real, d: real)
    requires 0.0 < a < 1.0 && d == a * (1.0 - a)
    ensures 0.0 < d <= 0.25
  {
    var s := a - 0.5;
    assert d == 0.25 - s * s;
    assert s * s >= 0.0;
  }

  /** A sigmoid with values in (0, 1) has activation derivatives in (0, 1/4]. */
  lemma ActivateDerivativeBounds(sigma: real -> real, z: Vector)
    requires forall x :: 0.0 < sigma(x) < 1.0
    ensures forall i :: 0 <= i < |z| ==> 0.0 < ActivateDerivative(sigma, z)[i] <= 0.25
  {
    var d := ActivateDerivative(sigma, z);
    forall i | 0 <= i < |z| ensures 0.0 < d[i] <= 0.25 {
      var x := z[i];
      assert 0.0 < sigma(x) < 1.0;
      DerivativeFactorBounds(sigma(x), d[i]);
    }
  }

  // ---------------------------------------------------------------------------
  // Perturbed copies (for the gradient check).

  /**
   * `copyWithWeightOfNeuronPerturbed`: the parameters with one weight of layer
   * `layer` (counted from 1) moved by `epsilon`; a layer outside 1..|weights|
   * is an error, and so is an entry outside the matrix.
   */
  function WeightPerturbed(p: Parameters, epsilon: real, layer: int, neuron: int, previousLayerNeuron: int)
    : (r: Result<Parameters, NetworkError>)
    ensures !(1 <= layer <= |p.weights|) ==> r == Err(LayerOutOfBounds(layer, |p.weights|))
    ensures 1 <= layer <= |p.weights| ==>
      (r.Ok? <==> 0 <= neuron < |p.weights[layer - 1].matrix| && 0 <= previousLayerNeuron < |p.weights[layer - 1].matrix[neuron]|)
    ensures 1 <= layer <= |p.weights| && r.Err? ==> r.error == EntryOutOfBounds(neuron, previousLayerNeuron)
    ensures r.Ok? ==> SameParameterShapes(p, r.value) && r.value.biases == p.biases
    ensures r.Ok? ==> r.value.weights[layer - 1].matrix[neuron][previousLayerNeuron]
                      == p.weights[layer - 1].matrix[neuron][previousLayerNeuron] + epsilon
    ensures r.Ok? ==> forall l, i, j :: 0 <= l < |p.weights| && 0 <= i < |p.weights[l].matrix| && 0 <= j < |p.weights[l].matrix[i]|
                        && (l, i, j) != (layer - 1, neuron, previousLayerNeuron)
                        ==> r.value.weights[l].matrix[i][j] == p.weights[l].matrix[i][j]
    ensures r.Ok? && Layered(p) ==>
      Layered(r.value) && InputSize(r.value) == InputSize(p) && OutputSize(r.value) == OutputSize(p)
  {
    if layer < 1 || layer > |p.weights| then Err(LayerOutOfBounds(layer, |p.weights|))
    else
      var m :- p.weights[layer - 1].CopyWithNeuronPerturbed(epsilon, neuron, previousLayerNeuron);
      var q := Parameters(p.weights[layer - 1 := m], p.biases);
      assert SameParameterShapes(p, q);
      if Layered(p) then SameShapesKeepLayered(p, q); Ok(q) else Ok(q)
  }

  /**
   * `copyWithBiasOfNeuronPerturbed`: the parameters with one bias of layer
   * `layer` (counted from 1) moved by `delta`.
   */
  function BiasPerturbed(p: Parameters, delta: real, layer: int, neuron: int): (r: Result<Parameters, NetworkError>)
    requires Layered(p)
    ensures !(1 <= layer <= |p.biases|) ==> r == Err(LayerOutOfBounds(layer, |p.biases|))
    ensures 1 <= layer <= |p.biases| ==> (r.Ok? <==> 0 <= neuron < |p.biases[layer - 1].matrix|)
    ensures 1 <= layer <= |p.biases| && r.Err? ==> r.error == EntryOutOfBounds(neuron, 0)
    ensures r.Ok? ==> SameParameterShapes(p, r.value) && r.value.weights == p.weights
    ensures r.Ok? ==> Layered(r.value) && InputSize(r.value) == InputSize(p) && OutputSize(r.value) == OutputSize(p)
    ensures r.Ok? ==> r.value.biases[layer - 1].Vector()[neuron] == p.biases[layer - 1].Vector()[neuron] + delta
    ensures r.Ok? ==> forall l, i :: 0 <= l < |p.biases| && 0 <= i < |p.biases[l].matrix| && (l, i) != (layer - 1, neuron)
                        ==> r.value.biases[l].Vector()[i] == p.biases[l].Vector()[i]
  {
    if layer < 1 || layer > |p.biases| then Err(LayerOutOfBounds(layer, |p.biases|))
    else
      var b :- p.biases[layer - 1].CopyWithNeuronPerturbed(delta, neuron);
      var q := Parameters(p.weights, p.biases[layer - 1 := b]);
      assert SameParameterShapes(p, q);
      SameShapesKeepLayered(p, q);
      Ok(q)
  }

  /** Moving a weight by epsilon and then by -epsilon restores the parameters. */
  lemma WeightPerturbedUndo(p: Parameters, epsilon: real, layer: int, neuron: int, previousLayerNeuron: int)
    requires WeightPerturbed(p, epsilon, layer, neuron, previousLayerNeuron).Ok?
    ensures WeightPerturbed(WeightPerturbed(p, epsilon, layer, neuron, previousLayerNeuron).value,
                            -epsilon, layer, neuron, previousLayerNeuron) == Ok(p)
  {
    var k := layer - 1;
    var w := p.weights[k].matrix;
    var row := w[neuron];
    var q := WeightPerturbed(p, epsilon, layer, neuron, previousLayerNeuron).value;
    assert q.weights == p.weights[k := WeightMatrix(w[neuron := row[previousLayerNeuron := row[previousLayerNeuron] + epsilon]])];
    var row' := q.weights[k].matrix[neuron];
    assert row'[previousLayerNeuron := row'[previousLayerNeuron] + -epsilon] == row;
    assert q.weights[k].matrix[neuron := row] == w;
    assert WeightPerturbed(q, -epsilon, layer, neuron, previousLayerNeuron)
        == Ok(Parameters(q.weights[k := WeightMatrix(w)], q.biases));
    assert q.weights[k := WeightMatrix(w)] == p.weights;
  }

  /** Moving a bias by delta and then by -delta restores the parameters. */
  lemma BiasPerturbedUndo(p: Parameters, delta: real, layer: int, neuron: int)
    requires Layered(p) && BiasPerturbed(p, delta, layer, neuron).Ok?
    ensures BiasPerturbed(BiasPerturbed(p, delta, layer, neuron).value, -delta, layer, neuron) == Ok(p)
  {
    var k := layer - 1;
    var b := p.biases[k].matrix;
    var q := BiasPerturbed(p, delta, layer, neuron).value;
    assert q.biases == p.biases[k := BiasVector(b[neuron := [b[neuron][0] + delta]])];
    assert [q.biases[k].matrix[neuron][0] + -delta] == b[neuron];
    assert q.biases[k].matrix[neuron := b[neuron]] == b;
    assert BiasPerturbed(q, -delta, layer, neuron) == Ok(Parameters(q.weights, q.biases[k := BiasVector(b)]));
    assert q.biases[k := BiasVector(b)] == p.biases;
  }

  // ---------------------------------------------------------------------------
  // The gradient check.

  /** Step of the central differences and tolerance of the comparison. */
  const GradientEpsilon: real := 0.0001
  const GradientDelta: real := 0.001

  function Abs(x: real): (a: real)
    ensures a >= 0.0 && (a == x || a == -x)
  {
    if x < 0.0 then -x else x
  }

  /** `equals(other, delta)` on doubles: equal, or at most `delta` apart. */
  predicate Close(x: real, y: real, delta: real) {
    x == y || Abs(y - x) <= delta
  }

  /** Every entry of `expected` has an entry of `actual` within `delta` of it. */
  predicate EntriesClose(actual: Matrix, expected: Matrix, delta: real) {
    forall i, j :: 0 <= i < |expected| && 0 <= j < |expected[i]| ==>
      i < |actual| && j < |actual[i]| && Close(actual[i][j], expected[i][j], delta)
  }

  /** The inner loop of `checkCloseEnough`, from column `col` of one row on. */
  function RowCheck(expected: Vector, actual: Vector, delta: real, col: nat): (r: Outcome<NetworkError>)
    requires |expected| == |actual| && col <= |expected|
    ensures r.Fail? ==> r.error.GradientCheckFailed?
    decreases |expected| - col
  {
    if col == |expected| then Pass
    else if !Close(actual[col], expected[col], delta) then Fail(GradientCheckFailed(expected[col], actual[col]))
    else RowCheck(expected, actual, delta, col + 1)
  }

  /** The outer loop of `checkCloseEnough`, from row `row` on. */
  function RowsCheck(expected: Matrix, actual: Matrix, delta: real, row: nat): (r: Outcome<NetworkError>)
    requires SameShape(expected, actual) && row <= |expected|
    ensures r.Fail? ==> r.error.GradientCheckFailed?
    decreases |expected| - row
  {
    if row == |expected| then Pass
    else
      var o := RowCheck(expected[row], actual[row], delta, 0);
      if o.Fail? then o else RowsCheck(expected, actual, delta, row + 1)
  }

  /** `checkCloseEnough`: the dimensions must agree, then every entry is compared in row-major order. */
  function CloseEnough(expected: Matrix, actual: Matrix, delta: real): (r: Outcome<NetworkError>)
    requires Rectangular(expected) && Rectangular(actual)
    ensures r.Fail? ==> r.error.RowDimensionDiff? || r.error.ColumnDimensionDiff? || r.error.GradientCheckFailed?
    ensures r.Fail? && r.error.GradientCheckFailed? ==> SameShape(expected, actual)
  {
    if |expected| != |actual| then Fail(RowDimensionDiff(|expected|, |actual|))
    else if Cols(expected) != Cols(actual) then Fail(ColumnDimensionDiff(Cols(expected), Cols(actual)))
    else RowsCheck(expected, actual, delta, 0)
  }

  /** A row passes exactly when its entries are close, and otherwise reports the first entry that is not. */
  lemma {:induction false} RowCheckLaw(expected: Vector, actual: Vector, delta: real, col: nat)
    requires |expected| == |actual| && col <= |expected|
    ensures RowCheck(expected, actual, delta, col).Pass? <==>
      forall j :: col <= j < |expected| ==> Close(actual[j], expected[j], delta)
    ensures RowCheck(expected, actual, delta, col).Fail? ==>
      exists j :: col <= j < |expected| && !Close(actual[j], expected[j], delta)
        && (forall j' :: col <= j' < j ==> Close(actual[j'], expected[j'], delta))
        && RowCheck(expected, actual, delta, col).error == GradientCheckFailed(expected[j], actual[j])
    decreases |expected| - col
  {
    if col < |expected| && Close(actual[col], expected[col], delta) {
      RowCheckLaw(expected, actual, delta, col + 1);
      if RowCheck(expected, actual, delta, col).Fail? {
        var j :| col + 1 <= j < |expected| && !Close(actual[j], expected[j], delta)
          && (forall j' :: col + 1 <= j' < j ==> Close(actual[j'], expected[j'], delta))
          && RowCheck(expected, actual, delta, col + 1).error == GradientCheckFailed(expected[j], actual[j]);
        assert forall j' :: col <= j' < j ==> Close(actual[j'], expected[j'], delta);
      }
    }
  }

  /** Rows from `row` on pass exactly when all their entries are close. */
  lemma {:induction false} RowsCheckPassIff(expected: Matrix, actual: Matrix, delta: real, row: nat)
    requires SameShape(expected, actual) && row <= |expected|
    ensures RowsCheck(expected, actual, delta, row).Pass? <==>
      forall i, j :: row <= i < |expected| && 0 <= j < |expected[i]| ==> Close(actual[i][j], expected[i][j], delta)
    decreases |expected| - row
  {
    if row < |expected| {
      RowCheckLaw(expected[row], actual[row], delta, 0);
      RowsCheckPassIff(expected, actual, delta, row + 1);
    }
  }

  /** A failure of the rows from `row` on is the first entry, in row-major order, that is not close. */
  lemma {:induction false} RowsCheckFailure(expected: Matrix, actual: Matrix, delta: real, row: nat)
    requires SameShape(expected, actual) && row <= |expected|
    ensures RowsCheck(expected, actual, delta, row).Fail? ==>
      exists i, j :: row <= i < |expected| && 0 <= j < |expected[i]| && !Close(actual[i][j], expected[i][j], delta)
        && (forall i', j' :: row <= i' < i && 0 <= j' < |expected[i']| ==> Close(actual[i'][j'], expected[i'][j'], delta))
        && (forall j' :: 0 <= j' < j ==> Close(actual[i][j'], expected[i][j'], delta))
        && RowsCheck(expected, actual, delta, row).error == GradientCheckFailed(expected[i][j], actual[i][j])
    decreases |expected| - row
  {
    if row < |expected| {
      RowCheckLaw(expected[row], actual[row], delta, 0);
      if RowCheck(expected[row], actual[row], delta, 0).Fail? {
        var j :| 0 <= j < |expected[row]| && !Close(actual[row][j], expected[row][j], delta)
          && (forall j' :: 0 <= j' < j ==> Close(actual[row][j'], expected[row][j'], delta))
          && RowCheck(expected[row], actual[row], delta, 0).error == GradientCheckFailed(expected[row][j], actual[row][j]);
        assert RowsCheck(expected, actual, delta, row).error == GradientCheckFailed(expected[row][j], actual[row][j]);
      } else if RowsCheck(expected, actual, delta, row).Fail? {
        RowsCheckFailure(expected, actual, delta, row + 1);
        var i, j :| row + 1 <= i < |expected| && 0 <= j < |expected[i]| && !Close(actual[i][j], expected[i][j], delta)
          && (forall i', j' :: row + 1 <= i' < i && 0 <= j' < |expected[i']| ==> Close(actual[i'][j'], expected[i'][j'], delta))
          && (forall j' :: 0 <= j' < j ==> Close(actual[i][j'], expected[i][j'], delta))
          && RowsCheck(expected, actual, delta, row + 1).error == GradientCheckFailed(expected[i][j], actual[i][j]);
        assert forall i', j' :: row <= i' < i && 0 <= j' < |expected[i']| ==> Close(actual[i'][j'], expected[i'][j'], delta);
      }
    }
  }

  /** `checkCloseEnough` passes exactly when the shapes agree and every entry is close. */
  lemma CloseEnoughPassIff(expected: Matrix, actual: Matrix, delta: real)
    requires Rectangular(expected) && Rectangular(actual)
    ensures CloseEnough(expected, actual, delta).Pass? <==>
      && |expected| == |actual| && Cols(expected) == Cols(actual)
      && forall i, j :: 0 <= i < |expected| && 0 <= j < Cols(expected) ==> Close(actual[i][j], expected[i][j], delta)
  {
    if |expected| == |actual| && Cols(expected) == Cols(actual) {
      RowsCheckPassIff(expected, actual, delta, 0);
    }
  }

  /**
   * A failing `checkCloseEnough` reports a row-count mismatch before a
   * column-count one, and otherwise the first entry (row-major) that is not close.
   */
  lemma CloseEnoughFailure(expected: Matrix, actual: Matrix, delta: real)
    requires Rectangular(expected) && Rectangular(actual)
    ensures |expected| != |actual| ==> CloseEnough(expected, actual, delta) == Fail(RowDimensionDiff(|expected|, |actual|))
    ensures |expected| == |actual| && Cols(expected) != Cols(actual) ==>
      CloseEnough(expected, actual, delta) == Fail(ColumnDimensionDiff(Cols(expected), Cols(actual)))
    ensures CloseEnough(expected, actual, delta).Fail? && |expected| == |actual| && Cols(expected) == Cols(actual) ==>
      exists i, j :: 0 <= i < |expected| && 0 <= j < Cols(expected) && !Close(actual[i][j], expected[i][j], delta)
        && (forall i', j' :: 0 <= i' < i && 0 <= j' < Cols(expected) ==> Close(actual[i'][j'], expected[i'][j'], delta))
        && (forall j' :: 0 <= j' < j ==> Close(actual[i][j'], expected[i][j'], delta))
        && CloseEnough(expected, actual, delta).error == GradientCheckFailed(expected[i][j], actual[i][j])
  {
    if |expected| == |actual| && Cols(expected) == Cols(actual) {
      RowsCheckFailure(expected, actual, delta, 0);
    }
  }

  /** The parameters the network keeps and the sizes an example must have. */
  predicate Fits(p: Parameters, input: Vector, actual: Vector) {
    Layered(p) && |input| == InputSize(p) && |actual| == OutputSize(p)
  }

  /** The cost of the prediction of the network with parameters `q`. */
  function CostAt(q: Parameters, sigma: real -> real, input: Vector, actual: Vector): (r: real)
    requires Fits(q, input, actual)
  {
    Cost(Predict(q, sigma, input).value, actual)
  }

  /** (c - c2) / (2 epsilon): the central-difference estimate of a partial derivative. */
  function CentralDifference(c: real, c2: real): real {
    (c - c2) / (2.0 * GradientEpsilon)
  }

  /** The estimated partial derivative of the cost by one weight of layer `layer` (counted from 1). */
  function WeightPartial(p: Parameters, sigma: real -> real, input: Vector, actual: Vector,
                         layer: nat, neuron: nat, previousLayerNeuron: nat): real
    requires Fits(p, input, actual) && 1 <= layer <= |p.weights|
    requires neuron < |p.weights[layer - 1].matrix| && previousLayerNeuron < Cols(p.weights[layer - 1].matrix)
  {
    var nn := WeightPerturbed(p, GradientEpsilon, layer, neuron, previousLayerNeuron).value;
    var nn2 := WeightPerturbed(p, -GradientEpsilon, layer, neuron, previousLayerNeuron).value;
    CentralDifference(CostAt(nn, sigma, input, actual), CostAt(nn2, sigma, input, actual))
  }

  /** The estimated partial derivative of the cost by one bias of layer `layer` (counted from 1). */
  function BiasPartial(p: Parameters, sigma: real -> real, input: Vector, actual: Vector, layer: nat, neuron: nat): (r: real)
    requires Fits(p, input, actual) && 1 <= layer <= |p.weights| && neuron < |p.biases[layer - 1].matrix|
  {
    var nn := BiasPerturbed(p, GradientEpsilon, layer, neuron).value;
    var nn2 := BiasPerturbed(p, -GradientEpsilon, layer, neuron).value;
    CentralDifference(CostAt(nn, sigma, input, actual), CostAt(nn2, sigma, input, actual))
  }

  /** The matrix of estimated weight partials that `checkLayer` fills. */
  function ExpectedWeightPartials(p: Parameters, sigma: real -> real, input: Vector, actual: Vector, layer: nat)
    : (m: Matrix)
    requires Fits(p, input, actual) && 1 <= layer <= |p.weights|
    ensures HasShape(m, |p.weights[layer - 1].matrix|, Cols(p.weights[layer - 1].matrix))
    ensures forall i, j :: 0 <= i < |m| && 0 <= j < |m[i]| ==> m[i][j] == WeightPartial(p, sigma, input, actual, layer, i, j)
  {
    var w := p.weights[layer - 1].matrix;
    seq(|w|, i requires 0 <= i < |w| =>
      seq(Cols(w), j requires 0 <= j < Cols(w) => WeightPartial(p, sigma, input, actual, layer, i, j)))
  }

  /** The column of estimated bias partials that `checkLayer` fills. */
  function ExpectedBiasPartials(p: Parameters, sigma: real -> real, input: Vector, actual: Vector, layer: nat)
    : (m: Matrix)
    requires Fits(p, input, actual) && 1 <= layer <= |p.weights|
    ensures HasShape(m, |p.biases[layer - 1].matrix|, 1)
    ensures forall i :: 0 <= i < |m| ==> m[i][0] == BiasPartial(p, sigma, input, actual, layer, i)
  {
    var b := p.biases[layer - 1].matrix;
    seq(|b|, i requires 0 <= i < |b| => [BiasPartial(p, sigma, input, actual, layer, i)])
  }

  /**
   * `checkLayer`: with checking on, the weight gradient of `layer` is compared
   * with the estimates, then the bias gradient.
   */
  function CheckLayer(p: Parameters, sigma: real -> real, gradientChecking: bool, input: Vector, actual: Vector,
                      layer: nat, weightGradient: WeightMatrix, biasGradient: BiasVector): Outcome<NetworkError>
    requires Fits(p, input, actual) && 1 <= layer <= |p.weights|
    requires Rectangular(weightGradient.matrix) && Rectangular(biasGradient.matrix)
  {
    if !gradientChecking then Pass
    else
      var o := CloseEnough(ExpectedWeightPartials(p, sigma, input, actual, layer), weightGradient.matrix, GradientDelta);
      if o.Fail? then o
      else CloseEnough(ExpectedBiasPartials(p, sigma, input, actual, layer), biasGradient.matrix, GradientDelta)
  }

  /**
   * Comparing two matrices of the same shape and then two columns of the
   * same length, as `checkLayer` does, passes exactly when every entry of
   * both is within the tolerance of its expected value.
   */
  lemma ChainedCloseEnough(e: Matrix, m: Matrix, f: Matrix, v: Matrix, rows: nat, cols: nat, column: nat, delta: real)
    requires HasShape(e, rows, cols) && HasShape(m, rows, cols)
    requires HasShape(f, column, 1) && HasShape(v, column, 1)
    ensures Rectangular(e) && Rectangular(m) && Rectangular(f) && Rectangular(v)
    ensures var o := CloseEnough(e, m, delta);
      (if o.Fail? then o else CloseEnough(f, v, delta)).Pass? <==> EntriesClose(m, e, delta) && EntriesClose(v, f, delta)
  {
    assert rows > 0 ==> Cols(e) == cols == Cols(m);
    assert column > 0 ==> Cols(f) == 1 == Cols(v);
    CloseEnoughPassIff(e, m, delta);
    CloseEnoughPassIff(f, v, delta);
  }

  /**
   * A layer passes the check exactly when checking is off, or every entry of
   * both gradients is within the tolerance of its central-difference
   * estimate (the entries of `ExpectedWeightPartials` and `ExpectedBiasPartials`).
   */
  lemma CheckLayerLaw(p: Parameters, sigma: real -> real, gradientChecking: bool, input: Vector, actual: Vector,
                      layer: nat, weightGradient: WeightMatrix, biasGradient: BiasVector)
    requires Fits(p, input, actual) && 1 <= layer <= |p.weights|
    requires HasShape(weightGradient.matrix, |p.weights[layer - 1].matrix|, Cols(p.weights[layer - 1].matrix))
    requires HasShape(biasGradient.matrix, |p.biases[layer - 1].matrix|, 1)
    ensures CheckLayer(p, sigma, gradientChecking, input, actual, layer, weightGradient, biasGradient).Pass? <==>
      (gradientChecking ==>
        && EntriesClose(weightGradient.matrix, ExpectedWeightPartials(p, sigma, input, actual, layer), GradientDelta)
        && EntriesClose(biasGradient.matrix, ExpectedBiasPartials(p, sigma, input, actual, layer), GradientDelta))
  {
    var w, b := p.weights[layer - 1].matrix, p.biases[layer - 1].matrix;
    ChainedCloseEnough(ExpectedWeightPartials(p, sigma, input, actual, layer), weightGradient.matrix,
                       ExpectedBiasPartials(p, sigma, input, actual, layer), biasGradient.matrix,
                       |w|, Cols(w), |b|, GradientDelta);
  }

  // ---------------------------------------------------------------------------
  // Back-propagation.

  /**
   * The error vector of layer `l` (counted from 0): at the output layer the
   * cost derivative times the activation derivative, below it the next
   * layer's error carried back through the transposed weights, times the
   * activation derivative.
   */
  function Delta(p: Parameters, sigma: real -> real, input: Vector, actual: Vector, l: nat): (d: Vector)
    requires Fits(p, input, actual) && l < |p.weights|
    ensures |d| == |p.weights[l].matrix|
    decreases |p.weights| - l
  {
    var ad := ActivateDerivative(sigma, WeightedInput(p, sigma, input, l));
    if l == |p.weights| - 1 then EbeMultiply(CostDerivative(Activation(p, sigma, input, l + 1), actual), ad)
    else EbeMultiply(TransposeOperate(p.weights[l + 1].matrix, Delta(p, sigma, input, actual, l + 1)), ad)
  }

  /** The activation of layer l has the column count of the weights of layer l. */
  lemma ActivationFeedsLayer(p: Parameters, sigma: real -> real, input: Vector, l: nat)
    requires Layered(p) && |input| == InputSize(p) && l < |p.weights|
    ensures |Activation(p, sigma, input, l)| == Cols(p.weights[l].matrix)
  {
  }

  /** The weight gradient of layer l for one example: error_l ⊗ a_l, whose entry (i, j) is error_l[i] * a_l[j]. */
  function WeightGradient(p: Parameters, sigma: real -> real, input: Vector, actual: Vector, l: nat): (w: WeightMatrix)
    requires Fits(p, input, actual) && l < |p.weights|
    ensures HasShape(w.matrix, |p.weights[l].matrix|, Cols(p.weights[l].matrix))
    ensures w.matrix == OuterProduct(Delta(p, sigma, input, actual, l), Activation(p, sigma, input, l))
  {
    ActivationFeedsLayer(p, sigma, input, l);
    WeightMatrix(OuterProduct(Delta(p, sigma, input, actual, l), Activation(p, sigma, input, l)))
  }

  /** The bias gradient of layer l for one example: the column error_l. */
  function BiasGradient(p: Parameters, sigma: real -> real, input: Vector, actual: Vector, l: nat): (b: BiasVector)
    requires Fits(p, input, actual) && l < |p.weights|
    ensures b.IsColumn() && |b.matrix| == |p.biases[l].matrix|
    ensures b.Vector() == Delta(p, sigma, input, actual, l)
  {
    BiasOfVector(Delta(p, sigma, input, actual, l));
    BiasVector(ToRealMatrix(Delta(p, sigma, input, actual, l)))
  }

  /** The gradient `backPropagate` returns for one example, layer by layer. */
  function ExampleGradient(p: Parameters, sigma: real -> real, input: Vector, actual: Vector): (g: Gradient)
    requires Fits(p, input, actual)
    ensures ShapedLike(g, p.weights, p.biases)
    ensures |g.weightDecs| == |g.biasDecs| == |p.weights|
    ensures forall l :: 0 <= l < |p.weights| ==> Rectangular(g.weightDecs[l].matrix) && Rectangular(g.biasDecs[l].matrix)
    ensures forall l :: 0 <= l < |p.weights| ==>
      g.weightDecs[l] == WeightGradient(p, sigma, input, actual, l) && g.biasDecs[l] == BiasGradient(p, sigma, input, actual, l)
  {
    var n := |p.weights|;
    var g := Gradient(seq(n, l requires 0 <= l < n => WeightGradient(p, sigma, input, actual, l)),
                      seq(n, l requires 0 <= l < n => BiasGradient(p, sigma, input, actual, l)));
    ExampleGradientShape(p, sigma, input, actual, g);
    g
  }

  lemma ExampleGradientShape(p: Parameters, sigma: real -> real, input: Vector, actual: Vector, g: Gradient)
    requires Fits(p, input, actual)
    requires |g.weightDecs| == |g.biasDecs| == |p.weights|
    requires forall l :: 0 <= l < |p.weights| ==>
      g.weightDecs[l] == WeightGradient(p, sigma, input, actual, l) && g.biasDecs[l] == BiasGradient(p, sigma, input, actual, l)
    ensures ShapedLike(g, p.weights, p.biases)
    ensures forall l :: 0 <= l < |p.weights| ==> Rectangular(g.weightDecs[l].matrix) && Rectangular(g.biasDecs[l].matrix)
  {
    forall l | 0 <= l < |p.weights|
      ensures SameShape(g.weightDecs[l].matrix, p.weights[l].matrix)
      ensures SameShape(g.biasDecs[l].matrix, p.biases[l].matrix)
      ensures Rectangular(g.weightDecs[l].matrix) && Rectangular(g.biasDecs[l].matrix)
    {
      var w := WeightGradient(p, sigma, input, actual, l);
      var b := BiasGradient(p, sigma, input, actual, l);
    }
  }

  /** The gradient check of each layer (counted from 1) against the gradient `g`. */
  function LayerChecks(p: Parameters, sigma: real -> real, gradientChecking: bool, input: Vector, actual: Vector, g: Gradient)
    : nat -> Outcome<NetworkError>
    requires Fits(p, input, actual) && |g.weightDecs| == |g.biasDecs| == |p.weights|
    requires forall l :: 0 <= l < |p.weights| ==> Rectangular(g.weightDecs[l].matrix) && Rectangular(g.biasDecs[l].matrix)
  {
    layer =>
      if 1 <= layer <= |p.weights| then
        CheckLayer(p, sigma, gradientChecking, input, actual, layer, g.weightDecs[layer - 1], g.biasDecs[layer - 1])
      else Pass
  }

  /** The checks of layers `layer`, `layer` - 1, ..., 1, in that order, up to the first failure. */
  function CheckDown(check: nat -> Outcome<NetworkError>, layer: nat): (r: Outcome<NetworkError>) {
    if layer == 0 then Pass
    else
      var o := check(layer);
      if o.Fail? then o else CheckDown(check, layer - 1)
  }

  /** Layers above `k` that all pass are skipped: the outcome is that of the checks from `k` down. */
  lemma {:induction false} CheckDownSkip(check: nat -> Outcome<NetworkError>, layer: nat, k: nat)
    requires k <= layer && forall j :: k < j <= layer ==> check(j).Pass?
    ensures CheckDown(check, layer) == CheckDown(check, k)
    decreases layer
  {
    if k < layer {
      CheckDownSkip(check, layer - 1, k);
    }
  }

  /** The checks pass exactly when every layer passes; a failure is that of the highest failing layer. */
  lemma {:induction false} CheckDownLaw(check: nat -> Outcome<NetworkError>, layer: nat)
    ensures CheckDown(check, layer).Pass? <==> forall k :: 1 <= k <= layer ==> check(k).Pass?
    ensures CheckDown(check, layer).Fail? ==>
      exists k :: 1 <= k <= layer && CheckDown(check, layer) == check(k) && forall k' :: k < k' <= layer ==> check(k').Pass?
  {
    if layer > 0 {
      CheckDownLaw(check, layer - 1);
    }
  }

  /**
   * `backPropagate`: the input must fit the first layer and the expected
   * output the last one; with checking on, every layer from the last down
   * to the first is checked.
   */
  function BackPropagate(p: Parameters, sigma: real -> real, gradientChecking: bool, input: Vector, actual: Vector)
    : (r: Result<Gradient, NetworkError>)
    requires Layered(p)
    ensures r.Ok? ==> ShapedLike(r.value, p.weights, p.biases)
  {
    if |input| != InputSize(p) then Err(DimensionMismatch(|input|, InputSize(p)))
    else if |actual| != OutputSize(p) then Err(DimensionMismatch(|actual|, OutputSize(p)))
    else
      var g := ExampleGradient(p, sigma, input, actual);
      CheckedGradient(g, CheckDown(LayerChecks(p, sigma, gradientChecking, input, actual, g), |p.weights|))
  }

  /** The gradient `g` if the checks passed, otherwise their failure. */
  function CheckedGradient(g: Gradient, o: Outcome<NetworkError>): (r: Result<Gradient, NetworkError>)
    ensures r.Ok? <==> o.Pass?
    ensures r.Ok? ==> r.value == g
    ensures r.Err? ==> o == Fail(r.error)
  {
    if o.Fail? then Err(o.error) else Ok(g)
  }

  /** For a fitting example the result is the example's gradient, passed through the layer checks. */
  lemma BackPropagateFits(p: Parameters, sigma: real -> real, gradientChecking: bool, input: Vector, actual: Vector)
    requires Fits(p, input, actual)
    ensures var g := ExampleGradient(p, sigma, input, actual);
      BackPropagate(p, sigma, gradientChecking, input, actual)
        == CheckedGradient(g, CheckDown(LayerChecks(p, sigma, gradientChecking, input, actual, g), |p.weights|))
  {
  }

  // ---------------------------------------------------------------------------
  // Training.

  /** The gradient of one example (`backPropagate` of the current network). */
  type Step = LabeledData -> Result<Gradient, NetworkError>

  ghost predicate StepConforms(step: Step, weights: seq<WeightMatrix>, biases: seq<BiasVector>) {
    forall d :: step(d).Ok? ==> ShapedLike(step(d).value, weights, biases)
  }

  /**
   * The loop of `trainMiniBatch` continued from the sums `acc`: each example's
   * gradient is added in order, and the first error ends the batch.
   */
  function GradientSumFrom(weights: seq<WeightMatrix>, biases: seq<BiasVector>, step: Step, acc: Gradient, batch: seq<LabeledData>)
    : (r: Result<Gradient, NetworkError>)
    requires StepConforms(step, weights, biases) && ShapedLike(acc, weights, biases)
    ensures r.Ok? ==> ShapedLike(r.value, weights, biases)
    decreases |batch|
  {
    if |batch| == 0 then Ok(acc)
    else
      var g :- step(batch[0]);
      ShapedLikeSame(acc, g, weights, biases);
      var next := AddGradients(acc, g);
      ShapedLikeTransfer(next, acc, weights, biases);
      GradientSumFrom(weights, biases, step, next, batch[1..])
  }

  /** The loop of `trainMiniBatch` from zero sums. */
  function GradientSum(weights: seq<WeightMatrix>, biases: seq<BiasVector>, step: Step, batch: seq<LabeledData>)
    : (r: Result<Gradient, NetworkError>)
    requires StepConforms(step, weights, biases)
    ensures r.Ok? ==> ShapedLike(r.value, weights, biases)
  {
    GradientSumFrom(weights, biases, step, ZeroGradient(weights, biases), batch)
  }

  /** Starting from `acc` adds `acc` to the sum from zero. */
  lemma {:induction false} GradientSumShift(weights: seq<WeightMatrix>, biases: seq<BiasVector>, step: Step, acc: Gradient, batch: seq<LabeledData>)
    requires StepConforms(step, weights, biases) && ShapedLike(acc, weights, biases)
    ensures GradientSumFrom(weights, biases, step, acc, batch)
         == DataForkJoinTask.Combine(Ok(acc), GradientSum(weights, biases, step, batch))
    decreases |batch|
  {
    var zero := ZeroGradient(weights, biases);
    ShapedLikeSame(acc, zero, weights, biases);
    if |batch| == 0 {
      AddZeroGradientRight(acc, zero);
    } else if step(batch[0]).Ok? {
      var g := step(batch[0]).value;
      ShapedLikeSame(acc, g, weights, biases);
      ShapedLikeSame(zero, g, weights, biases);
      var next, start := AddGradients(acc, g), AddGradients(zero, g);
      ShapedLikeTransfer(next, acc, weights, biases);
      ShapedLikeTransfer(start, zero, weights, biases);
      GradientSumShift(weights, biases, step, next, batch[1..]);
      GradientSumShift(weights, biases, step, start, batch[1..]);
      var rest := GradientSum(weights, biases, step, batch[1..]);
      if rest.Ok? {
        ShapedLikeSame(g, rest.value, weights, biases);
        AddZeroGradientLeft(zero, g);
        AddGradientsAssociative(acc, g, rest.value);
      }
    }
  }

  /** A batch in two parts: the sums of the first part carry over into the second. */
  lemma {:induction false} GradientSumFromAppend(weights: seq<WeightMatrix>, biases: seq<BiasVector>, step: Step, acc: Gradient,
                                                 x: seq<LabeledData>, y: seq<LabeledData>)
    requires StepConforms(step, weights, biases) && ShapedLike(acc, weights, biases)
    ensures var first := GradientSumFrom(weights, biases, step, acc, x);
      GradientSumFrom(weights, biases, step, acc, x + y)
        == if first.Err? then first else GradientSumFrom(weights, biases, step, first.value, y)
    decreases |x|
  {
    if |x| == 0 {
      assert x + y == y;
    } else {
      assert (x + y)[0] == x[0];
      assert (x + y)[1..] == x[1..] + y;
      if step(x[0]).Ok? {
        ShapedLikeSame(acc, step(x[0]).value, weights, biases);
        var next := AddGradients(acc, step(x[0]).value);
        ShapedLikeTransfer(next, acc, weights, biases);
        GradientSumFromAppend(weights, biases, step, next, x[1..], y);
      }
    }
  }

  /** The sum over two consecutive parts is the sum of their sums, or the first error. */
  lemma GradientSumAppend(weights: seq<WeightMatrix>, biases: seq<BiasVector>, step: Step, x: seq<LabeledData>, y: seq<LabeledData>)
    requires StepConforms(step, weights, biases)
    ensures GradientSum(weights, biases, step, x + y)
         == DataForkJoinTask.Combine(GradientSum(weights, biases, step, x), GradientSum(weights, biases, step, y))
  {
    GradientSumFromAppend(weights, biases, step, ZeroGradient(weights, biases), x, y);
    var first := GradientSum(weights, biases, step, x);
    if first.Ok? {
      GradientSumShift(weights, biases, step, first.value, y);
    }
  }

  /** The per-example step of the network with parameters `p`. */
  function ExampleStep(p: Parameters, sigma: real -> real, gradientChecking: bool): (step: Step)
    requires Layered(p)
    ensures StepConforms(step, p.weights, p.biases)
  {
    (d: LabeledData) => BackPropagate(p, sigma, gradientChecking, d.data, d.labelVector)
  }

  /** `trainMiniBatch`: the sum of the example gradients of `batch`, from zero sums; the first error ends it. */
  function BatchGradient(p: Parameters, sigma: real -> real, gradientChecking: bool, batch: seq<LabeledData>)
    : (r: Result<Gradient, NetworkError>)
    requires Layered(p)
    ensures r.Ok? ==> ShapedLike(r.value, p.weights, p.biases)
  {
    GradientSum(p.weights, p.biases, ExampleStep(p, sigma, gradientChecking), batch)
  }

  /** The leaf function each fork-join task runs: `trainMiniBatch` of the current network. */
  function TrainLeaf(p: Parameters, sigma: real -> real, gradientChecking: bool): (leaf: DataForkJoinTask.Leaf)
    requires Layered(p)
    ensures DataForkJoinTask.LeafConforms(leaf, p.weights, p.biases)
  {
    work => BatchGradient(p, sigma, gradientChecking, work)
  }

  /** Summing from zero is additive, so a fork-join split of the work does not change the result. */
  lemma GradientSumAdditive(weights: seq<WeightMatrix>, biases: seq<BiasVector>, step: Step, leaf: DataForkJoinTask.Leaf)
    requires StepConforms(step, weights, biases)
    requires forall work :: leaf(work) == GradientSum(weights, biases, step, work)
    ensures DataForkJoinTask.LeafConforms(leaf, weights, biases)
    ensures DataForkJoinTask.Additive(leaf, weights, biases)
  {
    forall work: seq<LabeledData>, k: int | 0 <= k <= |work|
      ensures leaf(work) == DataForkJoinTask.Combine(leaf(work[..k]), leaf(work[k..]))
    {
      assert work == work[..k] + work[k..];
      GradientSumAppend(weights, biases, step, work[..k], work[k..]);
    }
  }

  /** The fork-join reduction of a batch is its sequential batch gradient. */
  lemma ReduceIsBatchGradient(p: Parameters, sigma: real -> real, gradientChecking: bool, batch: seq<LabeledData>)
    requires Layered(p)
    ensures DataForkJoinTask.Reduce(batch, p.weights, p.biases, TrainLeaf(p, sigma, gradientChecking))
         == BatchGradient(p, sigma, gradientChecking, batch)
  {
    var leaf := TrainLeaf(p, sigma, gradientChecking);
    GradientSumAdditive(p.weights, p.biases, ExampleStep(p, sigma, gradientChecking), leaf);
    DataForkJoinTask.ReduceOfAdditive(batch, p.weights, p.biases, leaf);
  }

  /** An example that does not fit is rejected: the input is checked first, then the expected output. */
  lemma BackPropagateRejects(p: Parameters, sigma: real -> real, gradientChecking: bool, input: Vector, actual: Vector)
    requires Layered(p)
    ensures BackPropagate(p, sigma, gradientChecking, input, actual).Err? || Fits(p, input, actual)
    ensures |input| != InputSize(p) ==> BackPropagate(p, sigma, gradientChecking, input, actual) == Err(DimensionMismatch(|input|, InputSize(p)))
    ensures |input| == InputSize(p) && |actual| != OutputSize(p) ==>
      BackPropagate(p, sigma, gradientChecking, input, actual) == Err(DimensionMismatch(|actual|, OutputSize(p)))
  {
  }

  /** Without gradient checking a fitting example always yields its gradient. */
  lemma BackPropagateUnchecked(p: Parameters, sigma: real -> real, input: Vector, actual: Vector)
    requires Fits(p, input, actual)
    ensures BackPropagate(p, sigma, false, input, actual) == Ok(ExampleGradient(p, sigma, input, actual))
  {
    var g := ExampleGradient(p, sigma, input, actual);
    var checks := LayerChecks(p, sigma, false, input, actual, g);
    BackPropagateFits(p, sigma, false, input, actual);
    UncheckedLayersPass(p, sigma, input, actual, g);
    CheckDownLaw(checks, |p.weights|);
  }

  /** With checking off every layer check passes, whatever the gradient. */
  lemma UncheckedLayersPass(p: Parameters, sigma: real -> real, input: Vector, actual: Vector, g: Gradient)
    requires Fits(p, input, actual) && |g.weightDecs| == |g.biasDecs| == |p.weights|
    requires forall l :: 0 <= l < |p.weights| ==> Rectangular(g.weightDecs[l].matrix) && Rectangular(g.biasDecs[l].matrix)
    ensures forall k :: 1 <= k <= |p.weights| ==> LayerChecks(p, sigma, false, input, actual, g)(k).Pass?
  {
    var checks := LayerChecks(p, sigma, false, input, actual, g);
    forall k | 1 <= k <= |p.weights| ensures checks(k).Pass? {
      assert checks(k) == CheckLayer(p, sigma, false, input, actual, k, g.weightDecs[k - 1], g.biasDecs[k - 1]);
    }
  }

  /**
   * With gradient checking a fitting example yields its gradient exactly when
   * every layer passes its check.
   */
  lemma BackPropagateChecked(p: Parameters, sigma: real -> real, input: Vector, actual: Vector)
    requires Fits(p, input, actual)
    ensures var checks := LayerChecks(p, sigma, true, input, actual, ExampleGradient(p, sigma, input, actual));
      BackPropagate(p, sigma, true, input, actual).Ok? <==> forall k :: 1 <= k <= |p.weights| ==> checks(k).Pass?
    ensures BackPropagate(p, sigma, true, input, actual).Ok? ==>
      BackPropagate(p, sigma, true, input, actual).value == ExampleGradient(p, sigma, input, actual)
  {
    var g := ExampleGradient(p, sigma, input, actual);
    BackPropagateFits(p, sigma, true, input, actual);
    CheckedDownLaw(g, LayerChecks(p, sigma, true, input, actual, g), |p.weights|);
  }

  /** Otherwise it fails as the highest failing layer does, every layer above it having passed. */
  lemma BackPropagateCheckFails(p: Parameters, sigma: real -> real, input: Vector, actual: Vector)
    requires Fits(p, input, actual)
    ensures var checks := LayerChecks(p, sigma, true, input, actual, ExampleGradient(p, sigma, input, actual));
      BackPropagate(p, sigma, true, input, actual).Err? ==>
        exists k :: 1 <= k <= |p.weights| && checks(k) == Fail(BackPropagate(p, sigma, true, input, actual).error)
          && forall k' :: k < k' <= |p.weights| ==> checks(k').Pass?
  {
    var g := ExampleGradient(p, sigma, input, actual);
    BackPropagateFits(p, sigma, true, input, actual);
    CheckedDownLaw(g, LayerChecks(p, sigma, true, input, actual, g), |p.weights|);
  }

  /** The checked gradient is `g` exactly when all checks pass; otherwise it is the failure of the highest failing check. */
  lemma CheckedDownLaw(g: Gradient, check: nat -> Outcome<NetworkError>, layer: nat)
    ensures CheckedGradient(g, CheckDown(check, layer)).Ok? <==> forall k :: 1 <= k <= layer ==> check(k).Pass?
    ensures CheckedGradient(g, CheckDown(check, layer)).Ok? ==> CheckedGradient(g, CheckDown(check, layer)).value == g
    ensures CheckedGradient(g, CheckDown(check, layer)).Err? ==>
      exists k :: 1 <= k <= layer && check(k) == Fail(CheckedGradient(g, CheckDown(check, layer)).error)
        && forall k' :: k < k' <= layer ==> check(k').Pass?
  {
    CheckDownLaw(check, layer);
  }
}
