/**
 * The `NeuralNetwork` class of NeuralNetwork.kt: its weights and biases are
 * updated in place by training, and every operation is proved to compute the
 * function of NetworkMath or Training that specifies it.
 */
module Network {
  import opened Results
  import opened LinearAlgebra
  import opened MathUtils
  import opened NetworkTypes
  import opened NetworkMath
  import Training
  import LangUtils
  import DataForkJoinTask

  /** What `feedForward` returns: the activations (input first) and the weighted inputs, layer by layer. */
  datatype ForwardPass = ForwardPass(activations: seq<Vector>, weightedInputs: seq<Vector>)

  class NeuralNetwork {
    var weights: seq<WeightMatrix>
    var biases: seq<BiasVector>
    const learningRate: real
    const gradientChecking: bool
    /** `sigmoidFunction.value`. */
    const sigmoid: real -> real

    function Params(): Parameters
      reads this
    {
      Parameters(weights, biases)
    }

    /** The `init` check (at least two weight matrices) and the shapes the source relies on. */
    ghost predicate Valid()
      reads this
    {
      Layered(Params()) && |weights| >= 2
    }

    /** The private constructor; the `init` block's check is its precondition (see `Create`). */
    constructor (p: Parameters, learningRate: real, gradientChecking: bool, sigmoid: real -> real)
      requires Layered(p) && |p.weights| >= 2
      ensures Valid() && Params() == p
      ensures this.learningRate == learningRate && this.gradientChecking == gradientChecking && this.sigmoid == sigmoid
    {
      weights := p.weights;
      biases := p.biases;
      this.learningRate := learningRate;
      this.gradientChecking := gradientChecking;
      this.sigmoid := sigmoid;
    }

    /**
     * The public constructor: `createWeights`, `createBiases`, then the `init`
     * check; gradient checking is off.
     */
    static method Create(layerSizes: seq<int>, learningRate: real, sigmoid: real -> real, weightSample: Sampler, biasSample: Sampler)
      returns (r: Result<NeuralNetwork, NetworkError>)
      ensures r.Err? <==> NewParameters(layerSizes, weightSample, biasSample).Err?
      ensures r.Err? ==> r.error == NewParameters(layerSizes, weightSample, biasSample).error
      ensures r.Ok? ==> fresh(r.value) && r.value.Valid() && r.value.Params() == NewParameters(layerSizes, weightSample, biasSample).value
      ensures r.Ok? ==> r.value.learningRate == learningRate && !r.value.gradientChecking && r.value.sigmoid == sigmoid
    {
      var p := NewParameters(layerSizes, weightSample, biasSample);
      if p.Err? {
        return Err(p.error);
      }
      NewParametersLaw(layerSizes, weightSample, biasSample);
      var nn := new NeuralNetwork(p.value, learningRate, false, sigmoid);
      return Ok(nn);
    }

    /** `layerSize`: the number of layers, input layer included. */
    function LayerSize(): (n: int)
      reads this
      requires Valid()
      ensures n == |LayerSizes(Params())| && n >= 3
    {
      |weights| + 1
    }

    /** `copyWithWeightOfNeuronPerturbed`: a new network, with checking off, whose one weight is moved by `epsilon`. */
    method CopyWithWeightOfNeuronPerturbed(epsilon: real, layer: int, neuron: int, previousLayerNeuron: int)
      returns (r: Result<NeuralNetwork, NetworkError>)
      requires Valid()
      ensures r.Err? <==> WeightPerturbed(Params(), epsilon, layer, neuron, previousLayerNeuron).Err?
      ensures r.Err? ==> r.error == WeightPerturbed(Params(), epsilon, layer, neuron, previousLayerNeuron).error
      ensures r.Ok? ==> fresh(r.value) && r.value.Valid()
      ensures r.Ok? ==> r.value.Params() == WeightPerturbed(Params(), epsilon, layer, neuron, previousLayerNeuron).value
      ensures r.Ok? ==> r.value.learningRate == learningRate && !r.value.gradientChecking && r.value.sigmoid == sigmoid
    {
      var q := WeightPerturbed(Params(), epsilon, layer, neuron, previousLayerNeuron);
      if q.Err? {
        return Err(q.error);
      }
      var nn := new NeuralNetwork(q.value, learningRate, false, sigmoid);
      return Ok(nn);
    }

    /** `copyWithBiasOfNeuronPerturbed`: a new network, with checking off, whose one bias is moved by `delta`. */
    method CopyWithBiasOfNeuronPerturbed(delta: real, layer: int, neuron: int) returns (r: Result<NeuralNetwork, NetworkError>)
      requires Valid()
      ensures r.Err? <==> BiasPerturbed(Params(), delta, layer, neuron).Err?
      ensures r.Err? ==> r.error == BiasPerturbed(Params(), delta, layer, neuron).error
      ensures r.Ok? ==> fresh(r.value) && r.value.Valid()
      ensures r.Ok? ==> r.value.Params() == BiasPerturbed(Params(), delta, layer, neuron).value
      ensures r.Ok? ==> r.value.learningRate == learningRate && !r.value.gradientChecking && r.value.sigmoid == sigmoid
    {
      var q := BiasPerturbed(Params(), delta, layer, neuron);
      if q.Err? {
        return Err(q.error);
      }
      var nn := new NeuralNetwork(q.value, learningRate, false, sigmoid);
      return Ok(nn);
    }

    /**
     * `feedForward`: starting from the input, each layer's weighted input
     * W a + b and its activation are appended; the first product raises the
     * dimension mismatch of a wrongly sized input.
     */
    method FeedForward(input: Vector) returns (r: Result<ForwardPass, NetworkError>)
      requires Valid()
      ensures r.Err? <==> |input| != InputSize(Params())
      ensures r.Err? ==> r.error == DimensionMismatch(|input|, InputSize(Params()))
      ensures r.Ok? ==> |r.value.activations| == |weights| + 1 && |r.value.weightedInputs| == |weights|
      ensures r.Ok? ==> forall l :: 0 <= l <= |weights| ==> r.value.activations[l] == Activation(Params(), sigmoid, input, l)
      ensures r.Ok? ==> forall l :: 0 <= l < |weights| ==> r.value.weightedInputs[l] == WeightedInput(Params(), sigmoid, input, l)
    {
      ghost var p := Params();
      var activations := [input];
      var weightedInputs := [];
      var activation := input;
      for l := 0 to |weights|
        invariant |activations| == l + 1 && |weightedInputs| == l
        invariant activation == activations[l]
        invariant l == 0 ==> activation == input
        invariant l > 0 ==> |input| == InputSize(p)
        invariant l > 0 ==> forall k :: 0 <= k <= l ==> activations[k] == Activation(p, sigmoid, input, k)
        invariant l > 0 ==> forall k :: 0 <= k < l ==> weightedInputs[k] == WeightedInput(p, sigmoid, input, k)
      {
        if |activation| != Cols(weights[l].matrix) {
          return Err(DimensionMismatch(|activation|, Cols(weights[l].matrix)));
        }
        ForwardExtend(p, sigmoid, input, activations, weightedInputs, l);
        var weightedInput := VectorAdd(Operate(weights[l].matrix, activation), biases[l].Vector());
        weightedInputs := weightedInputs + [weightedInput];
        activation := Map(sigmoid, weightedInput);
        activations := activations + [activation];
      }
      return Ok(ForwardPass(activations, weightedInputs));
    }

    /** `predict`: the last activation of the forward pass (`getx(-1)`). */
    method Predict(input: Vector) returns (r: Result<Vector, NetworkError>)
      requires Valid()
      ensures r == NetworkMath.Predict(Params(), sigmoid, input)
    {
      var pass := FeedForward(input);
      if pass.Err? {
        return Err(pass.error);
      }
      return Ok(LangUtils.Getx(pass.value.activations, -1));
    }

    /**
     * One entry of `checkLayer`'s estimate: the costs of the predictions of the
     * copies with the weight moved up and down by epsilon, as a central difference.
     */
    method WeightPartialOf(layer: nat, neuron: nat, previousLayerNeuron: nat, input: Vector, actual: Vector) returns (partial: real)
      requires Valid() && Fits(Params(), input, actual) && 1 <= layer <= |weights|
      requires neuron < |weights[layer - 1].matrix| && previousLayerNeuron < Cols(weights[layer - 1].matrix)
      ensures partial == WeightPartial(Params(), sigmoid, input, actual, layer, neuron, previousLayerNeuron)
    {
      var nn := CopyWithWeightOfNeuronPerturbed(GradientEpsilon, layer, neuron, previousLayerNeuron);
      var p := nn.value.Predict(input);
      var c := Cost(p.value, actual);
      var nn2 := CopyWithWeightOfNeuronPerturbed(-GradientEpsilon, layer, neuron, previousLayerNeuron);
      var p2 := nn2.value.Predict(input);
      var c2 := Cost(p2.value, actual);
      partial := (c - c2) / (2.0 * GradientEpsilon);
    }

    /** One entry of the bias estimate, from the copies with the bias moved up and down by epsilon. */
    method BiasPartialOf(layer: nat, neuron: nat, input: Vector, actual: Vector) returns (partial: real)
      requires Valid() && Fits(Params(), input, actual) && 1 <= layer <= |weights| && neuron < |biases[layer - 1].matrix|
      ensures partial == BiasPartial(Params(), sigmoid, input, actual, layer, neuron)
    {
      var nn := CopyWithBiasOfNeuronPerturbed(GradientEpsilon, layer, neuron);
      var p := nn.value.Predict(input);
      var c := Cost(p.value, actual);
      var nn2 := CopyWithBiasOfNeuronPerturbed(-GradientEpsilon, layer, neuron);
      var p2 := nn2.value.Predict(input);
      var c2 := Cost(p2.value, actual);
      partial := (c - c2) / (2.0 * GradientEpsilon);
    }

    /** The inner loop of `checkLayer`: the estimated weight partials of one neuron, entered into its zero row. */
    method ExpectedWeightRowOf(layer: nat, neuron: nat, input: Vector, actual: Vector, zeroRow: Vector) returns (row: Vector)
      requires Valid() && Fits(Params(), input, actual) && 1 <= layer <= |weights| && neuron < |weights[layer - 1].matrix|
      requires |zeroRow| == Cols(weights[layer - 1].matrix)
      ensures row == ExpectedWeightPartials(Params(), sigmoid, input, actual, layer)[neuron]
    {
      ghost var expected := ExpectedWeightPartials(Params(), sigmoid, input, actual, layer)[neuron];
      row := zeroRow;
      for previousLayerNeuron := 0 to |zeroRow|
        invariant |row| == |zeroRow|
        invariant forall j :: 0 <= j < previousLayerNeuron ==> row[j] == expected[j]
      {
        var partial := WeightPartialOf(layer, neuron, previousLayerNeuron, input, actual);
        row := row[previousLayerNeuron := partial];
      }
    }

    /** The nested loops of `checkLayer` that fill the estimated weight partials into a zero matrix, row by row. */
    method ExpectedWeightPartialsOf(layer: nat, input: Vector, actual: Vector) returns (m: Matrix)
      requires Valid() && Fits(Params(), input, actual) && 1 <= layer <= |weights|
      ensures m == ExpectedWeightPartials(Params(), sigmoid, input, actual, layer)
    {
      ghost var expected := ExpectedWeightPartials(Params(), sigmoid, input, actual, layer);
      var weightMatrix := weights[layer - 1];
      var rows, cols := |weightMatrix.matrix|, Cols(weightMatrix.matrix);
      m := weightMatrix.Zero().matrix;
      for neuron := 0 to rows
        invariant HasShape(m, rows, cols)
        invariant forall i :: 0 <= i < neuron ==> m[i] == expected[i]
      {
        var row := ExpectedWeightRowOf(layer, neuron, input, actual, m[neuron]);
        m := m[neuron := row];
      }
      assert |m| == |expected|;
    }

    /** The loop of `checkLayer` that fills the estimated bias partials into a zero column. */
    method ExpectedBiasPartialsOf(layer: nat, input: Vector, actual: Vector) returns (m: Matrix)
      requires Valid() && Fits(Params(), input, actual) && 1 <= layer <= |weights|
      ensures m == ExpectedBiasPartials(Params(), sigmoid, input, actual, layer)
    {
      ghost var expected := ExpectedBiasPartials(Params(), sigmoid, input, actual, layer);
      var biasVector := biases[layer - 1];
      var rows := |biasVector.matrix|;
      m := biasVector.Zero().matrix;
      for neuron := 0 to rows
        invariant HasShape(m, rows, 1)
        invariant forall i :: 0 <= i < neuron ==> m[i] == expected[i]
      {
        var partial := BiasPartialOf(layer, neuron, input, actual);
        m := m[neuron := m[neuron][0 := partial]];
        assert m[neuron] == [partial];
      }
      assert |m| == |expected|;
    }

    /**
     * `checkLayer`: with checking on, the estimated weight partials of `layer`
     * are compared with the weight gradient, then the bias partials with the
     * bias gradient.
     */
    method CheckLayer(layer: nat, input: Vector, actual: Vector, actualPartialWeight: WeightMatrix, actualPartialBias: BiasVector)
      returns (o: Outcome<NetworkError>)
      requires Valid() && Fits(Params(), input, actual) && 1 <= layer <= |weights|
      requires Rectangular(actualPartialWeight.matrix) && Rectangular(actualPartialBias.matrix)
      ensures o == NetworkMath.CheckLayer(Params(), sigmoid, gradientChecking, input, actual, layer, actualPartialWeight, actualPartialBias)
    {
      if !gradientChecking {
        return Pass;
      }
      var expectedPartialWeight := ExpectedWeightPartialsOf(layer, input, actual);
      o := CheckCloseEnough(expectedPartialWeight, actualPartialWeight.matrix, GradientDelta);
      if o.Fail? {
        return o;
      }
      var expectedPartialBias := ExpectedBiasPartialsOf(layer, input, actual);
      o := CheckCloseEnough(expectedPartialBias, actualPartialBias.matrix, GradientDelta);
    }

    /**
     * `backPropagate`: the forward pass, then the error vector of the output
     * layer and its gradient, checked; then layer by layer downwards (negative
     * indices -2 to -|weights|), the error carried back, the layer's gradient
     * stored and checked.
     */
    method BackPropagate(input: Vector, actual: Vector) returns (r: Result<Gradient, NetworkError>)
      requires Valid()
      ensures r == NetworkMath.BackPropagate(Params(), sigmoid, gradientChecking, input, actual)
    {
      ghost var p := Params();
      var pass := FeedForward(input);
      if pass.Err? {
        BackPropagateRejects(p, sigmoid, gradientChecking, input, actual);
        return Err(pass.error);
      }
      var output := LangUtils.Getx(pass.value.activations, -1);
      assert |output| == OutputSize(p) by {
        assert output == pass.value.activations[|weights|];
      }
      if |actual| != |output| {
        BackPropagateRejects(p, sigmoid, gradientChecking, input, actual);
        return Err(DimensionMismatch(|actual|, |output|));
      }
      r := BackPropagateLayers(p, input, actual, pass.value);
    }

    /**
     * The layers of `backPropagate` from the output layer down: each
     * layer's gradient stored in `weightDecs` and `biasDecs` and checked; the
     * first failing check ends the pass.
     */
    method BackPropagateLayers(ghost p: Parameters, input: Vector, actual: Vector, pass: ForwardPass)
      returns (r: Result<Gradient, NetworkError>)
      requires Valid() && p == Params() && Fits(p, input, actual)
      requires Forward(p, sigmoid, input, pass)
      ensures r == NetworkMath.BackPropagate(p, sigmoid, gradientChecking, input, actual)
    {
      ghost var deltas, gw, gb, checks := BackPropagatePlan(p, sigmoid, gradientChecking, input, actual);
      var n := |weights|;
      var ws, bs := weights, biases;
      var weightDecs := seq(n, l requires 0 <= l < n => ws[l].Zero());
      var biasDecs := seq(n, l requires 0 <= l < n => bs[l].Zero());
      // The output layer (-1) first, then the layers below it down to -|weights|.
      var error: Vector := [];
      var layer := -1;
      while layer >= -n
        invariant -n - 1 <= layer <= -1
        invariant Valid() && p == Params()
        invariant |weightDecs| == n && |biasDecs| == n
        invariant layer < -1 ==> error == deltas[n + layer + 1]
        invariant forall k :: n + layer + 1 <= k < n ==> weightDecs[k] == gw[k] && biasDecs[k] == gb[k]
        invariant forall j :: n + layer + 1 < j <= n ==> checks(j).Pass?
        decreases layer + n
      {
        var w, b, o;
        error, w, b, o := BackPropagateLayer(layer, p, input, actual, pass, error, deltas, gw, gb, checks);
        weightDecs := weightDecs[LangUtils.XIndex(layer, n) := w];
        biasDecs := biasDecs[LangUtils.XIndex(layer, n) := b];
        if o.Fail? {
          BackPropagateFailsAt(p, sigmoid, gradientChecking, input, actual, deltas, gw, gb, checks, n + layer + 1, o.error);
          return Err(o.error);
        }
        layer := layer - 1;
      }
      SeqPointwise(weightDecs, gw);
      SeqPointwise(biasDecs, gb);
      BackPropagatePasses(p, sigmoid, gradientChecking, input, actual, deltas, gw, gb, checks);
      return Ok(Gradient(weightDecs, biasDecs));
    }

    /**
     * One layer (a negative index, -1 the output layer) of `backPropagate`:
     * its error vector, the layer's gradient (`updateWeightDecs` and
     * `updateBiasDecs`) and its check.
     */
    method BackPropagateLayer(layer: int, ghost p: Parameters, input: Vector, actual: Vector, pass: ForwardPass, above: Vector,
                              ghost deltas: seq<Vector>, ghost gw: seq<WeightMatrix>, ghost gb: seq<BiasVector>,
                              ghost checks: nat -> Outcome<NetworkError>)
      returns (error: Vector, w: WeightMatrix, b: BiasVector, o: Outcome<NetworkError>)
      requires Valid() && p == Params() && Fits(p, input, actual) && -|p.weights| <= layer <= -1
      requires Forward(p, sigmoid, input, pass)
      requires Plan(p, sigmoid, gradientChecking, input, actual, deltas, gw, gb, checks)
      requires layer < -1 ==> above == deltas[|p.weights| + layer + 1]
      ensures error == deltas[|p.weights| + layer]
      ensures w == gw[|p.weights| + layer] && b == gb[|p.weights| + layer]
      ensures o == checks(|p.weights| + layer + 1)
    {
      var l := |weights| + layer;
      error := BackPropagateError(layer, Params(), sigmoid, gradientChecking, input, actual, pass, above, deltas, gw, gb, checks);
      PlanGradient(p, sigmoid, gradientChecking, input, actual, deltas, gw, gb, checks, l);
      PlanCheck(p, sigmoid, gradientChecking, input, actual, deltas, gw, gb, checks, l);
      w := WeightMatrix(OuterProduct(error, LangUtils.Getx(pass.activations, layer - 1)));
      b := BiasVector(ToRealMatrix(error));
      o := CheckLayer(LangUtils.XIndex(layer, LayerSize()), input, actual, w, b);
    }

    /**
     * The error vector of one layer: at the output the cost derivative times
     * the activation derivative, below it the error `above` carried back
     * through the transposed weights of the layer above, times the activation
     * derivative.
     */
    static method BackPropagateError(layer: int, p: Parameters, sigma: real -> real, gradientChecking: bool,
                                     input: Vector, actual: Vector, pass: ForwardPass, above: Vector,
                                     ghost deltas: seq<Vector>, ghost gw: seq<WeightMatrix>, ghost gb: seq<BiasVector>,
                                     ghost checks: nat -> Outcome<NetworkError>)
      returns (error: Vector)
      requires Fits(p, input, actual) && -|p.weights| <= layer <= -1
      requires Forward(p, sigma, input, pass)
      requires Plan(p, sigma, gradientChecking, input, actual, deltas, gw, gb, checks)
      requires layer < -1 ==> above == deltas[|p.weights| + layer + 1]
      ensures error == deltas[|p.weights| + layer]
    {
      ghost var l := |p.weights| + layer;
      PlanDelta(p, sigma, gradientChecking, input, actual, deltas, gw, gb, checks, l);
      var z := LangUtils.Getx(pass.weightedInputs, layer);
      assert z == WeightedInput(p, sigma, input, l) by {
        assert z == pass.weightedInputs[l];
      }
      var ad := ActivateDerivative(sigma, z);
      if layer == -1 {
        var a := LangUtils.Getx(pass.activations, -1);
        assert a == Activation(p, sigma, input, l + 1) by {
          assert a == pass.activations[l + 1];
        }
        error := EbeMultiply(CostDerivative(a, actual), ad);
      } else {
        var w := LangUtils.Getx(p.weights, layer + 1);
        assert w == p.weights[l + 1];
        error := EbeMultiply(TransposeOperate(w.matrix, above), ad);
      }
    }

    /**
     * `checkCloseEnough`: the row count, then the column count, must agree;
     * then the entries are compared row by row and the first one off by more
     * than `delta` is reported.
     */
    static method CheckCloseEnough(expected: Matrix, actual: Matrix, delta: real) returns (o: Outcome<NetworkError>)
      requires Rectangular(expected) && Rectangular(actual)
      ensures o == CloseEnough(expected, actual, delta)
    {
      var rows := |expected|;
      if rows != |actual| {
        return Fail(RowDimensionDiff(rows, |actual|));
      }
      var cols := Cols(expected);
      if cols != Cols(actual) {
        return Fail(ColumnDimensionDiff(cols, Cols(actual)));
      }
      for row := 0 to rows
        invariant RowsCheck(expected, actual, delta, 0) == RowsCheck(expected, actual, delta, row)
      {
        for col := 0 to cols
          invariant RowCheck(expected[row], actual[row], delta, 0) == RowCheck(expected[row], actual[row], delta, col)
        {
          var exp := expected[row][col];
          var act := actual[row][col];
          if !Close(act, exp, delta) {
            return Fail(GradientCheckFailed(exp, act));
          }
        }
      }
      return Pass;
    }

    /**
     * `trainMiniBatch`: sums shaped like the parameters and zero, then each
     * example's back-propagated gradient added in, in order; an exception
     * from `backPropagate` ends the batch.
     */
    method TrainMiniBatch(batch: seq<LabeledData>) returns (r: Result<Gradient, NetworkError>)
      requires Valid()
      ensures r == BatchGradient(Params(), sigmoid, gradientChecking, batch)
    {
      ghost var p := Params();
      ghost var step := ExampleStep(p, sigmoid, gradientChecking);
      var sums := ZeroGradient(weights, biases);
      for i := 0 to |batch|
        invariant ShapedLike(sums, p.weights, p.biases)
        invariant GradientSumFrom(p.weights, p.biases, step, sums, batch[i..]) == BatchGradient(p, sigmoid, gradientChecking, batch)
      {
        var g := BackPropagate(batch[i].data, batch[i].labelVector);
        assert batch[i..][0] == batch[i] && batch[i..][1..] == batch[i + 1..];
        if g.Err? {
          return Err(g.error);
        }
        ShapedLikeSame(sums, g.value, p.weights, p.biases);
        var next := AccumulateGradient(sums, g.value);
        ShapedLikeTransfer(next, sums, p.weights, p.biases);
        sums := next;
      }
      assert batch[|batch|..] == [];
      return Ok(sums);
    }

    /**
     * The two update loops of `miniBatchGradientDescent`:
     * `w.matrix -= wd.matrix * rate` and `b.matrix -= bd.matrix * rate`, layer by layer.
     */
    method ApplyGradient(g: Gradient, rate: real)
      modifies this
      requires Valid() && ShapedLike(g, weights, biases)
      ensures Valid()
      ensures Params() == Training.ApplyGradient(old(Params()), g, rate)
    {
      ghost var p := Params();
      for l := 0 to |weights|
        invariant |weights| == |p.weights| && biases == p.biases
        invariant forall k :: 0 <= k < l ==>
          weights[k] == WeightMatrix(Subtract(p.weights[k].matrix, ScalarMultiply(g.weightDecs[k].matrix, rate)))
        invariant forall k :: l <= k < |weights| ==> weights[k] == p.weights[k]
      {
        weights := weights[l := WeightMatrix(Subtract(weights[l].matrix, ScalarMultiply(g.weightDecs[l].matrix, rate)))];
      }
      ghost var updated := weights;
      for l := 0 to |biases|
        invariant weights == updated && |biases| == |p.biases|
        invariant forall k :: 0 <= k < l ==>
          biases[k] == BiasVector(Subtract(p.biases[k].matrix, ScalarMultiply(g.biasDecs[k].matrix, rate)))
        invariant forall k :: l <= k < |biases| ==> biases[k] == p.biases[k]
      {
        biases := biases[l := BiasVector(Subtract(biases[l].matrix, ScalarMultiply(g.biasDecs[l].matrix, rate)))];
      }
      Training.ApplyGradientIs(p, g, rate, weights, biases);
    }

    /**
     * One epoch of `miniBatchGradientDescent` on the shuffled list: `split`,
     * then for each batch the fork-join gradient and the update at the
     * learning rate divided by the batch size. An exception ends the epoch.
     */
    method TrainEpoch(trainingData: seq<LabeledData>, miniBatchSize: int) returns (outcome: Outcome<NetworkError>)
      modifies this
      requires Valid()
      ensures Valid()
      ensures Training.Progress(Params(), outcome)
           == Training.RunEpoch(old(Params()), sigmoid, learningRate, gradientChecking, trainingData, miniBatchSize)
    {
      var batches := LangUtils.Split(trainingData, miniBatchSize);
      LangUtils.BatchSizes(trainingData, miniBatchSize);
      ghost var goal := Training.RunEpoch(Params(), sigmoid, learningRate, gradientChecking, trainingData, miniBatchSize);
      for b := 0 to |batches|
        invariant Valid()
        invariant Training.RunBatches(Params(), sigmoid, learningRate, gradientChecking, batches[b..]) == goal
      {
        var batch := batches[b];
        assert batches[b..][0] == batch && batches[b..][1..] == batches[b + 1..];
        var ws, bs := weights, biases;
        var g := DataForkJoinTask.Compute(batch, ws, bs, TrainLeaf(Params(), sigmoid, gradientChecking));
        if g.Err? {
          return Fail(g.error);
        }
        ApplyGradient(g.value, Training.BatchRate(learningRate, batch));
      }
      assert batches[|batches|..] == [];
      return Pass;
    }

    /**
     * `train` (`miniBatchGradientDescent`): for epochs 1 to `epochs` the list
     * is shuffled in place, an epoch is run, and `eachEpoch` is told the epoch
     * (`reported`). An exception ends training; the list as shuffled so far
     * and the updates made so far stay.
     */
    method Train(data: seq<LabeledData>, epochs: int, miniBatchSize: int, shuffle: Training.Shuffle)
      returns (trainingData: seq<LabeledData>, reported: seq<int>, outcome: Outcome<NetworkError>)
      modifies this
      requires Valid()
      ensures Valid()
      ensures Training.TrainingState(Params(), trainingData, reported, outcome)
           == Training.Train(old(Params()), sigmoid, learningRate, gradientChecking, shuffle, data, epochs, miniBatchSize)
    {
      ghost var run := Training.NetworkEpoch(sigmoid, learningRate, gradientChecking, miniBatchSize);
      Training.NetworkEpochLaw(sigmoid, learningRate, gradientChecking, miniBatchSize);
      ghost var goal := Training.Train(Params(), sigmoid, learningRate, gradientChecking, shuffle, data, epochs, miniBatchSize);
      trainingData, reported := data, [];
      var epoch := 1;
      while epoch <= epochs
        invariant Valid()
        invariant Training.EpochsFrom(Training.TrainingState(Params(), trainingData, reported, Pass), run, shuffle, epoch, epochs) == goal
        decreases epochs - epoch
      {
        trainingData := shuffle(epoch, trainingData);
        ghost var before := Params();
        var o := TrainEpoch(trainingData, miniBatchSize);
        assert run(before, trainingData) == Training.Progress(Params(), o);
        if o.Fail? {
          return trainingData, reported, o;
        }
        reported := reported + [epoch];
        epoch := epoch + 1;
      }
      return trainingData, reported, Pass;
    }
  }

  /** One layer of the forward pass, as `feedForward` computes it. */
  lemma ForwardStep(p: Parameters, sigma: real -> real, input: Vector, l: nat)
    requires Layered(p) && |input| == InputSize(p) && l < |p.weights|
    ensures WeightedInput(p, sigma, input, l) == VectorAdd(Operate(p.weights[l].matrix, Activation(p, sigma, input, l)), p.biases[l].Vector())
    ensures Activation(p, sigma, input, l + 1) == Map(sigma, WeightedInput(p, sigma, input, l))
  {
  }

  /** One more layer of the forward pass: its weighted input and activation appended. */
  lemma ForwardExtend(p: Parameters, sigma: real -> real, input: Vector, activations: seq<Vector>, weightedInputs: seq<Vector>, l: nat)
    requires Layered(p) && |input| == InputSize(p) && l < |p.weights|
    requires |activations| == l + 1 && |weightedInputs| == l
    requires forall k :: 0 <= k <= l ==> activations[k] == Activation(p, sigma, input, k)
    requires forall k :: 0 <= k < l ==> weightedInputs[k] == WeightedInput(p, sigma, input, k)
    ensures forall i :: 0 <= i < |p.weights[l].matrix| ==> |p.weights[l].matrix[i]| == |activations[l]|
    ensures var z := VectorAdd(Operate(p.weights[l].matrix, activations[l]), p.biases[l].Vector());
      && (forall k :: 0 <= k <= l + 1 ==> (activations + [Map(sigma, z)])[k] == Activation(p, sigma, input, k))
      && (forall k :: 0 <= k < l + 1 ==> (weightedInputs + [z])[k] == WeightedInput(p, sigma, input, k))
  {
    ForwardStep(p, sigma, input, l);
    ActivationFeedsLayer(p, sigma, input, l);
    var z := VectorAdd(Operate(p.weights[l].matrix, activations[l]), p.biases[l].Vector());
    assert z == WeightedInput(p, sigma, input, l);
    var acts, wis := activations + [Map(sigma, z)], weightedInputs + [z];
    forall k | 0 <= k <= l + 1 ensures acts[k] == Activation(p, sigma, input, k) {
      if k <= l {
        assert acts[k] == activations[k];
      }
    }
    forall k | 0 <= k < l + 1 ensures wis[k] == WeightedInput(p, sigma, input, k) {
      if k < l {
        assert wis[k] == weightedInputs[k];
      }
    }
  }

  /** The gradient of layer `l` from its error vector, as `updateWeightDecs` and `updateBiasDecs` store it. */
  lemma LayerGradients(p: Parameters, sigma: real -> real, input: Vector, actual: Vector, l: nat)
    requires Fits(p, input, actual) && l < |p.weights|
    ensures WeightMatrix(OuterProduct(Delta(p, sigma, input, actual, l), Activation(p, sigma, input, l)))
         == WeightGradient(p, sigma, input, actual, l)
    ensures BiasVector(ToRealMatrix(Delta(p, sigma, input, actual, l))) == BiasGradient(p, sigma, input, actual, l)
  {
    var b := BiasGradient(p, sigma, input, actual, l);
    ToRealMatrixOfColumn(b.matrix);
  }

  /** `pass` is the forward pass of `input` through the network with parameters `p`. */
  ghost predicate Forward(p: Parameters, sigma: real -> real, input: Vector, pass: ForwardPass)
    requires Layered(p) && |input| == InputSize(p)
  {
    && |pass.activations| == |p.weights| + 1 && |pass.weightedInputs| == |p.weights|
    && (forall l :: 0 <= l <= |p.weights| ==> pass.activations[l] == Activation(p, sigma, input, l))
    && (forall l :: 0 <= l < |p.weights| ==> pass.weightedInputs[l] == WeightedInput(p, sigma, input, l))
  }

  /**
   * The example's error vectors, layer by layer, its gradient, and the check
   * of each layer (counted from 1) against that gradient. The facts are
   * reached only through `PlanAt(.., l)`, so that a proof sees them only
   * where it names a layer.
   */
  ghost predicate Plan(p: Parameters, sigma: real -> real, gradientChecking: bool, input: Vector, actual: Vector,
                       deltas: seq<Vector>, gw: seq<WeightMatrix>, gb: seq<BiasVector>, checks: nat -> Outcome<NetworkError>)
    requires Fits(p, input, actual)
  {
    && |deltas| == |gw| == |gb| == |p.weights|
    && forall l :: 0 <= l < |p.weights| ==> PlanAt(p, sigma, gradientChecking, input, actual, deltas, gw, gb, checks, l)
  }

  /** Layer `l`'s error vector, the example's gradient and the layer checks against it. */
  ghost predicate PlanAt(p: Parameters, sigma: real -> real, gradientChecking: bool, input: Vector, actual: Vector,
                         deltas: seq<Vector>, gw: seq<WeightMatrix>, gb: seq<BiasVector>, checks: nat -> Outcome<NetworkError>,
                         l: nat)
  {
    && Fits(p, input, actual) && l < |p.weights| == |deltas|
    && deltas[l] == Delta(p, sigma, input, actual, l)
    && Gradient(gw, gb) == ExampleGradient(p, sigma, input, actual)
    && checks == LayerChecks(p, sigma, gradientChecking, input, actual, Gradient(gw, gb))
  }

  lemma BackPropagatePlan(p: Parameters, sigma: real -> real, gradientChecking: bool, input: Vector, actual: Vector)
    returns (deltas: seq<Vector>, gw: seq<WeightMatrix>, gb: seq<BiasVector>, checks: nat -> Outcome<NetworkError>)
    requires Fits(p, input, actual)
    ensures Plan(p, sigma, gradientChecking, input, actual, deltas, gw, gb, checks)
  {
    var n := |p.weights|;
    deltas := DeltasOf(p, sigma, input, actual);
    var g := ExampleGradient(p, sigma, input, actual);
    gw, gb := g.weightDecs, g.biasDecs;
    checks := LayerChecks(p, sigma, gradientChecking, input, actual, g);
    forall l | 0 <= l < n
      ensures PlanAt(p, sigma, gradientChecking, input, actual, deltas, gw, gb, checks, l)
    {
    }
  }

  lemma DeltasOf(p: Parameters, sigma: real -> real, input: Vector, actual: Vector) returns (deltas: seq<Vector>)
    requires Fits(p, input, actual)
    ensures |deltas| == |p.weights|
    ensures forall l :: 0 <= l < |p.weights| ==> deltas[l] == Delta(p, sigma, input, actual, l)
  {
    deltas := seq(|p.weights|, l requires 0 <= l < |p.weights| => Delta(p, sigma, input, actual, l));
  }

  /** The planned gradient is the example's gradient, and the checks are those of that gradient. */
  lemma PlanWhole(p: Parameters, sigma: real -> real, gradientChecking: bool, input: Vector, actual: Vector,
                  deltas: seq<Vector>, gw: seq<WeightMatrix>, gb: seq<BiasVector>, checks: nat -> Outcome<NetworkError>)
    requires Fits(p, input, actual) && Plan(p, sigma, gradientChecking, input, actual, deltas, gw, gb, checks)
    ensures Gradient(gw, gb) == ExampleGradient(p, sigma, input, actual)
    ensures checks == LayerChecks(p, sigma, gradientChecking, input, actual, Gradient(gw, gb))
  {
    assert PlanAt(p, sigma, gradientChecking, input, actual, deltas, gw, gb, checks, 0);
  }

  /** The error vector of layer `l` in terms of the forward pass and the error of the layer above. */
  lemma PlanDelta(p: Parameters, sigma: real -> real, gradientChecking: bool, input: Vector, actual: Vector,
                  deltas: seq<Vector>, gw: seq<WeightMatrix>, gb: seq<BiasVector>, checks: nat -> Outcome<NetworkError>, l: nat)
    requires Fits(p, input, actual) && Plan(p, sigma, gradientChecking, input, actual, deltas, gw, gb, checks)
    requires l < |p.weights|
    ensures l + 1 == |p.weights| ==>
      deltas[l] == EbeMultiply(CostDerivative(Activation(p, sigma, input, l + 1), actual), ActivateDerivative(sigma, WeightedInput(p, sigma, input, l)))
    ensures l + 1 < |p.weights| ==> |deltas[l + 1]| == |p.weights[l + 1].matrix| && Rectangular(p.weights[l + 1].matrix)
    ensures l + 1 < |p.weights| ==>
      deltas[l] == EbeMultiply(TransposeOperate(p.weights[l + 1].matrix, deltas[l + 1]), ActivateDerivative(sigma, WeightedInput(p, sigma, input, l)))
  {
    assert PlanAt(p, sigma, gradientChecking, input, actual, deltas, gw, gb, checks, l);
    if l + 1 < |p.weights| {
      assert PlanAt(p, sigma, gradientChecking, input, actual, deltas, gw, gb, checks, l + 1);
    }
  }

  /** The gradient of layer `l` from its error vector. */
  lemma PlanGradient(p: Parameters, sigma: real -> real, gradientChecking: bool, input: Vector, actual: Vector,
                     deltas: seq<Vector>, gw: seq<WeightMatrix>, gb: seq<BiasVector>, checks: nat -> Outcome<NetworkError>, l: nat)
    requires Fits(p, input, actual) && Plan(p, sigma, gradientChecking, input, actual, deltas, gw, gb, checks)
    requires l < |p.weights|
    ensures |gw| == |gb| == |p.weights|
    ensures gw[l] == WeightMatrix(OuterProduct(deltas[l], Activation(p, sigma, input, l)))
    ensures gb[l] == BiasVector(ToRealMatrix(deltas[l]))
  {
    assert PlanAt(p, sigma, gradientChecking, input, actual, deltas, gw, gb, checks, l);
    LayerGradients(p, sigma, input, actual, l);
  }

  /** The check of layer `l` + 1 is that of its gradient. */
  lemma PlanCheck(p: Parameters, sigma: real -> real, gradientChecking: bool, input: Vector, actual: Vector,
                  deltas: seq<Vector>, gw: seq<WeightMatrix>, gb: seq<BiasVector>, checks: nat -> Outcome<NetworkError>, l: nat)
    requires Fits(p, input, actual) && Plan(p, sigma, gradientChecking, input, actual, deltas, gw, gb, checks)
    requires l < |p.weights|
    ensures |gw| == |gb| == |p.weights|
    ensures Rectangular(gw[l].matrix) && Rectangular(gb[l].matrix)
    ensures checks(l + 1) == NetworkMath.CheckLayer(p, sigma, gradientChecking, input, actual, l + 1, gw[l], gb[l])
  {
    assert PlanAt(p, sigma, gradientChecking, input, actual, deltas, gw, gb, checks, l);
  }

  /** The layers above `k` pass and layer `k` fails: back-propagation fails with layer `k`'s error. */
  lemma BackPropagateFailsAt(p: Parameters, sigma: real -> real, gradientChecking: bool, input: Vector, actual: Vector,
                             deltas: seq<Vector>, gw: seq<WeightMatrix>, gb: seq<BiasVector>, checks: nat -> Outcome<NetworkError>,
                             k: nat, e: NetworkError)
    requires Fits(p, input, actual) && Plan(p, sigma, gradientChecking, input, actual, deltas, gw, gb, checks)
    requires 1 <= k <= |p.weights|
    requires forall j :: k < j <= |p.weights| ==> checks(j).Pass?
    requires checks(k) == Fail(e)
    ensures NetworkMath.BackPropagate(p, sigma, gradientChecking, input, actual) == Err(e)
  {
    BackPropagateFits(p, sigma, gradientChecking, input, actual);
    PlanWhole(p, sigma, gradientChecking, input, actual, deltas, gw, gb, checks);
    CheckedFailsAt(Gradient(gw, gb), checks, |p.weights|, k, e);
  }

  /** Every layer passes: back-propagation returns the example's gradient. */
  lemma BackPropagatePasses(p: Parameters, sigma: real -> real, gradientChecking: bool, input: Vector, actual: Vector,
                            deltas: seq<Vector>, gw: seq<WeightMatrix>, gb: seq<BiasVector>, checks: nat -> Outcome<NetworkError>)
    requires Fits(p, input, actual) && Plan(p, sigma, gradientChecking, input, actual, deltas, gw, gb, checks)
    requires forall j :: 0 < j <= |p.weights| ==> checks(j).Pass?
    ensures NetworkMath.BackPropagate(p, sigma, gradientChecking, input, actual) == Ok(Gradient(gw, gb))
  {
    BackPropagateFits(p, sigma, gradientChecking, input, actual);
    PlanWhole(p, sigma, gradientChecking, input, actual, deltas, gw, gb, checks);
    CheckedPasses(Gradient(gw, gb), checks, |p.weights|);
  }

  lemma CheckedFailsAt(g: Gradient, checks: nat -> Outcome<NetworkError>, n: nat, k: nat, e: NetworkError)
    requires 1 <= k <= n && checks(k) == Fail(e)
    requires forall j :: k < j <= n ==> checks(j).Pass?
    ensures CheckedGradient(g, CheckDown(checks, n)) == Err(e)
  {
    CheckDownSkip(checks, n, k);
  }

  lemma CheckedPasses(g: Gradient, checks: nat -> Outcome<NetworkError>, n: nat)
    requires forall j :: 0 < j <= n ==> checks(j).Pass?
    ensures CheckedGradient(g, CheckDown(checks, n)) == Ok(g)
  {
    CheckDownSkip(checks, n, 0);
  }

  lemma SeqPointwise<T>(a: seq<T>, b: seq<T>)
    requires |a| == |b| && forall k :: 0 <= k < |a| ==> a[k] == b[k]
    ensures a == b
  {
  }
}
