# A verified model of a Kotlin MNIST neural network

This project models the core of `com.github.winteryoung.mltest`, a small
fully connected neural network trained on MNIST digits by mini-batch gradient
descent. It covers the following parts.

**`NeuralNetwork`** is a class whose weight matrices and bias columns training
updates in place. The model covers:
- the creation of the layers and the `init` check;
- the forward pass and prediction;
- the quadratic cost;
- back-propagation from the output layer down, with the optional gradient
  check against central differences;
- `trainMiniBatch` and the epoch loop of `miniBatchGradientDescent`.

Each method with a loop is proved equal to a function that specifies it. The
specifying functions live in module `NetworkMath` and, for training, in module
`Training`. Their laws are proved as lemmas:
- the cost is zero exactly for a perfect prediction;
- a perturbation of a weight or bias is undone by the opposite perturbation;
- a layer's gradient check passes exactly when every gradient entry is within
  0.001 of its estimate;
- back-propagation fails exactly as the highest failing layer check does;
- `trainMiniBatch` succeeds exactly when every example does;
- `eachEpoch` sees the epochs 1, 2, ... in order;
- with a learning rate of zero, training never changes the parameters.

**`DataForkJoinTask`** is the divide-and-conquer gradient reducer, run one
branch after the other. Three properties are proved. The lists it hands to
the leaf function are exactly `LeafCalls(work)`, each shorter than the
threshold of 5. Those lists partition the work in order. Its result equals the
sequential `trainMiniBatch` sum, so forking never changes a batch step.

**`LangUtils`** holds `split` into batches and `getx`, which accepts an index
that counts from the end. The model proves the batch sizes, the batch count
and the concatenation of the batches, plus the cases the unit test pins down.

**`TraceEnv`** is the diagnostic label stack: `push`, `pop` (which raises on
an empty stack), `toString` and the bracketing `use`.

**`Mnist`** covers the IDX decoders of the image and label files and the
zipping of images with labels. Each decoder is proved equal to a closed form:
the header layout, and image `j` holding the inverted grey byte
`16 + j*width*height + h*width + w` at `h*width + w`. A file shorter than its
header claims ends with end of file.

**`MathUtils.toRealMatrix`** turns a vector into a one-column matrix.

Doubles are modelled as `real`, and matrices as sequences of rows. Module
`LinearAlgebra` provides the few matrix operations the code takes from its
matrix library.

Exceptions are modelled as `Result`/`Outcome` values:
- the `init` check (`InvalidLayerCount`);
- index errors;
- dimension mismatches of the matrix library;
- `checkCloseEnough` failures;
- end of file;
- a bad magic word.

Four preconditions remain, and each holds at every call:
- the private `NeuralNetwork` constructor requires the `init` check, which
  `Create` and the perturbed copies establish first;
- the gradient estimates behind `checkLayer` (`WeightPartialOf`,
  `BiasPartialOf` and the loops that fill the estimate matrices) require an
  example that fits the network, which back-propagation checks before it
  calls them;
- `Training.BatchStep` requires a non-empty batch, and `split` never yields
  an empty one;
- `Mnist.ReadLabels` requires the label-file header, which
  `ReadMnistLabelFile` has read before it.

## Model

| member | source | states |
|---|---|---|
| Network.NeuralNetwork.constructor | src/main/java/com/github/winteryoung/mltest/NeuralNetwork.kt:15-31 | The network holds the given weights and biases, learning rate, checking flag and sigmoid, and satisfies the `init` check (at least two weight matrices) with every layer shaped to feed the next. |
| Network.NeuralNetwork.Create | src/main/java/com/github/winteryoung/mltest/NeuralNetwork.kt:22-31 | Creating the network fails exactly when creating the weights, the biases or the `init` check fails, with the same error. Otherwise the new network has those parameters, the given rate and gradient checking off. |
| Network.NeuralNetwork.LayerSize | src/main/java/com/github/winteryoung/mltest/NeuralNetwork.kt:33 | The layer count, input layer included, is the length of the network's layer-size list and is at least 3. |
| Network.NeuralNetwork.CopyWithWeightOfNeuronPerturbed | src/main/java/com/github/winteryoung/mltest/NeuralNetwork.kt:42-62 | Fails exactly when `WeightPerturbed` does (layer outside 1..|weights|, or entry outside the matrix), with the same error. Otherwise a new network with one weight moved, the same rate, and checking off. |
| Network.NeuralNetwork.CopyWithBiasOfNeuronPerturbed | src/main/java/com/github/winteryoung/mltest/NeuralNetwork.kt:64-79 | Fails exactly when `BiasPerturbed` does, with the same error. Otherwise a new network with one bias moved and checking off. |
| Network.NeuralNetwork.FeedForward | src/main/java/com/github/winteryoung/mltest/NeuralNetwork.kt:226-237 | Fails exactly when the input length differs from the first layer's width, with that dimension mismatch. Otherwise it returns |weights|+1 activations (the input first) and |weights| weighted inputs, each equal to the layer's value z_l = W_l a_l + b_l, a_(l+1) = sigma(z_l). |
| Network.NeuralNetwork.Predict | src/main/java/com/github/winteryoung/mltest/NeuralNetwork.kt:224 | Equals `NetworkMath.Predict`: the activation of the last layer, or the input's dimension mismatch. |
| Network.NeuralNetwork.WeightPartialOf | src/main/java/com/github/winteryoung/mltest/NeuralNetwork.kt:160-168 | The central difference (c - c2) / (2 epsilon) of the costs of the two copies with the weight moved by +epsilon and -epsilon. |
| Network.NeuralNetwork.BiasPartialOf | src/main/java/com/github/winteryoung/mltest/NeuralNetwork.kt:180-188 | The central difference of the costs of the two copies with the bias moved by +epsilon and -epsilon. |
| Network.NeuralNetwork.ExpectedWeightRowOf | src/main/java/com/github/winteryoung/mltest/NeuralNetwork.kt:159-172 | The column loop fills row `neuron` of the zero matrix with that neuron's estimated weight partials. |
| Network.NeuralNetwork.ExpectedWeightPartialsOf | src/main/java/com/github/winteryoung/mltest/NeuralNetwork.kt:156-173 | The nested loops leave the matrix of estimated weight partials of the layer, with the layer's weight shape. |
| Network.NeuralNetwork.ExpectedBiasPartialsOf | src/main/java/com/github/winteryoung/mltest/NeuralNetwork.kt:177-192 | The loop leaves the column of estimated bias partials of the layer. |
| Network.NeuralNetwork.CheckLayer | src/main/java/com/github/winteryoung/mltest/NeuralNetwork.kt:143-195 | Equals the specification `NetworkMath.CheckLayer`; `CheckLayerLaw` says when that passes. |
| Network.NeuralNetwork.CheckCloseEnough | src/main/java/com/github/winteryoung/mltest/NeuralNetwork.kt:197-222 | Equals `CloseEnough`: a row-count mismatch, then a column-count mismatch, then the first entry in row-major order that is not close. `CloseEnoughPassIff` and `CloseEnoughFailure` characterise it. |
| Network.NeuralNetwork.BackPropagate | src/main/java/com/github/winteryoung/mltest/NeuralNetwork.kt:239-277 | Equals the specification `NetworkMath.BackPropagate`: an input mismatch, an output mismatch, the failure of the highest failing layer check, or the example's gradient. |
| Network.NeuralNetwork.BackPropagateLayers | src/main/java/com/github/winteryoung/mltest/NeuralNetwork.kt:243-276 | Given the forward pass of a fitting example, the layer loop from the output layer down computes `NetworkMath.BackPropagate`. |
| Network.NeuralNetwork.BackPropagateLayer | src/main/java/com/github/winteryoung/mltest/NeuralNetwork.kt:253-273 | One step of the layer loop yields the layer's error vector, its weight and bias gradients (`updateWeightDecs`, `updateBiasDecs`) and the outcome of its check, as the specification defines them. |
| Network.NeuralNetwork.BackPropagateError | src/main/java/com/github/winteryoung/mltest/NeuralNetwork.kt:254-269 | The error vector of a layer equals its specified `Delta`. At the output layer it comes from the forward pass; below it, from the error of the layer above. |
| Network.NeuralNetwork.TrainMiniBatch | src/main/java/com/github/winteryoung/mltest/NeuralNetwork.kt:121-141 | Equals `BatchGradient`: the example gradients of the batch summed in order into zero accumulators, or the first back-propagation error. |
| Network.NeuralNetwork.ApplyGradient | src/main/java/com/github/winteryoung/mltest/NeuralNetwork.kt:108-113 | The two update loops leave the parameters equal to `Training.ApplyGradient` of the old ones and keep the network valid. |
| Network.NeuralNetwork.TrainEpoch | src/main/java/com/github/winteryoung/mltest/NeuralNetwork.kt:101-115 | One epoch over the shuffled list leaves the parameters and the outcome that `Training.RunEpoch` specifies: batches in order, each applying its fork-join gradient; an error stops the epoch. |
| Network.NeuralNetwork.Train | src/main/java/com/github/winteryoung/mltest/NeuralNetwork.kt:81-119 | The epoch loop leaves the parameters, the shuffled list, the epochs reported to `eachEpoch` and the outcome that `Training.Train` specifies. |
| Network.ForwardStep | src/main/java/com/github/winteryoung/mltest/NeuralNetwork.kt:230-234 | z_l = W_l a_l + b_l and a_(l+1) = sigma(z_l), in terms of the matrix-vector product and the bias column. |
| NetworkMath.SampledMatrix | src/main/java/com/github/winteryoung/mltest/NeuralNetwork.kt:315-317 | A `rows` x `cols` matrix of samples. It is an error exactly when a dimension is below 1. |
| NetworkMath.WeightsFrom | src/main/java/com/github/winteryoung/mltest/NeuralNetwork.kt:309-319 | Succeeds exactly when the layer sizes involved are positive. Weight matrix l is height `layerSizes[l+1]` by width `layerSizes[l]`. |
| NetworkMath.BiasesFrom | src/main/java/com/github/winteryoung/mltest/NeuralNetwork.kt:321-328 | Succeeds exactly when the sizes are positive. Bias l is a column of `layerSizes[l+1]` entries. |
| NetworkMath.CreateWeights | src/main/java/com/github/winteryoung/mltest/NeuralNetwork.kt:309-319 | No sizes is an error. Otherwise creation succeeds exactly for a single size or for sizes that are all positive, giving one matrix per adjacent pair, height the right size and width the left. |
| NetworkMath.CreateBiases | src/main/java/com/github/winteryoung/mltest/NeuralNetwork.kt:321-328 | No sizes is an error. Otherwise creation succeeds exactly when every size after the first is positive, giving one column per layer after the input layer. |
| NetworkMath.NewParameters | src/main/java/com/github/winteryoung/mltest/NeuralNetwork.kt:22-31 | A created network passes the `init` check: it is layered, has at least two weight matrices and has exactly the requested layer sizes. |
| NetworkMath.NewParametersLaw | src/main/java/com/github/winteryoung/mltest/NeuralNetwork.kt:22-31 | Creation succeeds exactly for at least three layer sizes, all positive. The result is layered with exactly those sizes. |
| NetworkMath.TooFewLayers | src/main/java/com/github/winteryoung/mltest/NeuralNetwork.kt:27-31 | One or two positive layer sizes fail the `init` check with the count of weight matrices. |
| NetworkMath.WeightedInput | src/main/java/com/github/winteryoung/mltest/NeuralNetwork.kt:231 | z_l has one entry per neuron of layer l+1. |
| NetworkMath.Activation | src/main/java/com/github/winteryoung/mltest/NeuralNetwork.kt:227-234 | a_0 is the input. a_(l+1) has one entry per neuron of layer l+1. |
| NetworkMath.Predict | src/main/java/com/github/winteryoung/mltest/NeuralNetwork.kt:224 | Is an error exactly when the input length is not the first layer's width, and then that mismatch. Otherwise it has one entry per output neuron. |
| NetworkMath.PredictInUnitInterval | src/main/java/com/github/winteryoung/mltest/NeuralNetwork.kt:224 | With a sigmoid into (0, 1), every predicted entry lies in (0, 1). |
| NetworkMath.HalfSquaredErrors | src/main/java/com/github/winteryoung/mltest/NeuralNetwork.kt:280 | Every entry is non-negative, and is zero exactly where prediction and expected output agree. |
| NetworkMath.Cost | src/main/java/com/github/winteryoung/mltest/NeuralNetwork.kt:279-282 | The cost is never negative. |
| NetworkMath.CostZeroIff | src/main/java/com/github/winteryoung/mltest/NeuralNetwork.kt:279-282 | The cost is zero exactly when the prediction equals the expected output. |
| NetworkMath.CostDerivativeZeroIff | src/main/java/com/github/winteryoung/mltest/NeuralNetwork.kt:284-286 | The cost derivative a - y vanishes in every entry exactly when the cost is zero. |
| NetworkMath.CostDerivative | src/main/java/com/github/winteryoung/mltest/NeuralNetwork.kt:284-286 | One entry per output neuron, activation minus expected; `CostDerivativeZeroIff` ties it to the cost. |
| NetworkMath.ActivateDerivativeBounds | src/main/java/com/github/winteryoung/mltest/NeuralNetwork.kt:290-297 | With a sigmoid into (0, 1), every entry a (1 - a) of the activation derivative lies in (0, 1/4]. |
| NetworkMath.ActivateDerivative | src/main/java/com/github/winteryoung/mltest/NeuralNetwork.kt:290-297 | Entry i is sigma(z_i)(1 - sigma(z_i)), the derivative of the sigmoid at z_i; `ActivateDerivativeBounds` bounds it. |
| NetworkMath.WeightPerturbed | src/main/java/com/github/winteryoung/mltest/NeuralNetwork.kt:42-62 | A layer outside 1..|weights| is `LayerOutOfBounds`, an entry outside the matrix `EntryOutOfBounds`. Otherwise exactly the chosen weight moves by epsilon; every other weight, all biases and all shapes stay. |
| NetworkMath.BiasPerturbed | src/main/java/com/github/winteryoung/mltest/NeuralNetwork.kt:64-79 | The same error cases. Otherwise exactly the chosen bias moves by delta; all weights and the other biases stay. |
| NetworkMath.WeightPerturbedUndo | src/main/java/com/github/winteryoung/mltest/NeuralNetwork.kt:160-164 | Moving a weight by epsilon and then by -epsilon gives the original parameters back. |
| NetworkMath.BiasPerturbedUndo | src/main/java/com/github/winteryoung/mltest/NeuralNetwork.kt:180-184 | Moving a bias by delta and then by -delta gives the original parameters back. |
| NetworkMath.RowCheckLaw | src/main/java/com/github/winteryoung/mltest/NeuralNetwork.kt:211-218 | The column loop passes exactly when every remaining entry is close. A failure reports the first entry that is not. |
| NetworkMath.RowsCheckPassIff | src/main/java/com/github/winteryoung/mltest/NeuralNetwork.kt:209-221 | The row loop passes exactly when every entry of the remaining rows is close. |
| NetworkMath.RowsCheckFailure | src/main/java/com/github/winteryoung/mltest/NeuralNetwork.kt:209-221 | A failure of the row loop reports the first entry, in row-major order, that is not close; every earlier entry is close. |
| NetworkMath.CloseEnoughPassIff | src/main/java/com/github/winteryoung/mltest/NeuralNetwork.kt:197-222 | `checkCloseEnough` passes exactly when both dimensions agree and every entry is within `delta` (or equal). |
| NetworkMath.CloseEnoughFailure | src/main/java/com/github/winteryoung/mltest/NeuralNetwork.kt:197-222 | A row mismatch is reported first, then a column mismatch, then the first entry in row-major order that is not close, with its expected and actual value. |
| NetworkMath.CloseEnough | src/main/java/com/github/winteryoung/mltest/NeuralNetwork.kt:197-222 | Only three errors are reported: a row mismatch, a column mismatch, or a failed entry, and an entry fails only after both shapes agree. |
| NetworkMath.CheckLayerLaw | src/main/java/com/github/winteryoung/mltest/NeuralNetwork.kt:143-195 | A layer check passes exactly when checking is off, or when every weight and bias gradient entry is within 0.001 of its central-difference estimate with epsilon 0.0001. |
| NetworkMath.ExampleGradient | src/main/java/com/github/winteryoung/mltest/NeuralNetwork.kt:243-276 | One weight and one bias gradient per layer, shaped like the parameters. Layer l holds the error of layer l times the activation below it, and the error as a column. |
| NetworkMath.CheckDownLaw | src/main/java/com/github/winteryoung/mltest/NeuralNetwork.kt:264-274 | Checking layers from the output down passes exactly when every layer passes. A failure is that of the highest failing layer, all layers above it having passed. |
| NetworkMath.BackPropagate | src/main/java/com/github/winteryoung/mltest/NeuralNetwork.kt:239-277 | A successful result is shaped like the parameters (one gradient per layer). |
| NetworkMath.BackPropagateRejects | src/main/java/com/github/winteryoung/mltest/NeuralNetwork.kt:239-258 | An input of the wrong length is rejected with its mismatch. Then an expected output of the wrong length is rejected with its own mismatch. Every other example fits. |
| NetworkMath.BackPropagateUnchecked | src/main/java/com/github/winteryoung/mltest/NeuralNetwork.kt:150-152 | With gradient checking off, a fitting example always yields its gradient. |
| NetworkMath.BackPropagateChecked | src/main/java/com/github/winteryoung/mltest/NeuralNetwork.kt:264-272 | With checking on, a fitting example yields its gradient exactly when every layer passes its check. |
| NetworkMath.BackPropagateCheckFails | src/main/java/com/github/winteryoung/mltest/NeuralNetwork.kt:264-272 | With checking on, a failure is that of some layer check, every layer above which passed. |
| NetworkMath.GradientSumAppend | src/main/java/com/github/winteryoung/mltest/NeuralNetwork.kt:124-139 | The batch sum over two consecutive parts is the sum of the two part sums, or the first error. |
| NetworkMath.GradientSumAdditive | src/main/java/com/github/winteryoung/mltest/DataForkJoinTask.kt:15-38 | The `trainMiniBatch` leaf is additive: splitting its input anywhere and adding the two results gives the result for the whole. |
| NetworkMath.BatchGradient | src/main/java/com/github/winteryoung/mltest/NeuralNetwork.kt:121-141 | A successful batch gradient is shaped like the parameters. |
| NetworkMath.ReduceIsBatchGradient | src/main/java/com/github/winteryoung/mltest/NeuralNetwork.kt:103-106 | The fork-join reduction of a batch equals its sequential `trainMiniBatch` result. |
| Training.BatchGradientOkIff | src/main/java/com/github/winteryoung/mltest/NeuralNetwork.kt:124-139 | `trainMiniBatch` succeeds exactly when back-propagation succeeds on every example. Otherwise its error is that of the first failing example. |
| Training.ApplyGradient | src/main/java/com/github/winteryoung/mltest/NeuralNetwork.kt:108-113 | The update keeps every layer's shape, and keeps the network layered with the same layer sizes. |
| Training.ApplyGradientEntries | src/main/java/com/github/winteryoung/mltest/NeuralNetwork.kt:108-113 | Every weight and bias entry becomes its old value minus the gradient entry times the rate. |
| Training.ApplyZeroRate | src/main/java/com/github/winteryoung/mltest/NeuralNetwork.kt:107-113 | A rate of zero leaves the parameters unchanged. |
| Training.ApplyZeroGradient | src/main/java/com/github/winteryoung/mltest/NeuralNetwork.kt:107-113 | A zero gradient leaves the parameters unchanged, whatever the rate. |
| Training.BatchStep | src/main/java/com/github/winteryoung/mltest/NeuralNetwork.kt:102-114 | A successful batch step keeps the network layered with the same layer sizes. |
| Training.BatchStepIsSequential | src/main/java/com/github/winteryoung/mltest/NeuralNetwork.kt:103-113 | A batch step applies the sequential batch gradient at the rate learningRate / |batch|, or fails with its error. |
| Training.RunBatches | src/main/java/com/github/winteryoung/mltest/NeuralNetwork.kt:101-115 | Running the batches keeps the network layered with the same layer sizes, however the run ends. |
| Training.RunBatchesAppend | src/main/java/com/github/winteryoung/mltest/NeuralNetwork.kt:101-115 | Running two lists of batches one after the other is running their concatenation. A failure in the first list stops everything. |
| Training.RunBatchesZeroRate | src/main/java/com/github/winteryoung/mltest/NeuralNetwork.kt:107-113 | With a learning rate of zero no batch changes the parameters. |
| Training.RunEpoch | src/main/java/com/github/winteryoung/mltest/NeuralNetwork.kt:101-115 | An epoch keeps the network layered with the same layer sizes. |
| Training.NetworkEpoch | src/main/java/com/github/winteryoung/mltest/NeuralNetwork.kt:101-115 | The epoch the network runs keeps every layered network layered with the same layer sizes. |
| Training.EpochsFrom | src/main/java/com/github/winteryoung/mltest/NeuralNetwork.kt:94-118 | The epoch loop keeps layered parameters layered with the same sizes. |
| Training.Train | src/main/java/com/github/winteryoung/mltest/NeuralNetwork.kt:81-86 | Training keeps the network layered with the same layer sizes. |
| Training.EpochsFromReports | src/main/java/com/github/winteryoung/mltest/NeuralNetwork.kt:94-118 | From any state, the reported epochs continue in order: all remaining epochs when the loop completes, and only those before the failing one when it fails. |
| Training.TrainReports | src/main/java/com/github/winteryoung/mltest/NeuralNetwork.kt:117 | `eachEpoch` is called with 1, 2, ... in order: `epochs` times when training completes, fewer when it fails. |
| Training.TrainPermutes | src/main/java/com/github/winteryoung/mltest/NeuralNetwork.kt:99 | When every shuffle permutes, the training list stays a permutation of the original. |
| Training.TrainNoEpochs | src/main/java/com/github/winteryoung/mltest/NeuralNetwork.kt:81-119 | An epoch count below 1 is accepted: training runs no epoch, reports none, and leaves the parameters and the list as they are. |
| Training.TrainZeroRate | src/main/java/com/github/winteryoung/mltest/NeuralNetwork.kt:107-113 | With a learning rate of zero training never changes the parameters, however it ends. |
| NetworkTypes.WeightMatrix.Zero | src/main/java/com/github/winteryoung/mltest/NeuralNetwork.kt:157 | `zero()`: the same shape, every entry zero. |
| NetworkTypes.WeightMatrix.CopyWithNeuronPerturbed | src/main/java/com/github/winteryoung/mltest/NeuralNetwork.kt:54 | Fails with `EntryOutOfBounds` exactly when the entry is outside the matrix. Otherwise the same shape with exactly that entry increased by epsilon. |
| NetworkTypes.BiasVector.Vector | src/main/java/com/github/winteryoung/mltest/BiasVector.kt:16-17 | `vector` is column 0 of the bias matrix. |
| NetworkTypes.BiasVector.Zero | src/main/java/com/github/winteryoung/mltest/NeuralNetwork.kt:178 | `zero()`: the same shape, every entry zero. |
| NetworkTypes.BiasVector.CopyWithNeuronPerturbed | src/main/java/com/github/winteryoung/mltest/NeuralNetwork.kt:72 | Fails exactly when the neuron is outside the column. Otherwise only that entry changes, by delta. |
| NetworkTypes.BiasOfVector | src/main/java/com/github/winteryoung/mltest/NeuralNetwork.kt:250 | The column made by `toRealMatrix` reads back, via `vector`, as the original vector. |
| NetworkTypes.ZeroGradient | src/main/java/com/github/winteryoung/mltest/NeuralNetwork.kt:122-123 | The accumulators start shaped like the parameters and all zero. |
| NetworkTypes.AddGradients | src/main/java/com/github/winteryoung/mltest/NeuralNetwork.kt:128-133 | The sum keeps the shapes and adds layer by layer, matrix by matrix. |
| NetworkTypes.AddGradientsAssociative | src/main/java/com/github/winteryoung/mltest/DataForkJoinTask.kt:27-35 | Adding gradients is associative, so the sums do not depend on how the work is grouped. |
| NetworkTypes.AddZeroGradientLeft | src/main/java/com/github/winteryoung/mltest/DataForkJoinTask.kt:20-21 | Zero accumulators are a left identity. |
| NetworkTypes.AddZeroGradientRight | src/main/java/com/github/winteryoung/mltest/NeuralNetwork.kt:122-123 | Zero accumulators are a right identity. |
| NetworkTypes.AccumulateGradient | src/main/java/com/github/winteryoung/mltest/NeuralNetwork.kt:128-133 | The zipped `+=` loops over weights and biases leave the sum of the two gradients. |
| DataForkJoinTask.Reduce | src/main/java/com/github/winteryoung/mltest/DataForkJoinTask.kt:15-38 | A successful reduction has one gradient per layer, shaped like the parameters. |
| DataForkJoinTask.Compute | src/main/java/com/github/winteryoung/mltest/DataForkJoinTask.kt:15-38 | `compute`, run sequentially, returns the reduction `Reduce` of its work. |
| DataForkJoinTask.HalvesPartition | src/main/java/com/github/winteryoung/mltest/DataForkJoinTask.kt:24-26 | From 5 items on, the halves `[0, n/2)` and `[n/2, n)` cover the work in order, and both are non-empty and shorter. |
| DataForkJoinTask.BelowThreshold | src/main/java/com/github/winteryoung/mltest/DataForkJoinTask.kt:16-18 | Fewer than 5 items go straight to the leaf function. |
| DataForkJoinTask.LeafCalls | src/main/java/com/github/winteryoung/mltest/DataForkJoinTask.kt:16-26 | Every list in `LeafCalls(work)` is shorter than 5; `ReduceUsesLeafCalls` shows these are the lists the reducer gives the leaf function. |
| DataForkJoinTask.ReduceUsesLeafCalls | src/main/java/com/github/winteryoung/mltest/DataForkJoinTask.kt:15-38 | The reducer depends on the leaf function only through its values on `LeafCalls(work)`: two leaf functions that agree there give the same result. |
| DataForkJoinTask.LeafCallsPartition | src/main/java/com/github/winteryoung/mltest/DataForkJoinTask.kt:15-38 | The lists of `LeafCalls(work)`, which are the leaf inputs, concatenate left to right to the whole work list: every example is used once, in order. |
| DataForkJoinTask.MergeIsSum | src/main/java/com/github/winteryoung/mltest/DataForkJoinTask.kt:20-35 | Adding the left and then the right result into zero accumulators gives their sum. |
| DataForkJoinTask.ReduceOfAdditive | src/main/java/com/github/winteryoung/mltest/DataForkJoinTask.kt:15-38 | For an additive leaf function the reducer returns the leaf's result for the whole work list. |
| LangUtils.Split | src/main/java/com/github/winteryoung/mltest/LangUtils.kt:5-20 | `split` returns the batches `Batches` specifies. |
| LangUtils.FlattenBatches | src/main/java/com/github/winteryoung/mltest/LangUtils.kt:5-20 | Concatenating the batches gives back the input, in order. |
| LangUtils.BatchSizes | src/main/java/com/github/winteryoung/mltest/LangUtils.kt:5-20 | There are no batches exactly when the input is empty. No batch is empty or longer than the batch size, and every batch but the last is full. |
| LangUtils.NonPositiveBatchSize | src/main/java/com/github/winteryoung/mltest/LangUtils.kt:9-18 | A batch size below 1 never fills a batch, so a non-empty input becomes one batch. |
| LangUtils.BatchCount | src/main/java/com/github/winteryoung/mltest/LangUtils.kt:5-20 | For a positive batch size the number of batches is the rounded-up quotient of size and batch size. |
| LangUtils.SplitTenByThree | src/test/java/com/github/winteryoung/mltest/LangUtilsKtTest.kt:12-18 | 1..10 split by 3 gives 4 batches, the first [1, 2, 3] and the last [10]. |
| LangUtils.XIndex | src/main/java/com/github/winteryoung/mltest/NeuralNetwork.kt:264 | Translating an index in -size..size-1 gives a position in 0..size-1: the index itself, or the index plus size. |
| LangUtils.XIndexCongruent | src/main/java/com/github/winteryoung/mltest/NeuralNetwork.kt:272 | The translated position is congruent to the index modulo the size. |
| LangUtils.GetxWrapsAround | src/test/java/com/github/winteryoung/mltest/LangUtilsKtTest.kt:21-27 | A negative index addresses the same element as the index |s| later; -1 is the last element. |
| LangUtils.Getx | src/test/java/com/github/winteryoung/mltest/LangUtilsKtTest.kt:21-27 | A non-negative index is ordinary access; a negative index -k addresses the k-th element from the end. |
| LangUtils.GetxOnOneToTen | src/test/java/com/github/winteryoung/mltest/LangUtilsKtTest.kt:21-27 | On 1..10: index -1 gives 10, -10 and 0 give 1, and -9 gives 2. |
| MathUtils.ToRealMatrix | src/main/java/com/github/winteryoung/mltest/MathUtils.kt:10-17 | One row per entry and exactly one column, entry i in row i. |
| MathUtils.ColumnOfToRealMatrix | src/main/java/com/github/winteryoung/mltest/MathUtils.kt:10-17 | Column 0 of the column matrix is the original vector. |
| MathUtils.ToRealMatrixOfColumn | src/main/java/com/github/winteryoung/mltest/MathUtils.kt:10-17 | A one-column matrix is the column matrix of its column 0. |
| Trace.JoinAppend | src/main/java/com/github/winteryoung/mltest/TraceEnv.kt:24-26 | Pushing a label appends it, after a separator, to the joined text of `toString`. |
| Trace.TraceEnv.ToString | src/main/java/com/github/winteryoung/mltest/TraceEnv.kt:24-26 | An empty trace prints as the empty text; otherwise the text starts with the bottom label. `JoinAppend` gives the rest. |
| Trace.NestedLabelsOuterFirst | src/main/java/com/github/winteryoung/mltest/TraceEnv.kt:24-35 | Two labels on an empty trace print outer first, separated by ", ". |
| Trace.TraceEnv.constructor | src/main/java/com/github/winteryoung/mltest/TraceEnv.kt:12-14 | The trace starts empty. |
| Trace.TraceEnv.Push | src/main/java/com/github/winteryoung/mltest/TraceEnv.kt:16-18 | The label goes on top of the stack; nothing else changes. |
| Trace.TraceEnv.Pop | src/main/java/com/github/winteryoung/mltest/TraceEnv.kt:20-22 | Returns and removes the top label. An empty stack raises the empty-stack error and stays empty. |
| Trace.TraceEnv.Use | src/main/java/com/github/winteryoung/mltest/TraceEnv.kt:28-35 | The action runs with the label on top, and its result or exception is passed on. The stack is restored whether it returned or threw. |
| Mnist.Wrap32 | src/main/java/com/github/winteryoung/mltest/Mnist.kt:34 | The signed 32-bit value congruent to x; a value already in range is unchanged. |
| Mnist.Wrap32Congruent | src/main/java/com/github/winteryoung/mltest/Mnist.kt:38 | Wrapping changes a value only by a multiple of 2^32. |
| Mnist.BigEndianInt | src/main/java/com/github/winteryoung/mltest/Mnist.kt:18-26 | Four bytes, most significant first, give a signed 32-bit value, the plain big-endian number when the top bit is clear. |
| Mnist.ReadInt | src/main/java/com/github/winteryoung/mltest/Mnist.kt:18-26 | The word at a position fails with end of file exactly when fewer than four bytes remain; otherwise it is a 32-bit value and the position moves on by four. |
| Mnist.GenRgb | src/main/java/com/github/winteryoung/mltest/Mnist.kt:28-30 | A grey byte g becomes the colour with red, green and blue all 255 - g. |
| Mnist.SignedByte | src/main/java/com/github/winteryoung/mltest/Mnist.kt:59 | `toByte` gives a value in -128..127 congruent to the byte modulo 256. |
| Mnist.ReadMnistImageFile | src/main/java/com/github/winteryoung/mltest/Mnist.kt:15-45 | The stream loops decode exactly `DecodeImageFile`; `DecodeImageFileLaw` gives it in closed form. |
| Mnist.ReadPixels | src/main/java/com/github/winteryoung/mltest/Mnist.kt:34-40 | The pixel loops of one image compute `ReadImage`: the pixel array and the stream position after it. |
| Mnist.FillRowInPlace | src/main/java/com/github/winteryoung/mltest/Mnist.kt:36-39 | The column loop writes row h of the array as `FillRow` specifies, and returns the position after it. |
| Mnist.ReadMnistLabelFile | src/main/java/com/github/winteryoung/mltest/Mnist.kt:47-63 | The stream loop decodes exactly `DecodeLabelFile`; `DecodeLabelFileLaw` gives it in closed form. |
| Mnist.ReadLabels | src/main/java/com/github/winteryoung/mltest/Mnist.kt:57-61 | The label loop reads `count` bytes as signed bytes, or ends with end of file. |
| Mnist.ZipLabeled | src/main/java/com/github/winteryoung/mltest/Mnist.kt:67-71 | Pairs image i with label i, up to the shorter list. |
| Mnist.ReadMnistData | src/main/java/com/github/winteryoung/mltest/Mnist.kt:65-72 | A missing image file is reported first, then an image decoding error. Success needs both files to decode, and pairs the images with the labels up to the shorter list. |
| Mnist.ReadMnistTestData | src/main/java/com/github/winteryoung/mltest/Mnist.kt:65-72 | Reads the t10k image and label files of the folder; a missing image file is reported by name. |
| Mnist.ReadMnistTrainingData | src/main/java/com/github/winteryoung/mltest/Mnist.kt:74-81 | Reads the train image and label files of the folder; a missing image file is reported by name. |
| MnistLaws.FillRowLaw | src/main/java/com/github/winteryoung/mltest/Mnist.kt:36-39 | When the bytes last, the column loop writes pixels h*width+w.. of row h from consecutive bytes and advances by the count. |
| MnistLaws.FillRowShort | src/main/java/com/github/winteryoung/mltest/Mnist.kt:36-37 | A row that runs out of bytes ends with end of file. |
| MnistLaws.FillRowsLaw | src/main/java/com/github/winteryoung/mltest/Mnist.kt:35-40 | When the bytes last, the row loop writes the pixels from h*width on from consecutive bytes. |
| MnistLaws.FillRowsShort | src/main/java/com/github/winteryoung/mltest/Mnist.kt:35-40 | Rows that run out of bytes end with end of file. |
| MnistLaws.ReadImageLaw | src/main/java/com/github/winteryoung/mltest/Mnist.kt:34-40 | For sane sizes, one image is the `width * height` pixels of as many consecutive bytes. |
| MnistLaws.ReadImageShort | src/main/java/com/github/winteryoung/mltest/Mnist.kt:34-40 | For sane sizes, an image without enough bytes left ends with end of file. |
| MnistLaws.ReadImagesLaw | src/main/java/com/github/winteryoung/mltest/Mnist.kt:33-42 | When the bytes last, the remaining images follow the earlier ones, laid out one after another. |
| MnistLaws.ReadImagesShort | src/main/java/com/github/winteryoung/mltest/Mnist.kt:33-42 | More images claimed than the bytes hold: end of file. |
| MnistLaws.ImagesAt | src/main/java/com/github/winteryoung/mltest/Mnist.kt:33-42 | Image j starts j * width * height bytes after the first pixel. |
| MnistLaws.ImagesPixel | src/main/java/com/github/winteryoung/mltest/Mnist.kt:38 | Pixel (h, w) of image j, stored at h * width + w, is the inverted grey byte 16 + j*width*height + h*width + w. |
| MnistLaws.ImageHeaderLayout | src/main/java/com/github/winteryoung/mltest/Mnist.kt:18-26 | The header decodes exactly when there are 16 bytes and the first big-endian word is 0x803; a wrong word is `BadMagic`. The fields are count, height, width, in that order. |
| MnistLaws.DecodeImageFileLaw | src/main/java/com/github/winteryoung/mltest/Mnist.kt:15-45 | A sane header followed by enough bytes decodes to `count` images laid out one after another. |
| MnistLaws.DecodeImageFileShort | src/main/java/com/github/winteryoung/mltest/Mnist.kt:15-45 | A sane header with fewer pixel bytes than it claims ends with end of file. |
| Mnist.DecodeImageFile | src/main/java/com/github/winteryoung/mltest/Mnist.kt:15-45 | A file shorter than the 16-byte header fails, and a decoded file starts with the image magic word 0x803. |
| MnistLaws.LabelHeaderLayout | src/main/java/com/github/winteryoung/mltest/Mnist.kt:50-55 | The header decodes exactly when there are 8 bytes and the first word is 0x801; a wrong word is `BadMagic`. The count is the second word. |
| MnistLaws.DecodeLabelFileLaw | src/main/java/com/github/winteryoung/mltest/Mnist.kt:47-63 | A label file decodes exactly when its header does and it holds `count` label bytes. Each label is a signed byte congruent to its file byte. |
| Mnist.DecodeLabelFile | src/main/java/com/github/winteryoung/mltest/Mnist.kt:47-63 | A decoded file holds the 8-byte header with the label magic word 0x801 and one byte per label after it. |

## Left out

- The sigmoid (`Sigmoid` of the matrix library) is a parameter `sigmoid: real -> real` of the network, fixed at creation. Lemmas about its range require values in (0, 1).
- Doubles are modelled as exact reals. Rounding, NaN and infinities are not modelled. `Double.equals(other, delta)` is `Close`: equal, or at most `delta` apart.
- The Gaussian samples of `createWeights` and `createBiases` (`NormalDistribution`) are `Sampler` parameters, which give the entry of each layer, row and column.
- `trainingData.shuffle()` is a `Shuffle` parameter, giving the order of each epoch. Where a lemma needs it, it is required to be a permutation.
- The `ForkJoinPool` runs the two halves of `DataForkJoinTask.compute` concurrently. `DataForkJoinTask.Compute` runs them one after the other, left then right. Order is irrelevant here: the sums are exact and added in order.
- The `ThreadLocal` of `TraceEnv` is a single stack. The `TraceEnv.use` calls inside `NeuralNetwork` are not modelled, because they only label debugging output. The single stack hides one hazard: `init` sets a stack only for the thread that first touches `TraceEnv`, so a `use` that runs on a fork-join worker thread finds no stack and would raise a null-pointer exception.
- Trace.TraceEnv.Use: the action is a pure function of the stack it sees; an action that itself pushes or pops is not modelled.
- The println output of `debugging`, `NeuralNetwork.toString`, `showImage`, `Image.toBufferedImage`, `Main.kt` and all file and window I/O are left out.
- A folder of files is a map from file name to the bytes of the file. A missing name is the file-not-found error.
- `Color(it, it, it).rgb` is kept as the colour triple `Rgb(r, g, b)`, not packed into an `Int`. A pixel never written is `Unset`, the 0 of a fresh `IntArray`.
- Exceptions keep only what identifies them (the two dimensions, the indices, the expected and actual value). Their message text is left out.
- The code never rejects a non-positive learning rate, mini-batch size or epoch count: neither the public constructor (NeuralNetwork.kt:22-31) nor `miniBatchGradientDescent` (NeuralNetwork.kt:81-119) checks them. The model follows the code. A mini-batch size below 1 makes a non-empty training list a single batch (`LangUtils.NonPositiveBatchSize`), an epoch count below 1 runs no epoch and reports none, and a zero or negative rate is applied as given.
- A failed gradient check carries only the expected and the actual value of the entry (NeuralNetwork.kt:213-217), not its layer, row or column. The model follows the code.
- The first call to `checkLayer`, at line 264 of NeuralNetwork.kt, is modelled as the first pass through the layer loop (layer -1). The loop at lines 266-274 performs the same steps for the other layers.
- The result of the `weightedInput.map { ... }` in `activateDerivative` (lines 291-294) is discarded by the code, so the model leaves it out. The derivative is a (1 - a).
- The model has no `copy()` of the parameters: they are values, so a copy cannot alias the live network.
- WeightMatrix.kt and BiasVector.kt in these sources do not define `zero()`, `copy()`, `copyWithNeuronPerturbed` or an assignable `matrix`, yet NeuralNetwork.kt uses all of them. The model follows NeuralNetwork.kt, and the behaviour of those members is taken from the way NeuralNetwork.kt uses them.
- `getx` and `xindex` are used but are not part of LangUtils.kt in these sources. `getx` is modelled from the unit test in LangUtilsKtTest.kt, and `xindex` from the layer numbers that back-propagation needs.
- LabeledDigitImage.kt declares a `BufferedImage` field, but Mnist.kt constructs it from an `Image`. The model follows Mnist.kt.
- Training.BatchStep: requires a non-empty batch. `split` never produces an empty batch (`LangUtils.BatchSizes`), so the division by the batch size never sees zero.
- Training.NetworkEpoch: on parameters that are not layered it returns them unchanged. The network's parameters are always layered, so that case never arises.
- MnistLaws.DecodeImageFileLaw: is stated only for headers whose sizes need no 32-bit wrap-around (`Sane`). The decoders themselves model the wrap-around of `imageWidth * imageHeight`, `h * imageWidth + w` and `imageHeight - 1` exactly.
- Mnist.ReadLabels: requires the 8 header bytes, which `ReadMnistLabelFile` has read before the loop starts.
- Mnist.ReadMnistTestData: states the file names and the missing-image error. What it returns is stated by `Mnist.ReadMnistData`. The same holds for Mnist.ReadMnistTrainingData.
- MathUtils.ToRealMatrix: maps the empty vector to the empty matrix, where `MatrixUtils.createRealMatrix` (MathUtils.kt:16) raises an error for an array without rows. The network never converts an empty vector: the converted vectors are layer errors, one entry per neuron, and `NetworkMath.NewParametersLaw` gives every layer at least one neuron, which perturbation and training keep.
