/**
 * The training schedule of NeuralNetwork.kt (`train`, `miniBatchGradientDescent`):
 * every epoch shuffles the training data, splits it into mini-batches, and for
 * each batch subtracts the fork-join gradient of the batch, scaled by the
 * learning rate divided by the batch size, from the weights and biases. An
 * exception ends training; the updates of the batches before it stay.
 */
module Training {
  import opened Results
  import opened LinearAlgebra
  import opened NetworkTypes
  import opened NetworkMath
  import LangUtils
  import DataForkJoinTask

  // ---------------------------------------------------------------------------
  // The sequential batch gradient.

  /**
   * The batch sum is computed exactly when every example's gradient is; an
   * error is that of the first example that fails.
   */
  lemma {:induction false} GradientSumFromOkIff(weights: seq<WeightMatrix>, biases: seq<BiasVector>, step: Step,
                                                acc: Gradient, batch: seq<LabeledData>)
    requires StepConforms(step, weights, biases) && ShapedLike(acc, weights, biases)
    ensures GradientSumFrom(weights, biases, step, acc, batch).Ok? <==> forall k :: 0 <= k < |batch| ==> step(batch[k]).Ok?
    ensures GradientSumFrom(weights, biases, step, acc, batch).Err? ==>
      exists k :: 0 <= k < |batch| && step(batch[k]) == Err(GradientSumFrom(weights, biases, step, acc, batch).error)
        && forall k' :: 0 <= k' < k ==> step(batch[k']).Ok?
    decreases |batch|
  {
    if |batch| > 0 && step(batch[0]).Ok? {
      var g := step(batch[0]).value;
      ShapedLikeSame(acc, g, weights, biases);
      var next := AddGradients(acc, g);
      ShapedLikeTransfer(next, acc, weights, biases);
      GradientSumFromOkIff(weights, biases, step, next, batch[1..]);
      assert forall k :: 1 <= k < |batch| ==> batch[1..][k - 1] == batch[k];
      if GradientSumFrom(weights, biases, step, next, batch[1..]).Err? {
        var k :| 0 <= k < |batch[1..]| && step(batch[1..][k]) == Err(GradientSumFrom(weights, biases, step, next, batch[1..]).error)
          && forall k' :: 0 <= k' < k ==> step(batch[1..][k']).Ok?;
        assert batch[1..][k] == batch[k + 1];
        forall k' | 0 <= k' < k + 1 ensures step(batch[k']).Ok? {
          if k' > 0 {
            assert batch[1..][k' - 1] == batch[k'];
          }
        }
      }
    }
  }

  /**
   * `trainMiniBatch` succeeds exactly when back-propagation succeeds on every
   * example of the batch; its error is that of the first failing example.
   */
  lemma BatchGradientOkIff(p: Parameters, sigma: real -> real, gradientChecking: bool, batch: seq<LabeledData>)
    requires Layered(p)
    ensures BatchGradient(p, sigma, gradientChecking, batch).Ok? <==>
      forall k :: 0 <= k < |batch| ==> BackPropagate(p, sigma, gradientChecking, batch[k].data, batch[k].labelVector).Ok?
    ensures BatchGradient(p, sigma, gradientChecking, batch).Err? ==>
      exists k :: 0 <= k < |batch|
        && BackPropagate(p, sigma, gradientChecking, batch[k].data, batch[k].labelVector)
           == Err(BatchGradient(p, sigma, gradientChecking, batch).error)
        && forall k' :: 0 <= k' < k ==> BackPropagate(p, sigma, gradientChecking, batch[k'].data, batch[k'].labelVector).Ok?
  {
    var step := ExampleStep(p, sigma, gradientChecking);
    GradientSumFromOkIff(p.weights, p.biases, step, ZeroGradient(p.weights, p.biases), batch);
    assert forall k :: 0 <= k < |batch| ==> step(batch[k]) == BackPropagate(p, sigma, gradientChecking, batch[k].data, batch[k].labelVector);
  }

  // ---------------------------------------------------------------------------
  // The in-place update.

  /** `w.matrix -= wd.matrix * rate` and `b.matrix -= bd.matrix * rate`, layer by layer. */
  function ApplyGradient(p: Parameters, g: Gradient, rate: real): (q: Parameters)
    requires ShapedLike(g, p.weights, p.biases)
    ensures SameParameterShapes(p, q)
    ensures Layered(p) ==> Layered(q) && LayerSizes(q) == LayerSizes(p)
  {
    var q := Parameters(
      seq(|p.weights|, l requires 0 <= l < |p.weights| =>
        WeightMatrix(Subtract(p.weights[l].matrix, ScalarMultiply(g.weightDecs[l].matrix, rate)))),
      seq(|p.biases|, l requires 0 <= l < |p.biases| =>
        BiasVector(Subtract(p.biases[l].matrix, ScalarMultiply(g.biasDecs[l].matrix, rate)))));
    if Layered(p) then
      SameShapesKeepLayered(p, q);
      assert LayerSizes(q) == LayerSizes(p);
      q
    else q
  }

  /** Parameters updated layer by layer, as the update loops leave them, are the update. */
  lemma ApplyGradientIs(p: Parameters, g: Gradient, rate: real, weights: seq<WeightMatrix>, biases: seq<BiasVector>)
    requires ShapedLike(g, p.weights, p.biases)
    requires |weights| == |p.weights| && |biases| == |p.biases|
    requires forall l :: 0 <= l < |weights| ==>
      weights[l] == WeightMatrix(Subtract(p.weights[l].matrix, ScalarMultiply(g.weightDecs[l].matrix, rate)))
    requires forall l :: 0 <= l < |biases| ==>
      biases[l] == BiasVector(Subtract(p.biases[l].matrix, ScalarMultiply(g.biasDecs[l].matrix, rate)))
    ensures Parameters(weights, biases) == ApplyGradient(p, g, rate)
  {
    var q := ApplyGradient(p, g, rate);
    assert weights == q.weights;
    assert biases == q.biases;
  }

  /** Every weight and bias entry moves against its gradient entry, scaled by `rate`. */
  lemma ApplyGradientEntries(p: Parameters, g: Gradient, rate: real)
    requires ShapedLike(g, p.weights, p.biases)
    ensures forall l, i, j :: 0 <= l < |p.weights| && 0 <= i < |p.weights[l].matrix| && 0 <= j < |p.weights[l].matrix[i]| ==>
      ApplyGradient(p, g, rate).weights[l].matrix[i][j] == p.weights[l].matrix[i][j] - g.weightDecs[l].matrix[i][j] * rate
    ensures forall l, i, j :: 0 <= l < |p.biases| && 0 <= i < |p.biases[l].matrix| && 0 <= j < |p.biases[l].matrix[i]| ==>
      ApplyGradient(p, g, rate).biases[l].matrix[i][j] == p.biases[l].matrix[i][j] - g.biasDecs[l].matrix[i][j] * rate
  {
  }

  /** Subtracting a scaled matrix whose scaled entries are all zero changes nothing. */
  lemma SubtractNothing(a: Matrix, b: Matrix, rate: real)
    requires SameShape(b, a)
    requires forall i, j :: 0 <= i < |b| && 0 <= j < |b[i]| ==> b[i][j] * rate == 0.0
    ensures Subtract(a, ScalarMultiply(b, rate)) == a
  {
    var r := Subtract(a, ScalarMultiply(b, rate));
    forall i | 0 <= i < |a| ensures r[i] == a[i] {
      assert |r[i]| == |a[i]|;
      forall j | 0 <= j < |a[i]| ensures r[i][j] == a[i][j] {
        assert b[i][j] * rate == 0.0;
      }
    }
  }

  /** The update changes nothing when every scaled gradient entry is zero. */
  lemma ApplyNothing(p: Parameters, g: Gradient, rate: real)
    requires ShapedLike(g, p.weights, p.biases)
    requires forall l, i, j :: 0 <= l < |g.weightDecs| && 0 <= i < |g.weightDecs[l].matrix| && 0 <= j < |g.weightDecs[l].matrix[i]|
               ==> g.weightDecs[l].matrix[i][j] * rate == 0.0
    requires forall l, i, j :: 0 <= l < |g.biasDecs| && 0 <= i < |g.biasDecs[l].matrix| && 0 <= j < |g.biasDecs[l].matrix[i]|
               ==> g.biasDecs[l].matrix[i][j] * rate == 0.0
    ensures ApplyGradient(p, g, rate) == p
  {
    var q := ApplyGradient(p, g, rate);
    forall l | 0 <= l < |p.weights| ensures q.weights[l] == p.weights[l] {
      SubtractNothing(p.weights[l].matrix, g.weightDecs[l].matrix, rate);
    }
    forall l | 0 <= l < |p.biases| ensures q.biases[l] == p.biases[l] {
      SubtractNothing(p.biases[l].matrix, g.biasDecs[l].matrix, rate);
    }
    assert q.weights == p.weights && q.biases == p.biases;
  }

  /** A rate of zero leaves the parameters as they are. */
  lemma ApplyZeroRate(p: Parameters, g: Gradient)
    requires ShapedLike(g, p.weights, p.biases)
    ensures ApplyGradient(p, g, 0.0) == p
  {
    ApplyNothing(p, g, 0.0);
  }

  /** A zero gradient leaves the parameters as they are, whatever the rate. */
  lemma ApplyZeroGradient(p: Parameters, rate: real)
    ensures ApplyGradient(p, ZeroGradient(p.weights, p.biases), rate) == p
  {
    ApplyNothing(p, ZeroGradient(p.weights, p.biases), rate);
  }

  // ---------------------------------------------------------------------------
  // Batches and epochs.

  /** The rate of one batch: the learning rate divided by the batch size. */
  function BatchRate(learningRate: real, batch: seq<LabeledData>): (r: real)
    requires |batch| >= 1
  {
    learningRate / (|batch| as real)
  }

  /** The body of the batch loop: the fork-join gradient of `batch`, then the update. */
  function BatchStep(p: Parameters, sigma: real -> real, learningRate: real, gradientChecking: bool, batch: seq<LabeledData>)
    : (r: Result<Parameters, NetworkError>)
    requires Layered(p) && |batch| >= 1
    ensures r.Ok? ==> Layered(r.value) && LayerSizes(r.value) == LayerSizes(p)
  {
    var g :- DataForkJoinTask.Reduce(batch, p.weights, p.biases, TrainLeaf(p, sigma, gradientChecking));
    Ok(ApplyGradient(p, g, BatchRate(learningRate, batch)))
  }

  /** Forking does not matter: a batch step applies the sequential `trainMiniBatch` sum of the batch. */
  lemma BatchStepIsSequential(p: Parameters, sigma: real -> real, learningRate: real, gradientChecking: bool, batch: seq<LabeledData>)
    requires Layered(p) && |batch| >= 1
    ensures var g := BatchGradient(p, sigma, gradientChecking, batch);
      BatchStep(p, sigma, learningRate, gradientChecking, batch)
        == if g.Err? then Err(g.error) else Ok(ApplyGradient(p, g.value, BatchRate(learningRate, batch)))
  {
    ReduceIsBatchGradient(p, sigma, gradientChecking, batch);
  }

  /** The state after running a sequence of batches, and how the run ended. */
  datatype Progress = Progress(parameters: Parameters, outcome: Outcome<NetworkError>)

  /** The batch loop of one epoch: batches in order; an exception stops it with the updates so far. */
  function RunBatches(p: Parameters, sigma: real -> real, learningRate: real, gradientChecking: bool, batches: seq<seq<LabeledData>>)
    : (r: Progress)
    requires Layered(p) && forall k :: 0 <= k < |batches| ==> |batches[k]| >= 1
    ensures Layered(r.parameters) && LayerSizes(r.parameters) == LayerSizes(p)
    decreases |batches|
  {
    if |batches| == 0 then Progress(p, Pass)
    else
      var s := BatchStep(p, sigma, learningRate, gradientChecking, batches[0]);
      if s.Err? then Progress(p, Fail(s.error))
      else RunBatches(s.value, sigma, learningRate, gradientChecking, batches[1..])
  }

  /** Concatenating two lists of non-empty batches gives a list of non-empty batches. */
  lemma NonEmptyConcat(x: seq<seq<LabeledData>>, y: seq<seq<LabeledData>>)
    requires forall k :: 0 <= k < |x| ==> |x[k]| >= 1
    requires forall k :: 0 <= k < |y| ==> |y[k]| >= 1
    ensures forall k :: 0 <= k < |x + y| ==> |(x + y)[k]| >= 1
  {
    assert forall k :: 0 <= k < |x + y| ==> (x + y)[k] == if k < |x| then x[k] else y[k - |x|];
  }

  /** Running two lists of batches one after the other is running their concatenation. */
  lemma {:induction false} RunBatchesAppend(p: Parameters, sigma: real -> real, learningRate: real, gradientChecking: bool,
                                            x: seq<seq<LabeledData>>, y: seq<seq<LabeledData>>)
    requires Layered(p)
    requires forall k :: 0 <= k < |x| ==> |x[k]| >= 1
    requires forall k :: 0 <= k < |y| ==> |y[k]| >= 1
    ensures forall k :: 0 <= k < |x + y| ==> |(x + y)[k]| >= 1
    ensures var first := RunBatches(p, sigma, learningRate, gradientChecking, x);
      RunBatches(p, sigma, learningRate, gradientChecking, x + y)
        == if first.outcome.Fail? then first else RunBatches(first.parameters, sigma, learningRate, gradientChecking, y)
    decreases |x|
  {
    NonEmptyConcat(x, y);
    if |x| == 0 {
      assert x + y == y;
    } else {
      assert (x + y)[0] == x[0];
      assert (x + y)[1..] == x[1..] + y;
      var s := BatchStep(p, sigma, learningRate, gradientChecking, x[0]);
      if s.Ok? {
        RunBatchesAppend(s.value, sigma, learningRate, gradientChecking, x[1..], y);
      }
    }
  }

  /** With a learning rate of zero no batch changes the parameters. */
  lemma {:induction false} RunBatchesZeroRate(p: Parameters, sigma: real -> real, gradientChecking: bool, batches: seq<seq<LabeledData>>)
    requires Layered(p) && forall k :: 0 <= k < |batches| ==> |batches[k]| >= 1
    ensures RunBatches(p, sigma, 0.0, gradientChecking, batches).parameters == p
    decreases |batches|
  {
    if |batches| > 0 {
      var s := BatchStep(p, sigma, 0.0, gradientChecking, batches[0]);
      if s.Ok? {
        var g := DataForkJoinTask.Reduce(batches[0], p.weights, p.biases, TrainLeaf(p, sigma, gradientChecking));
        assert BatchRate(0.0, batches[0]) == 0.0;
        ApplyZeroRate(p, g.value);
        RunBatchesZeroRate(s.value, sigma, gradientChecking, batches[1..]);
      }
    }
  }

  /** One epoch on already shuffled data: `split(miniBatchSize)`, then the batch loop. */
  function RunEpoch(p: Parameters, sigma: real -> real, learningRate: real, gradientChecking: bool,
                    data: seq<LabeledData>, miniBatchSize: int): (r: Progress)
    requires Layered(p)
    ensures Layered(r.parameters) && LayerSizes(r.parameters) == LayerSizes(p)
  {
    LangUtils.BatchSizes(data, miniBatchSize);
    RunBatches(p, sigma, learningRate, gradientChecking, LangUtils.Batches(data, miniBatchSize))
  }

  /** `trainingData.shuffle()` in epoch `epoch`: the data after the shuffle (a random permutation). */
  type Shuffle = (int, seq<LabeledData>) -> seq<LabeledData>

  /** Every shuffle rearranges the data without adding or losing examples. */
  ghost predicate Permutes(shuffle: Shuffle) {
    forall epoch, data :: multiset(shuffle(epoch, data)) == multiset(data)
  }

  /** What the batch loop of one epoch does to the parameters, given the shuffled data. */
  type EpochRun = (Parameters, seq<LabeledData>) -> Progress

  /** An epoch of a layered network leaves it layered, with the same layer sizes. */
  ghost predicate KeepsLayers(run: EpochRun) {
    forall q, data :: Layered(q) ==> Layered(run(q, data).parameters) && LayerSizes(run(q, data).parameters) == LayerSizes(q)
  }

  /** The epoch of a network with these settings: `RunEpoch` (training only ever sees layered parameters). */
  function NetworkEpoch(sigma: real -> real, learningRate: real, gradientChecking: bool, miniBatchSize: int): (run: EpochRun)
    ensures KeepsLayers(run)
  {
    (q: Parameters, data: seq<LabeledData>) =>
      if Layered(q) then RunEpoch(q, sigma, learningRate, gradientChecking, data, miniBatchSize) else Progress(q, Pass)
  }

  /** On layered parameters the epoch is `RunEpoch`, so it keeps the layers. */
  lemma NetworkEpochLaw(sigma: real -> real, learningRate: real, gradientChecking: bool, miniBatchSize: int)
    ensures KeepsLayers(NetworkEpoch(sigma, learningRate, gradientChecking, miniBatchSize))
    ensures forall q, data :: Layered(q) ==>
      NetworkEpoch(sigma, learningRate, gradientChecking, miniBatchSize)(q, data)
        == RunEpoch(q, sigma, learningRate, gradientChecking, data, miniBatchSize)
  {
  }

  /**
   * The state of `miniBatchGradientDescent`: the parameters, the training list
   * (shuffled in place), the epochs passed to `eachEpoch` so far, and whether an
   * exception ended training.
   */
  datatype TrainingState = TrainingState(parameters: Parameters, data: seq<LabeledData>, reported: seq<int>,
                                         outcome: Outcome<NetworkError>)

  /**
   * The epochs `epoch`, `epoch` + 1, ..., `epochs` of the loop, from state `s`:
   * shuffle, run the batches, report the epoch; an exception ends the loop
   * before the report.
   */
  function EpochsFrom(s: TrainingState, run: EpochRun, shuffle: Shuffle, epoch: int, epochs: int): (r: TrainingState)
    ensures KeepsLayers(run) && Layered(s.parameters) ==> Layered(r.parameters) && LayerSizes(r.parameters) == LayerSizes(s.parameters)
    decreases epochs - epoch
  {
    if epoch > epochs then s
    else
      var data := shuffle(epoch, s.data);
      var progress := run(s.parameters, data);
      if progress.outcome.Fail? then TrainingState(progress.parameters, data, s.reported, progress.outcome)
      else EpochsFrom(TrainingState(progress.parameters, data, s.reported + [epoch], Pass), run, shuffle, epoch + 1, epochs)
  }

  /** `train(trainingData, epochs, miniBatchSize, eachEpoch)`: epochs 1 to `epochs`. */
  function Train(p: Parameters, sigma: real -> real, learningRate: real, gradientChecking: bool, shuffle: Shuffle,
                 data: seq<LabeledData>, epochs: int, miniBatchSize: int): (r: TrainingState)
    requires Layered(p)
    ensures Layered(r.parameters) && LayerSizes(r.parameters) == LayerSizes(p)
  {
    NetworkEpochLaw(sigma, learningRate, gradientChecking, miniBatchSize);
    EpochsFrom(TrainingState(p, data, [], Pass), NetworkEpoch(sigma, learningRate, gradientChecking, miniBatchSize), shuffle, 1, epochs)
  }

  /** The `count` consecutive epoch numbers from `first` on. */
  function EpochRange(first: int, count: nat): (r: seq<int>)
    decreases count
    ensures |r| == count
    ensures forall i :: 0 <= i < count ==> r[i] == first + i
  {
    if count == 0 then [] else [first] + EpochRange(first + 1, count - 1)
  }

  /**
   * Epochs are reported in order, each once it has finished: a run that
   * completes reports every epoch, a run that fails stops before reporting
   * the failing epoch.
   */
  lemma {:induction false} EpochsFromReports(s: TrainingState, run: EpochRun, shuffle: Shuffle, epoch: int, epochs: int)
    ensures var r := EpochsFrom(s, run, shuffle, epoch, epochs);
      && |s.reported| <= |r.reported|
      && r.reported == s.reported + EpochRange(epoch, |r.reported| - |s.reported|)
      && (r.outcome.Pass? ==> (s.outcome.Pass? || epoch <= epochs)
                              && |r.reported| - |s.reported| == if epoch <= epochs then epochs - epoch + 1 else 0)
      && (r.outcome.Fail? && epoch <= epochs ==> |r.reported| - |s.reported| <= epochs - epoch)
    decreases epochs - epoch
  {
    if epoch <= epochs {
      var data := shuffle(epoch, s.data);
      var progress := run(s.parameters, data);
      if progress.outcome.Pass? {
        var next := TrainingState(progress.parameters, data, s.reported + [epoch], Pass);
        EpochsFromReports(next, run, shuffle, epoch + 1, epochs);
        var n := |EpochsFrom(next, run, shuffle, epoch + 1, epochs).reported| - |next.reported|;
        assert s.reported + [epoch] + EpochRange(epoch + 1, n) == s.reported + EpochRange(epoch, n + 1);
      }
    } else {
      assert s.reported + EpochRange(epoch, 0) == s.reported;
    }
  }

  /** From epoch 1 and nothing reported: the epochs reported are 1, 2, ..., all of them unless an epoch failed. */
  lemma EpochsFromOneReports(s: TrainingState, run: EpochRun, shuffle: Shuffle, epochs: int)
    requires s.reported == [] && s.outcome.Pass?
    ensures var r := EpochsFrom(s, run, shuffle, 1, epochs);
      && r.reported == EpochRange(1, |r.reported|)
      && (r.outcome.Pass? ==> |r.reported| == if epochs >= 1 then epochs else 0)
      && (r.outcome.Fail? ==> |r.reported| < epochs)
  {
    EpochsFromReports(s, run, shuffle, 1, epochs);
    if epochs < 1 {
      assert EpochsFrom(s, run, shuffle, 1, epochs) == s;
    }
  }

  /**
   * `eachEpoch` sees 1, 2, ..., in order: all `epochs` of them when training
   * completes, and only the epochs before the failing one when it fails.
   */
  lemma TrainReports(p: Parameters, sigma: real -> real, learningRate: real, gradientChecking: bool, shuffle: Shuffle,
                     data: seq<LabeledData>, epochs: int, miniBatchSize: int)
    requires Layered(p)
    ensures var r := Train(p, sigma, learningRate, gradientChecking, shuffle, data, epochs, miniBatchSize);
      && r.reported == EpochRange(1, |r.reported|)
      && (r.outcome.Pass? ==> |r.reported| == if epochs >= 1 then epochs else 0)
      && (r.outcome.Fail? ==> |r.reported| < epochs)
  {
    EpochsFromOneReports(TrainingState(p, data, [], Pass), NetworkEpoch(sigma, learningRate, gradientChecking, miniBatchSize),
                         shuffle, epochs);
  }

  /** A shuffle that permutes keeps the training data a permutation of the original, epoch after epoch. */
  lemma {:induction false} EpochsFromPermutes(s: TrainingState, run: EpochRun, shuffle: Shuffle, epoch: int, epochs: int)
    requires Permutes(shuffle)
    ensures multiset(EpochsFrom(s, run, shuffle, epoch, epochs).data) == multiset(s.data)
    decreases epochs - epoch
  {
    if epoch <= epochs {
      var data := shuffle(epoch, s.data);
      assert multiset(data) == multiset(s.data);
      var progress := run(s.parameters, data);
      if progress.outcome.Pass? {
        EpochsFromPermutes(TrainingState(progress.parameters, data, s.reported + [epoch], Pass), run, shuffle, epoch + 1, epochs);
      }
    }
  }

  lemma TrainPermutes(p: Parameters, sigma: real -> real, learningRate: real, gradientChecking: bool, shuffle: Shuffle,
                      data: seq<LabeledData>, epochs: int, miniBatchSize: int)
    requires Layered(p) && Permutes(shuffle)
    ensures multiset(Train(p, sigma, learningRate, gradientChecking, shuffle, data, epochs, miniBatchSize).data) == multiset(data)
  {
    EpochsFromPermutes(TrainingState(p, data, [], Pass), NetworkEpoch(sigma, learningRate, gradientChecking, miniBatchSize),
                       shuffle, 1, epochs);
  }

  /** Epochs that never move the parameters leave them where they started. */
  lemma {:induction false} EpochsFromStill(s: TrainingState, run: EpochRun, shuffle: Shuffle, epoch: int, epochs: int)
    requires forall q, data :: run(q, data).parameters == q
    ensures EpochsFrom(s, run, shuffle, epoch, epochs).parameters == s.parameters
    decreases epochs - epoch
  {
    if epoch <= epochs {
      var data := shuffle(epoch, s.data);
      var progress := run(s.parameters, data);
      if progress.outcome.Pass? {
        EpochsFromStill(TrainingState(progress.parameters, data, s.reported + [epoch], Pass), run, shuffle, epoch + 1, epochs);
      }
    }
  }

  /** An epoch count below 1 is not rejected: no epoch runs, nothing is reported, and nothing changes. */
  lemma TrainNoEpochs(p: Parameters, sigma: real -> real, learningRate: real, gradientChecking: bool, shuffle: Shuffle,
                      data: seq<LabeledData>, epochs: int, miniBatchSize: int)
    requires Layered(p) && epochs < 1
    ensures Train(p, sigma, learningRate, gradientChecking, shuffle, data, epochs, miniBatchSize)
         == TrainingState(p, data, [], Pass)
  {
  }

  /** With a learning rate of zero training never changes the parameters, however it ends. */
  lemma TrainZeroRate(p: Parameters, sigma: real -> real, gradientChecking: bool, shuffle: Shuffle,
                      data: seq<LabeledData>, epochs: int, miniBatchSize: int)
    requires Layered(p)
    ensures Train(p, sigma, 0.0, gradientChecking, shuffle, data, epochs, miniBatchSize).parameters == p
  {
    var run := NetworkEpoch(sigma, 0.0, gradientChecking, miniBatchSize);
    NetworkEpochLaw(sigma, 0.0, gradientChecking, miniBatchSize);
    forall q, data | true ensures run(q, data).parameters == q {
      if Layered(q) {
        LangUtils.BatchSizes(data, miniBatchSize);
        RunBatchesZeroRate(q, sigma, gradientChecking, LangUtils.Batches(data, miniBatchSize));
      }
    }
    EpochsFromStill(TrainingState(p, data, [], Pass), run, shuffle, 1, epochs);
  }
}
