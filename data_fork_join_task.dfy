/**
 * The divide-and-conquer gradient reducer of DataForkJoinTask.kt, run
 * sequentially: a work list below the threshold goes to the leaf function
 * (`trainMiniBatch`); a longer one is halved, both halves are reduced, and
 * their results are added into zero accumulators, left half first.
 */
module DataForkJoinTask {
  import opened Results
  import opened LinearAlgebra
  import opened NetworkTypes
  import LangUtils

  /** Work lists shorter than this go straight to the leaf function. */
  const Threshold: nat := 5

  type Leaf = seq<LabeledData> -> Result<Gradient, NetworkError>

  /** Every gradient the leaf function returns has one entry per layer, shaped like the parameters. */
  ghost predicate LeafConforms(leaf: Leaf, weights: seq<WeightMatrix>, biases: seq<BiasVector>) {
    forall work :: leaf(work).Ok? ==> ShapedLike(leaf(work).value, weights, biases)
  }

  /** The zero accumulators with the left result added, then the right one. */
  function Merge(weights: seq<WeightMatrix>, biases: seq<BiasVector>, left: Gradient, right: Gradient): (r: Gradient)
    requires ShapedLike(left, weights, biases) && ShapedLike(right, weights, biases)
  {
    var zero := ZeroGradient(weights, biases);
    ShapedLikeSame(zero, left, weights, biases);
    ShapedLikeSame(zero, right, weights, biases);
    AddGradients(AddGradients(zero, left), right)
  }

  /** What `compute` returns for `work`. */
  function Reduce(work: seq<LabeledData>, weights: seq<WeightMatrix>, biases: seq<BiasVector>, leaf: Leaf)
    : (r: Result<Gradient, NetworkError>)
    requires LeafConforms(leaf, weights, biases)
    ensures r.Ok? ==> ShapedLike(r.value, weights, biases)
    decreases |work|
  {
    if |work| < Threshold then leaf(work)
    else
      var mid := |work| / 2;
      var left :- Reduce(work[..mid], weights, biases, leaf);
      var right :- Reduce(work[mid..], weights, biases, leaf);
      Ok(Merge(weights, biases, left, right))
  }

  /** `compute`, with the two sub-tasks run one after the other instead of forked. */
  method Compute(work: seq<LabeledData>, weights: seq<WeightMatrix>, biases: seq<BiasVector>, leaf: Leaf)
    returns (r: Result<Gradient, NetworkError>)
    requires LeafConforms(leaf, weights, biases)
    ensures r == Reduce(work, weights, biases, leaf)
    decreases |work|
  {
    if |work| < Threshold {
      return leaf(work);
    }
    var acc := ZeroGradient(weights, biases);
    var mid := |work| / 2;
    var left := Compute(work[..mid], weights, biases, leaf);
    var right := Compute(work[mid..], weights, biases, leaf);
    if left.Err? { return Err(left.error); }
    ShapedLikeSame(acc, left.value, weights, biases);
    acc := AccumulateGradient(acc, left.value);
    if right.Err? { return Err(right.error); }
    ShapedLikeSame(acc, right.value, weights, biases);
    acc := AccumulateGradient(acc, right.value);
    return Ok(acc);
  }

  // ---------------------------------------------------------------------------
  // Properties of the split.

  /** The two halves of a work list at or above the threshold cover it in order, and both are shorter. */
  lemma HalvesPartition(work: seq<LabeledData>)
    requires |work| >= Threshold
    ensures work[..|work| / 2] + work[|work| / 2..] == work
    ensures 0 < |work[..|work| / 2]| < |work| && 0 < |work[|work| / 2..]| < |work|
  {
  }

  /** Below the threshold there is no split: the result is the leaf's. */
  lemma BelowThreshold(work: seq<LabeledData>, weights: seq<WeightMatrix>, biases: seq<BiasVector>, leaf: Leaf)
    requires LeafConforms(leaf, weights, biases)
    requires |work| < Threshold
    ensures Reduce(work, weights, biases, leaf) == leaf(work)
  {
  }

  /** The work lists the leaf function is called with, left to right. */
  function LeafCalls(work: seq<LabeledData>): (calls: seq<seq<LabeledData>>)
    ensures forall i :: 0 <= i < |calls| ==> |calls[i]| < Threshold
    decreases |work|
  {
    if |work| < Threshold then [work]
    else LeafCalls(work[..|work| / 2]) + LeafCalls(work[|work| / 2..])
  }

  /** Every example reaches exactly one leaf call, in order: the leaf inputs concatenate to `work`. */
  lemma {:induction false} LeafCallsPartition(work: seq<LabeledData>)
    ensures LangUtils.Flatten(LeafCalls(work)) == work
    decreases |work|
  {
    if |work| >= Threshold {
      var mid := |work| / 2;
      LeafCallsPartition(work[..mid]);
      LeafCallsPartition(work[mid..]);
      LangUtils.FlattenAppend(LeafCalls(work[..mid]), LeafCalls(work[mid..]));
      assert work[..mid] + work[mid..] == work;
    }
  }

  /**
   * `LeafCalls` lists every input `Reduce` gives the leaf function: two leaf
   * functions that agree on those lists give the same reduction.
   */
  lemma {:induction false} ReduceUsesLeafCalls(work: seq<LabeledData>, weights: seq<WeightMatrix>, biases: seq<BiasVector>,
                                               leaf: Leaf, leaf': Leaf)
    requires LeafConforms(leaf, weights, biases) && LeafConforms(leaf', weights, biases)
    requires forall c :: c in LeafCalls(work) ==> leaf(c) == leaf'(c)
    ensures Reduce(work, weights, biases, leaf) == Reduce(work, weights, biases, leaf')
    decreases |work|
  {
    if |work| < Threshold {
      assert work in LeafCalls(work);
    } else {
      var mid := |work| / 2;
      assert forall c :: c in LeafCalls(work[..mid]) ==> c in LeafCalls(work);
      assert forall c :: c in LeafCalls(work[mid..]) ==> c in LeafCalls(work);
      ReduceUsesLeafCalls(work[..mid], weights, biases, leaf, leaf');
      ReduceUsesLeafCalls(work[mid..], weights, biases, leaf, leaf');
    }
  }

  // ---------------------------------------------------------------------------
  // With an additive leaf the reducer computes the leaf of the whole list.

  /** Both results, or the first error: left, then right. */
  function Combine(a: Result<Gradient, NetworkError>, b: Result<Gradient, NetworkError>): (r: Result<Gradient, NetworkError>)
    requires a.Ok? && b.Ok? ==> SameShapes(a.value, b.value)
  {
    var x :- a;
    var y :- b;
    Ok(AddGradients(x, y))
  }

  /** Splitting the input anywhere and adding the two results gives the result for the whole input. */
  ghost predicate Additive(leaf: Leaf, weights: seq<WeightMatrix>, biases: seq<BiasVector>)
    requires LeafConforms(leaf, weights, biases)
  {
    forall work: seq<LabeledData>, k: int ::
      0 <= k <= |work| ==> leaf(work) == Combine(leaf(work[..k]), leaf(work[k..]))
  }

  lemma MergeIsSum(weights: seq<WeightMatrix>, biases: seq<BiasVector>, left: Gradient, right: Gradient)
    requires ShapedLike(left, weights, biases) && ShapedLike(right, weights, biases)
    ensures SameShapes(left, right)
    ensures Merge(weights, biases, left, right) == AddGradients(left, right)
  {
    var zero := ZeroGradient(weights, biases);
    ShapedLikeSame(zero, left, weights, biases);
    ShapedLikeSame(left, right, weights, biases);
    AddZeroGradientLeft(zero, left);
  }

  /** The reducer is transparent: for an additive leaf it returns the leaf's result for all of `work`. */
  lemma {:induction false} ReduceOfAdditive(work: seq<LabeledData>, weights: seq<WeightMatrix>, biases: seq<BiasVector>, leaf: Leaf)
    requires LeafConforms(leaf, weights, biases)
    requires Additive(leaf, weights, biases)
    ensures Reduce(work, weights, biases, leaf) == leaf(work)
    decreases |work|
  {
    if |work| >= Threshold {
      var mid := |work| / 2;
      ReduceOfAdditive(work[..mid], weights, biases, leaf);
      ReduceOfAdditive(work[mid..], weights, biases, leaf);
      assert leaf(work) == Combine(leaf(work[..mid]), leaf(work[mid..]));
      var left, right := leaf(work[..mid]), leaf(work[mid..]);
      if left.Ok? && right.Ok? {
        MergeIsSum(weights, biases, left.value, right.value);
      }
    }
  }
}
