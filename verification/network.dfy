/**
 The network's state: weight matrices, bias vectors and activation
 buffers, and the choice of execution strategy.

 A weight matrix row is indexed by the layer's input unit and a column by
 its output unit: hiddenWeights[j][i] connects input j to hidden unit i,
 outputWeights[i][k] connects hidden unit i to output unit k.
 */
module Network {
  import opened Linear
  import opened Schedule

  datatype Params = Params(
    hiddenWeights: seq<seq<real>>,
    outputWeights: seq<seq<real>>,
    hiddenBias: seq<real>,
    outputBias: seq<real>)
  {
    function NumInputs(): nat {
      |hiddenWeights|
    }

    function NumHidden(): nat {
      |hiddenBias|
    }

    function NumOutputs(): nat {
      |outputBias|
    }

    /** The matrix dimensions agree with the layer sizes. */
    predicate WellFormed() {
      && IsMatrix(hiddenWeights, NumInputs(), NumHidden())
      && IsMatrix(outputWeights, NumHidden(), NumOutputs())
    }

    predicate SameShape(other: Params) {
      && other.NumInputs() == NumInputs()
      && other.NumHidden() == NumHidden()
      && other.NumOutputs() == NumOutputs()
      && other.WellFormed() == WellFormed()
    }
  }

  /** The activation buffers: one value per hidden and per output unit. */
  datatype Layers = Layers(hidden: seq<real>, output: seq<real>)

  predicate LayersFit(p: Params, l: Layers) {
    |l.hidden| == p.NumHidden() && |l.output| == p.NumOutputs()
  }

  /** The execution strategies selectable on the command line. */
  datatype Mode = Sequential | Parallel | Simd

  /** How one run of an engine's loops went: the order in which the per-unit
      iterations of the hidden-layer loop and of the output-layer loop
      stored their results, and how inner sums were reduced. */
  datatype Run = Run(hiddenOrder: seq<nat>, outputOrder: seq<nat>, reduction: Reduction)

  /** The runs each strategy can produce on a network with the given layer
      sizes: the scalar code runs iterations in index order and sums in
      order; the thread-parallel code runs them in any order, once each;
      the vectorised code does that too and reduces inner sums over lanes. */
  ghost predicate Admissible(mode: Mode, run: Run, numHidden: nat, numOutputs: nat) {
    match mode
    case Sequential =>
      run.hiddenOrder == Range(numHidden) && run.outputOrder == Range(numOutputs) && run.reduction == InOrder
    case Parallel =>
      IsPermutation(run.hiddenOrder, numHidden) && IsPermutation(run.outputOrder, numOutputs) && run.reduction == InOrder
    case Simd =>
      IsPermutation(run.hiddenOrder, numHidden) && IsPermutation(run.outputOrder, numOutputs)
      && run.reduction.Lanes? && run.reduction.width > 0
  }

  /** Every admissible run runs each iteration once and reduces validly. */
  lemma AdmissibleRun(mode: Mode, run: Run, numHidden: nat, numOutputs: nat)
    requires Admissible(mode, run, numHidden, numOutputs)
    ensures IsPermutation(run.hiddenOrder, numHidden) && IsPermutation(run.outputOrder, numOutputs)
    ensures run.reduction.Valid()
  {
    if mode.Sequential? {
      RangeIsPermutation(numHidden);
      RangeIsPermutation(numOutputs);
    }
  }
}
