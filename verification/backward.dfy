/**
 Backpropagation: one step of online gradient descent on the squared error
 of a single sample, and its three execution strategies.

 All deltas are computed before any weight is touched, so the hidden deltas
 read the output weights as they were before the step. The four update
 loops then add lr-scaled gradient terms in place.
 */
module Backward {
  import opened Linear
  import opened Schedule
  import opened Activation
  import opened Network
  import opened Forward

  /** The vectors a backpropagation call reads have the network's sizes. */
  predicate SampleFits(p: Params, inputs: seq<real>, target: seq<real>, l: Layers) {
    InputFits(p, inputs) && |target| == p.NumOutputs() && LayersFit(p, l)
  }

  /** deltaOutput[k] = (target[k] - output[k]) * sigma'(output[k]). */
  function OutputDeltas(target: seq<real>, output: seq<real>): (d: seq<real>)
    requires |target| == |output|
    ensures |d| == |output|
  {
    seq(|output|, k requires 0 <= k < |output| => (target[k] - output[k]) * DSigmoid(output[k]))
  }

  /** deltaHidden[i] = (sum_k deltaOutput[k] * outputWeights[i][k]) *
      sigma'(hidden[i]), the inner sum reduced as `red` says. */
  function HiddenDeltas(outputWeights: seq<seq<real>>, hidden: seq<real>, deltaOutput: seq<real>, red: Reduction): (d: seq<real>)
    requires IsMatrix(outputWeights, |hidden|, |deltaOutput|) && red.Valid()
    ensures |d| == |hidden|
  {
    seq(|hidden|, i requires 0 <= i < |hidden| =>
      Reduce(red, RowTerms(deltaOutput, outputWeights, i)) * DSigmoid(hidden[i]))
  }

  /** The two delta vectors of a backpropagation call. */
  datatype Deltas = Deltas(output: seq<real>, hidden: seq<real>)

  predicate DeltasFit(p: Params, d: Deltas) {
    |d.output| == p.NumOutputs() && |d.hidden| == p.NumHidden()
  }

  /** The delta phase as a formula, reading the parameters `p` as given. */
  function ComputeDeltas(p: Params, target: seq<real>, l: Layers, red: Reduction): (d: Deltas)
    requires p.WellFormed() && |target| == p.NumOutputs() && LayersFit(p, l) && red.Valid()
    ensures DeltasFit(p, d)
  {
    var deltaOutput := OutputDeltas(target, l.output);
    Deltas(deltaOutput, HiddenDeltas(p.outputWeights, l.hidden, deltaOutput, red))
  }

  /** The update phase as a formula:
        outputBias[k]       += deltaOutput[k] * lr
        outputWeights[j][k] += hidden[j] * deltaOutput[k] * lr
        hiddenBias[i]       += deltaHidden[i] * lr
        hiddenWeights[j][i] += inputs[j] * deltaHidden[i] * lr. */
  function UpdateParams(p: Params, inputs: seq<real>, l: Layers, d: Deltas, lr: real): (q: Params)
    requires InputFits(p, inputs) && LayersFit(p, l) && DeltasFit(p, d)
    ensures q.WellFormed() && p.SameShape(q)
  {
    Params(
      MatrixAdd(p.hiddenWeights, Outer(inputs, d.hidden, lr), p.NumInputs(), p.NumHidden()),
      MatrixAdd(p.outputWeights, Outer(l.hidden, d.output, lr), p.NumHidden(), p.NumOutputs()),
      VectorAdd(p.hiddenBias, Scaled(d.hidden, lr)),
      VectorAdd(p.outputBias, Scaled(d.output, lr)))
  }

  /** The backpropagation step as a formula: every delta is computed from
      the parameters before the step, then every parameter is updated. */
  function Backprop(p: Params, inputs: seq<real>, target: seq<real>, l: Layers, lr: real): (q: Params)
    requires SampleFits(p, inputs, target, l)
    ensures q.WellFormed() && p.SameShape(q)
  {
    UpdateParams(p, inputs, l, ComputeDeltas(p, target, l, InOrder), lr)
  }

  /** Cell by cell: each delta is read from the parameters before the step,
      in particular deltaHidden from the output weights before their
      update. */
  lemma DeltaCells(p: Params, target: seq<real>, l: Layers)
    requires p.WellFormed() && |target| == p.NumOutputs() && LayersFit(p, l)
    ensures forall k :: 0 <= k < p.NumOutputs() ==>
      ComputeDeltas(p, target, l, InOrder).output[k] == (target[k] - l.output[k]) * DSigmoid(l.output[k])
    ensures forall i :: 0 <= i < p.NumHidden() ==>
      ComputeDeltas(p, target, l, InOrder).hidden[i]
        == Sum(RowTerms(ComputeDeltas(p, target, l, InOrder).output, p.outputWeights, i)) * DSigmoid(l.hidden[i])
  {
    var d := ComputeDeltas(p, target, l, InOrder);
    var dOut := OutputDeltas(target, l.output);
    var dHidden := HiddenDeltas(p.outputWeights, l.hidden, dOut, InOrder);
    assert d == Deltas(dOut, dHidden);
    forall i | 0 <= i < p.NumHidden()
      ensures dHidden[i] == Sum(RowTerms(dOut, p.outputWeights, i)) * DSigmoid(l.hidden[i])
    {
    }
  }

  /** Cell by cell: every bias and weight gains exactly its own increment,
      computed from the deltas, the activations and the inputs. */
  lemma UpdateCells(p: Params, inputs: seq<real>, l: Layers, d: Deltas, lr: real)
    requires InputFits(p, inputs) && LayersFit(p, l) && DeltasFit(p, d)
    ensures forall k :: 0 <= k < p.NumOutputs() ==>
      UpdateParams(p, inputs, l, d, lr).outputBias[k] == p.outputBias[k] + d.output[k] * lr
    ensures forall j, k :: 0 <= j < p.NumHidden() && 0 <= k < p.NumOutputs() ==>
      UpdateParams(p, inputs, l, d, lr).outputWeights[j][k] == p.outputWeights[j][k] + l.hidden[j] * d.output[k] * lr
    ensures forall i :: 0 <= i < p.NumHidden() ==>
      UpdateParams(p, inputs, l, d, lr).hiddenBias[i] == p.hiddenBias[i] + d.hidden[i] * lr
    ensures forall j, i :: 0 <= j < p.NumInputs() && 0 <= i < p.NumHidden() ==>
      UpdateParams(p, inputs, l, d, lr).hiddenWeights[j][i] == p.hiddenWeights[j][i] + inputs[j] * d.hidden[i] * lr
  {
  }

  /** One execution of the delta phase: the two delta loops store into
      scratch buffers of arbitrary initial contents, in the orders of `run`. */
  function DeltaRun(p: Params, target: seq<real>, l: Layers, scratch: Deltas, run: Run): (d: Deltas)
    requires p.WellFormed() && |target| == p.NumOutputs() && LayersFit(p, l) && DeltasFit(p, scratch)
    requires run.reduction.Valid()
    requires InBounds(run.hiddenOrder, p.NumHidden()) && InBounds(run.outputOrder, p.NumOutputs())
    ensures DeltasFit(p, d)
  {
    var deltaOutput := Scatter(scratch.output, run.outputOrder, OutputDeltas(target, l.output));
    var deltaHidden := Scatter(scratch.hidden, run.hiddenOrder,
                               HiddenDeltas(p.outputWeights, l.hidden, deltaOutput, run.reduction));
    Deltas(deltaOutput, deltaHidden)
  }

  /** One execution of the update phase, in the orders of `run`: iteration k
      of the output loop writes outputBias[k] and column k of outputWeights,
      iteration i of the hidden loop writes hiddenBias[i] and column i of
      hiddenWeights, each cell by a read-add-store of its current value. */
  function UpdateRun(p: Params, inputs: seq<real>, l: Layers, d: Deltas, lr: real, run: Run): (q: Params)
    requires InputFits(p, inputs) && LayersFit(p, l) && DeltasFit(p, d)
    requires InBounds(run.hiddenOrder, p.NumHidden()) && InBounds(run.outputOrder, p.NumOutputs())
    ensures q.WellFormed() && p.SameShape(q)
  {
    Params(
      AccumulateColumns(p.hiddenWeights, p.NumInputs(), p.NumHidden(), run.hiddenOrder, Outer(inputs, d.hidden, lr)),
      AccumulateColumns(p.outputWeights, p.NumHidden(), p.NumOutputs(), run.outputOrder, Outer(l.hidden, d.output, lr)),
      Accumulate(p.hiddenBias, run.hiddenOrder, Scaled(d.hidden, lr)),
      Accumulate(p.outputBias, run.outputOrder, Scaled(d.output, lr)))
  }

  /** One execution of a backpropagation strategy: the delta phase, then the
      update phase. */
  function BackpropRun(p: Params, inputs: seq<real>, target: seq<real>, l: Layers, lr: real,
                       scratch: Deltas, deltaRun: Run, updateRun: Run): (q: Params)
    requires SampleFits(p, inputs, target, l) && DeltasFit(p, scratch) && deltaRun.reduction.Valid()
    requires InBounds(deltaRun.hiddenOrder, p.NumHidden()) && InBounds(deltaRun.outputOrder, p.NumOutputs())
    requires InBounds(updateRun.hiddenOrder, p.NumHidden()) && InBounds(updateRun.outputOrder, p.NumOutputs())
    ensures q.WellFormed() && p.SameShape(q)
  {
    UpdateRun(p, inputs, l, DeltaRun(p, target, l, scratch, deltaRun), lr, updateRun)
  }

  lemma AccumulateIsAdd(buf: seq<real>, order: seq<nat>, incs: seq<real>)
    requires |incs| == |buf| && IsPermutation(order, |buf|)
    ensures InBounds(order, |buf|)
    ensures Accumulate(buf, order, incs) == VectorAdd(buf, incs)
  {
    AccumulatePermutation(buf, order, incs);
  }

  lemma AccumulateColumnsIsAdd(m: seq<seq<real>>, rows: nat, cols: nat, order: seq<nat>, incs: seq<seq<real>>)
    requires IsMatrix(m, rows, cols) && IsMatrix(incs, rows, cols) && IsPermutation(order, cols)
    ensures InBounds(order, cols)
    ensures AccumulateColumns(m, rows, cols, order, incs) == MatrixAdd(m, incs, rows, cols)
  {
    AccumulateColumnsPermutation(m, rows, cols, order, incs);
    var r := AccumulateColumns(m, rows, cols, order, incs);
    var s := MatrixAdd(m, incs, rows, cols);
    forall j | 0 <= j < rows
      ensures r[j] == s[j]
    {
    }
  }

  /** Every admissible run of the delta phase computes the deltas of the
      formula, whatever the scratch buffers held. */
  lemma DeltaRunAgrees(mode: Mode, p: Params, target: seq<real>, l: Layers, scratch: Deltas, run: Run)
    requires p.WellFormed() && |target| == p.NumOutputs() && LayersFit(p, l) && DeltasFit(p, scratch)
    requires Admissible(mode, run, p.NumHidden(), p.NumOutputs())
    ensures run.reduction.Valid()
    ensures InBounds(run.hiddenOrder, p.NumHidden()) && InBounds(run.outputOrder, p.NumOutputs())
    ensures DeltaRun(p, target, l, scratch, run) == ComputeDeltas(p, target, l, InOrder)
  {
    AdmissibleRun(mode, run, p.NumHidden(), p.NumOutputs());
    var deltaOutput := OutputDeltas(target, l.output);
    ScatterPermutation(scratch.output, run.outputOrder, deltaOutput);
    var dh := HiddenDeltas(p.outputWeights, l.hidden, deltaOutput, run.reduction);
    HiddenDeltasAnyReduction(p.outputWeights, l.hidden, deltaOutput, run.reduction);
    ScatterPermutation(scratch.hidden, run.hiddenOrder, dh);
  }

  /** Over the reals the hidden deltas do not depend on how the inner sums
      are reduced. */
  lemma HiddenDeltasAnyReduction(outputWeights: seq<seq<real>>, hidden: seq<real>, deltaOutput: seq<real>, red: Reduction)
    requires IsMatrix(outputWeights, |hidden|, |deltaOutput|) && red.Valid()
    ensures HiddenDeltas(outputWeights, hidden, deltaOutput, red) == HiddenDeltas(outputWeights, hidden, deltaOutput, InOrder)
  {
    var dh := HiddenDeltas(outputWeights, hidden, deltaOutput, red);
    var deltaHidden := HiddenDeltas(outputWeights, hidden, deltaOutput, InOrder);
    forall i | 0 <= i < |hidden|
      ensures dh[i] == deltaHidden[i]
    {
      ReduceIsSum(red, RowTerms(deltaOutput, outputWeights, i));
    }
  }

  /** Every admissible run of the update phase adds each increment exactly
      once, to the value the cell had before the phase. */
  lemma UpdateRunAgrees(mode: Mode, p: Params, inputs: seq<real>, l: Layers, d: Deltas, lr: real, run: Run)
    requires InputFits(p, inputs) && LayersFit(p, l) && DeltasFit(p, d)
    requires Admissible(mode, run, p.NumHidden(), p.NumOutputs())
    ensures InBounds(run.hiddenOrder, p.NumHidden()) && InBounds(run.outputOrder, p.NumOutputs())
    ensures UpdateRun(p, inputs, l, d, lr, run) == UpdateParams(p, inputs, l, d, lr)
  {
    AdmissibleRun(mode, run, p.NumHidden(), p.NumOutputs());
    AccumulateIsAdd(p.outputBias, run.outputOrder, Scaled(d.output, lr));
    AccumulateColumnsIsAdd(p.outputWeights, p.NumHidden(), p.NumOutputs(), run.outputOrder, Outer(l.hidden, d.output, lr));
    AccumulateIsAdd(p.hiddenBias, run.hiddenOrder, Scaled(d.hidden, lr));
    AccumulateColumnsIsAdd(p.hiddenWeights, p.NumInputs(), p.NumHidden(), run.hiddenOrder, Outer(inputs, d.hidden, lr));
  }

  /** The sequential, thread-parallel and vectorised backpropagation steps
      all compute the formula, for every schedule and lane count they may
      use and whatever the scratch delta buffers held. */
  lemma BackpropStrategiesAgree(mode: Mode, p: Params, inputs: seq<real>, target: seq<real>, l: Layers, lr: real,
                                scratch: Deltas, deltaRun: Run, updateRun: Run)
    requires SampleFits(p, inputs, target, l) && DeltasFit(p, scratch)
    requires Admissible(mode, deltaRun, p.NumHidden(), p.NumOutputs())
    requires Admissible(mode, updateRun, p.NumHidden(), p.NumOutputs())
    ensures deltaRun.reduction.Valid()
    ensures InBounds(deltaRun.hiddenOrder, p.NumHidden()) && InBounds(deltaRun.outputOrder, p.NumOutputs())
    ensures InBounds(updateRun.hiddenOrder, p.NumHidden()) && InBounds(updateRun.outputOrder, p.NumOutputs())
    ensures BackpropRun(p, inputs, target, l, lr, scratch, deltaRun, updateRun) == Backprop(p, inputs, target, l, lr)
  {
    DeltaRunAgrees(mode, p, target, l, scratch, deltaRun);
    UpdateRunAgrees(mode, p, inputs, l, ComputeDeltas(p, target, l, InOrder), lr, updateRun);
  }

  /** The two delta loops as written: deltaOutput[k] for k = 0, 1, ...,
      then per hidden unit an in-order accumulator over the old output
      weights. The buffers start with arbitrary contents. */
  method DeltaLoops(p: Params, target: seq<real>, l: Layers, scratch: Deltas) returns (d: Deltas)
    requires p.WellFormed() && |target| == p.NumOutputs() && LayersFit(p, l) && DeltasFit(p, scratch)
    ensures d == ComputeDeltas(p, target, l, InOrder)
  {
    var deltaOutput := scratch.output;
    var k := 0;
    while k < p.NumOutputs()
      invariant 0 <= k <= p.NumOutputs() && |deltaOutput| == p.NumOutputs()
      invariant forall k' :: 0 <= k' < k ==> deltaOutput[k'] == OutputDeltas(target, l.output)[k']
    {
      var error := target[k] - l.output[k];
      deltaOutput := deltaOutput[k := error * DSigmoid(l.output[k])];
      k := k + 1;
    }
    assert deltaOutput == OutputDeltas(target, l.output);

    var deltaHidden := scratch.hidden;
    var i := 0;
    while i < p.NumHidden()
      invariant 0 <= i <= p.NumHidden() && |deltaHidden| == p.NumHidden()
      invariant forall i' :: 0 <= i' < i ==>
        deltaHidden[i'] == HiddenDeltas(p.outputWeights, l.hidden, deltaOutput, InOrder)[i']
    {
      var error := RowDotLoop(0.0, deltaOutput, p.outputWeights, i);
      deltaHidden := deltaHidden[i := error * DSigmoid(l.hidden[i])];
      i := i + 1;
    }
    d := Deltas(deltaOutput, deltaHidden);
  }

  /** The scalar backpropagation step as written: the delta loops, then the
      output layer's update loop, then the hidden layer's. */
  method BackpropSequential(p: Params, inputs: seq<real>, target: seq<real>, l: Layers, lr: real, scratch: Deltas)
    returns (q: Params, d: Deltas)
    requires SampleFits(p, inputs, target, l) && DeltasFit(p, scratch)
    ensures d == ComputeDeltas(p, target, l, InOrder)
    ensures q == Backprop(p, inputs, target, l, lr)
  {
    d := DeltaLoops(p, target, l, scratch);
    var outputBias, outputWeights := UpdateLayerLoop(p.outputBias, p.outputWeights, p.NumHidden(), p.NumOutputs(),
                                                     Scaled(d.output, lr), Outer(l.hidden, d.output, lr));
    var hiddenBias, hiddenWeights := UpdateLayerLoop(p.hiddenBias, p.hiddenWeights, p.NumInputs(), p.NumHidden(),
                                                     Scaled(d.hidden, lr), Outer(inputs, d.hidden, lr));
    q := Params(hiddenWeights, outputWeights, hiddenBias, outputBias);
    var run := Run(Range(p.NumHidden()), Range(p.NumOutputs()), InOrder);
    assert q == UpdateRun(p, inputs, l, d, lr, run);
    UpdateRunAgrees(Sequential, p, inputs, l, d, lr, run);
  }

  /** A step with learning rate 0 changes nothing. */
  lemma BackpropZeroRateIsIdentity(p: Params, inputs: seq<real>, target: seq<real>, l: Layers)
    requires SampleFits(p, inputs, target, l)
    ensures Backprop(p, inputs, target, l, 0.0) == p
  {
    var d := ComputeDeltas(p, target, l, InOrder);
    OuterZero(inputs, d.hidden, 0.0);
    MatrixAddZero(p.hiddenWeights, Outer(inputs, d.hidden, 0.0), p.NumInputs(), p.NumHidden());
    OuterZero(l.hidden, d.output, 0.0);
    MatrixAddZero(p.outputWeights, Outer(l.hidden, d.output, 0.0), p.NumHidden(), p.NumOutputs());
  }

  /** When the output already equals the target every delta is zero, so the
      step changes nothing, whatever the learning rate. Over the reals a
      sigmoid output lies strictly inside (0, 1), so with the model's sigmoid
      and 0/1 targets this case does not arise. */
  lemma BackpropAtTargetIsIdentity(p: Params, inputs: seq<real>, target: seq<real>, l: Layers, lr: real)
    requires SampleFits(p, inputs, target, l) && target == l.output
    ensures ComputeDeltas(p, target, l, InOrder) == Deltas(Zeros(p.NumOutputs()), Zeros(p.NumHidden()))
    ensures Backprop(p, inputs, target, l, lr) == p
  {
    var d := ComputeDeltas(p, target, l, InOrder);
    assert d.output == Zeros(p.NumOutputs());
    forall i | 0 <= i < p.NumHidden()
      ensures d.hidden[i] == 0.0
    {
      SumOfZeros(RowTerms(d.output, p.outputWeights, i));
    }
    assert d.hidden == Zeros(p.NumHidden());
    OuterZero(inputs, d.hidden, lr);
    MatrixAddZero(p.hiddenWeights, Outer(inputs, d.hidden, lr), p.NumInputs(), p.NumHidden());
    OuterZero(l.hidden, d.output, lr);
    MatrixAddZero(p.outputWeights, Outer(l.hidden, d.output, lr), p.NumHidden(), p.NumOutputs());
  }

  /** The output delta of an activation strictly inside (0, 1) is positive
      exactly when the target lies above the output, negative exactly when
      it lies below. */
  lemma OutputDeltaSign(target: seq<real>, output: seq<real>, k: nat)
    requires |target| == |output| && k < |output| && 0.0 < output[k] < 1.0
    ensures OutputDeltas(target, output)[k] > 0.0 <==> target[k] > output[k]
    ensures OutputDeltas(target, output)[k] < 0.0 <==> target[k] < output[k]
  {
    var error, slope := target[k] - output[k], DSigmoid(output[k]);
    assert OutputDeltas(target, output)[k] == error * slope;
    SignOfProduct(error, slope, error * slope);
  }

  /** Gradient descent moves an output bias towards the target: up exactly
      when the target lies above the output, down exactly when below. */
  lemma BackpropOutputBiasDirection(p: Params, inputs: seq<real>, target: seq<real>, l: Layers, lr: real, k: nat)
    requires SampleFits(p, inputs, target, l) && lr > 0.0
    requires k < p.NumOutputs() && 0.0 < l.output[k] < 1.0
    ensures Backprop(p, inputs, target, l, lr).outputBias[k] > p.outputBias[k] <==> target[k] > l.output[k]
    ensures Backprop(p, inputs, target, l, lr).outputBias[k] < p.outputBias[k] <==> target[k] < l.output[k]
  {
    var dk := OutputDeltas(target, l.output)[k];
    OutputDeltaSign(target, l.output, k);
    SignOfProduct(dk, lr, dk * lr);
  }

  /** The same for an output weight whose hidden activation is positive. */
  lemma BackpropOutputWeightDirection(p: Params, inputs: seq<real>, target: seq<real>, l: Layers, lr: real,
                                      j: nat, k: nat)
    requires SampleFits(p, inputs, target, l) && lr > 0.0
    requires j < p.NumHidden() && k < p.NumOutputs()
    requires 0.0 < l.hidden[j] && 0.0 < l.output[k] < 1.0
    ensures Backprop(p, inputs, target, l, lr).outputWeights[j][k] > p.outputWeights[j][k] <==> target[k] > l.output[k]
    ensures Backprop(p, inputs, target, l, lr).outputWeights[j][k] < p.outputWeights[j][k] <==> target[k] < l.output[k]
  {
    var dk := OutputDeltas(target, l.output)[k];
    OutputDeltaSign(target, l.output, k);
    SignOfProduct(dk, l.hidden[j], dk * l.hidden[j]);
    SignOfProduct(l.hidden[j] * dk, lr, l.hidden[j] * dk * lr);
    assert l.hidden[j] * dk == dk * l.hidden[j];
  }

  /** The backpropagation unit test: on the test network, after a forward
      pass on [0.5, 0.5], a step towards target [1.0] with learning rate 0.1
      strictly increases both hiddenWeights[0][0] and outputWeights[0][0],
      so neither keeps its initial value. */
  lemma BackpropTestScenario(sigma: real -> real)
    requires IsSigmoid(sigma)
    ensures SampleFits(TestNetwork(), [0.5, 0.5], [1.0], ForwardPass(sigma, TestNetwork(), [0.5, 0.5]))
    ensures Backprop(TestNetwork(), [0.5, 0.5], [1.0], ForwardPass(sigma, TestNetwork(), [0.5, 0.5]), 0.1)
              .hiddenWeights[0][0] > 0.1
    ensures Backprop(TestNetwork(), [0.5, 0.5], [1.0], ForwardPass(sigma, TestNetwork(), [0.5, 0.5]), 0.1)
              .outputWeights[0][0] > 0.5
  {
    var p, inputs, target := TestNetwork(), [0.5, 0.5], [1.0];
    var l := ForwardPass(sigma, p, inputs);
    ForwardActivationsInUnitInterval(sigma, p, inputs);
    BackpropOutputWeightDirection(p, inputs, target, l, 0.1, 0, 0);

    var d := ComputeDeltas(p, target, l, InOrder);
    OutputDeltaSign(target, l.output, 0);
    var terms := RowTerms(d.output, p.outputWeights, 0);
    assert Sum(terms) == terms[0];
    SignOfProduct(d.output[0], 0.5, d.output[0] * 0.5);
    SignOfProduct(Sum(terms), DSigmoid(l.hidden[0]), Sum(terms) * DSigmoid(l.hidden[0]));
    assert d.hidden[0] > 0.0;
    SignOfProduct(d.hidden[0], 0.5, d.hidden[0] * 0.5);
    SignOfProduct(0.5 * d.hidden[0], 0.1, 0.5 * d.hidden[0] * 0.1);
    assert 0.5 * d.hidden[0] == d.hidden[0] * 0.5;
  }
}
