/**
 The forward pass (inference) of the one-hidden-layer perceptron, and its
 three execution strategies.

 For hidden unit i the net input is hiddenBias[i] + sum_j inputs[j] *
 hiddenWeights[j][i]; for output unit k it is outputBias[k] + sum_i
 hidden[i] * outputWeights[i][k], read from the hidden layer just computed.
 Each unit stores sigma of its net input.
 */
module Forward {
  import opened Linear
  import opened Schedule
  import opened Activation
  import opened Network

  predicate InputFits(p: Params, inputs: seq<real>) {
    p.WellFormed() && |inputs| == p.NumInputs()
  }

  /** Net input of hidden unit i, its inner sum reduced as `red` says. */
  function HiddenNet(p: Params, inputs: seq<real>, i: nat, red: Reduction): real
    requires InputFits(p, inputs) && i < p.NumHidden() && red.Valid()
  {
    p.hiddenBias[i] + Reduce(red, ColumnTerms(inputs, p.hiddenWeights, i))
  }

  /** Net input of output unit k, read from the hidden activations `hidden`. */
  function OutputNet(p: Params, hidden: seq<real>, k: nat, red: Reduction): real
    requires p.WellFormed() && |hidden| == p.NumHidden() && k < p.NumOutputs() && red.Valid()
  {
    p.outputBias[k] + Reduce(red, ColumnTerms(hidden, p.outputWeights, k))
  }

  /** What each iteration of the hidden-layer loop stores. */
  function HiddenValues(sigma: real -> real, p: Params, inputs: seq<real>, red: Reduction): (h: seq<real>)
    requires InputFits(p, inputs) && red.Valid()
    ensures |h| == p.NumHidden()
  {
    seq(p.NumHidden(), i requires 0 <= i < p.NumHidden() => sigma(HiddenNet(p, inputs, i, red)))
  }

  /** What each iteration of the output-layer loop stores. */
  function OutputValues(sigma: real -> real, p: Params, hidden: seq<real>, red: Reduction): (o: seq<real>)
    requires p.WellFormed() && |hidden| == p.NumHidden() && red.Valid()
    ensures |o| == p.NumOutputs()
  {
    seq(p.NumOutputs(), k requires 0 <= k < p.NumOutputs() => sigma(OutputNet(p, hidden, k, red)))
  }

  /** The forward pass as a formula: the activations every strategy must
      produce. */
  function ForwardPass(sigma: real -> real, p: Params, inputs: seq<real>): (l: Layers)
    requires InputFits(p, inputs)
    ensures LayersFit(p, l)
  {
    var hidden := HiddenValues(sigma, p, inputs, InOrder);
    Layers(hidden, OutputValues(sigma, p, hidden, InOrder))
  }

  /** Cell by cell: hidden unit i stores sigma(bias_i + sum_j inputs[j] *
      hiddenWeights[j][i]), and output unit k stores the same expression
      over the freshly computed hidden activations and the output weights. */
  lemma ForwardPassCells(sigma: real -> real, p: Params, inputs: seq<real>)
    requires InputFits(p, inputs)
    ensures forall i :: 0 <= i < p.NumHidden() ==>
      ForwardPass(sigma, p, inputs).hidden[i] == sigma(p.hiddenBias[i] + Sum(ColumnTerms(inputs, p.hiddenWeights, i)))
    ensures forall k :: 0 <= k < p.NumOutputs() ==>
      ForwardPass(sigma, p, inputs).output[k]
        == sigma(p.outputBias[k] + Sum(ColumnTerms(ForwardPass(sigma, p, inputs).hidden, p.outputWeights, k)))
  {
    var l := ForwardPass(sigma, p, inputs);
    forall i | 0 <= i < p.NumHidden()
      ensures l.hidden[i] == sigma(p.hiddenBias[i] + Sum(ColumnTerms(inputs, p.hiddenWeights, i)))
    {
      assert l.hidden[i] == sigma(HiddenNet(p, inputs, i, InOrder));
    }
    forall k | 0 <= k < p.NumOutputs()
      ensures l.output[k] == sigma(p.outputBias[k] + Sum(ColumnTerms(l.hidden, p.outputWeights, k)))
    {
      assert l.output[k] == sigma(OutputNet(p, l.hidden, k, InOrder));
    }
  }

  /** One execution of a forward-pass strategy: the hidden-layer loop's stores
      land in `run.hiddenOrder` on the old buffer contents, then (after the
      join) the output-layer loop's stores land in `run.outputOrder`, each
      output reading the hidden buffer as the first loop left it. */
  function ForwardRun(sigma: real -> real, p: Params, inputs: seq<real>, before: Layers, run: Run): (l: Layers)
    requires InputFits(p, inputs) && LayersFit(p, before) && run.reduction.Valid()
    requires InBounds(run.hiddenOrder, p.NumHidden()) && InBounds(run.outputOrder, p.NumOutputs())
    ensures LayersFit(p, l)
  {
    var hidden := Scatter(before.hidden, run.hiddenOrder, HiddenValues(sigma, p, inputs, run.reduction));
    var output := Scatter(before.output, run.outputOrder, OutputValues(sigma, p, hidden, run.reduction));
    Layers(hidden, output)
  }

  /** The sequential, thread-parallel and vectorised forward passes all
      compute the formula, for every schedule and lane count they may use,
      and whatever the activation buffers held before. */
  lemma ForwardStrategiesAgree(mode: Mode, sigma: real -> real, p: Params, inputs: seq<real>, before: Layers, run: Run)
    requires InputFits(p, inputs) && LayersFit(p, before)
    requires Admissible(mode, run, p.NumHidden(), p.NumOutputs())
    ensures run.reduction.Valid()
    ensures InBounds(run.hiddenOrder, p.NumHidden()) && InBounds(run.outputOrder, p.NumOutputs())
    ensures ForwardRun(sigma, p, inputs, before, run) == ForwardPass(sigma, p, inputs)
  {
    AdmissibleRun(mode, run, p.NumHidden(), p.NumOutputs());
    var red := run.reduction;
    var hv := HiddenValues(sigma, p, inputs, red);
    ScatterPermutation(before.hidden, run.hiddenOrder, hv);
    forall i | 0 <= i < p.NumHidden()
      ensures hv[i] == HiddenValues(sigma, p, inputs, InOrder)[i]
    {
      ReduceIsSum(red, ColumnTerms(inputs, p.hiddenWeights, i));
      assert HiddenNet(p, inputs, i, red) == HiddenNet(p, inputs, i, InOrder);
    }
    var hidden := HiddenValues(sigma, p, inputs, InOrder);
    assert hv == hidden;
    var ov := OutputValues(sigma, p, hidden, red);
    ScatterPermutation(before.output, run.outputOrder, ov);
    forall k | 0 <= k < p.NumOutputs()
      ensures ov[k] == OutputValues(sigma, p, hidden, InOrder)[k]
    {
      ReduceIsSum(red, ColumnTerms(hidden, p.outputWeights, k));
      assert OutputNet(p, hidden, k, red) == OutputNet(p, hidden, k, InOrder);
    }
  }

  /** The scalar forward pass as written: for each unit an accumulator
      starts at the bias and adds one product per input, in order; the
      result is stored into the unit's cell of the activation buffer. The
      weights and biases are only read. */
  method ForwardSequential(sigma: real -> real, p: Params, inputs: seq<real>, before: Layers) returns (l: Layers)
    requires InputFits(p, inputs) && LayersFit(p, before)
    ensures l == ForwardPass(sigma, p, inputs)
  {
    var hidden := before.hidden;
    var i := 0;
    while i < p.NumHidden()
      invariant 0 <= i <= p.NumHidden() && |hidden| == p.NumHidden()
      invariant forall i' :: 0 <= i' < i ==> hidden[i'] == sigma(HiddenNet(p, inputs, i', InOrder))
    {
      var activation := ColumnDotLoop(p.hiddenBias[i], inputs, p.hiddenWeights, i);
      hidden := hidden[i := sigma(activation)];
      i := i + 1;
    }
    assert hidden == HiddenValues(sigma, p, inputs, InOrder);

    var output := before.output;
    var k := 0;
    while k < p.NumOutputs()
      invariant 0 <= k <= p.NumOutputs() && |output| == p.NumOutputs()
      invariant forall k' :: 0 <= k' < k ==> output[k'] == sigma(OutputNet(p, hidden, k', InOrder))
    {
      var activation := ColumnDotLoop(p.outputBias[k], hidden, p.outputWeights, k);
      output := output[k := sigma(activation)];
      k := k + 1;
    }
    l := Layers(hidden, output);
  }

  /** With a sigmoid activation every hidden and output activation lies
      strictly between 0 and 1. */
  lemma ForwardActivationsInUnitInterval(sigma: real -> real, p: Params, inputs: seq<real>)
    requires IsSigmoid(sigma) && InputFits(p, inputs)
    ensures forall i :: 0 <= i < p.NumHidden() ==> 0.0 < ForwardPass(sigma, p, inputs).hidden[i] < 1.0
    ensures forall k :: 0 <= k < p.NumOutputs() ==> 0.0 < ForwardPass(sigma, p, inputs).output[k] < 1.0
  {
  }

  /** A network whose output biases and output weights are all zero outputs
      exactly 1/2 on every output unit, whatever the input and the hidden
      layer's parameters. */
  lemma ZeroNetworkOutputsHalf(sigma: real -> real, p: Params, inputs: seq<real>)
    requires IsSigmoid(sigma) && InputFits(p, inputs)
    requires forall k :: 0 <= k < p.NumOutputs() ==> p.outputBias[k] == 0.0
    requires forall i, k :: 0 <= i < p.NumHidden() && 0 <= k < p.NumOutputs() ==> p.outputWeights[i][k] == 0.0
    ensures forall k :: 0 <= k < p.NumOutputs() ==> ForwardPass(sigma, p, inputs).output[k] == 0.5
  {
    var hidden := ForwardPass(sigma, p, inputs).hidden;
    forall k | 0 <= k < p.NumOutputs()
      ensures Sum(ColumnTerms(hidden, p.outputWeights, k)) == 0.0
    {
      SumOfZeros(ColumnTerms(hidden, p.outputWeights, k));
    }
  }

  /** The 2-2-1 network of the unit tests: hiddenWeights [[0.1, 0.2],
      [0.3, 0.4]], outputWeights [[0.5], [0.6]], hiddenBias [0.1, 0.2],
      outputBias [0.3]. */
  function TestNetwork(): (p: Params)
    ensures p.WellFormed() && p.NumInputs() == 2 && p.NumHidden() == 2 && p.NumOutputs() == 1
  {
    Params([[0.1, 0.2], [0.3, 0.4]], [[0.5], [0.6]], [0.1, 0.2], [0.3])
  }

  /** On the test network and input [0.5, 0.5] the hidden net inputs are
      0.3 and 0.5, the single output is sigma(0.3 + 0.5 sigma(0.3) + 0.6
      sigma(0.5)), and it lies strictly between 0 and 1. */
  lemma ForwardTestScenario(sigma: real -> real)
    requires IsSigmoid(sigma)
    ensures InputFits(TestNetwork(), [0.5, 0.5])
    ensures ForwardPass(sigma, TestNetwork(), [0.5, 0.5]).hidden == [sigma(0.3), sigma(0.5)]
    ensures ForwardPass(sigma, TestNetwork(), [0.5, 0.5]).output == [sigma(0.3 + sigma(0.3) * 0.5 + sigma(0.5) * 0.6)]
    ensures 0.0 < ForwardPass(sigma, TestNetwork(), [0.5, 0.5]).output[0] < 1.0
  {
    var p, inputs := TestNetwork(), [0.5, 0.5];
    var t0 := ColumnTerms(inputs, p.hiddenWeights, 0);
    assert Sum(t0[..1]) == t0[0];
    assert Sum(t0) == Sum(t0[..1]) + t0[1];
    assert HiddenNet(p, inputs, 0, InOrder) == 0.3;
    var t1 := ColumnTerms(inputs, p.hiddenWeights, 1);
    assert Sum(t1[..1]) == t1[0];
    assert Sum(t1) == Sum(t1[..1]) + t1[1];
    assert HiddenNet(p, inputs, 1, InOrder) == 0.5;
    var hidden := ForwardPass(sigma, p, inputs).hidden;
    assert hidden == [sigma(0.3), sigma(0.5)];
    var u := ColumnTerms(hidden, p.outputWeights, 0);
    assert Sum(u[..1]) == u[0];
    assert Sum(u) == Sum(u[..1]) + u[1];
  }
}
