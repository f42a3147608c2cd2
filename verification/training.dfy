/**
 The training loop: for every epoch, every sample in index order is run
 forward, scored (squared-error loss, and whether the predicted label
 matches the target's), and then used for one backpropagation step whose
 updated parameters the next sample sees. After each epoch the average
 loss and the accuracy are reported.
 */
module Training {
  import opened Schedule
  import opened Activation
  import opened Network
  import opened Forward
  import opened Backward
  import opened Metrics
  import opened Results

  /** One training pair: a normalised image and its one-hot target. */
  datatype Sample = Sample(inputs: seq<real>, target: seq<real>)

  predicate SampleFor(p: Params, s: Sample) {
    InputFits(p, s.inputs) && |s.target| == p.NumOutputs()
  }

  predicate SamplesFit(p: Params, samples: seq<Sample>) {
    forall t :: 0 <= t < |samples| ==> SampleFor(p, samples[t])
  }

  /** What one sample contributes: the parameters after its step, its loss,
      and whether it was labelled correctly. */
  datatype Step = Step(params: Params, loss: real, correct: bool)

  /** The per-sample body: forward pass, loss and labels from the output of
      that forward pass, then backpropagation from the same activations. */
  function TrainStep(sigma: real -> real, p: Params, s: Sample, lr: real): (r: Step)
    requires SampleFor(p, s)
    ensures r.params.WellFormed() && p.SameShape(r.params)
    ensures r.loss >= 0.0
  {
    var l := ForwardPass(sigma, p, s.inputs);
    Step(Backprop(p, s.inputs, s.target, l, lr),
         SquaredError(s.target, l.output),
         Argmax(l.output) == Argmax(s.target))
  }

  /** A sample the network already reproduces exactly costs nothing, counts
      as correct and leaves the parameters as they were. Over the reals, with
      the model's sigmoid and 0/1 targets, this case does not arise
      (`OutputNeverHitsBinaryTarget`). */
  lemma TrainStepAtTarget(sigma: real -> real, p: Params, s: Sample, lr: real)
    requires SampleFor(p, s) && ForwardPass(sigma, p, s.inputs).output == s.target
    ensures TrainStep(sigma, p, s, lr) == Step(p, 0.0, true)
  {
    BackpropAtTargetIsIdentity(p, s.inputs, s.target, ForwardPass(sigma, p, s.inputs), lr);
  }

  /** Over the reals, every output of a sigmoid network lies strictly inside
      (0, 1), so it never equals a target whose entries are all 0 or 1, such
      as the one-hot targets the loader builds. In double precision the
      sigmoid rounds to exactly 1.0 for a large enough net input, which this
      real-valued fact does not cover. */
  lemma OutputNeverHitsBinaryTarget(sigma: real -> real, p: Params, s: Sample)
    requires IsSigmoid(sigma) && SampleFor(p, s) && p.NumOutputs() > 0
    requires forall k :: 0 <= k < |s.target| ==> s.target[k] == 0.0 || s.target[k] == 1.0
    ensures ForwardPass(sigma, p, s.inputs).output != s.target
  {
    ForwardActivationsInUnitInterval(sigma, p, s.inputs);
    assert 0.0 < ForwardPass(sigma, p, s.inputs).output[0] < 1.0;
  }

  /** The per-sample body as one execution of the selected strategy: the
      forward pass and the two backpropagation phases each run in their own
      schedule, on the activation buffers as the previous sample left them
      and on per-call delta arrays whose undefined contents are `scratch`. */
  function TrainStepRun(sigma: real -> real, p: Params, s: Sample, lr: real, before: Layers, scratch: Deltas,
                        forwardRun: Run, deltaRun: Run, updateRun: Run): (r: Step)
    requires SampleFor(p, s) && LayersFit(p, before) && DeltasFit(p, scratch)
    requires RunFits(forwardRun, p) && RunFits(deltaRun, p) && RunFits(updateRun, p)
    ensures r.params.WellFormed() && p.SameShape(r.params)
  {
    var l := ForwardRun(sigma, p, s.inputs, before, forwardRun);
    Step(BackpropRun(p, s.inputs, s.target, l, lr, scratch, deltaRun, updateRun),
         SquaredError(s.target, l.output),
         Argmax(l.output) == Argmax(s.target))
  }

  /** The schedules of `run` name only units of the network `p`, and its
      reduction is well defined. */
  predicate RunFits(run: Run, p: Params) {
    && run.reduction.Valid()
    && InBounds(run.hiddenOrder, p.NumHidden())
    && InBounds(run.outputOrder, p.NumOutputs())
  }

  /** Whichever mode the command line selected, and however its loops were
      scheduled, a training step computes the same parameters, loss and
      correctness as the formula. */
  lemma TrainStepStrategiesAgree(mode: Mode, sigma: real -> real, p: Params, s: Sample, lr: real,
                                 before: Layers, scratch: Deltas, forwardRun: Run, deltaRun: Run, updateRun: Run)
    requires SampleFor(p, s) && LayersFit(p, before) && DeltasFit(p, scratch)
    requires Admissible(mode, forwardRun, p.NumHidden(), p.NumOutputs())
    requires Admissible(mode, deltaRun, p.NumHidden(), p.NumOutputs())
    requires Admissible(mode, updateRun, p.NumHidden(), p.NumOutputs())
    ensures RunFits(forwardRun, p) && RunFits(deltaRun, p) && RunFits(updateRun, p)
    ensures TrainStepRun(sigma, p, s, lr, before, scratch, forwardRun, deltaRun, updateRun) == TrainStep(sigma, p, s, lr)
  {
    ForwardStrategiesAgree(mode, sigma, p, s.inputs, before, forwardRun);
    AdmissibleRun(mode, updateRun, p.NumHidden(), p.NumOutputs());
    PermutationCovers(updateRun.hiddenOrder, p.NumHidden());
    PermutationCovers(updateRun.outputOrder, p.NumOutputs());
    var l := ForwardPass(sigma, p, s.inputs);
    BackpropStrategiesAgree(mode, p, s.inputs, s.target, l, lr, scratch, deltaRun, updateRun);
  }

  /** The running totals of an epoch. */
  datatype Tally = Tally(totalLoss: real, correct: nat)

  datatype EpochState = EpochState(params: Params, tally: Tally)

  /** The epoch state after one more sample: that sample's parameters, its
      loss added to the total, and the count raised if it was correct. */
  function Then(e: EpochState, step: Step): (r: EpochState)
    ensures r.params == step.params
    ensures r.tally.correct == e.tally.correct + (if step.correct then 1 else 0)
    ensures r.tally.totalLoss - e.tally.totalLoss == step.loss
  {
    EpochState(step.params, Tally(e.tally.totalLoss + step.loss, e.tally.correct + if step.correct then 1 else 0))
  }

  /** One epoch as a fold over the samples in index order: each step starts
      from the parameters the previous step left. */
  function Epoch(sigma: real -> real, p: Params, samples: seq<Sample>, lr: real): (r: EpochState)
    requires p.WellFormed() && SamplesFit(p, samples)
    ensures r.params.WellFormed() && p.SameShape(r.params)
    ensures r.tally.totalLoss >= 0.0
    ensures r.tally.correct <= |samples|
    decreases |samples|
  {
    if |samples| == 0 then EpochState(p, Tally(0.0, 0))
    else
      var n := |samples|;
      var prev := Epoch(sigma, p, samples[..n - 1], lr);
      Then(prev, TrainStep(sigma, prev.params, samples[n - 1], lr))
  }

  /** Samples that fit a network fit every network of the same shape. */
  lemma SamplesFitShape(p: Params, q: Params, samples: seq<Sample>)
    requires p.WellFormed() && q.WellFormed() && p.SameShape(q) && SamplesFit(p, samples)
    ensures SamplesFit(q, samples)
  {
  }

  /** An epoch over s + [x] is the epoch over s followed by the step on x. */
  lemma EpochLast(sigma: real -> real, p: Params, s: seq<Sample>, x: Sample, lr: real)
    requires p.WellFormed() && SamplesFit(p, s) && SampleFor(p, x)
    ensures SamplesFit(p, s + [x])
    ensures SampleFor(Epoch(sigma, p, s, lr).params, x)
    ensures Epoch(sigma, p, s + [x], lr) == Then(Epoch(sigma, p, s, lr), TrainStep(sigma, Epoch(sigma, p, s, lr).params, x, lr))
  {
    assert (s + [x])[..|s|] == s;
    assert (s + [x])[|s|] == x;
  }

  /** The loop form of `EpochLast`: the epoch over the first i + 1 samples
      is the epoch over the first i followed by the step on sample i. */
  lemma EpochNext(sigma: real -> real, p: Params, samples: seq<Sample>, i: nat, lr: real)
    requires p.WellFormed() && SamplesFit(p, samples) && i < |samples|
    ensures SamplesFit(p, samples[..i]) && SamplesFit(p, samples[..i + 1])
    ensures SampleFor(Epoch(sigma, p, samples[..i], lr).params, samples[i])
    ensures Epoch(sigma, p, samples[..i + 1], lr)
         == Then(Epoch(sigma, p, samples[..i], lr), TrainStep(sigma, Epoch(sigma, p, samples[..i], lr).params, samples[i], lr))
  {
    assert samples[..i + 1] == samples[..i] + [samples[i]];
    EpochLast(sigma, p, samples[..i], samples[i], lr);
  }

  /** The states of two consecutive runs of the epoch loop combined: the
      parameters the second left, and the totals added. */
  function Concat(first: EpochState, second: EpochState): (r: EpochState)
    ensures r.params == second.params
    ensures r.tally.correct == first.tally.correct + second.tally.correct
  {
    EpochState(second.params, Tally(first.tally.totalLoss + second.tally.totalLoss,
                                    first.tally.correct + second.tally.correct))
  }

  /** Running an epoch over a + b is running it over a, then over b from
      the parameters a left, with the totals added: samples are processed
      strictly in order and the weights are threaded from one to the next. */
  lemma {:induction false} EpochAppend(sigma: real -> real, p: Params, a: seq<Sample>, b: seq<Sample>, lr: real)
    requires p.WellFormed() && SamplesFit(p, a) && SamplesFit(p, b)
    ensures SamplesFit(p, a + b)
    ensures SamplesFit(Epoch(sigma, p, a, lr).params, b)
    ensures Epoch(sigma, p, a + b, lr) == Concat(Epoch(sigma, p, a, lr), Epoch(sigma, Epoch(sigma, p, a, lr).params, b, lr))
    decreases |b|
  {
    var ea := Epoch(sigma, p, a, lr);
    SamplesFitShape(p, ea.params, b);
    if |b| == 0 {
      assert a + b == a;
    } else {
      var n := |b|;
      var front, x := b[..n - 1], b[n - 1];
      assert b == front + [x];
      assert a + b == (a + front) + [x];
      EpochAppend(sigma, p, a, front, lr);
      var ef := Epoch(sigma, p, a + front, lr);
      var eb := Epoch(sigma, ea.params, front, lr);
      assert ef == Concat(ea, eb);
      EpochLast(sigma, p, a + front, x, lr);
      SamplesFitShape(p, ea.params, front);
      EpochLast(sigma, ea.params, front, x, lr);
      var step := TrainStep(sigma, ef.params, x, lr);
      assert Epoch(sigma, p, a + b, lr) == Then(ef, step);
      assert Epoch(sigma, ea.params, b, lr) == Then(eb, step);
      ThenConcat(ea, eb, step);
    }
  }

  /** Adding a step after two combined runs is adding it to the second. */
  lemma ThenConcat(first: EpochState, second: EpochState, step: Step)
    ensures Then(Concat(first, second), step) == Concat(first, Then(second, step))
  {
  }

  /** With learning rate 0 an epoch leaves the parameters unchanged. */
  lemma {:induction false} EpochZeroRate(sigma: real -> real, p: Params, samples: seq<Sample>)
    requires p.WellFormed() && SamplesFit(p, samples)
    ensures Epoch(sigma, p, samples, 0.0).params == p
    decreases |samples|
  {
    if |samples| > 0 {
      var n := |samples|;
      EpochZeroRate(sigma, p, samples[..n - 1]);
      var s := samples[n - 1];
      BackpropZeroRateIsIdentity(p, s.inputs, s.target, ForwardPass(sigma, p, s.inputs));
    }
  }

  /** The body of the sample loop as written, in sequential mode: the scalar
      forward pass, the loss loop, the two label scans and the scalar
      backpropagation step. The activation buffers hold whatever the
      previous sample left in them; the delta arrays are local to the
      backpropagation call, so `scratch` stands for their undefined initial
      contents. */
  method TrainSample(sigma: real -> real, p: Params, s: Sample, lr: real, before: Layers, scratch: Deltas)
    returns (step: Step, l: Layers)
    requires SampleFor(p, s) && LayersFit(p, before) && DeltasFit(p, scratch)
    ensures step == TrainStep(sigma, p, s, lr)
    ensures LayersFit(p, l)
  {
    l := ForwardSequential(sigma, p, s.inputs, before);
    var loss := SquaredErrorLoop(s.target, l.output);
    var predicted := ArgmaxLoop(l.output);
    var actual := ArgmaxLoop(s.target);
    var q, _ := BackpropSequential(p, s.inputs, s.target, l, lr, scratch);
    step := Step(q, loss, predicted == actual);
  }

  /** The sample loop of one epoch as written, in sequential mode. The
      activation buffers `before` carry over from sample to sample; each
      backpropagation call gets fresh per-call delta arrays, whose undefined
      contents for sample i are `scratch[i]`. */
  method RunEpoch(sigma: real -> real, p: Params, samples: seq<Sample>, lr: real, before: Layers, scratch: seq<Deltas>)
    returns (q: Params, totalLoss: real, correct: nat)
    requires p.WellFormed() && SamplesFit(p, samples) && LayersFit(p, before)
    requires |scratch| == |samples| && forall t :: 0 <= t < |scratch| ==> DeltasFit(p, scratch[t])
    ensures EpochState(q, Tally(totalLoss, correct)) == Epoch(sigma, p, samples, lr)
  {
    q, totalLoss, correct := p, 0.0, 0;
    var l := before;
    var i := 0;
    while i < |samples|
      invariant 0 <= i <= |samples| && SamplesFit(p, samples[..i])
      invariant q.WellFormed() && p.SameShape(q) && LayersFit(q, l)
      invariant EpochState(q, Tally(totalLoss, correct)) == Epoch(sigma, p, samples[..i], lr)
    {
      EpochNext(sigma, p, samples, i, lr);
      var step;
      step, l := TrainSample(sigma, q, samples[i], lr, l, scratch[i]);
      var next := Then(EpochState(q, Tally(totalLoss, correct)), step);
      q, totalLoss, correct := next.params, next.tally.totalLoss, next.tally.correct;
      i := i + 1;
    }
    assert samples[..i] == samples;
  }

  /** The result of training: the final parameters and one report per
      epoch. */
  datatype Trained = Trained(params: Params, reports: seq<Option<Summary>>)

  /** `epochs` epochs over the same samples, each starting from the
      parameters the last one left; a non-positive count trains nothing. */
  function Train(sigma: real -> real, p: Params, samples: seq<Sample>, lr: real, epochs: int): (r: Trained)
    requires p.WellFormed() && SamplesFit(p, samples)
    ensures r.params.WellFormed() && p.SameShape(r.params)
    ensures |r.reports| == if epochs > 0 then epochs else 0
    ensures forall e :: 0 <= e < |r.reports| ==> (r.reports[e].None? <==> |samples| == 0)
    ensures forall e :: 0 <= e < |r.reports| && r.reports[e].Some? ==>
      r.reports[e].value.averageLoss >= 0.0 && 0.0 <= r.reports[e].value.accuracy <= 100.0
    decreases epochs
  {
    if epochs <= 0 then Trained(p, [])
    else
      var prev := Train(sigma, p, samples, lr, epochs - 1);
      SamplesFitShape(p, prev.params, samples);
      var e := Epoch(sigma, prev.params, samples, lr);
      Trained(e.params, prev.reports + [Summarize(e.tally.totalLoss, e.tally.correct, |samples|)])
  }

  /** Epoch e of a training run starts from the parameters the first e
      epochs leave: its report summarises that epoch's tally, and the
      parameters after e + 1 epochs are that epoch's result. */
  lemma {:induction false} TrainEpochs(sigma: real -> real, p: Params, samples: seq<Sample>, lr: real, epochs: int, e: nat)
    requires p.WellFormed() && SamplesFit(p, samples) && e < epochs
    ensures
      var before := Train(sigma, p, samples, lr, e).params;
      && SamplesFit(before, samples)
      && var ep := Epoch(sigma, before, samples, lr);
      && Train(sigma, p, samples, lr, e + 1).params == ep.params
      && Train(sigma, p, samples, lr, epochs).reports[e]
         == Summarize(ep.tally.totalLoss, ep.tally.correct, |samples|)
    decreases epochs
  {
    var before := Train(sigma, p, samples, lr, e).params;
    SamplesFitShape(p, before, samples);
    if e < epochs - 1 {
      TrainEpochs(sigma, p, samples, lr, epochs - 1, e);
      var prev := Train(sigma, p, samples, lr, epochs - 1);
      assert Train(sigma, p, samples, lr, epochs).reports[e] == prev.reports[e];
    }
  }
}
