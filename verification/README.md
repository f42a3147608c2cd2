# Perceptron training engine

A model of the numeric core of a one-hidden-layer perceptron trained on
MNIST digits. The training program runs every sample forward through the
network, scores it, then applies one backpropagation step. Each layer
operation comes in three strategies, selected on the command line:
sequential, OpenMP thread-parallel, and OpenMP `simd`.

The model works over Dafny `real` numbers.

- **Parameters and buffers.** The network's parameters are the datatype
  `Network.Params`: two weight matrices and two bias vectors, where row j
  of a matrix holds the weights leaving unit j. Activations are
  `Network.Layers` and deltas are `Backward.Deltas`. Everything the C code
  updates in place is returned as a new value.
- **The sigmoid.** The logistic function cannot be written over the reals,
  so it is a parameter `sigma`. The predicate `Activation.IsSigmoid`
  constrains it with the properties the code and its unit test rely on.
- **One formula per operation.** Each layer operation is stated once, as a
  formula: `Forward.ForwardPass`, `Backward.ComputeDeltas` followed by
  `Backward.UpdateParams`, and `Backward.Backprop`.
- **Strategy runs.** Each of the three strategies is modelled as a *run*,
  `Network.Run`, which has two parts:
  - a *schedule*: the order in which the iterations of each parallel loop
    perform their writes. Any sequence of indices is allowed, and the
    admissible ones are permutations. The sequential loop uses the identity
    order.
  - a *reduction*: in index order, or split into `w` interleaved lane
    sums, which is how an `omp simd` inner loop may add.
- **Agreement lemmas.** `Forward.ForwardRun` and `Backward.BackpropRun`
  replay the writes of a run. The agreement lemmas prove that every
  admissible run computes the formula.
- **Loop methods.** Methods with loops mirror the sequential C loops
  loop by loop, and are proved equal to the formulas.
- **Training.** The training loop (`Training`) is a fold over the samples.
  The argmax scan, the squared-error loss and the epoch summary live in
  `Metrics`, and command-line mode selection lives in `Cli`.
- **Utilities.** `Utility` holds the pure parts of the utility file: pixel
  normalisation, one-hot labels, weight and bias initialisation from given
  random draws, inverted dropout, and the digit visualiser's characters.

Some behaviour of the code that the model keeps:

- The initial weights lie in the closed interval [-0.5, 0.5], because a
  draw may equal `RAND_MAX`.
- An epoch over zero samples divides by zero and yields NaN rather than
  stopping. `Metrics.Summarize` returns `None` for that case.
- The sizes given on the command line are not checked beyond the argument
  count and the mode name.
- Dropout is a standalone routine that nothing calls. Its draws are
  `rand()/RAND_MAX`, so they lie in the closed interval [0, 1].
- The delta arrays are local to each backpropagation call, so their
  initial contents are undefined. The model takes them as arbitrary
  `scratch` values and proves the result does not depend on them.

## Model

| member | source | states |
|---|---|---|
| Activation.RationalSigmoidIsSigmoid | source/mpt_nn_test.c:10-12 | some function over the reals meets every assumed sigmoid property: range (0, 1), value 1/2 at 0, and the test's bounds at +-100. So no lemma that assumes them is vacuous |
| Activation.DSigmoid | source/mpt_nn.c:14-17 | the derivative written through an activation a lies in [0, 1/4] whenever a is in [0, 1], and is strictly positive when a is in (0, 1) |
| Activation.DSigmoidOfActivation | source/mpt_nn.c:8-17 | at every point, the derivative taken from the sigmoid's own output is in (0, 1/4], and it reaches 1/4 at 0 |
| Linear.ColumnDotLoop | source/mpt_nn.c:27-31 | the inner accumulation loop of the forward pass returns its start value plus the full dot product of the vector with one weight column |
| Linear.RowDotLoop | source/mpt_nn.c:125-129 | the inner accumulation loop of the hidden-delta computation returns its start value plus the dot product of the output deltas with one weight row |
| Linear.LaneSumIsSum | source/mpt_nn.c:85-89 | splitting a sum into any positive number of interleaved lane sums, then adding the lanes, gives the in-order sum |
| Schedule.RangeIsPermutation | source/mpt_nn.c:25 | the sequential loop order 0..n-1 visits every index below n exactly once |
| Schedule.ScatterPermutation | source/mpt_nn.c:52-61 | when a parallel loop's iterations each store their own index in any permutation order, the buffer ends up holding exactly the per-index values, whatever it held before |
| Schedule.AccumulatePermutation | source/mpt_nn.c:184-192 | when each iteration adds to its own bias cell in any permutation order, every cell gains exactly its own increment once |
| Schedule.AccumulateColumnsPermutation | source/mpt_nn.c:195-203 | when iteration i adds to column i of a weight matrix in any permutation order, every cell gains exactly its own increment once |
| Schedule.DuplicateIterationDoublesIncrement | source/mpt_nn.c:184-192 | a schedule that ran an index twice would add that cell's increment twice. So the single write per cell is what makes the result correct |
| Schedule.AddToColumnLoop | source/mpt_nn.c:137-140 | the inner update loop over rows changes column c of every row by its increment and leaves every other cell as it was |
| Schedule.UpdateLayerLoop | source/mpt_nn.c:134-141 | the sequential update loop of a layer equals the identity-order schedule of bias and column accumulations |
| Schedule.ReduceIsSum | source/mpt_nn.c:97-101 | the in-order reduction and every lane reduction of an inner `simd` loop compute the same sum |
| Forward.ForwardPass | source/mpt_nn.c:20-44 | the forward-pass formula gives one activation per hidden unit and per output unit. Its cell values are stated by `Forward.ForwardPassCells` |
| Forward.ForwardRun | source/mpt_nn.c:47-104 | replaying a strategy's stores in any in-range order, on any prior buffer contents, still gives one activation per unit. `Forward.ForwardStrategiesAgree` states its value |
| Forward.ForwardPassCells | source/mpt_nn.c:25-43 | hidden unit i holds sigma(bias_i + sum_j inputs[j]*hiddenWeights[j][i]). Output unit k holds the same expression over the freshly computed hidden activations |
| Forward.ForwardSequential | source/mpt_nn.c:20-44 | the sequential forward loops compute the forward-pass formula, whatever the activation buffers held before |
| Forward.ForwardStrategiesAgree | source/mpt_nn.c:47-104 | every admissible sequential, thread-parallel or `simd` run of the forward pass computes the formula, for any schedule, any lane count and any prior buffer contents |
| Forward.ForwardActivationsInUnitInterval | source/mpt_nn.c:32-42 | every hidden and output activation lies strictly between 0 and 1 |
| Forward.ZeroNetworkOutputsHalf | source/mpt_nn.c:35-43 | with zero output biases and output weights, every output is exactly 1/2 for any input |
| Forward.ForwardTestScenario | source/mpt_nn_test.c:42-68 | on the test network and input [0.5, 0.5], the hidden net inputs are 0.3 and 0.5, the single output is sigma of the stated net input, and it lies in (0, 1) |
| Backward.ComputeDeltas | source/mpt_nn.c:115-131 | the delta phase gives one delta per output unit and per hidden unit. Its cell values are stated by `Backward.DeltaCells` |
| Backward.OutputDeltas | source/mpt_nn.c:116-121 | the output-delta loop gives one delta per output unit; each cell's value is stated by `Backward.DeltaCells` and its sign by `Backward.OutputDeltaSign` |
| Backward.HiddenDeltas | source/mpt_nn.c:123-131 | the hidden-delta loop gives one delta per hidden unit, under either reduction of the inner sum; `Backward.HiddenDeltasAnyReduction` and `Backward.DeltaCells` state its value |
| Backward.UpdateParams | source/mpt_nn.c:133-151 | the update phase keeps the network well formed and of the same shape. Its cell values are stated by `Backward.UpdateCells` |
| Backward.Backprop | source/mpt_nn.c:107-152 | a backpropagation step keeps the network well formed and of the same shape |
| Backward.BackpropRun | source/mpt_nn.c:155-259 | any strategy's replay of the two phases, in any in-range orders and on any scratch contents, keeps the network's shape. `Backward.BackpropStrategiesAgree` states its value |
| Backward.DeltaRun | source/mpt_nn.c:163-181 | replaying the two delta loops in any in-range orders, on delta arrays of any prior contents, gives one delta per unit. `Backward.DeltaRunAgrees` states its value |
| Backward.UpdateRun | source/mpt_nn.c:183-203 | replaying the two update loops in any in-range orders keeps the network well formed and of the same shape. `Backward.UpdateRunAgrees` states its value |
| Backward.DeltaCells | source/mpt_nn.c:116-131 | each output delta is (target - output) times sigma'(output). Each hidden delta is the output deltas weighted by the output weights *before* the update, times sigma'(hidden) |
| Backward.UpdateCells | source/mpt_nn.c:134-151 | every bias gains delta*lr and every weight gains activation*delta*lr, each from its own cell |
| Backward.DeltaLoops | source/mpt_nn.c:115-131 | the two sequential delta loops compute the delta formula on scratch buffers of any prior contents |
| Backward.BackpropSequential | source/mpt_nn.c:107-152 | the sequential backpropagation computes the formula's deltas and updated parameters |
| Backward.DeltaRunAgrees | source/mpt_nn.c:163-181 | every admissible run of the delta phase, thread-parallel or `simd`, yields the formula's deltas |
| Backward.UpdateRunAgrees | source/mpt_nn.c:183-203 | every admissible run of the update phase yields the formula's updated parameters |
| Backward.BackpropStrategiesAgree | source/mpt_nn.c:155-259 | all three backpropagation strategies, with any admissible schedules, compute the same step as the formula |
| Backward.BackpropZeroRateIsIdentity | source/mpt_nn.c:134-151 | a step with learning rate 0 leaves every parameter as it was |
| Backward.BackpropAtTargetIsIdentity | source/mpt_nn.c:116-151 | when the output equals the target, all deltas are zero and the step changes nothing, whatever the learning rate. Over the reals, with the model's sigmoid and 0/1 targets, this case does not arise (`Training.OutputNeverHitsBinaryTarget`) |
| Backward.OutputDeltaSign | source/mpt_nn.c:116-120 | for an output strictly inside (0, 1), the output delta is positive exactly when the target is above the output, and negative exactly when it is below |
| Backward.BackpropOutputBiasDirection | source/mpt_nn.c:134-137 | with a positive rate, an output bias rises exactly when the target is above the output, and falls exactly when it is below |
| Backward.BackpropOutputWeightDirection | source/mpt_nn.c:137-140 | with a positive rate and a positive hidden activation, an output weight rises exactly when the target is above the output, and falls exactly when it is below |
| Backward.BackpropTestScenario | source/mpt_nn_test.c:80-110 | on the test network, one step towards target [1.0] with rate 0.1 strictly increases hiddenWeights[0][0] and outputWeights[0][0], so both differ from their initial values |
| Metrics.ArgmaxPrefix | source/main.c:115-122 | after scanning the first n entries, the kept index holds a maximal value, and no earlier index holds an equal one |
| Metrics.Argmax | source/main.c:115-122 | the scan returns the lowest index of a maximal entry, and 0 for an empty vector |
| Metrics.ArgmaxIsFirstMax | source/main.c:115-122 | an index is the scan's result if and only if it is the first position of the maximum |
| Metrics.ArgmaxLoop | source/main.c:115-130 | the label loop, with its strict comparison against the current best, returns exactly the first maximum |
| Metrics.SquaredError | source/main.c:107-111 | the per-sample loss is never negative, and it is zero when the output equals the target |
| Metrics.ZeroLossIffExact | source/main.c:107-111 | the loss is zero if and only if the output equals the target |
| Metrics.SquaredErrorLoop | source/main.c:107-112 | the loss loop adds the squared differences in index order and obtains the sum |
| Metrics.Summarize | source/main.c:152-153 | there is no report exactly when there are no samples. Otherwise average times count is the total loss, accuracy times count is 100 times the correct count, the average is non-negative, and accuracy lies in [0, 100] |
| Training.TrainStep | source/main.c:93-148 | one training step keeps the network's shape and reports a non-negative loss |
| Training.TrainStepRun | source/main.c:93-148 | one sample's forward pass, scoring and backpropagation, each phase run in its own schedule from the activation buffers the previous sample left, keeps the network's shape. `Training.TrainStepStrategiesAgree` states its value |
| Training.OutputNeverHitsBinaryTarget | source/main.c:93-112 | over the reals, with the model's sigmoid, a network with at least one output never reproduces a target whose entries are all 0 or 1, such as a one-hot label. So the model's per-sample loss on such targets is never 0 |
| Training.TrainStepAtTarget | source/main.c:93-148 | a sample the network already reproduces has loss 0, counts as correct, and leaves the parameters unchanged. Over the reals, with the model's sigmoid and 0/1 targets, this case does not arise (`Training.OutputNeverHitsBinaryTarget`) |
| Training.TrainStepStrategiesAgree | source/main.c:93-148 | whichever mode is selected, and whatever the schedules, one training step gives the same parameters, loss and correctness as the formula. The loss and label use the output before backpropagation |
| Training.TrainSample | source/main.c:93-148 | the sequential per-sample body (forward pass, loss loop, two label scans, backpropagation) computes one formula step, whatever the activation buffers and the per-call delta arrays held |
| Training.Epoch | source/main.c:76-134 | an epoch keeps the network's shape, its total loss is non-negative, and its correct count is at most the number of samples |
| Training.Then | source/main.c:112-134 | adding one sample's step to an epoch's state takes that step's parameters, adds its loss to the total, and raises the correct count by one exactly when the sample was labelled correctly |
| Training.EpochLast | source/main.c:79-149 | the epoch over s followed by x is the epoch over s, then one step on x from the parameters s left |
| Training.EpochAppend | source/main.c:79-149 | the epoch over a followed by b is the epoch over a, then the epoch over b from a's parameters, with the totals added: samples are processed strictly in order and the weights are threaded through |
| Training.EpochZeroRate | source/main.c:79-149 | with learning rate 0 an epoch leaves the parameters unchanged |
| Training.RunEpoch | source/main.c:76-149 | the sample loop yields the epoch fold's parameters, total loss and correct count. The activation buffers carry over from sample to sample, and each backpropagation call gets per-call delta arrays with undefined contents |
| Training.Train | source/main.c:74-155 | there is one report per epoch and none for a non-positive count. A report is missing exactly when there are no samples, and otherwise has a non-negative average loss and an accuracy in [0, 100] |
| Training.TrainEpochs | source/main.c:74-155 | epoch e starts from the parameters the first e epochs leave: its report summarises that epoch's loss and correct count, and the parameters after e+1 epochs are that epoch's result |
| Cli.ModeNamesDistinct | source/main.c:18-30 | the three mode names, and the three mode codes, each identify one mode |
| Cli.ModeCode | source/main.c:18-30 | each mode keeps an integer code from 1 to 3. `Cli.ModeNamesDistinct` shows the codes are distinct |
| Cli.ParseMode | source/main.c:18-35 | a word selects a mode only if it is that mode's name, and is rejected exactly when it names no mode |
| Cli.ParseModeName | source/main.c:19-30 | "sequential", "parallel" and "simd" each select their own mode |
| Cli.ParseArgs | source/main.c:10-35 | fewer than 8 arguments is a usage error. Otherwise an unknown mode word is an invalid-mode error, and a success carries the mode named by argument 1 |
| Cli.ParseArgsSelects | source/main.c:10-30 | enough arguments with a valid mode word always succeed, with that mode |
| Utility.Normalize | source/mpt_nn_utility.c:30 | every byte maps into [0, 1], and multiplying by 255 recovers the byte |
| Utility.NormalizeMonotone | source/mpt_nn_utility.c:30 | normalisation preserves and reflects both order and equality of bytes |
| Utility.OneHot | source/mpt_nn_utility.c:40-43 | the target has one entry per output, each 0 or 1 |
| Utility.LoadSample | source/mpt_nn_utility.c:30-43 | a loaded sample has one input per pixel, each in [0, 1], and one target entry per output |
| Utility.OneHotSum | source/mpt_nn_utility.c:40-43 | the encoded target sums to 1 for a label below the output count, and to 0 otherwise |
| Utility.OneHotOutOfRange | source/mpt_nn_utility.c:40-43 | a label at or above the output count encodes as all zeros |
| Utility.OneHotArgmax | source/mpt_nn_utility.c:40-43 | for an in-range label, the argmax of its encoding is the label |
| Utility.LoadedLabelRecovered | source/mpt_nn_utility.c:30-43 | for a loaded sample, the label scan recovers the label byte when it is in range, and yields 0 otherwise |
| Utility.InitValue | source/mpt_nn_utility.c:57 | every draw in [0, RAND_MAX] maps into the closed interval [-0.5, 0.5], and the draw is recoverable from the value |
| Utility.InitValueEnds | source/mpt_nn_utility.c:57 | both interval ends are reached, by draws 0 and RAND_MAX |
| Utility.InitBias | source/mpt_nn_utility.c:62-69 | a bias vector gets max(size, 0) entries, each in [-0.5, 0.5] and each determined by its own draw |
| Utility.InitWeights | source/mpt_nn_utility.c:50-60 | a weight matrix has rows x cols entries, each in [-0.5, 0.5] |
| Utility.InitWeightsRowMajor | source/mpt_nn_utility.c:53-59 | cell [i][j] is made from draw i*cols + j, the row-major order of the nested loops |
| Utility.InitWeightsUsesPrefix | source/mpt_nn_utility.c:53-59 | only the first rows*cols draws are consumed |
| Utility.InitParams | source/main.c:68-71 | initialisation yields well-formed parameters with the requested input, hidden and output sizes |
| Utility.Dropout | source/mpt_nn_utility.c:114-128 | dropout preserves the layer's length |
| Utility.DropoutValue | source/mpt_nn_utility.c:118-126 | a cell is dropped (set to 0) when its draw lies below rate*RAND_MAX, and is otherwise multiplied by 1/(1-rate) |
| Utility.DropoutZeroRate | source/mpt_nn_utility.c:119-125 | with rate 0, every element is unchanged |
| Utility.DropoutKeepsOrZeroes | source/mpt_nn_utility.c:114-128 | for 0 <= rate < 1, an element is dropped (set to 0) when its draw is below rate*RAND_MAX. Every other element is scaled by the same factor 1/(1-rate) >= 1, and multiplying by (1-rate) recovers the original |
| Utility.DropoutAboveOne | source/mpt_nn_utility.c:118-122 | a rate above 1 zeroes every element |
| Utility.DropoutRateOne | source/mpt_nn_utility.c:118-122 | at rate 1 every element whose draw lies below RAND_MAX becomes 0, without reaching the division |
| Utility.PixelChar | source/mpt_nn_utility.c:79-90 | '#' exactly for values above 0.5, '+' exactly for (0.2, 0.5], '.' exactly for values up to 0.2 |
| Utility.ShadeMonotone | source/mpt_nn_utility.c:79-90 | a brighter pixel never gets a lighter character |
| Utility.Render | source/mpt_nn_utility.c:73-91 | the pixel loop prints only newlines and the three shade characters, and a non-empty picture starts with a newline |
| Utility.RenderLength | source/mpt_nn_utility.c:73-91 | the pixel loop prints one character per pixel plus one newline per started row of 28 |
| Utility.RenderPosition | source/mpt_nn_utility.c:73-91 | pixel i is printed at position i + i/28 + 1 as its shade character, and a newline is printed just before every pixel whose index is a multiple of 28 |
| Utility.VisualizeDigit | source/mpt_nn_utility.c:71-93 | the full picture has that length plus two, and ends in a blank line |

## Left out

- Floating point: all arithmetic is over the reals. Rounding, NaN, and the
  summation-order differences of a vectorised reduction are not modelled.
  The sigmoid's `exp` is replaced by the parameter `sigma` and the
  properties in `Activation.IsSigmoid`. In double precision the sigmoid
  rounds to exactly 1.0 once its net input exceeds about 37, so the
  program can reach a zero loss and zero deltas on a 0/1 target; the
  real-valued `Training.OutputNeverHitsBinaryTarget` does not cover that.
- Concurrency: OpenMP threads are not modelled as threads. A parallel loop
  is modelled as its iterations' writes replayed in an arbitrary order; the
  loops write disjoint cells, so no interleaving can do more. The inner
  `omp simd` loops carry no reduction clause and are modelled as lane
  reductions. The thread count is not modelled.
- In-place buffers: the C functions update caller-owned arrays. The model
  returns new values, so "nothing else is written" holds by construction.
- File input: `load_mnist`'s file handling and its `exit` paths are not
  modelled. Only the per-pixel and per-label mappings are (`Utility.LoadSample`).
- Console output: every `printf`, `print_options`, and the printing itself
  in `visualize_mnist_digit` are left out. The printed text is modelled as
  a string. The scan for the expected label that is only printed
  (source/main.c:80-89) is left out with it; the scan that feeds the
  correct count is modelled.
- Memory management: `malloc`, `free` and the pointer-to-row layout are
  left out.
- Argument conversion: `atoi` and `atof` are not modelled. The numeric
  arguments are taken as already-parsed values.
- Randomness: `srand(time(NULL))` and `rand()` are replaced by explicit
  sequences of draws in [0, RAND_MAX], with RAND_MAX as in glibc. The
  reseeding before every initialisation call is therefore not modelled.
- `save_weights_and_biases` is declared in the utility header but never
  defined, so there is nothing to model.
- Convergence: no claim is made that a backpropagation step lowers the
  loss. The code never asserts it, and it does not follow from the
  sigmoid's stated properties.
- Dropout statistics: that dropout keeps each element with probability
  1 - rate is a statement about `rand()`, not about the code.
- Utility.DropoutValue, Utility.Dropout: exclude only a draw equal to
  `RAND_MAX` at rate 1. There the code divides by zero, which has no
  real-valued counterpart; every other draw at rate 1 is modelled.
- Training.RunEpoch: models only the sequential dispatch. For the other
  two modes, `Training.TrainStepStrategiesAgree` shows that each step
  computes the same result, so the fold `Training.Epoch` describes them too.
