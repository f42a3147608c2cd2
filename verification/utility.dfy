/**
 The pure parts of the data and initialisation helpers: pixel scaling and
 one-hot labels as the MNIST loader builds them, the uniform mapping of
 random draws to initial weights and biases, inverted dropout, and the
 character picture the digit visualiser prints.

 Random numbers enter as explicit sequences of draws in [0, RAND_MAX].
 */
module Utility {
  import opened Linear
  import opened Network
  import opened Metrics

  newtype byte = x: int | 0 <= x < 256

  /** Scales a pixel byte to [0, 1] by dividing by 255. */
  function Normalize(pixel: byte): (v: real)
    ensures 0.0 <= v <= 1.0
    ensures v * 255.0 == pixel as real
  {
    (pixel as real) / 255.0
  }

  /** Scaling keeps pixels apart and in order. */
  lemma NormalizeMonotone(a: byte, b: byte)
    ensures a < b <==> Normalize(a) < Normalize(b)
    ensures a == b <==> Normalize(a) == Normalize(b)
  {
  }

  /** The target vector for a label: 1.0 at index `hot`, 0.0 elsewhere;
      an index outside 0..n-1 gives all zeros. */
  function OneHot(hot: nat, n: nat): (t: seq<real>)
    ensures |t| == n
    ensures forall k :: 0 <= k < n ==> t[k] == 0.0 || t[k] == 1.0
  {
    seq(n, k requires 0 <= k < n => if k == hot then 1.0 else 0.0)
  }

  /** A one-hot vector has a single 1.0, at the label, when the label is a
      valid class, and none otherwise. */
  lemma {:induction false} OneHotSum(hot: nat, n: nat)
    ensures Sum(OneHot(hot, n)) == if hot < n then 1.0 else 0.0
    decreases n
  {
    if n > 0 {
      assert OneHot(hot, n)[..n - 1] == OneHot(hot, n - 1);
      OneHotSum(hot, n - 1);
    }
  }

  lemma OneHotOutOfRange(hot: nat, n: nat)
    requires hot >= n
    ensures OneHot(hot, n) == Zeros(n)
  {
  }

  /** The label scan recovers a valid label from its one-hot vector. */
  lemma OneHotArgmax(hot: nat, n: nat)
    requires hot < n
    ensures Argmax(OneHot(hot, n)) == hot
  {
    ArgmaxIsFirstMax(OneHot(hot, n), hot);
  }

  /** One sample as the loader builds it from a row of pixel bytes and a
      label byte. */
  function LoadSample(pixels: seq<byte>, labelByte: byte, numOutputs: nat): (r: (seq<real>, seq<real>))
    ensures |r.0| == |pixels| && |r.1| == numOutputs
    ensures forall j :: 0 <= j < |pixels| ==> 0.0 <= r.0[j] <= 1.0
  {
    (seq(|pixels|, j requires 0 <= j < |pixels| => Normalize(pixels[j])), OneHot(labelByte as nat, numOutputs))
  }

  /** The expected label the training loop scans out of a loaded target is
      the labelByte byte, when it names one of the outputs; otherwise the scan
      sees all zeros and reports 0. */
  lemma LoadedLabelRecovered(pixels: seq<byte>, labelByte: byte, numOutputs: nat)
    ensures (labelByte as nat) < numOutputs ==> Argmax(LoadSample(pixels, labelByte, numOutputs).1) == labelByte as nat
    ensures (labelByte as nat) >= numOutputs ==> Argmax(LoadSample(pixels, labelByte, numOutputs).1) == 0
  {
    var t := LoadSample(pixels, labelByte, numOutputs).1;
    if (labelByte as nat) < numOutputs {
      OneHotArgmax(labelByte as nat, numOutputs);
    } else if numOutputs > 0 {
      ArgmaxIsFirstMax(t, 0);
    }
  }

  /** The largest value rand() returns (the GNU C library's). */
  const RAND_MAX: nat := 2147483647

  predicate IsDraw(r: nat) {
    r <= RAND_MAX
  }

  /** r / RAND_MAX - 0.5: a draw mapped into [-0.5, 0.5]. Both ends are
      reachable, at r = 0 and r = RAND_MAX. The draw can be recovered from
      the value. */
  function InitValue(r: nat): (v: real)
    requires IsDraw(r)
    ensures -0.5 <= v <= 0.5
    ensures (v + 0.5) * (RAND_MAX as real) == r as real
  {
    (r as real) / (RAND_MAX as real) - 0.5
  }

  lemma InitValueEnds()
    ensures InitValue(0) == -0.5
    ensures InitValue(RAND_MAX) == 0.5
  {
  }

  predicate AllDraws(draws: seq<nat>) {
    forall t :: 0 <= t < |draws| ==> IsDraw(draws[t])
  }

  /** The bias initialiser: entry i takes the i-th draw. A non-positive size
      writes nothing. */
  function InitBias(draws: seq<nat>, size: int): (b: seq<real>)
    requires AllDraws(draws) && size <= |draws|
    ensures |b| == if size > 0 then size else 0
    ensures forall i :: 0 <= i < |b| ==> -0.5 <= b[i] <= 0.5
    ensures forall i :: 0 <= i < |b| ==> (b[i] + 0.5) * (RAND_MAX as real) == draws[i] as real
  {
    if size <= 0 then []
    else seq(size, i requires 0 <= i < size => InitValue(draws[i]))
  }

  /** The draws row i of a rows x cols matrix consumes when the matrix is
      filled row by row: draws i * cols .. i * cols + cols - 1. */
  function RowDraws(draws: seq<nat>, rows: nat, cols: nat, i: nat): (r: seq<nat>)
    requires AllDraws(draws) && rows * cols <= |draws| && i < rows
    ensures |r| == cols && AllDraws(r)
  {
    RowMajorBound(rows, cols, i);
    draws[i * cols..i * cols + cols]
  }

  lemma RowMajorBound(rows: nat, cols: nat, i: nat)
    requires i < rows
    ensures i * cols + cols <= rows * cols
  {
    assert (i + 1) * cols <= rows * cols;
  }

  /** The weight initialiser: the matrix is filled row by row, each cell
      taking the next draw. */
  function InitWeights(draws: seq<nat>, rows: nat, cols: nat): (w: seq<seq<real>>)
    requires AllDraws(draws) && rows * cols <= |draws|
    ensures IsMatrix(w, rows, cols)
    ensures forall i, j :: 0 <= i < rows && 0 <= j < cols ==> -0.5 <= w[i][j] <= 0.5
  {
    seq(rows, i requires 0 <= i < rows => InitBias(RowDraws(draws, rows, cols, i), cols))
  }

  /** Row-major consumption: cell [i][j] is made from draw i * cols + j, and
      that draw can be recovered from the cell. */
  lemma InitWeightsRowMajor(draws: seq<nat>, rows: nat, cols: nat, i: nat, j: nat)
    requires AllDraws(draws) && rows * cols <= |draws|
    requires i < rows && j < cols
    ensures i * cols + j < rows * cols
    ensures InitWeights(draws, rows, cols)[i][j] == InitValue(draws[i * cols + j])
    ensures (InitWeights(draws, rows, cols)[i][j] + 0.5) * (RAND_MAX as real) == draws[i * cols + j] as real
  {
    RowMajorBound(rows, cols, i);
    assert RowDraws(draws, rows, cols, i)[j] == draws[i * cols + j];
  }

  /** Only the first rows * cols draws are used. */
  lemma InitWeightsUsesPrefix(draws: seq<nat>, rows: nat, cols: nat)
    requires AllDraws(draws) && rows * cols <= |draws|
    ensures InitWeights(draws, rows, cols) == InitWeights(draws[..rows * cols], rows, cols)
  {
    var w, v := InitWeights(draws, rows, cols), InitWeights(draws[..rows * cols], rows, cols);
    forall i | 0 <= i < rows
      ensures w[i] == v[i]
    {
      RowMajorBound(rows, cols, i);
      assert RowDraws(draws, rows, cols, i) == RowDraws(draws[..rows * cols], rows, cols, i);
    }
  }

  /** The start-up initialisation of a network with the given layer sizes,
      each of the four initialiser calls drawing from its own sequence. */
  function InitParams(hiddenWeightDraws: seq<nat>, outputWeightDraws: seq<nat>,
                      hiddenBiasDraws: seq<nat>, outputBiasDraws: seq<nat>,
                      numInputs: nat, numHidden: nat, numOutputs: nat): (p: Params)
    requires AllDraws(hiddenWeightDraws) && numInputs * numHidden <= |hiddenWeightDraws|
    requires AllDraws(outputWeightDraws) && numHidden * numOutputs <= |outputWeightDraws|
    requires AllDraws(hiddenBiasDraws) && numHidden <= |hiddenBiasDraws|
    requires AllDraws(outputBiasDraws) && numOutputs <= |outputBiasDraws|
    ensures p.WellFormed()
    ensures p.NumInputs() == numInputs && p.NumHidden() == numHidden && p.NumOutputs() == numOutputs
  {
    Params(InitWeights(hiddenWeightDraws, numInputs, numHidden),
           InitWeights(outputWeightDraws, numHidden, numOutputs),
           InitBias(hiddenBiasDraws, numHidden),
           InitBias(outputBiasDraws, numOutputs))
  }

  /** The value of one cell after dropout: zero when the draw, scaled to
      [0, 1], falls below the rate; otherwise scaled up by 1 / (1 - rate).
      At rate 1 every draw below RAND_MAX zeroes the cell; only the draw
      RAND_MAX itself reaches the division by zero. */
  function DropoutValue(x: real, r: nat, rate: real): (v: real)
    requires IsDraw(r) && (rate != 1.0 || r < RAND_MAX)
    ensures (r as real) < rate * (RAND_MAX as real) ==> v == 0.0
    ensures (r as real) >= rate * (RAND_MAX as real) ==> v == x * (1.0 / (1.0 - rate))
  {
    DrawBelowRate(r as real, RAND_MAX as real, rate);
    if (r as real) / (RAND_MAX as real) < rate then 0.0 else x * (1.0 / (1.0 - rate))
  }

  /** Comparing the scaled draw d / m with the rate is comparing d with
      rate * m. */
  lemma DrawBelowRate(d: real, m: real, rate: real)
    requires m > 0.0
    ensures d / m < rate <==> d < rate * m
  {
    var q := d / m;
    assert q * m == d;
    assert (rate - q) * m == rate * m - d;
    SignOfProduct(rate - q, m, rate * m - d);
  }

  /** Inverted dropout over a whole layer, cell i using draw i. */
  function Dropout(layer: seq<real>, draws: seq<nat>, rate: real): (r: seq<real>)
    requires AllDraws(draws) && |layer| <= |draws|
    requires rate != 1.0 || forall i :: 0 <= i < |layer| ==> draws[i] < RAND_MAX
    ensures |r| == |layer|
  {
    seq(|layer|, i requires 0 <= i < |layer| => DropoutValue(layer[i], draws[i], rate))
  }

  /** Rate 0 keeps every cell unchanged. */
  lemma DropoutZeroRate(layer: seq<real>, draws: seq<nat>)
    requires AllDraws(draws) && |layer| <= |draws|
    ensures Dropout(layer, draws, 0.0) == layer
  {
  }

  /** For a rate in [0, 1) the survivors are all scaled by the same factor,
      which is at least 1, and can be scaled back; a cell is dropped (set to
      0) when its draw lies below rate * RAND_MAX, and kept otherwise. */
  lemma DropoutKeepsOrZeroes(layer: seq<real>, draws: seq<nat>, rate: real, i: nat)
    requires AllDraws(draws) && |layer| <= |draws| && 0.0 <= rate < 1.0 && i < |layer|
    ensures 1.0 / (1.0 - rate) >= 1.0
    ensures (draws[i] as real) < rate * (RAND_MAX as real) ==> Dropout(layer, draws, rate)[i] == 0.0
    ensures (draws[i] as real) >= rate * (RAND_MAX as real) ==>
      && Dropout(layer, draws, rate)[i] == layer[i] * (1.0 / (1.0 - rate))
      && Dropout(layer, draws, rate)[i] * (1.0 - rate) == layer[i]
  {
    var f := 1.0 / (1.0 - rate);
    assert f * (1.0 - rate) == 1.0;
    QuotientFacts(1.0, 1.0 - rate);
    assert layer[i] * f * (1.0 - rate) == layer[i] * (f * (1.0 - rate));
  }

  /** A rate above 1 drops every cell: no draw scales to 1 or more. */
  lemma DropoutAboveOne(layer: seq<real>, draws: seq<nat>, rate: real)
    requires AllDraws(draws) && |layer| <= |draws| && rate > 1.0
    ensures Dropout(layer, draws, rate) == Zeros(|layer|)
  {
    var m := RAND_MAX as real;
    forall i | 0 <= i < |layer|
      ensures (draws[i] as real) / m < rate
    {
      var d := draws[i] as real;
      assert (d / m) * m == d;
    }
  }

  /** Rate 1 drops every cell whose draw lies below RAND_MAX. */
  lemma DropoutRateOne(layer: seq<real>, draws: seq<nat>)
    requires AllDraws(draws) && |layer| <= |draws|
    requires forall i :: 0 <= i < |layer| ==> draws[i] < RAND_MAX
    ensures Dropout(layer, draws, 1.0) == Zeros(|layer|)
  {
  }

  /** The visualiser's shade for one pixel value. */
  function PixelChar(v: real): (c: char)
    ensures c == '#' <==> v > 0.5
    ensures c == '+' <==> 0.2 < v <= 0.5
    ensures c == '.' <==> v <= 0.2
  {
    if v > 0.5 then '#' else if v > 0.2 then '+' else '.'
  }

  /** Brighter pixels never get a lighter shade. */
  function ShadeRank(c: char): nat {
    if c == '#' then 2 else if c == '+' then 1 else 0
  }

  lemma ShadeMonotone(a: real, b: real)
    requires a <= b
    ensures ShadeRank(PixelChar(a)) <= ShadeRank(PixelChar(b))
  {
  }

  const RowWidth: nat := 28

  /** The picture of a pixel row: a newline before every index divisible by
      28, then the shade of each pixel. */
  function Render(pixels: seq<real>): (s: string)
    ensures forall k :: 0 <= k < |s| ==> s[k] in "\n#+."
    ensures |pixels| > 0 ==> |s| > 0 && s[0] == '\n'
    decreases |pixels|
  {
    if |pixels| == 0 then ""
    else
      var n := |pixels| - 1;
      Render(pixels[..n]) + (if n % RowWidth == 0 then "\n" else "") + [PixelChar(pixels[n])]
  }

  /** The whole printout of a digit: the picture and a blank line. */
  function VisualizeDigit(pixels: seq<real>): (s: string)
    ensures |s| == |pixels| + (|pixels| + RowWidth - 1) / RowWidth + 2
    ensures s[|s| - 2..] == "\n\n"
  {
    RenderLength(pixels);
    Render(pixels) + "\n\n"
  }

  /** The picture has one character per pixel and one newline per started
      row of 28. */
  lemma {:induction false} RenderLength(pixels: seq<real>)
    ensures |Render(pixels)| == |pixels| + (|pixels| + RowWidth - 1) / RowWidth
    decreases |pixels|
  {
    if |pixels| > 0 {
      var n := |pixels| - 1;
      RenderLength(pixels[..n]);
      RowCountStep(n);
    }
  }

  lemma RowCountStep(n: nat)
    ensures (n + 1 + RowWidth - 1) / RowWidth == (n + RowWidth - 1) / RowWidth + (if n % RowWidth == 0 then 1 else 0)
  {
  }

  /** Pixel i is drawn at position i + i / 28 + 1, after its own row's
      newline and the i pixels and i / 28 earlier newlines before it; every
      row starts with a newline. */
  lemma {:induction false} RenderPosition(pixels: seq<real>, i: nat)
    requires i < |pixels|
    ensures RenderLengthFacts(pixels)
    ensures i + i / RowWidth + 1 < |Render(pixels)|
    ensures Render(pixels)[i + i / RowWidth + 1] == PixelChar(pixels[i])
    ensures i % RowWidth == 0 ==> Render(pixels)[i + i / RowWidth] == '\n'
    decreases |pixels|
  {
    var n := |pixels| - 1;
    RenderLength(pixels);
    RenderLength(pixels[..n]);
    RowCountStep(n);
    if i < n {
      RenderPosition(pixels[..n], i);
      PrefixIndex(Render(pixels[..n]), (if n % RowWidth == 0 then "\n" else "") + [PixelChar(pixels[n])], i + i / RowWidth + 1);
      if i % RowWidth == 0 {
        PrefixIndex(Render(pixels[..n]), (if n % RowWidth == 0 then "\n" else "") + [PixelChar(pixels[n])], i + i / RowWidth);
      }
    }
  }

  predicate RenderLengthFacts(pixels: seq<real>) {
    |Render(pixels)| == |pixels| + (|pixels| + RowWidth - 1) / RowWidth
  }

  lemma PrefixIndex(a: string, b: string, k: nat)
    requires k < |a|
    ensures (a + b)[k] == a[k]
  {
  }
}
