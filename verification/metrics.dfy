/**
 The per-sample and per-epoch figures the training loop reports: the label
 an output vector stands for, the squared-error loss, and the epoch's
 average loss and accuracy.
 */
module Metrics {
  import opened Linear
  import opened Results

  /** k is the first index at which `v` takes its maximum: no element
      exceeds v[k], and every element before k is strictly smaller. */
  ghost predicate IsFirstMax(v: seq<real>, k: nat) {
    && k < |v|
    && (forall j :: 0 <= j < |v| ==> v[j] <= v[k])
    && (forall j :: 0 <= j < k ==> v[j] < v[k])
  }

  /** The left-to-right scan over v[0..n-1] that replaces its candidate only
      on a strictly greater element. */
  function ArgmaxPrefix(v: seq<real>, n: nat): (k: nat)
    requires 0 < n <= |v|
    ensures IsFirstMax(v[..n], k)
  {
    if n == 1 then 0
    else
      var best := ArgmaxPrefix(v, n - 1);
      assert v[..n - 1] == v[..n][..n - 1];
      if v[n - 1] > v[best] then n - 1 else best
  }

  /** The label an output vector stands for. An empty vector gives 0, the
      initial candidate the scan starts from. */
  function Argmax(v: seq<real>): (k: nat)
    ensures |v| > 0 ==> IsFirstMax(v, k)
    ensures |v| == 0 ==> k == 0
  {
    if |v| == 0 then 0 else (assert v[..|v|] == v; ArgmaxPrefix(v, |v|))
  }

  /** Ties go to the lowest index: at most one index is a first maximum. */
  lemma FirstMaxUnique(v: seq<real>, a: nat, b: nat)
    requires IsFirstMax(v, a) && IsFirstMax(v, b)
    ensures a == b
  {
    var va, vb := v[a], v[b];
    assert a < b ==> va < vb;
    assert b < a ==> vb < va;
    assert va <= vb && vb <= va;
  }

  /** On a non-empty vector `Argmax` returns exactly the first maximum. */
  lemma ArgmaxIsFirstMax(v: seq<real>, k: nat)
    requires |v| > 0
    ensures Argmax(v) == k <==> IsFirstMax(v, k)
  {
    if IsFirstMax(v, k) {
      FirstMaxUnique(v, Argmax(v), k);
    }
  }

  /** The scan as written: candidate := 0, then for j = 1, 2, ... replace
      the candidate by j when v[j] > v[candidate]. */
  method ArgmaxLoop(v: seq<real>) returns (best: nat)
    ensures best == Argmax(v)
  {
    best := 0;
    if |v| == 0 {
      return;
    }
    var j := 1;
    while j < |v|
      invariant 1 <= j <= |v|
      invariant best == ArgmaxPrefix(v, j)
    {
      if v[j] > v[best] {
        best := j;
      }
      j := j + 1;
    }
    assert v[..|v|] == v;
  }

  /** x^2, the `pow(x, 2)` of the loss loop. */
  function Square(x: real): (r: real)
    ensures r >= 0.0
    ensures x == 0.0 ==> r == 0.0
  {
    x * x
  }

  /** The square of a non-zero number is positive. */
  lemma SquarePositive(x: real)
    requires x != 0.0
    ensures Square(x) > 0.0
  {
    var m := if x > 0.0 then x else -x;
    var s := Square(x);
    assert s == m * m;
    SignOfProduct(m, m, s);
  }

  /** The terms (target[j] - output[j])^2 of the squared error. */
  function SquaredTerms(target: seq<real>, output: seq<real>): (t: seq<real>)
    requires |target| == |output|
    ensures |t| == |output|
    ensures forall j :: 0 <= j < |output| ==> t[j] == Square(target[j] - output[j])
  {
    seq(|output|, j requires 0 <= j < |output| => Square(target[j] - output[j]))
  }

  /** The per-sample loss: the sum of squared differences between target
      and output. It is never negative, and zero when the output equals the
      target. */
  function SquaredError(target: seq<real>, output: seq<real>): (loss: real)
    requires |target| == |output|
    ensures loss >= 0.0
    ensures target == output ==> loss == 0.0
  {
    var terms := SquaredTerms(target, output);
    SumNonNegative(terms);
    Sum(terms)
  }

  /** The loss is zero exactly when the output reproduces the target. */
  lemma ZeroLossIffExact(target: seq<real>, output: seq<real>)
    requires |target| == |output|
    ensures SquaredError(target, output) == 0.0 <==> target == output
  {
    var terms := SquaredTerms(target, output);
    SumNonNegative(terms);
    if SquaredError(target, output) == 0.0 {
      forall j | 0 <= j < |output|
        ensures target[j] == output[j]
      {
        if target[j] != output[j] {
          SquarePositive(target[j] - output[j]);
        }
      }
    }
  }

  /** The loss loop as written: loss := 0, then add the square of each
      difference in index order. */
  method SquaredErrorLoop(target: seq<real>, output: seq<real>) returns (loss: real)
    requires |target| == |output|
    ensures loss == SquaredError(target, output)
  {
    var terms := SquaredTerms(target, output);
    loss := 0.0;
    var j := 0;
    while j < |output|
      invariant 0 <= j <= |output|
      invariant loss == Sum(terms[..j])
    {
      SumPrefixStep(terms, j);
      loss := loss + Square(target[j] - output[j]);
      j := j + 1;
    }
    assert terms[..j] == terms;
  }

  /** What an epoch reports: the mean loss per sample and the percentage of
      correctly labelled samples. */
  datatype Summary = Summary(averageLoss: real, accuracy: real)

  /** The epoch report from its totals over n samples. With no samples both
      divisions are 0/0, which is not a number: there is no report. */
  function Summarize(totalLoss: real, correct: nat, n: nat): (r: Option<Summary>)
    ensures r.None? <==> n == 0
    ensures r.Some? ==> r.value.averageLoss * (n as real) == totalLoss
    ensures r.Some? ==> r.value.accuracy * (n as real) == 100.0 * (correct as real)
    ensures r.Some? && totalLoss >= 0.0 ==> r.value.averageLoss >= 0.0
    ensures r.Some? && correct <= n ==> 0.0 <= r.value.accuracy <= 100.0
  {
    if n == 0 then None
    else
      var average := totalLoss / (n as real);
      var accuracy := (correct as real) / (n as real) * 100.0;
      QuotientFacts(totalLoss, n as real);
      QuotientFacts(correct as real, n as real);
      Some(Summary(average, accuracy))
  }
}
