/**
 Dense vectors and matrices over `real`, the sums the layer maths is built
 from, and the lane-strided sum a vectorised reduction computes.

 A matrix is a sequence of rows. `Sum` folds from the left, exactly as an
 accumulator loop `acc += term[j]` for j = 0, 1, ... does.
 */
module Linear {

  predicate IsMatrix(m: seq<seq<real>>, rows: nat, cols: nat) {
    |m| == rows && forall j :: 0 <= j < |m| ==> |m[j]| == cols
  }

  /** Every row of `m` is long enough to have a column `col`. */
  predicate HasColumn(m: seq<seq<real>>, col: nat) {
    forall j :: 0 <= j < |m| ==> col < |m[j]|
  }

  function Zeros(n: nat): (z: seq<real>)
    ensures |z| == n && forall i :: 0 <= i < n ==> z[i] == 0.0
  {
    seq(n, _ => 0.0)
  }

  /** s[0] + s[1] + ... + s[|s|-1], accumulated left to right. */
  function Sum(s: seq<real>): real
    decreases |s|
  {
    if |s| == 0 then 0.0 else Sum(s[..|s| - 1]) + s[|s| - 1]
  }

  /** The products v[j] * m[j][col], j over the rows: the terms of the
      product of row vector v with column `col` of m. */
  function ColumnTerms(v: seq<real>, m: seq<seq<real>>, col: nat): (t: seq<real>)
    requires |v| == |m| && HasColumn(m, col)
    ensures |t| == |v|
    ensures forall j :: 0 <= j < |v| ==> t[j] == v[j] * m[j][col]
  {
    seq(|v|, j requires 0 <= j < |v| => v[j] * m[j][col])
  }

  /** The products v[k] * m[row][k], k over the columns: the terms of the
      product of row `row` of m with column vector v. */
  function RowTerms(v: seq<real>, m: seq<seq<real>>, row: nat): (t: seq<real>)
    requires row < |m| && |v| == |m[row]|
    ensures |t| == |v|
    ensures forall k :: 0 <= k < |v| ==> t[k] == v[k] * m[row][k]
  {
    seq(|v|, k requires 0 <= k < |v| => v[k] * m[row][k])
  }

  /** One step of an accumulator loop: the sum of the first j+1 terms is the
      sum of the first j plus term j. */
  lemma SumPrefixStep(s: seq<real>, j: nat)
    requires j < |s|
    ensures Sum(s[..j + 1]) == Sum(s[..j]) + s[j]
  {
    assert s[..j + 1][..j] == s[..j];
  }

  lemma {:induction false} SumOfZeros(s: seq<real>)
    requires forall k :: 0 <= k < |s| ==> s[k] == 0.0
    ensures Sum(s) == 0.0
    decreases |s|
  {
    if |s| > 0 {
      SumOfZeros(s[..|s| - 1]);
    }
  }

  /** A sum of non-negative terms is non-negative, and it is zero exactly
      when every term is. */
  lemma {:induction false} SumNonNegative(s: seq<real>)
    requires forall k :: 0 <= k < |s| ==> s[k] >= 0.0
    ensures Sum(s) >= 0.0
    ensures Sum(s) == 0.0 <==> forall k :: 0 <= k < |s| ==> s[k] == 0.0
    decreases |s|
  {
    if |s| > 0 {
      var init := s[..|s| - 1];
      SumNonNegative(init);
      if Sum(s) == 0.0 {
        assert forall k :: 0 <= k < |s| - 1 ==> s[k] == init[k];
      } else if forall k :: 0 <= k < |s| ==> s[k] == 0.0 {
        SumOfZeros(s);
      }
    }
  }

  /** Adding x to one term adds x to the sum. */
  lemma {:induction false} SumUpdate(s: seq<real>, i: nat, x: real)
    requires i < |s|
    ensures Sum(s[i := s[i] + x]) == Sum(s) + x
    decreases |s|
  {
    var t := s[i := s[i] + x];
    var n := |s|;
    if i == n - 1 {
      assert t[..n - 1] == s[..n - 1];
    } else {
      assert t[..n - 1] == s[..n - 1][i := s[i] + x];
      SumUpdate(s[..n - 1], i, x);
    }
  }

  /** A vectorised reduction with `|lanes|` accumulators: term j is added
      into lane j mod |lanes|, in order of j. */
  function LaneAccumulate(lanes: seq<real>, terms: seq<real>): (r: seq<real>)
    requires |lanes| > 0
    ensures |r| == |lanes|
    decreases |terms|
  {
    if |terms| == 0 then lanes
    else
      var prev := LaneAccumulate(lanes, terms[..|terms| - 1]);
      var lane := (|terms| - 1) % |lanes|;
      prev[lane := prev[lane] + terms[|terms| - 1]]
  }

  /** The reduction a `width`-lane vector unit performs: lane-wise partial
      sums from zero, then a horizontal sum of the lanes. */
  function LaneSum(terms: seq<real>, width: nat): real
    requires width > 0
  {
    Sum(LaneAccumulate(Zeros(width), terms))
  }

  lemma {:induction false} LaneAccumulateSum(lanes: seq<real>, terms: seq<real>)
    requires |lanes| > 0
    ensures Sum(LaneAccumulate(lanes, terms)) == Sum(lanes) + Sum(terms)
    decreases |terms|
  {
    if |terms| > 0 {
      var n := |terms|;
      var prev := LaneAccumulate(lanes, terms[..n - 1]);
      LaneAccumulateSum(lanes, terms[..n - 1]);
      SumUpdate(prev, (n - 1) % |lanes|, terms[n - 1]);
    }
  }

  /** Over the reals, regrouping the terms into lanes does not change the
      sum, whatever the lane count. */
  lemma LaneSumIsSum(terms: seq<real>, width: nat)
    requires width > 0
    ensures LaneSum(terms, width) == Sum(terms)
  {
    LaneAccumulateSum(Zeros(width), terms);
    SumOfZeros(Zeros(width));
  }

  /** The accumulator loop `acc += v[j] * m[j][col]`, j = 0, 1, ..., from a
      starting value (a bias, or 0). */
  method ColumnDotLoop(init: real, v: seq<real>, m: seq<seq<real>>, col: nat) returns (acc: real)
    requires |v| == |m| && HasColumn(m, col)
    ensures acc == init + Sum(ColumnTerms(v, m, col))
  {
    var terms := ColumnTerms(v, m, col);
    acc := init;
    var j := 0;
    while j < |v|
      invariant 0 <= j <= |v|
      invariant acc == init + Sum(terms[..j])
    {
      SumPrefixStep(terms, j);
      acc := acc + v[j] * m[j][col];
      j := j + 1;
    }
    assert terms[..j] == terms;
  }

  /** The accumulator loop `acc += v[k] * m[row][k]`, k = 0, 1, ..., from a
      starting value. */
  method RowDotLoop(init: real, v: seq<real>, m: seq<seq<real>>, row: nat) returns (acc: real)
    requires row < |m| && |v| == |m[row]|
    ensures acc == init + Sum(RowTerms(v, m, row))
  {
    var terms := RowTerms(v, m, row);
    acc := init;
    var k := 0;
    while k < |v|
      invariant 0 <= k <= |v|
      invariant acc == init + Sum(terms[..k])
    {
      SumPrefixStep(terms, k);
      acc := acc + v[k] * m[row][k];
      k := k + 1;
    }
    assert terms[..k] == terms;
  }

  /** Element-wise sum of two vectors of equal length. */
  function VectorAdd(a: seq<real>, b: seq<real>): (r: seq<real>)
    requires |a| == |b|
    ensures |r| == |a|
  {
    seq(|a|, i requires 0 <= i < |a| => a[i] + b[i])
  }

  /** Element-wise sum of two rows x cols matrices. */
  function MatrixAdd(a: seq<seq<real>>, b: seq<seq<real>>, rows: nat, cols: nat): (r: seq<seq<real>>)
    requires IsMatrix(a, rows, cols) && IsMatrix(b, rows, cols)
    ensures IsMatrix(r, rows, cols)
  {
    seq(rows, j requires 0 <= j < rows => VectorAdd(a[j], b[j]))
  }

  /** d[i] * s for every i. */
  function Scaled(d: seq<real>, s: real): (r: seq<real>)
    ensures |r| == |d|
  {
    seq(|d|, i requires 0 <= i < |d| => d[i] * s)
  }

  /** The |v| x |d| matrix with cell [j][i] = v[j] * d[i] * s. */
  function Outer(v: seq<real>, d: seq<real>, s: real): (r: seq<seq<real>>)
    ensures IsMatrix(r, |v|, |d|)
  {
    seq(|v|, j requires 0 <= j < |v| => seq(|d|, i requires 0 <= i < |d| => v[j] * d[i] * s))
  }

  /** Adding an all-zero matrix leaves a matrix unchanged. */
  lemma MatrixAddZero(a: seq<seq<real>>, b: seq<seq<real>>, rows: nat, cols: nat)
    requires IsMatrix(a, rows, cols) && IsMatrix(b, rows, cols)
    requires forall j, i :: 0 <= j < rows && 0 <= i < cols ==> b[j][i] == 0.0
    ensures MatrixAdd(a, b, rows, cols) == a
  {
    var r := MatrixAdd(a, b, rows, cols);
    forall j | 0 <= j < rows
      ensures r[j] == a[j]
    {
    }
  }

  /** An outer product with a zero scale or a zero vector is all zero. */
  lemma OuterZero(v: seq<real>, d: seq<real>, s: real)
    requires s == 0.0 || forall i :: 0 <= i < |d| ==> d[i] == 0.0
    ensures forall j, i :: 0 <= j < |v| && 0 <= i < |d| ==> Outer(v, d, s)[j][i] == 0.0
  {
  }

  /** A product c = x * y with a positive factor y has the sign of x. The
      product is passed in by name: the solver reasons about it more
      reliably that way than about the term x * y inside a larger formula. */
  lemma SignOfProduct(x: real, y: real, c: real)
    requires y > 0.0 && c == x * y
    ensures c > 0.0 <==> x > 0.0
    ensures c < 0.0 <==> x < 0.0
  {
    if x > 0.0 {
      assert c > 0.0;
    } else if x < 0.0 {
      assert c < 0.0;
    } else {
      assert c == 0.0;
    }
  }

  /** x / d for positive d: multiplying back gives x, the sign is that of x,
      and the quotient lies below, at or above 1 as x lies below, at or
      above d (and above -1 when x lies above -d). */
  lemma QuotientFacts(x: real, d: real)
    requires d > 0.0
    ensures (x / d) * d == x
    ensures x >= 0.0 ==> x / d >= 0.0
    ensures x <= d ==> x / d <= 1.0
    ensures x < d ==> x / d < 1.0
    ensures x >= d ==> x / d >= 1.0
    ensures -d < x ==> -1.0 < x / d
  {
    var q := x / d;
    assert q * d == x;
    SignOfProduct(q, d, x);
    assert (1.0 - q) * d == d - x;
    SignOfProduct(1.0 - q, d, d - x);
    assert (q + 1.0) * d == x + d;
    SignOfProduct(q + 1.0, d, x + d);
  }
}
