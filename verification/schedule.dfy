/**
 Execution schedules of a parallel loop over the indices 0..n-1.

 A thread-parallel `for` hands its iterations to threads and the runtime
 decides when each runs; seen from the memory the loop writes, the stores
 land in some order of the iteration indices. The functions here replay a
 loop's stores in a given order, so that "every schedule gives the
 sequential result" and "each cell is written exactly once" become
 statements about all orders that run each iteration once.

 The value an iteration stores (or adds) is computed from data the loop
 does not write, so it is passed in as a vector `vals` / matrix `incs`.
 */
module Schedule {
  import opened Linear

  /** The sequential schedule 0, 1, ..., n-1. */
  function Range(n: nat): (r: seq<nat>)
    ensures |r| == n && forall i :: 0 <= i < n ==> r[i] == i
  {
    seq(n, i => i)
  }

  /** How many steps of `order` run iteration i. */
  function Count(order: seq<nat>, i: nat): nat
    decreases |order|
  {
    if |order| == 0 then 0
    else Count(order[..|order| - 1], i) + (if order[|order| - 1] == i then 1 else 0)
  }

  /** `order` runs each iteration 0..n-1 exactly once and nothing else. */
  ghost predicate IsPermutation(order: seq<nat>, n: nat) {
    forall i: nat :: Count(order, i) == if i < n then 1 else 0
  }

  /** The steps of `order` are all iterations of a loop over 0..n-1. */
  predicate InBounds(order: seq<nat>, n: nat) {
    forall t :: 0 <= t < |order| ==> order[t] < n
  }

  lemma {:induction false} CountPositive(order: seq<nat>, i: nat)
    ensures Count(order, i) > 0 <==> i in order
    decreases |order|
  {
    if |order| > 0 {
      var prefix := order[..|order| - 1];
      CountPositive(prefix, i);
      assert order == prefix + [order[|order| - 1]];
    }
  }

  lemma {:induction false} RangeCount(n: nat, i: nat)
    ensures Count(Range(n), i) == if i < n then 1 else 0
    decreases n
  {
    if n > 0 {
      assert Range(n)[..n - 1] == Range(n - 1);
      RangeCount(n - 1, i);
    }
  }

  /** The sequential loop order is one of the admissible schedules. */
  lemma RangeIsPermutation(n: nat)
    ensures IsPermutation(Range(n), n)
  {
    forall i: nat
      ensures Count(Range(n), i) == if i < n then 1 else 0
    {
      RangeCount(n, i);
    }
  }

  /** A schedule that runs each iteration once names only iterations of the
      loop, and names every one of them. */
  lemma PermutationCovers(order: seq<nat>, n: nat)
    requires IsPermutation(order, n)
    ensures InBounds(order, n)
    ensures forall i :: 0 <= i < n ==> i in order
  {
    forall t | 0 <= t < |order|
      ensures order[t] < n
    {
      CountPositive(order, order[t]);
    }
    forall i | 0 <= i < n
      ensures i in order
    {
      CountPositive(order, i);
    }
  }

  /** k copies of x added up: the effect of k increments by x. */
  function Times(k: nat, x: real): real
    decreases k
  {
    if k == 0 then 0.0 else Times(k - 1, x) + x
  }

  /** Replays a loop whose iteration i stores vals[i] into cell i, in the
      order given. Cells the schedule never runs keep their old value. */
  function Scatter(buf: seq<real>, order: seq<nat>, vals: seq<real>): (r: seq<real>)
    requires |vals| == |buf| && InBounds(order, |buf|)
    ensures |r| == |buf|
    ensures forall i :: 0 <= i < |buf| ==> r[i] == if i in order then vals[i] else buf[i]
    decreases |order|
  {
    if |order| == 0 then buf
    else
      var prefix := order[..|order| - 1];
      var last := order[|order| - 1];
      assert order == prefix + [last];
      var prev := Scatter(buf, prefix, vals);
      prev[last := vals[last]]
  }

  /** Under any schedule that runs each iteration once, the stores leave the
      buffer equal to `vals`, whatever it held before. */
  lemma ScatterPermutation(buf: seq<real>, order: seq<nat>, vals: seq<real>)
    requires |vals| == |buf| && IsPermutation(order, |buf|)
    ensures InBounds(order, |buf|)
    ensures Scatter(buf, order, vals) == vals
  {
    PermutationCovers(order, |buf|);
  }

  /** Replays a loop whose iteration i performs cell[i] += incs[i], in the
      order given: cell i is incremented once per step that runs i. */
  function Accumulate(buf: seq<real>, order: seq<nat>, incs: seq<real>): (r: seq<real>)
    requires |incs| == |buf| && InBounds(order, |buf|)
    ensures |r| == |buf|
    ensures forall i :: 0 <= i < |buf| ==> r[i] == buf[i] + Times(Count(order, i), incs[i])
    decreases |order|
  {
    if |order| == 0 then buf
    else
      var prefix := order[..|order| - 1];
      var last := order[|order| - 1];
      var prev := Accumulate(buf, prefix, incs);
      prev[last := prev[last] + incs[last]]
  }

  /** Under any schedule that runs each iteration once, every cell is
      incremented exactly once, from its value before the loop. */
  lemma AccumulatePermutation(buf: seq<real>, order: seq<nat>, incs: seq<real>)
    requires |incs| == |buf| && IsPermutation(order, |buf|)
    ensures InBounds(order, |buf|)
    ensures forall i :: 0 <= i < |buf| ==> Accumulate(buf, order, incs)[i] == buf[i] + incs[i]
  {
    PermutationCovers(order, |buf|);
    forall i | 0 <= i < |buf|
      ensures Times(Count(order, i), incs[i]) == incs[i]
    {
      assert Count(order, i) == 1;
      assert Times(1, incs[i]) == Times(0, incs[i]) + incs[i];
    }
  }

  /** Were an iteration run twice (two threads owning the same index), its
      cell would receive the increment twice: the disjoint partition of the
      indices is what makes the unsynchronised updates correct. */
  lemma DuplicateIterationDoublesIncrement(buf: seq<real>, order: seq<nat>, incs: seq<real>, i: nat)
    requires |incs| == |buf| && InBounds(order, |buf|)
    requires i < |buf| && Count(order, i) == 2
    ensures Accumulate(buf, order, incs)[i] == buf[i] + incs[i] + incs[i]
  {
  }

  /** Adds incs[j][c] to cell [j][c] of every row j: the inner loop of one
      iteration c of a column-update loop. The rows are distinct cells, so
      the order of the inner loop is immaterial. */
  function AddToColumn(m: seq<seq<real>>, c: nat, incs: seq<seq<real>>): (r: seq<seq<real>>)
    requires |incs| == |m| && HasColumn(m, c) && HasColumn(incs, c)
    ensures |r| == |m|
    ensures forall j :: 0 <= j < |m| ==> r[j] == m[j][c := m[j][c] + incs[j][c]]
  {
    seq(|m|, j requires 0 <= j < |m| => m[j][c := m[j][c] + incs[j][c]])
  }

  /** Replays a loop whose iteration c updates column c of a rows x cols
      matrix in every row, in the order given. */
  function AccumulateColumns(m: seq<seq<real>>, rows: nat, cols: nat, order: seq<nat>, incs: seq<seq<real>>): (r: seq<seq<real>>)
    requires IsMatrix(m, rows, cols) && IsMatrix(incs, rows, cols) && InBounds(order, cols)
    ensures IsMatrix(r, rows, cols)
    ensures forall j, c :: 0 <= j < rows && 0 <= c < cols ==>
      r[j][c] == m[j][c] + Times(Count(order, c), incs[j][c])
    decreases |order|
  {
    if |order| == 0 then m
    else
      var prefix := order[..|order| - 1];
      var last := order[|order| - 1];
      var prev := AccumulateColumns(m, rows, cols, prefix, incs);
      AddToColumn(prev, last, incs)
  }

  /** Under any schedule that runs each column once, every cell of the matrix
      is incremented exactly once, from its value before the loop. */
  lemma AccumulateColumnsPermutation(m: seq<seq<real>>, rows: nat, cols: nat, order: seq<nat>, incs: seq<seq<real>>)
    requires IsMatrix(m, rows, cols) && IsMatrix(incs, rows, cols)
    requires IsPermutation(order, cols)
    ensures InBounds(order, cols)
    ensures forall j, c :: 0 <= j < rows && 0 <= c < cols ==>
      AccumulateColumns(m, rows, cols, order, incs)[j][c] == m[j][c] + incs[j][c]
  {
    PermutationCovers(order, cols);
    var r := AccumulateColumns(m, rows, cols, order, incs);
    forall j, c | 0 <= j < rows && 0 <= c < cols
      ensures r[j][c] == m[j][c] + incs[j][c]
    {
      assert Count(order, c) == 1;
      assert Times(1, incs[j][c]) == Times(0, incs[j][c]) + incs[j][c];
    }
  }

  /** The inner loop `m[j][c] += incs[j][c]`, j = 0, 1, ..., of one
      iteration c of a column-update loop. */
  method AddToColumnLoop(m: seq<seq<real>>, c: nat, incs: seq<seq<real>>) returns (r: seq<seq<real>>)
    requires |incs| == |m| && HasColumn(m, c) && HasColumn(incs, c)
    ensures r == AddToColumn(m, c, incs)
  {
    r := m;
    var j := 0;
    while j < |m|
      invariant 0 <= j <= |m| && |r| == |m|
      invariant forall j' :: 0 <= j' < j ==> r[j'] == m[j'][c := m[j'][c] + incs[j'][c]]
      invariant forall j' :: j <= j' < |m| ==> r[j'] == m[j']
    {
      r := r[j := r[j][c := r[j][c] + incs[j][c]]];
      j := j + 1;
    }
  }

  /** The sequential update loop of one layer: iteration c adds incs[c] to
      bias c and then runs the inner loop over column c of the weights, for
      c = 0, 1, ..., cols-1. */
  method UpdateLayerLoop(bias: seq<real>, weights: seq<seq<real>>, rows: nat, cols: nat,
                         incs: seq<real>, weightIncs: seq<seq<real>>)
    returns (b: seq<real>, w: seq<seq<real>>)
    requires |bias| == cols && |incs| == cols
    requires IsMatrix(weights, rows, cols) && IsMatrix(weightIncs, rows, cols)
    ensures InBounds(Range(cols), cols)
    ensures b == Accumulate(bias, Range(cols), incs)
    ensures w == AccumulateColumns(weights, rows, cols, Range(cols), weightIncs)
  {
    b, w := bias, weights;
    var c := 0;
    while c < cols
      invariant 0 <= c <= cols && InBounds(Range(c), cols)
      invariant b == Accumulate(bias, Range(c), incs)
      invariant w == AccumulateColumns(weights, rows, cols, Range(c), weightIncs)
    {
      assert Range(c + 1)[..c] == Range(c);
      b := b[c := b[c] + incs[c]];
      w := AddToColumnLoop(w, c, weightIncs);
      c := c + 1;
    }
  }

  /** How the inner accumulation loop of an engine sums its terms: in index
      order (scalar code) or split over `width` vector lanes. */
  datatype Reduction = InOrder | Lanes(width: nat)
  {
    predicate Valid() {
      Lanes? ==> width > 0
    }
  }

  function Reduce(red: Reduction, terms: seq<real>): real
    requires red.Valid()
  {
    match red
    case InOrder => Sum(terms)
    case Lanes(w) => LaneSum(terms, w)
  }

  /** Over the reals every reduction computes the same sum. */
  lemma ReduceIsSum(red: Reduction, terms: seq<real>)
    requires red.Valid()
    ensures Reduce(red, terms) == Sum(terms)
  {
    if red.Lanes? {
      LaneSumIsSum(terms, red.width);
    }
  }
}
