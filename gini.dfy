/**
 * Split search with the Gini impurity (hexlytics.rf.GiniStatistic).
 *
 * For one column the statistic holds a histogram per bin: bins[b][j] is the
 * number of rows of class j whose value in the column falls in bin b.  A
 * threshold split sweeps the bins left to right, moving one bin at a time
 * from the right-hand class distribution to the left-hand one, and keeps the
 * first cut whose weighted Gini impurity is smallest.  An exclusion split
 * isolates one bin against the rest.  Impurities are real numbers here,
 * not IEEE doubles.
 */
module GiniStatistic {
  import opened Wrappers

  /** The outcome of a column's split search (the Split collaborator). */
  datatype Split =
    | Threshold(column: int, bin: int, gain: real)      // Split.split: rows in bins 0..bin go left
    | Exclusion(column: int, bin: int, fitness: real)   // Split.exclusion: rows in bin `bin` go left
    | Impossible(classOf: int)                          // Split.impossible: no usable cut, majority class

  function Sq(x: real): real {
    x * x
  }

  // ---------------------------------------------------------------------------
  // The impurity of one class distribution

  /** The sum of the squared class frequencies dd[j] / sum. */
  function SumSquares(dd: seq<int>, sum: int): (r: real)
    requires sum != 0
    ensures r >= 0.0
  {
    if |dd| == 0 then 0.0
    else SumSquares(dd[..|dd| - 1], sum) + Sq(dd[|dd| - 1] as real / sum as real)
  }

  /** gini(dd, sum) = 1 - sum_j (dd[j] / sum)^2. */
  function GiniOf(dd: seq<int>, sum: int): real
    requires sum != 0
  {
    1.0 - SumSquares(dd, sum)
  }

  /** The sum of the first n entries of a class distribution. */
  function Total(dd: seq<int>, n: nat): int
    requires n <= |dd|
  {
    if n == 0 then 0 else Total(dd, n - 1) + dd[n - 1]
  }

  predicate NonNegative(dd: seq<int>) {
    forall j :: 0 <= j < |dd| ==> dd[j] >= 0
  }

  /** The squares of non-negative frequencies add up to at most the square of their sum. */
  lemma {:induction false} SquaresBelowSquaredTotal(dd: seq<int>, sum: int)
    requires sum > 0 && NonNegative(dd)
    ensures SumSquares(dd, sum) <= Sq(Total(dd, |dd|) as real / sum as real)
    ensures Total(dd, |dd|) >= 0
  {
    if |dd| > 0 {
      var t := dd[..|dd| - 1];
      SquaresBelowSquaredTotal(t, sum);
      TotalPrefix(dd, |dd| - 1, |dd| - 1);
      var a, d := Total(t, |t|), dd[|dd| - 1];
      assert Total(dd, |dd|) == a + d;
      DivAdd(a, d, sum);
      SquaresOfSum(a as real / sum as real, d as real / sum as real);
    }
  }

  lemma DivAdd(a: int, b: int, sum: int)
    requires sum != 0
    ensures (a + b) as real / sum as real == a as real / sum as real + b as real / sum as real
  {
  }

  lemma SquaresOfSum(s: real, x: real)
    requires s >= 0.0 && x >= 0.0
    ensures Sq(s) + Sq(x) <= Sq(s + x)
  {
    assert Sq(s + x) == Sq(s) + 2.0 * s * x + Sq(x);
  }

  lemma DivSelf(r: real)
    requires r != 0.0
    ensures r / r == 1.0
  {
  }

  /** Total only looks at the entries it adds up. */
  lemma {:induction false} TotalPrefix(dd: seq<int>, m: nat, n: nat)
    requires n <= m <= |dd|
    ensures Total(dd[..m], n) == Total(dd, n)
    decreases n
  {
    if n > 0 {
      TotalPrefix(dd, m, n - 1);
    }
  }

  /** The impurity of a distribution of non-negative counts with total `sum` is at least 0. */
  lemma GiniNonNegative(dd: seq<int>, sum: int)
    requires sum > 0 && NonNegative(dd) && Total(dd, |dd|) == sum
    ensures 0.0 <= GiniOf(dd, sum)
  {
    SquaresBelowSquaredTotal(dd, sum);
    assert Total(dd, |dd|) as real / sum as real == 1.0;
  }

  /** A pure distribution (all rows of one class) has impurity 0. */
  lemma {:induction false} GiniPure(dd: seq<int>, sum: int, k: nat)
    requires sum != 0 && k < |dd| && dd[k] == sum
    requires forall j :: 0 <= j < |dd| && j != k ==> dd[j] == 0
    ensures GiniOf(dd, sum) == 0.0
  {
    PureSquares(dd, sum, k, |dd|);
    assert dd[..|dd|] == dd;
  }

  lemma {:induction false} PureSquares(dd: seq<int>, sum: int, k: nat, n: nat)
    requires sum != 0 && k < |dd| && dd[k] == sum && n <= |dd|
    requires forall j :: 0 <= j < |dd| && j != k ==> dd[j] == 0
    ensures SumSquares(dd[..n], sum) == if k < n then 1.0 else 0.0
  {
    if n > 0 {
      PureSquares(dd, sum, k, n - 1);
      assert dd[..n][..n - 1] == dd[..n - 1];
      var x := dd[n - 1] as real / sum as real;
      assert SumSquares(dd[..n], sum) == SumSquares(dd[..n - 1], sum) + Sq(x);
      if n - 1 == k {
        DivSelf(sum as real);
      } else {
        assert x == 0.0;
      }
    }
  }

  /** gini(dd, sum), accumulated class by class as in the source. */
  method Gini(dd: array<int>, sum: int) returns (g: real)
    requires sum != 0
    ensures g == GiniOf(dd[..], sum)
  {
    g := 1.0;
    var k := 0;
    while k < dd.Length
      invariant 0 <= k <= dd.Length
      invariant g == 1.0 - SumSquares(dd[..k], sum)
    {
      var tmp := dd[k] as real / sum as real;
      assert dd[..k + 1][..k] == dd[..k];
      g := g - tmp * tmp;
      k := k + 1;
    }
    assert dd[..k] == dd[..];
  }

  // ---------------------------------------------------------------------------
  // The sweep, as functions of the bin histograms

  /** Every bin histogram has one count per class. */
  predicate Rect(bins: seq<seq<int>>, c: nat) {
    forall b :: 0 <= b < |bins| ==> |bins[b]| == c
  }

  /** Class j's count over bins 0..n-1. */
  function ColSum(bins: seq<seq<int>>, c: nat, n: nat, j: nat): int
    requires Rect(bins, c) && n <= |bins| && j < c
  {
    if n == 0 then 0 else ColSum(bins, c, n - 1, j) + bins[n - 1][j]
  }

  /** The rows in bins 0..n-1 (the weight moved to the left by the threshold sweep). */
  function WeightBefore(bins: seq<seq<int>>, n: nat): int
    requires n <= |bins|
  {
    if n == 0 then 0 else WeightBefore(bins, n - 1) + Total(bins[n - 1], |bins[n - 1]|)
  }

  /** The class distribution of bins 0..n-1. */
  function LeftDist(bins: seq<seq<int>>, c: nat, n: nat): (r: seq<int>)
    requires Rect(bins, c) && n <= |bins|
    ensures |r| == c && forall j :: 0 <= j < c ==> r[j] == ColSum(bins, c, n, j)
  {
    seq(c, j requires 0 <= j < c => ColSum(bins, c, n, j))
  }

  /** dist - left, class by class. */
  function Minus(dist: seq<int>, left: seq<int>): (r: seq<int>)
    requires |left| == |dist|
    ensures |r| == |dist| && forall j :: 0 <= j < |dist| ==> r[j] == dist[j] - left[j]
  {
    seq(|dist|, j requires 0 <= j < |dist| => dist[j] - left[j])
  }

  /** The weighted impurity of a cut, or None when one side has no rows. */
  function Fitness(left: seq<int>, lw: int, rite: seq<int>, rw: int, tot: int): (f: Option<real>)
    requires tot != 0 || lw == 0 || rw == 0
    ensures f.None? <==> lw == 0 || rw == 0
    ensures tot > 0 && lw >= 0 && rw >= 0 && lw + rw == tot && f.Some? ==> f.value <= 1.0
  {
    if lw == 0 || rw == 0 then None
    else
      FitnessAtMostOne(left, lw, rite, rw, tot);
      Some(Weighted(GiniOf(left, lw), lw, tot) + Weighted(GiniOf(rite, rw), rw, tot))
  }

  /** An impurity weighted by its side's share of the rows. */
  function Weighted(g: real, w: int, tot: int): real
    requires tot != 0
  {
    g * (w as real / tot as real)
  }

  /** Cut after bin i: bins 0..i on the left, the rest on the right. */
  function SplitFitness(bins: seq<seq<int>>, dist: seq<int>, tot: int, i: nat): Option<real>
    requires Rect(bins, |dist|) && i < |bins| && (tot != 0 || WeightBefore(bins, i + 1) == 0)
  {
    var left := LeftDist(bins, |dist|, i + 1);
    var lw := WeightBefore(bins, i + 1);
    Fitness(left, lw, Minus(dist, left), tot - lw, tot)
  }

  /**
   * Bin i against the rest, as the source computes it: the left distribution
   * is bin i alone, but the left weight is that of bins 0..i.
   */
  function ExclusionFitness(bins: seq<seq<int>>, dist: seq<int>, tot: int, i: nat): Option<real>
    requires Rect(bins, |dist|) && i < |bins| && (tot != 0 || WeightBefore(bins, i + 1) == 0)
  {
    var lw := WeightBefore(bins, i + 1);
    Fitness(bins[i], lw, Minus(dist, bins[i]), tot - lw, tot)
  }

  /** The number of cut positions examined: 0..|bins|-2. */
  function Cuts(bins: seq<seq<int>>): nat {
    if |bins| == 0 then 0 else |bins| - 1
  }

  /**
   * The sweeps divide by the node's weight only at a cut with rows on both
   * sides; a node without rows (weight 0) has none in any prefix of its bins.
   */
  predicate Scorable(bins: seq<seq<int>>, tot: int) {
    tot != 0 || WeightsWithin(bins, 0)
  }

  function SplitCandidates(bins: seq<seq<int>>, dist: seq<int>, tot: int): (r: seq<Option<real>>)
    requires Rect(bins, |dist|) && Scorable(bins, tot)
    ensures |r| == Cuts(bins) && forall i :: 0 <= i < |r| ==> r[i] == SplitFitness(bins, dist, tot, i)
  {
    seq(Cuts(bins), i requires 0 <= i < Cuts(bins) => SplitFitness(bins, dist, tot, i))
  }

  function ExclusionCandidates(bins: seq<seq<int>>, dist: seq<int>, tot: int): (r: seq<Option<real>>)
    requires Rect(bins, |dist|) && Scorable(bins, tot)
    ensures |r| == Cuts(bins) && forall i :: 0 <= i < |r| ==> r[i] == ExclusionFitness(bins, dist, tot, i)
  {
    seq(Cuts(bins), i requires 0 <= i < Cuts(bins) => ExclusionFitness(bins, dist, tot, i))
  }

  // ---------------------------------------------------------------------------
  // First-minimum selection

  datatype Best = Best(split: int, fitness: real)

  /** The sweep's best-so-far: bestSplit -1 and bestFitness 2.0, replaced on a strictly smaller fitness. */
  function Select(fs: seq<Option<real>>): Best {
    if |fs| == 0 then Best(-1, 2.0)
    else
      var b := Select(fs[..|fs| - 1]);
      var f := fs[|fs| - 1];
      if f.Some? && f.value < b.fitness then Best(|fs| - 1, f.value) else b
  }

  /** Candidate k is a cut with fitness at most f. */
  predicate AtMost(fs: seq<Option<real>>, k: int, f: real)
    requires 0 <= k < |fs|
  {
    fs[k].Some? && fs[k].value <= f
  }

  /**
   * The selection is the FIRST position of minimal fitness among the cuts
   * whose fitness is below 2.0, and -1 exactly when there is no such cut.
   */
  lemma {:induction false} SelectFirstMinimum(fs: seq<Option<real>>)
    ensures var b := Select(fs);
      (b.split == -1 <==> forall k :: 0 <= k < |fs| && fs[k].Some? ==> fs[k].value >= 2.0) &&
      (b.split == -1 ==> b.fitness == 2.0) &&
      (b.split != -1 ==>
        0 <= b.split < |fs| && fs[b.split] == Some(b.fitness) && b.fitness < 2.0 &&
        (forall k :: 0 <= k < |fs| && fs[k].Some? ==> b.fitness <= fs[k].value) &&
        (forall k :: 0 <= k < b.split && fs[k].Some? ==> b.fitness < fs[k].value))
  {
    if |fs| > 0 {
      var t := fs[..|fs| - 1];
      SelectFirstMinimum(t);
      assert forall k :: 0 <= k < |t| ==> t[k] == fs[k];
    }
  }

  /** Selection over a longer prefix extends the selection over a shorter one by one step. */
  lemma SelectStep(fs: seq<Option<real>>, i: nat)
    requires i < |fs|
    ensures Select(fs[..i + 1]) ==
      (var b := Select(fs[..i]);
       if fs[i].Some? && fs[i].value < b.fitness then Best(i, fs[i].value) else b)
  {
    assert fs[..i + 1][..i] == fs[..i];
  }

  // ---------------------------------------------------------------------------
  // The two sweeps

  /**
   * Utils.maxIndex: an index of a maximal entry.  Which maximum the source's
   * random tie-break picks is not specified; this one returns the first.
   */
  method MaxIndex(dist: seq<int>) returns (k: nat)
    requires |dist| > 0
    ensures k < |dist| && forall j :: 0 <= j < |dist| ==> dist[j] <= dist[k]
  {
    k := 0;
    var j := 1;
    while j < |dist|
      invariant 1 <= j <= |dist| && k < j
      invariant forall m :: 0 <= m < j ==> dist[m] <= dist[k]
    {
      if dist[j] > dist[k] {
        k := j;
      }
      j := j + 1;
    }
  }

  /** A fresh array holding the given contents (int[] allocation and clone). */
  method NewArray(contents: seq<int>) returns (a: array<int>)
    ensures fresh(a) && a[..] == contents
  {
    a := new int[|contents|](j requires 0 <= j < |contents| => contents[j]);
  }

  /** The threshold sweep's inner loop: move bin `row` from the right distribution to the left one. */
  method MoveBin(row: seq<int>, leftDist: array<int>, riteDist: array<int>, leftWeight: int, riteWeight: int)
    returns (lw: int, rw: int)
    requires leftDist != riteDist && leftDist.Length == riteDist.Length == |row|
    modifies leftDist, riteDist
    ensures forall j :: 0 <= j < |row| ==>
      leftDist[j] == old(leftDist[j]) + row[j] && riteDist[j] == old(riteDist[j]) - row[j]
    ensures lw == leftWeight + Total(row, |row|) && rw == riteWeight - Total(row, |row|)
  {
    lw, rw := leftWeight, riteWeight;
    var j := 0;
    while j < |row|
      invariant 0 <= j <= |row|
      invariant forall m :: 0 <= m < j ==>
        leftDist[m] == old(leftDist[m]) + row[m] && riteDist[m] == old(riteDist[m]) - row[m]
      invariant forall m :: j <= m < |row| ==>
        leftDist[m] == old(leftDist[m]) && riteDist[m] == old(riteDist[m])
      invariant lw == leftWeight + Total(row, j) && rw == riteWeight - Total(row, j)
    {
      var t := row[j];
      lw := lw + t;
      rw := rw - t;
      leftDist[j] := leftDist[j] + t;
      riteDist[j] := riteDist[j] - t;
      j := j + 1;
    }
  }

  /**
   * The exclusion sweep's inner loop: the previous bin returns to the right
   * distribution, bin `row` replaces it on the left, and the weights move as
   * in the threshold sweep.
   */
  method SwapBin(row: seq<int>, leftDist: array<int>, riteDist: array<int>, leftWeight: int, riteWeight: int)
    returns (lw: int, rw: int)
    requires leftDist != riteDist && leftDist.Length == riteDist.Length == |row|
    modifies leftDist, riteDist
    ensures forall j :: 0 <= j < |row| ==>
      leftDist[j] == row[j] && riteDist[j] == old(riteDist[j]) + old(leftDist[j]) - row[j]
    ensures lw == leftWeight + Total(row, |row|) && rw == riteWeight - Total(row, |row|)
  {
    lw, rw := leftWeight, riteWeight;
    var j := 0;
    while j < |row|
      invariant 0 <= j <= |row|
      invariant forall m :: 0 <= m < j ==>
        leftDist[m] == row[m] && riteDist[m] == old(riteDist[m]) + old(leftDist[m]) - row[m]
      invariant forall m :: j <= m < |row| ==>
        leftDist[m] == old(leftDist[m]) && riteDist[m] == old(riteDist[m])
      invariant lw == leftWeight + Total(row, j) && rw == riteWeight - Total(row, j)
    {
      var t := row[j];
      lw := lw + t;
      rw := rw - t;
      riteDist[j] := riteDist[j] + leftDist[j];
      leftDist[j] := t;
      riteDist[j] := riteDist[j] - t;
      j := j + 1;
    }
  }

  predicate IsMaxIndex(dist: seq<int>, k: int) {
    0 <= k < |dist| && forall j :: 0 <= j < |dist| ==> dist[j] <= dist[k]
  }

  /** The threshold sweep's arrays after bins 0..n-1 have moved left. */
  predicate SplitState(bins: seq<seq<int>>, dist: seq<int>, n: nat, left: seq<int>, rite: seq<int>)
    requires Rect(bins, |dist|) && n <= |bins|
  {
    left == LeftDist(bins, |dist|, n) && rite == Minus(dist, left)
  }

  /** The exclusion sweep's arrays after bin n-1 has been isolated (none yet when n is 0). */
  predicate ExclusionState(bins: seq<seq<int>>, dist: seq<int>, n: nat, left: seq<int>, rite: seq<int>)
    requires Rect(bins, |dist|) && n <= |bins|
  {
    left == (if n == 0 then Zeros(|dist|) else bins[n - 1]) && rite == Minus(dist, left)
  }

  /** A freshly allocated int[c]. */
  function Zeros(c: nat): (r: seq<int>)
    ensures |r| == c && forall j :: 0 <= j < c ==> r[j] == 0
  {
    seq(c, _ => 0)
  }

  /** The sweep's comparison with the best so far: a strictly smaller fitness replaces it. */
  method Consider(ghost fs: seq<Option<real>>, i: nat, f: Option<real>, bestSplit: int, bestFitness: real)
    returns (split: int, fitness: real)
    requires i < |fs| && f == fs[i] && Best(bestSplit, bestFitness) == Select(fs[..i])
    ensures Best(split, fitness) == Select(fs[..i + 1])
  {
    SelectStep(fs, i);
    split, fitness := bestSplit, bestFitness;
    if f.Some? && f.value < bestFitness {
      split, fitness := i, f.value;
    }
  }

  /** The weighted impurity of the current cut, skipped (None) when a side is empty. */
  method CutFitness(leftDist: array<int>, leftWeight: int, riteDist: array<int>, riteWeight: int, totWeight: int)
    returns (f: Option<real>)
    requires totWeight != 0 || leftWeight == 0 || riteWeight == 0
    ensures f == Fitness(leftDist[..], leftWeight, riteDist[..], riteWeight, totWeight)
  {
    if leftWeight == 0 || riteWeight == 0 {
      f := None;
    } else {
      var gl := Gini(leftDist, leftWeight);
      var gr := Gini(riteDist, riteWeight);
      f := Some(Weighted(gl, leftWeight, totWeight) + Weighted(gr, riteWeight, totWeight));
    }
  }

  /** One round of the threshold sweep: bin i moves left, then the cut after bin i is scored. */
  method SplitRound(bins: seq<seq<int>>, dist: seq<int>, tot: int, i: nat,
                    leftDist: array<int>, riteDist: array<int>, leftWeight: int, riteWeight: int)
    returns (lw: int, rw: int, f: Option<real>)
    requires Rect(bins, |dist|) && i < |bins| && (tot != 0 || WeightBefore(bins, i + 1) == 0)
    requires leftDist != riteDist && leftDist.Length == riteDist.Length == |dist|
    requires SplitState(bins, dist, i, leftDist[..], riteDist[..])
    requires leftWeight == WeightBefore(bins, i) && riteWeight == tot - leftWeight
    modifies leftDist, riteDist
    ensures SplitState(bins, dist, i + 1, leftDist[..], riteDist[..])
    ensures lw == WeightBefore(bins, i + 1) && rw == tot - lw
    ensures f == SplitFitness(bins, dist, tot, i)
  {
    assert forall j :: 0 <= j < |dist| ==> leftDist[j] == ColSum(bins, |dist|, i, j);
    lw, rw := MoveBin(bins[i], leftDist, riteDist, leftWeight, riteWeight);
    assert leftDist[..] == LeftDist(bins, |dist|, i + 1);
    f := CutFitness(leftDist, lw, riteDist, rw, tot);
  }

  /** One round of the exclusion sweep: bin i replaces bin i-1 on the left, then is scored. */
  method ExclusionRound(bins: seq<seq<int>>, dist: seq<int>, tot: int, i: nat,
                        leftDist: array<int>, riteDist: array<int>, leftWeight: int, riteWeight: int)
    returns (lw: int, rw: int, f: Option<real>)
    requires Rect(bins, |dist|) && i < |bins| && (tot != 0 || WeightBefore(bins, i + 1) == 0)
    requires leftDist != riteDist && leftDist.Length == riteDist.Length == |dist|
    requires ExclusionState(bins, dist, i, leftDist[..], riteDist[..])
    requires leftWeight == WeightBefore(bins, i) && riteWeight == tot - leftWeight
    modifies leftDist, riteDist
    ensures ExclusionState(bins, dist, i + 1, leftDist[..], riteDist[..])
    ensures lw == WeightBefore(bins, i + 1) && rw == tot - lw
    ensures f == ExclusionFitness(bins, dist, tot, i)
  {
    ghost var left0, rite0 := leftDist[..], riteDist[..];
    lw, rw := SwapBin(bins[i], leftDist, riteDist, leftWeight, riteWeight);
    ghost var left, rite := leftDist[..], riteDist[..];
    assert left == bins[i];
    SwapKeepsRest(dist, left0, rite0, left, rite);
    f := CutFitness(leftDist, lw, riteDist, rw, tot);
  }

  /** Swapping a bin into the left side keeps the right side equal to dist minus the left. */
  lemma SwapKeepsRest(dist: seq<int>, left0: seq<int>, rite0: seq<int>, left: seq<int>, rite: seq<int>)
    requires |left0| == |left| == |dist| == |rite0| == |rite| && rite0 == Minus(dist, left0)
    requires forall j :: 0 <= j < |dist| ==> rite[j] == rite0[j] + left0[j] - left[j]
    ensures rite == Minus(dist, left)
  {
  }

  /** The threshold sweep's loop: the best candidate, first-found among equals, over all cuts. */
  method SplitSweep(bins: seq<seq<int>>, dist: seq<int>, distWeight: int) returns (bestSplit: int, bestFitness: real)
    requires Rect(bins, |dist|) && Scorable(bins, distWeight)
    ensures Best(bestSplit, bestFitness) == Select(SplitCandidates(bins, dist, distWeight))
  {
    var leftDist := NewArray(Zeros(|dist|));
    var riteDist := NewArray(dist);
    var leftWeight, riteWeight := 0, distWeight;
    var totWeight := riteWeight;
    bestSplit, bestFitness := -1, 2.0;
    ghost var fs := SplitCandidates(bins, dist, distWeight);
    assert leftDist[..] == LeftDist(bins, |dist|, 0);
    var i := 0;
    while i < |bins| - 1
      invariant 0 <= i <= Cuts(bins)
      invariant leftDist.Length == riteDist.Length == |dist|
      invariant SplitState(bins, dist, i, leftDist[..], riteDist[..])
      invariant leftWeight == WeightBefore(bins, i) && riteWeight == totWeight - leftWeight
      invariant Best(bestSplit, bestFitness) == Select(fs[..i])
    {
      var f;
      leftWeight, riteWeight, f := SplitRound(bins, dist, totWeight, i, leftDist, riteDist, leftWeight, riteWeight);
      bestSplit, bestFitness := Consider(fs, i, f, bestSplit, bestFitness);
      i := i + 1;
    }
    assert fs[..i] == fs;
  }

  /**
   * columnSplit: the first cut of minimal weighted impurity, reported as a
   * threshold with gain 1 - fitness, or Split.impossible of a majority class
   * when no cut leaves rows on both sides.
   */
  method ColumnSplit(column: int, bins: seq<seq<int>>, dist: seq<int>, distWeight: int) returns (s: Split)
    requires |dist| > 0 && Rect(bins, |dist|) && Scorable(bins, distWeight)
    ensures var b := Select(SplitCandidates(bins, dist, distWeight));
      if b.split == -1 then s.Impossible? && IsMaxIndex(dist, s.classOf)
      else s == Threshold(column, b.split, 1.0 - b.fitness)
    ensures distWeight == 0 ==> s.Impossible?
  {
    if distWeight == 0 {
      EmptyNodeImpossible(bins, dist);
    }
    var bestSplit, bestFitness := SplitSweep(bins, dist, distWeight);
    if bestSplit == -1 {
      var k := MaxIndex(dist);
      s := Impossible(k);
    } else {
      s := Threshold(column, bestSplit, 1.0 - bestFitness);
    }
  }

  /** The exclusion sweep's loop: the best candidate, first-found among equals, over all cuts. */
  method ExclusionSweep(bins: seq<seq<int>>, dist: seq<int>, distWeight: int) returns (bestSplit: int, bestFitness: real)
    requires Rect(bins, |dist|) && Scorable(bins, distWeight)
    ensures Best(bestSplit, bestFitness) == Select(ExclusionCandidates(bins, dist, distWeight))
  {
    var leftDist := NewArray(Zeros(|dist|));
    var riteDist := NewArray(dist);
    var leftWeight, riteWeight := 0, distWeight;
    var totWeight := riteWeight;
    bestSplit, bestFitness := -1, 2.0;
    ghost var fs := ExclusionCandidates(bins, dist, distWeight);
    assert riteDist[..] == Minus(dist, leftDist[..]);
    var i := 0;
    while i < |bins| - 1
      invariant 0 <= i <= Cuts(bins)
      invariant leftDist.Length == riteDist.Length == |dist|
      invariant ExclusionState(bins, dist, i, leftDist[..], riteDist[..])
      invariant leftWeight == WeightBefore(bins, i) && riteWeight == totWeight - leftWeight
      invariant Best(bestSplit, bestFitness) == Select(fs[..i])
    {
      var f;
      leftWeight, riteWeight, f := ExclusionRound(bins, dist, totWeight, i, leftDist, riteDist, leftWeight, riteWeight);
      bestSplit, bestFitness := Consider(fs, i, f, bestSplit, bestFitness);
      i := i + 1;
    }
    assert fs[..i] == fs;
  }

  /**
   * columnExclusion: the first bin whose separation from the rest has minimal
   * weighted impurity (as the source computes it), reported with the raw
   * fitness, or Split.impossible of a majority class.
   */
  method ColumnExclusion(column: int, bins: seq<seq<int>>, dist: seq<int>, distWeight: int) returns (s: Split)
    requires |dist| > 0 && Rect(bins, |dist|) && Scorable(bins, distWeight)
    ensures var b := Select(ExclusionCandidates(bins, dist, distWeight));
      if b.split == -1 then s.Impossible? && IsMaxIndex(dist, s.classOf)
      else s == Exclusion(column, b.split, b.fitness)
    ensures distWeight == 0 ==> s.Impossible?
  {
    if distWeight == 0 {
      EmptyNodeImpossible(bins, dist);
    }
    var bestSplit, bestFitness := ExclusionSweep(bins, dist, distWeight);
    if bestSplit == -1 {
      var k := MaxIndex(dist);
      s := Impossible(k);
    } else {
      s := Exclusion(column, bestSplit, bestFitness);
    }
  }

  // ---------------------------------------------------------------------------
  // What the sweeps compute

  /** Every count in every bin is non-negative. */
  predicate NonNegBins(bins: seq<seq<int>>) {
    forall b :: 0 <= b < |bins| ==> NonNegative(bins[b])
  }

  lemma {:induction false} TotalNonNegative(dd: seq<int>, n: nat)
    requires NonNegative(dd) && n <= |dd|
    ensures Total(dd, n) >= 0
  {
    if n > 0 {
      TotalNonNegative(dd, n - 1);
    }
  }

  /** The rows moved left only grow as the sweep goes on, from 0 up to the column's total. */
  lemma {:induction false} WeightBeforeMonotone(bins: seq<seq<int>>, m: nat, n: nat)
    requires NonNegBins(bins) && m <= n <= |bins|
    ensures 0 <= WeightBefore(bins, m) <= WeightBefore(bins, n)
    decreases n
  {
    if n > 0 {
      TotalNonNegative(bins[n - 1], |bins[n - 1]|);
      if m < n {
        WeightBeforeMonotone(bins, m, n - 1);
      } else {
        WeightBeforeMonotone(bins, n - 1, n - 1);
      }
    }
  }

  /** Total is additive over entry-wise sums. */
  lemma {:induction false} TotalPointwise(a: seq<int>, b: seq<int>, r: seq<int>, n: nat)
    requires |a| == |b| == |r| && n <= |r|
    requires forall j :: 0 <= j < |r| ==> r[j] == a[j] + b[j]
    ensures Total(r, n) == Total(a, n) + Total(b, n)
  {
    if n > 0 {
      TotalPointwise(a, b, r, n - 1);
    }
  }

  /**
   * Prefix-sum bookkeeping: the left distribution after bins 0..n-1 holds
   * exactly the rows of those bins, the left weight.
   */
  lemma {:induction false} LeftDistTotal(bins: seq<seq<int>>, c: nat, n: nat)
    requires Rect(bins, c) && n <= |bins|
    ensures Total(LeftDist(bins, c, n), c) == WeightBefore(bins, n)
  {
    if n == 0 {
      TotalPointwise(LeftDist(bins, c, 0), LeftDist(bins, c, 0), LeftDist(bins, c, 0), c);
    } else {
      LeftDistTotal(bins, c, n - 1);
      TotalPointwise(LeftDist(bins, c, n - 1), bins[n - 1], LeftDist(bins, c, n), c);
    }
  }

  /** A distribution's entries as parts of the column's totals: left + right == dist, as Totals. */
  lemma MinusTotal(dist: seq<int>, left: seq<int>)
    requires |left| == |dist|
    ensures Total(Minus(dist, left), |dist|) == Total(dist, |dist|) - Total(left, |dist|)
  {
    TotalPointwise(left, Minus(dist, left), dist, |dist|);
  }

  /** With non-negative weights adding up to the total, a weighted impurity is at most 1. */
  lemma FitnessAtMostOne(left: seq<int>, lw: int, rite: seq<int>, rw: int, tot: int)
    requires tot != 0 && lw != 0 && rw != 0
    ensures tot > 0 && lw >= 0 && rw >= 0 && lw + rw == tot ==>
      Weighted(GiniOf(left, lw), lw, tot) + Weighted(GiniOf(rite, rw), rw, tot) <= 1.0
  {
    if tot > 0 && lw >= 0 && rw >= 0 && lw + rw == tot {
      WeightedAtMost(GiniOf(left, lw), lw, tot);
      WeightedAtMost(GiniOf(rite, rw), rw, tot);
      DivAdd(lw, rw, tot);
      DivSelf(tot as real);
    }
  }

  lemma WeightedAtMost(g: real, w: int, tot: int)
    requires tot > 0 && w >= 0 && g <= 1.0
    ensures Weighted(g, w, tot) <= w as real / tot as real
  {
    var x := w as real / tot as real;
    assert x >= 0.0;
    assert g * x <= 1.0 * x;
  }

  lemma WeightedAtLeast(g: real, w: int, tot: int)
    requires tot > 0 && w >= 0 && g >= 0.0
    ensures Weighted(g, w, tot) >= 0.0
  {
    var x := w as real / tot as real;
    assert x >= 0.0;
  }

  /** When no candidate reaches 2.0, the selection fails exactly when every cut was skipped. */
  lemma ImpossibleIffAllSkipped(fs: seq<Option<real>>)
    requires forall k :: 0 <= k < |fs| && fs[k].Some? ==> fs[k].value < 2.0
    ensures Select(fs).split == -1 <==> forall k :: 0 <= k < |fs| ==> fs[k].None?
  {
    SelectFirstMinimum(fs);
  }

  /** The cut after bin i leaves one side without rows. */
  predicate OneSided(bins: seq<seq<int>>, tot: int, i: nat)
    requires i < |bins|
  {
    WeightBefore(bins, i + 1) == 0 || WeightBefore(bins, i + 1) == tot
  }

  /** Each threshold candidate whose left weight lies between 0 and the total is at most 1. */
  lemma SplitCandidateAtMostOne(bins: seq<seq<int>>, dist: seq<int>, tot: int, i: nat)
    requires Rect(bins, |dist|) && i < |bins|
    requires 0 <= WeightBefore(bins, i + 1) <= tot
    ensures var f := SplitFitness(bins, dist, tot, i); f.Some? ==> f.value <= 1.0
  {
    var left := LeftDist(bins, |dist|, i + 1);
    FitnessShare(left, WeightBefore(bins, i + 1), Minus(dist, left), tot);
  }

  /** The same for each exclusion candidate. */
  lemma ExclusionCandidateAtMostOne(bins: seq<seq<int>>, dist: seq<int>, tot: int, i: nat)
    requires Rect(bins, |dist|) && i < |bins|
    requires 0 <= WeightBefore(bins, i + 1) <= tot
    ensures var f := ExclusionFitness(bins, dist, tot, i); f.Some? ==> f.value <= 1.0
  {
    FitnessShare(bins[i], WeightBefore(bins, i + 1), Minus(dist, bins[i]), tot);
  }

  /** A cut whose left weight lies between 0 and the total has fitness at most 1. */
  lemma FitnessShare(left: seq<int>, lw: int, rite: seq<int>, tot: int)
    requires 0 <= lw <= tot
    ensures var f := Fitness(left, lw, rite, tot - lw, tot); f.Some? ==> f.value <= 1.0
  {
  }

  /** Every prefix of the bins holds between 0 and tot rows. */
  predicate WeightsWithin(bins: seq<seq<int>>, tot: int) {
    forall k :: 1 <= k <= |bins| ==> 0 <= WeightBefore(bins, k) <= tot
  }

  /** Non-negative bins whose rows add up to tot have every prefix weight within [0, tot]. */
  lemma NonNegWeightsWithin(bins: seq<seq<int>>, tot: int)
    requires NonNegBins(bins) && tot == WeightBefore(bins, |bins|)
    ensures WeightsWithin(bins, tot)
  {
    forall k | 1 <= k <= |bins| ensures 0 <= WeightBefore(bins, k) <= tot {
      WeightBeforeMonotone(bins, k, |bins|);
    }
  }

  /** Every candidate that is not skipped lies below the sweep's initial bestFitness of 2.0. */
  predicate BelowTwo(fs: seq<Option<real>>) {
    forall k :: 0 <= k < |fs| && fs[k].Some? ==> fs[k].value < 2.0
  }

  /** No threshold candidate reaches the sweep's initial bestFitness of 2.0. */
  lemma SplitCandidatesBelowTwo(bins: seq<seq<int>>, dist: seq<int>, tot: int)
    requires Rect(bins, |dist|) && WeightsWithin(bins, tot)
    ensures BelowTwo(SplitCandidates(bins, dist, tot))
  {
    var fs := SplitCandidates(bins, dist, tot);
    forall k | 0 <= k < |fs| && fs[k].Some? ensures fs[k].value < 2.0 {
      SplitCandidateAtMostOne(bins, dist, tot, k);
    }
  }

  /** No exclusion candidate reaches 2.0 either. */
  lemma ExclusionCandidatesBelowTwo(bins: seq<seq<int>>, dist: seq<int>, tot: int)
    requires Rect(bins, |dist|) && WeightsWithin(bins, tot)
    ensures BelowTwo(ExclusionCandidates(bins, dist, tot))
  {
    var fs := ExclusionCandidates(bins, dist, tot);
    forall k | 0 <= k < |fs| && fs[k].Some? ensures fs[k].value < 2.0 {
      ExclusionCandidateAtMostOne(bins, dist, tot, k);
    }
  }

  /**
   * For non-negative histograms whose total is the node's weight, the
   * threshold sweep gives up (Split.impossible) exactly when every cut
   * position leaves one side without rows.
   */
  lemma SplitImpossibleIff(bins: seq<seq<int>>, dist: seq<int>, tot: int)
    requires Rect(bins, |dist|) && NonNegBins(bins) && tot == WeightBefore(bins, |bins|) && tot != 0
    ensures Select(SplitCandidates(bins, dist, tot)).split == -1 <==>
      forall i :: 0 <= i < Cuts(bins) ==> OneSided(bins, tot, i)
  {
    NonNegWeightsWithin(bins, tot);
    SplitImpossibleWithin(bins, dist, tot);
  }

  lemma SplitImpossibleWithin(bins: seq<seq<int>>, dist: seq<int>, tot: int)
    requires Rect(bins, |dist|) && WeightsWithin(bins, tot)
    ensures Select(SplitCandidates(bins, dist, tot)).split == -1 <==>
      forall i :: 0 <= i < Cuts(bins) ==> OneSided(bins, tot, i)
  {
    var fs := SplitCandidates(bins, dist, tot);
    SplitCandidatesBelowTwo(bins, dist, tot);
    ImpossibleIffAllSkipped(fs);
    forall k | 0 <= k < |fs| ensures fs[k].None? <==> OneSided(bins, tot, k) {
      assert fs[k] == SplitFitness(bins, dist, tot, k);
    }
  }

  /** The same holds for the exclusion sweep, whose weights are those of the threshold sweep. */
  lemma ExclusionImpossibleIff(bins: seq<seq<int>>, dist: seq<int>, tot: int)
    requires Rect(bins, |dist|) && NonNegBins(bins) && tot == WeightBefore(bins, |bins|) && tot != 0
    ensures Select(ExclusionCandidates(bins, dist, tot)).split == -1 <==>
      forall i :: 0 <= i < Cuts(bins) ==> OneSided(bins, tot, i)
  {
    NonNegWeightsWithin(bins, tot);
    ExclusionImpossibleWithin(bins, dist, tot);
  }

  lemma ExclusionImpossibleWithin(bins: seq<seq<int>>, dist: seq<int>, tot: int)
    requires Rect(bins, |dist|) && WeightsWithin(bins, tot)
    ensures Select(ExclusionCandidates(bins, dist, tot)).split == -1 <==>
      forall i :: 0 <= i < Cuts(bins) ==> OneSided(bins, tot, i)
  {
    var fs := ExclusionCandidates(bins, dist, tot);
    ExclusionCandidatesBelowTwo(bins, dist, tot);
    ImpossibleIffAllSkipped(fs);
    forall k | 0 <= k < |fs| ensures fs[k].None? <==> OneSided(bins, tot, k) {
      assert fs[k] == ExclusionFitness(bins, dist, tot, k);
    }
  }

  /**
   * A node without rows: every cut leaves both sides empty, so both sweeps
   * give up and the column answers Split.impossible.
   */
  lemma EmptyNodeImpossible(bins: seq<seq<int>>, dist: seq<int>)
    requires Rect(bins, |dist|) && WeightsWithin(bins, 0)
    ensures Select(SplitCandidates(bins, dist, 0)).split == -1
    ensures Select(ExclusionCandidates(bins, dist, 0)).split == -1
  {
    SplitImpossibleWithin(bins, dist, 0);
    ExclusionImpossibleWithin(bins, dist, 0);
  }

  /**
   * When dist is the column's class distribution (the sum of all bins), each
   * threshold cut's fitness is a true weighted Gini impurity in [0, 1], so the
   * reported gain 1 - fitness lies in [0, 1] as well.
   */
  lemma SplitFitnessBounds(bins: seq<seq<int>>, dist: seq<int>, tot: int, i: nat)
    requires Rect(bins, |dist|) && i < |bins|
    requires SidesNonNegative(bins, dist, tot, i)
    ensures var f := SplitFitness(bins, dist, tot, i); f.Some? ==> 0.0 <= f.value <= 1.0
  {
    var left := LeftDist(bins, |dist|, i + 1);
    var lw := WeightBefore(bins, i + 1);
    if lw != 0 && tot - lw != 0 {
      CutBounds(left, lw, Minus(dist, left), tot);
    }
  }

  /**
   * The two sides of the cut after bin i: non-negative class distributions
   * holding lw and tot - lw rows, with lw between 0 and tot.
   */
  predicate SidesNonNegative(bins: seq<seq<int>>, dist: seq<int>, tot: int, i: nat)
    requires Rect(bins, |dist|) && i < |bins|
  {
    var left := LeftDist(bins, |dist|, i + 1);
    var lw := WeightBefore(bins, i + 1);
    0 <= lw <= tot &&
    NonNegative(left) && Total(left, |left|) == lw &&
    NonNegative(Minus(dist, left)) && Total(Minus(dist, left), |dist|) == tot - lw
  }

  /** When dist sums all the non-negative bins, both sides of every threshold cut are such distributions. */
  lemma CutSides(bins: seq<seq<int>>, dist: seq<int>, tot: int, i: nat)
    requires Rect(bins, |dist|) && NonNegBins(bins) && i < |bins|
    requires dist == LeftDist(bins, |dist|, |bins|) && tot == WeightBefore(bins, |bins|)
    ensures SidesNonNegative(bins, dist, tot, i)
  {
    var c := |dist|;
    var left := LeftDist(bins, c, i + 1);
    WeightBeforeMonotone(bins, i + 1, |bins|);
    ColSumMonotone(bins, c, i + 1, |bins|);
    LeftDistTotal(bins, c, i + 1);
    LeftDistTotal(bins, c, |bins|);
    MinusTotal(dist, left);
    var rite := Minus(dist, left);
    forall j | 0 <= j < c ensures left[j] >= 0 && rite[j] >= 0 {
      assert left[j] == ColSum(bins, c, i + 1, j);
      assert dist[j] == ColSum(bins, c, |bins|, j);
    }
  }

  /** A cut of non-negative counts into two non-empty sides has fitness in [0, 1]. */
  lemma CutBounds(left: seq<int>, lw: int, rite: seq<int>, tot: int)
    requires 0 < lw < tot
    requires NonNegative(left) && Total(left, |left|) == lw
    requires NonNegative(rite) && Total(rite, |rite|) == tot - lw
    ensures var f := Fitness(left, lw, rite, tot - lw, tot); f.Some? ==> 0.0 <= f.value <= 1.0
  {
    GiniNonNegative(left, lw);
    GiniNonNegative(rite, tot - lw);
    WeightedAtLeast(GiniOf(left, lw), lw, tot);
    WeightedAtLeast(GiniOf(rite, tot - lw), tot - lw, tot);
  }

  /** Class counts only grow as bins move left. */
  lemma {:induction false} ColSumMonotone(bins: seq<seq<int>>, c: nat, m: nat, n: nat)
    requires Rect(bins, c) && NonNegBins(bins) && m <= n <= |bins|
    ensures forall j :: 0 <= j < c ==> 0 <= ColSum(bins, c, m, j) <= ColSum(bins, c, n, j)
    decreases n
  {
    if n > 0 {
      if m < n {
        ColSumMonotone(bins, c, m, n - 1);
      } else {
        ColSumMonotone(bins, c, n - 1, n - 1);
      }
      assert NonNegative(bins[n - 1]);
    }
  }

  /** The gain of a threshold split lies in [0, 1]. */
  lemma ThresholdGainBounds(bins: seq<seq<int>>, dist: seq<int>, tot: int)
    requires Rect(bins, |dist|) && NonNegBins(bins)
    requires dist == LeftDist(bins, |dist|, |bins|) && tot == WeightBefore(bins, |bins|) && tot != 0
    ensures var b := Select(SplitCandidates(bins, dist, tot));
      b.split != -1 ==> 0.0 <= 1.0 - b.fitness <= 1.0
  {
    var fs := SplitCandidates(bins, dist, tot);
    SelectFirstMinimum(fs);
    var b := Select(fs);
    if b.split != -1 {
      CutSides(bins, dist, tot, b.split);
      SplitFitnessBounds(bins, dist, tot, b.split);
    }
  }

  lemma GiniOfPair(a: int, b: int, sum: int)
    requires sum != 0
    ensures GiniOf([a, b], sum) == 1.0 - Sq(a as real / sum as real) - Sq(b as real / sum as real)
  {
    assert [a, b][..1] == [a];
    assert [a][..0] == [];
    assert SumSquares([a], sum) == Sq(a as real / sum as real);
    assert SumSquares([a, b], sum) == SumSquares([a], sum) + Sq(b as real / sum as real);
  }

  /**
   * Two well separated groups: bin 0 holds only class 0 and bins 1-2 only
   * class 1.  The cut after bin 0 is pure on both sides and has fitness 0; the
   * cut after bin 1 mixes the classes on the left.  The first cut is chosen,
   * so the threshold split reports gain 1.
   */
  lemma SeparatedGroups()
    ensures Select(SplitCandidates([[1, 0], [0, 1], [0, 1]], [1, 2], 3)) == Best(0, 0.0)
  {
    var fs := SplitCandidates([[1, 0], [0, 1], [0, 1]], [1, 2], 3);
    SeparatedCuts();
    assert fs[..1][..0] == [];
    SelectStep(fs, 0);
    SelectStep(fs, 1);
    assert fs[..2] == fs;
  }

  lemma SeparatedCuts()
    ensures SplitFitness([[1, 0], [0, 1], [0, 1]], [1, 2], 3, 0) == Some(0.0)
    ensures SplitFitness([[1, 0], [0, 1], [0, 1]], [1, 2], 3, 1) == Some(1.0 / 3.0)
  {
    var bins, dist := [[1, 0], [0, 1], [0, 1]], [1, 2];
    assert LeftDist(bins, 2, 1) == [1, 0] && Minus(dist, [1, 0]) == [0, 2];
    assert LeftDist(bins, 2, 2) == [1, 1] && Minus(dist, [1, 1]) == [0, 1];
    GiniOfPair(1, 0, 1);
    GiniOfPair(0, 2, 2);
    GiniOfPair(1, 1, 2);
    GiniOfPair(0, 1, 1);
  }

  // ---------------------------------------------------------------------------
  // The exclusion sweep's left weight

  /**
   * Bin i against the rest with consistent weights: the left weight is the
   * rows of bin i and the right weight the rows of all other bins, as the
   * class comment describes the exclusion split.
   */
  function IsolatedFitness(bins: seq<seq<int>>, dist: seq<int>, tot: int, i: nat): Option<real>
    requires Rect(bins, |dist|) && i < |bins| && tot != 0
  {
    var lw := Total(bins[i], |dist|);
    Fitness(bins[i], lw, Minus(dist, bins[i]), tot - lw, tot)
  }

  /** With consistent weights every exclusion candidate is a weighted Gini impurity in [0, 1]. */
  lemma IsolatedFitnessBounds(bins: seq<seq<int>>, dist: seq<int>, tot: int, i: nat)
    requires Rect(bins, |dist|) && NonNegBins(bins) && i < |bins|
    requires dist == LeftDist(bins, |dist|, |bins|) && tot == WeightBefore(bins, |bins|) && tot != 0
    ensures var f := IsolatedFitness(bins, dist, tot, i); f.Some? ==> 0.0 <= f.value <= 1.0
  {
    var c := |dist|;
    var lw := Total(bins[i], c);
    var rite := Minus(dist, bins[i]);
    TotalNonNegative(bins[i], c);
    LeftDistTotal(bins, c, |bins|);
    MinusTotal(dist, bins[i]);
    BinBelowColumn(bins, c, i, |bins|);
    TotalNonNegative(rite, c);
    if lw != 0 && tot - lw != 0 {
      GiniNonNegative(bins[i], lw);
      GiniNonNegative(rite, tot - lw);
      WeightedAtLeast(GiniOf(bins[i], lw), lw, tot);
      WeightedAtLeast(GiniOf(rite, tot - lw), tot - lw, tot);
    }
  }

  /** A bin's count of a class is at most the column's count of that class. */
  lemma {:induction false} BinBelowColumn(bins: seq<seq<int>>, c: nat, i: nat, n: nat)
    requires Rect(bins, c) && NonNegBins(bins) && i < n <= |bins|
    ensures forall j :: 0 <= j < c ==> bins[i][j] <= ColSum(bins, c, n, j)
    decreases n
  {
    if i < n - 1 {
      BinBelowColumn(bins, c, i, n - 1);
      assert NonNegative(bins[n - 1]);
    } else {
      ColSumMonotone(bins, c, 0, n - 1);
    }
  }

  /**
   * As written, the exclusion sweep scores bin 1 of [[1,0],[1,0],[0,2]] with
   * a left weight of 2 (bins 0 and 1) although bin 1 holds one row, so the
   * right side's "impurity" is negative and the score differs from the
   * consistent one.
   */
  lemma ExclusionWeightMismatch()
    ensures var bins, dist := [[1, 0], [1, 0], [0, 2]], [2, 2];
      GiniOf(Minus(dist, bins[1]), 4 - WeightBefore(bins, 2)) < 0.0 &&
      ExclusionFitness(bins, dist, 4, 1) != IsolatedFitness(bins, dist, 4, 1)
  {
    var bins, dist := [[1, 0], [1, 0], [0, 2]], [2, 2];
    assert Minus(dist, bins[1]) == [1, 2];
    assert WeightBefore(bins, 2) == 2 && Total(bins[1], 2) == 1;
    GiniOfPair(1, 2, 2);
    GiniOfPair(1, 0, 2);
    GiniOfPair(1, 0, 1);
    GiniOfPair(1, 2, 3);
    assert ExclusionFitness(bins, dist, 4, 1) == Some(0.25);
    assert IsolatedFitness(bins, dist, 4, 1) == Some(1.0 / 3.0);
  }
}
