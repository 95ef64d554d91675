/** test_prediction: the block-adaptive prediction loop.  Every Block
    samples it folds the latest block into the decayed statistics
    (update_stats), builds the quadratic form the coefficients are fitted
    to, removes the DC offset, and refines the coefficients with a few CG
    iterations (conj_optim), whose order ramps up over the first blocks.
    Between refits it accumulates the plain autocorrelation of the signal,
    from which the quadratic form is also built directly as a cross-check. */
module Driver {
  import opened Vectors
  import opened Toeplitz
  import opened LagSums
  import opened Accumulator
  import opened Minimizer

  /** Samples per statistics block (BLOCK). */
  const Block: nat := 32

  /** CG iterations per refit. */
  const RefitIters: nat := 3

  /** A refit happens at every positive multiple of Block. */
  predicate IsUpdateTime(t: nat)
  {
    t % Block == 0 && t > 0
  }

  /** The first sample of the block folded in at time t. */
  function BlockStart(t: nat, order: nat): nat
  {
    Max(order, t - Block)
  }

  /** The order conj_optim is asked for at time t: None (the full order)
      once t > 5 * Block, before that one more coefficient every 16
      samples. */
  function RampOrder(t: nat, order: nat): Option<nat>
  {
    if t > 5 * Block then None else Some(Min(t / 16, order))
  }

  /** The number of leading coefficients (c[0] included) a refit at time t
      works on. */
  function RefitSize(t: nat, order: nat): nat
  {
    ActiveSize(order + 1, RampOrder(t, order))
  }

  /** The end of the stretch of signal the statistics cover before time t:
      order until the first refit, then the last refit time. */
  function BlocksDone(t: nat, order: nat): nat
  {
    if t <= Block then order else (t - 1) / Block * Block
  }

  /** The blocks tile the signal from sample order on: the block folded in
      at an update time starts where the statistics end, and afterwards they
      end at that update time; other times leave the covered stretch as it
      is. */
  lemma BlockSchedule(t: nat, order: nat)
    requires 2 * order <= Block
    ensures IsUpdateTime(t) ==>
      BlockStart(t, order) == BlocksDone(t, order) && BlockStart(t, order) + order <= t &&
      BlocksDone(t + 1, order) == t
    ensures !IsUpdateTime(t) ==> BlocksDone(t + 1, order) == BlocksDone(t, order)
  {
    if t > Block {
      assert (t - 1) / Block * Block == if t % Block == 0 then t - Block else t / Block * Block;
    }
  }

  /** The order test_prediction fixes. */
  const SourceOrder: nat := 25

  /** With the source's own order 25 and BLOCK 32 the first update folds
      in [25, 32), a block shorter than the order, although update_stats
      assumes every block is longer.  Its first lag-sum loop then reads
      samples up to 49: for a signal x whose only nonzero sample is a 1 at
      time 40, within[0] (from BlockLagSums) is 1 while eq. (1) over the
      block is 0 at cell (0, 0), and cell (0, 0) of quad_mat receives
      within[0] + cross[0] with no edge correction in row 0. */
  lemma FirstBlockShorterThanOrder(x: Vector)
    requires |x| == 50 && forall t :: 0 <= t < |x| ==> x[t] == if t == 40 then 1.0 else 0.0
    ensures IsUpdateTime(Block) && Block < BlockStart(Block, SourceOrder) + SourceOrder
    ensures var tStart := BlockStart(Block, SourceOrder);
      LagSum(x, tStart, Max(tStart + SourceOrder, Block), 0) + LagSum(x, tStart, tStart, 0) == 1.0 &&
      PairSum(x, tStart, Block, 0, 0) == 0.0
  {
    assert BlockStart(Block, SourceOrder) == 25;
    LagSumSplit(x, 25, 40, 50, 0);
    LagSumSplit(x, 40, 41, 50, 0);
    LagSumOfSilence(x, 25, 40, 0);
    LagSumOfSilence(x, 41, 50, 0);
    PairSumAsLagSum(x, 25, 32, 0, 0);
    LagSumOfSilence(x, 25, 32, 0);
  }

  /** The block folded in at an update time starts after the first order
      samples, is at least order samples long, and is not empty. */
  lemma BlockBounds(t: nat, order: nat)
    requires IsUpdateTime(t) && 2 * order <= Block
    ensures order <= BlockStart(t, order) && BlockStart(t, order) + order <= t && BlockStart(t, order) < t
  {
  }

  /** No other update time falls within a block of one. */
  lemma NoUpdateWithinBlock(t: nat, t': nat)
    requires IsUpdateTime(t) && t < t' < t + Block
    ensures !IsUpdateTime(t')
  {
  }

  /** The ramp only grows: the number of coefficients conj_optim works on
      is min(t / 16, order) + 1 up to t == 5 * Block and all of them after,
      and never decreases with t. */
  lemma RampGrows(order: nat, t: nat, t': nat)
    requires t <= t'
    ensures RefitSize(t, order) == if t > 5 * Block then order + 1 else Min(t / 16, order) + 1
    ensures RefitSize(t, order) <= RefitSize(t', order)
  {
    assert t / 16 <= t' / 16;
  }

  /** quad[i, j] -= x[tau - i] * x[tau - j] for lo <= i, j < hi. */
  method SubtractLagProduct(quad: array2<real>, x: Vector, tau: nat, lo: nat, hi: nat)
    requires lo <= hi <= quad.Length0 && hi <= quad.Length1 && hi <= tau + 1 && tau < |x| + lo
    modifies quad
    ensures forall i, j :: 0 <= i < quad.Length0 && 0 <= j < quad.Length1 ==>
      quad[i, j] == old(quad[i, j]) - (if lo <= i < hi && lo <= j < hi then x[tau - i] * x[tau - j] else 0.0)
  {
    for i := lo to hi
      invariant forall i', j :: 0 <= i' < quad.Length0 && 0 <= j < quad.Length1 ==>
        quad[i', j] == old(quad[i', j]) - (if lo <= i' < i && lo <= j < hi then x[tau - i'] * x[tau - j] else 0.0)
    {
      for j := lo to hi
        invariant forall i', j' :: 0 <= i' < quad.Length0 && 0 <= j' < quad.Length1 ==>
          quad[i', j'] == old(quad[i', j']) -
            (if (lo <= i' < i && lo <= j' < hi) || (i' == i && lo <= j' < j) then x[tau - i'] * x[tau - j'] else 0.0)
      {
        quad[i, j] := quad[i, j] - x[tau - i] * x[tau - j];
      }
    }
  }

  /** The start-of-signal correction of the direct build: the times
      0 .. order - 1 get weight zero, so cell (i, j) loses
      sum_{t1 = max(i, j)}^{order - 1} x[t1 - i] * x[t1 - j]. */
  method SubtractStartEdges(quad: array2<real>, x: Vector, order: nat)
    requires quad.Length0 == quad.Length1 == order + 1 && order <= |x|
    modifies quad
    ensures forall i, j :: 0 <= i <= order && 0 <= j <= order ==>
      quad[i, j] == old(quad[i, j]) - PairSum(x, Max(i, j), order, i, j)
  {
    for t1 := 0 to order
      invariant forall i, j :: 0 <= i <= order && 0 <= j <= order ==>
        quad[i, j] == old(quad[i, j]) - PairSum(x, Max(i, j), Max(Max(i, j), t1), i, j)
    {
      SubtractLagProduct(quad, x, t1, 0, t1 + 1);
      forall i, j | 0 <= i <= order && 0 <= j <= order
        ensures quad[i, j] == old(quad[i, j]) - PairSum(x, Max(i, j), Max(Max(i, j), t1 + 1), i, j)
      {
        StartEdgeStep(x, i, j, t1);
      }
    }
  }

  /** Time t1 joins the start correction of cell (i, j) exactly when both
      x[t1 - i] and x[t1 - j] exist. */
  lemma StartEdgeStep(x: Vector, i: nat, j: nat, t1: nat)
    requires t1 < |x| && i <= |x| && j <= |x|
    ensures PairSum(x, Max(i, j), Max(Max(i, j), t1 + 1), i, j)
         == PairSum(x, Max(i, j), Max(Max(i, j), t1), i, j) + (if i <= t1 && j <= t1 then x[t1 - i] * x[t1 - j] else 0.0)
  {
  }

  /** The end correction of the direct build: the products that reach
      past t (the triple loop update_stats keeps as its next-block
      reference). */
  method SubtractEndEdges(quad: array2<real>, x: Vector, t: nat, order: nat)
    requires quad.Length0 == quad.Length1 == order + 1 && order <= t <= |x|
    modifies quad
    ensures forall i, j :: 0 <= i <= order && 0 <= j <= order ==>
      quad[i, j] == old(quad[i, j]) - NextBlockOracle(x, t, i, j, order)
  {
    for k := 0 to order
      invariant forall i, j :: 0 <= i <= order && 0 <= j <= order ==>
        quad[i, j] == old(quad[i, j]) - NextBlockOracle(x, t, i, j, k)
    {
      SubtractLagProduct(quad, x, t + k, k + 1, order + 1);
    }
  }

  /** The direct build of quad_mat at time t from the plain autocorrelation:
      the Toeplitz matrix of autocorr less both edge corrections. */
  method DirectQuad(autocorr: Vector, x: Vector, t: nat, order: nat) returns (quad: array2<real>)
    requires |autocorr| == order + 1 && order <= t <= |x|
    ensures fresh(quad) && quad.Length0 == quad.Length1 == order + 1
    ensures forall i, j :: 0 <= i <= order && 0 <= j <= order ==>
      quad[i, j] == autocorr[Abs(i - j)] - PairSum(x, Max(i, j), order, i, j) - NextBlockOracle(x, t, i, j, order)
  {
    quad := FillToeplitz(autocorr, order + 1);
    SubtractStartEdges(quad, x, order);
    SubtractEndEdges(quad, x, t, order);
  }

  /** When autocorr holds the lag sums of x up to time t, the direct build
      is the windowed form of eq. (1) of update_stats over [order, t): the
      matrix the incremental statistics hold when nothing is decayed. */
  lemma DirectQuadIsWindow(x: Vector, autocorr: Vector, t: nat, order: nat, i: nat, j: nat)
    requires |autocorr| == order + 1 && order <= t <= |x| && i <= order && j <= order
    requires forall l :: 0 <= l <= order ==> autocorr[l] == LagSum(x, l, t, l)
    ensures autocorr[Abs(i - j)] - PairSum(x, Max(i, j), order, i, j) - NextBlockOracle(x, t, i, j, order)
         == PairSum(x, order, t, i, j)
  {
    var a, b := Min(i, j), Max(i, j);
    var d := b - a;
    NextCorrectionMatchesTripleLoop(x, t, order, i, j);
    if i > j {
      PairSumSymmetric(x, b, order, i, j);
      PairSumSymmetric(x, order, t, i, j);
    }
    PairSumAsLagSum(x, b, order, a, b);
    PairSumAsLagSum(x, order, t, a, b);
    LagSumSplit(x, d, order - a, t, d);
    LagSumSplit(x, order - a, t - a, t, d);
  }

  /** quad_mat -= c, on every entry. */
  method SubtractConstant(quad: array2<real>, c: real)
    modifies quad
    ensures forall i, j :: 0 <= i < quad.Length0 && 0 <= j < quad.Length1 ==> quad[i, j] == old(quad[i, j]) - c
  {
    forall i, j | 0 <= i < quad.Length0 && 0 <= j < quad.Length1 {
      quad[i, j] := quad[i, j] - c;
    }
  }

  /** quad_mat_stats.copy(). */
  method CopyMatrix(m: array2<real>) returns (c: array2<real>)
    ensures fresh(c) && c.Length0 == m.Length0 && c.Length1 == m.Length1
    ensures forall i, j :: 0 <= i < m.Length0 && 0 <= j < m.Length1 ==> c[i, j] == m[i, j]
  {
    c := new real[m.Length0, m.Length1];
    forall i, j | 0 <= i < m.Length0 && 0 <= j < m.Length1 {
      c[i, j] := m[i, j];
    }
  }

  /** autocorr[i] += x[t - i] * x[t] for every lag i <= t. */
  method AccumulateAutocorr(autocorr: array<real>, x: Vector, t: nat)
    requires t < |x|
    modifies autocorr
    ensures forall i :: 0 <= i < autocorr.Length ==>
      autocorr[i] == old(autocorr[i]) + (if i <= t then x[t - i] * x[t] else 0.0)
  {
    for i := 0 to autocorr.Length
      invariant forall i' :: 0 <= i' < autocorr.Length ==>
        autocorr[i'] == old(autocorr[i']) + (if i' < i && i' <= t then x[t - i'] * x[t] else 0.0)
    {
      if t - i >= 0 {
        autocorr[i] := autocorr[i] + x[t - i] * x[t];
      }
    }
  }

  /** The plain autocorrelation accumulated before time t: lag l sums
      x[s] * x[s - l] over l <= s < t. */
  ghost predicate AutocorrUpTo(autocorr: array<real>, x: Vector, t: nat)
    reads autocorr
    requires t <= |x|
  {
    forall l :: 0 <= l < autocorr.Length ==> autocorr[l] == LagSum(x, l, t, l)
  }

  /** One step of AccumulateAutocorr extends the lag sums by time t. */
  lemma AutocorrStep(x: Vector, t: nat, before: seq<real>, after: seq<real>)
    requires t < |x| && |before| == |after|
    requires forall l :: 0 <= l < |before| ==> before[l] == LagSum(x, l, t, l)
    requires forall l :: 0 <= l < |after| ==> after[l] == before[l] + (if l <= t then x[t - l] * x[t] else 0.0)
    ensures forall l :: 0 <= l < |after| ==> after[l] == LagSum(x, l, t + 1, l)
  {
    forall l | 0 <= l < |after| ensures after[l] == LagSum(x, l, t + 1, l) {
      if l <= t {
        assert LagSum(x, l, t + 1, l) == LagSum(x, l, t, l) + x[t] * x[t - l];
      }
    }
  }

  /** The autocorrelation stats as if the DC offset had been removed from
      the signal: stats - offset^2 * loading. */
  function DcCorrected(stats: Vector, loading: Vector, offset: real): (s: Vector)
    requires |stats| == |loading|
    ensures |s| == |stats|
  {
    AddScaled(stats, -(offset * offset), loading)
  }

  /** quad_mat with the DC offset removed: c subtracted from every entry. */
  function DcCorrectedQuad(quad: Matrix, c: real): (m: Matrix)
    ensures |m| == |quad| && forall i :: 0 <= i < |quad| ==> |m[i]| == |quad[i]|
  {
    seq(|quad|, i requires 0 <= i < |quad| =>
      seq(|quad[i]|, j requires 0 <= j < |quad[i]| => quad[i][j] - c))
  }

  /** The statistics hold the windowed form of eq. (1) over [order, hi). */
  ghost predicate Windowed(quad: array2<real>, x: Vector, order: nat, hi: nat)
    reads quad
    requires quad.Length0 == quad.Length1 == order + 1 && order <= hi <= |x|
  {
    forall i, j :: 0 <= i <= order && 0 <= j <= order ==> quad[i, j] == PairSum(x, order, hi, i, j)
  }

  /** With nothing decayed, the statistics are exactly those of the stretch
      [order, hi) of the signal: its sample count, its sum and its windowed
      quadratic form. */
  ghost predicate Covers(quadStats: array2<real>, zeroOrder: real, linear: real, x: Vector, order: nat, hi: nat)
    reads quadStats
    requires quadStats.Length0 == quadStats.Length1 == order + 1 && order <= hi <= |x|
  {
    zeroOrder == (hi - order) as real && linear == BlockSum(x, order, hi) && Windowed(quadStats, x, order, hi)
  }

  /** c is what a refit at time t makes of the coefficients prev on the
      statistics quad, stats, loading, zero and linear: c[0] and every
      entry from RefitSize on are kept, and c[1:RefitSize] is the
      conj_optim result on the DC-corrected statistics. */
  ghost predicate Refitted(c: Vector, prev: Vector, t: nat, order: nat, quad: Matrix, stats: Vector, loading: Vector,
                           zero: real, linear: real, inv: Matrix -> Matrix)
    requires |c| == |prev| == |stats| == |loading| == order + 1 && IsSquare(quad, order + 1)
    requires zero != 0.0 && KeepsShape(inv)
  {
    c[0] == prev[0] &&
    (forall k :: RefitSize(t, order) <= k <= order ==> c[k] == prev[k]) &&
    c[1..RefitSize(t, order)] ==
      OptimCoefficients(DcCorrectedQuad(quad, linear * linear / zero), DcCorrected(stats, loading, linear / zero),
                        prev, RefitSize(t, order), RefitIters, inv)
  }

  /** The quad_mat a refit hands to conj_optim: built directly from the
      plain autocorrelation when nothing is decayed (where it equals the
      statistics), else copied from the weighted statistics; then less the
      DC term c in every entry. */
  method CorrectedQuad(x: Vector, t: nat, order: nat, weight: real, autocorr: array<real>, quadStats: array2<real>, c: real)
    returns (quad: array2<real>)
    requires order <= t < |x| && autocorr.Length == order + 1
    requires quadStats.Length0 == quadStats.Length1 == order + 1
    requires weight == 1.0 ==> Windowed(quadStats, x, order, t) && AutocorrUpTo(autocorr, x, t)
    ensures fresh(quad) && quad.Length0 == quad.Length1 == order + 1
    ensures Cells(quad) == DcCorrectedQuad(Cells(quadStats), c)
  {
    quad := DirectQuad(autocorr[..], x, t, order);
    if weight == 1.0 {
      // The comparison the source prints: the direct build equals the
      // incrementally maintained statistics.
      forall i, j | 0 <= i <= order && 0 <= j <= order ensures quad[i, j] == quadStats[i, j] {
        DirectQuadIsWindow(x, autocorr[..], t, order, i, j);
      }
    } else {
      quad := CopyMatrix(quadStats);
    }
    SubtractConstant(quad, c);
    forall i | 0 <= i <= order ensures Cells(quad)[i] == DcCorrectedQuad(Cells(quadStats), c)[i] {
      assert forall j :: 0 <= j <= order ==> Cells(quad)[i][j] == DcCorrectedQuad(Cells(quadStats), c)[i][j];
    }
  }

  /** The refit proper, once the statistics are updated: remove the DC
      offset from quad_mat and from the stats, and refine the leading
      coefficients with conj_optim at the ramp order. */
  method FitCoefficients(x: Vector, t: nat, order: nat, weight: real, inv: Matrix -> Matrix,
                         autocorr: array<real>, coeff: array<real>, quadStats: array2<real>,
                         stats: array<real>, loading: array<real>, zeroOrder: real, linear: real)
    requires IsUpdateTime(t) && t < |x| && 2 * order <= Block && KeepsShape(inv)
    requires autocorr.Length == coeff.Length == stats.Length == loading.Length == order + 1
    requires quadStats.Length0 == quadStats.Length1 == order + 1
    requires coeff != stats && coeff != loading && 0.0 < zeroOrder
    requires weight == 1.0 ==> Windowed(quadStats, x, order, t) && AutocorrUpTo(autocorr, x, t)
    modifies coeff
    ensures Refitted(coeff[..], old(coeff[..]), t, order, Cells(quadStats), stats[..], loading[..], zeroOrder, linear, inv)
  {
    var quad := CorrectedQuad(x, t, order, weight, autocorr, quadStats, linear * linear / zeroOrder);
    var temp := DcCorrected(stats[..], loading[..], linear / zeroOrder);
    ConjOptim(coeff, quad, temp, order + 1, RefitIters, RampOrder(t, order), inv);
    assert coeff[..][1..RefitSize(t, order)] == coeff[1..RefitSize(t, order)];
  }

  /** Folding the block [tStart, t) undecayed into statistics that hold the
      window [order, tStart) gives the window [order, t): eq. (1) is
      computed on the upper triangle and mirrored. */
  lemma WindowGrows(x: Vector, order: nat, tStart: nat, t: nat, before: Matrix, quad: array2<real>)
    requires order <= tStart <= t <= |x| && IsSquare(before, order + 1)
    requires quad.Length0 == quad.Length1 == order + 1
    requires forall i, j :: 0 <= i <= order && 0 <= j <= order ==> before[i][j] == PairSum(x, order, tStart, i, j)
    requires forall i, j :: 0 <= i <= j <= order ==> quad[i, j] == 1.0 * before[i][j] + PairSum(x, tStart, t, i, j)
    requires forall i, j :: 0 <= i <= order && 0 <= j <= order ==> quad[i, j] == quad[j, i]
    ensures Windowed(quad, x, order, t)
  {
    forall i, j | 0 <= i <= order && 0 <= j <= order ensures quad[i, j] == PairSum(x, order, t, i, j) {
      PairSumSplit(x, order, tStart, t, Min(i, j), Max(i, j));
      PairSumSymmetric(x, order, t, i, j);
    }
  }

  /** The statistics vector after a block is folded in with decay `weight`. */
  function FoldedStats(prev: Vector, x: Vector, order: nat, tStart: nat, t: nat, weight: real, sqrtWeight: real): (s: Vector)
    requires order <= tStart <= t <= |x|
    ensures |s| == |prev|
    ensures forall j :: 0 <= j < |prev| ==> s[j] == weight * prev[j] + StatsGain(x, order, tStart, t, j, sqrtWeight)
  {
    seq(|prev|, j requires 0 <= j < |prev| => weight * prev[j] + StatsGain(x, order, tStart, t, j, sqrtWeight))
  }

  /** Per-lag facts about autocorr_stats gathered into one vector equation. */
  lemma StatsFolded(stats: array<real>, prev: Vector, x: Vector, order: nat, tStart: nat, t: nat, weight: real, sqrtWeight: real)
    requires stats.Length == |prev| == order + 1 && order <= tStart <= t <= |x|
    requires forall j :: 0 <= j <= order ==> stats[j] == weight * prev[j] + StatsGain(x, order, tStart, t, j, sqrtWeight)
    ensures stats[..] == FoldedStats(prev, x, order, tStart, t, weight, sqrtWeight)
  {
  }

  /** autocorr_loading after a block is folded in with decay `weight`. */
  function FoldedLoading(prev: Vector, order: nat, tStart: nat, t: nat, weight: real, sqrtWeight: real): (l: Vector)
    ensures |l| == |prev|
    ensures forall j :: 0 <= j < |prev| ==> l[j] == weight * prev[j] + LoadingGain(order, tStart, t, j, sqrtWeight)
  {
    seq(|prev|, j requires 0 <= j < |prev| => weight * prev[j] + LoadingGain(order, tStart, t, j, sqrtWeight))
  }

  /** x_stats after a block is folded in with decay `weight`: the upper
      triangle is decayed and gains the block's lag products, and the lower
      triangle mirrors it. */
  function FoldedQuad(prev: Matrix, x: Vector, order: nat, tStart: nat, t: nat, weight: real): (m: Matrix)
    requires IsSquare(prev, order + 1) && order <= tStart <= t <= |x|
    ensures IsSquare(m, order + 1)
    ensures forall i, j :: 0 <= i <= order && 0 <= j <= order ==> m[i][j] == m[j][i]
    ensures forall i, j :: 0 <= i <= j <= order ==> m[i][j] == weight * prev[i][j] + PairSum(x, tStart, t, i, j)
  {
    seq(order + 1, i requires 0 <= i <= order =>
      seq(order + 1, j requires 0 <= j <= order =>
        if i <= j then weight * prev[i][j] + PairSum(x, tStart, t, i, j)
        else weight * prev[j][i] + PairSum(x, tStart, t, j, i)))
  }

  /** The same for autocorr_loading. */
  lemma LoadingFolded(loading: array<real>, prev: Vector, order: nat, tStart: nat, t: nat, weight: real, sqrtWeight: real)
    requires loading.Length == |prev| == order + 1
    requires forall j :: 0 <= j <= order ==> loading[j] == weight * prev[j] + LoadingGain(order, tStart, t, j, sqrtWeight)
    ensures loading[..] == FoldedLoading(prev, order, tStart, t, weight, sqrtWeight)
  {
  }

  /** The same for x_stats, from its upper triangle and its symmetry. */
  lemma QuadFolded(quad: array2<real>, prev: Matrix, x: Vector, order: nat, tStart: nat, t: nat, weight: real)
    requires quad.Length0 == quad.Length1 == order + 1 && IsSquare(prev, order + 1) && order <= tStart <= t <= |x|
    requires forall i, j :: 0 <= i <= j <= order ==> quad[i, j] == weight * prev[i][j] + PairSum(x, tStart, t, i, j)
    requires forall i, j :: 0 <= i <= order && 0 <= j <= order ==> quad[i, j] == quad[j, i]
    ensures Cells(quad) == FoldedQuad(prev, x, order, tStart, t, weight)
  {
    var m, f := Cells(quad), FoldedQuad(prev, x, order, tStart, t, weight);
    forall i | 0 <= i <= order
      ensures m[i] == f[i]
    {
      forall j | 0 <= j <= order
        ensures m[i][j] == f[i][j]
      {
        if j < i {
          assert quad[i, j] == quad[j, i];
        }
      }
    }
  }

  /** update_stats on the block [tStart, t), right after the stretch
      [order, tStart) the statistics cover; with weight 1 they then cover
      eq. (1) up to t. */
  method FoldBlock(x: Vector, tStart: nat, t: nat, order: nat, weight: real, sqrtWeight: real,
                   quadStats: array2<real>, stats: array<real>, loading: array<real>,
                   zeroOrder: real, linear: real)
    returns (zeroOrder': real, linear': real)
    requires order <= tStart && tStart + order <= t <= |x| && tStart < t
    requires 0.0 <= sqrtWeight && sqrtWeight * sqrtWeight == weight
    requires stats.Length == loading.Length == order + 1 && stats != loading
    requires quadStats.Length0 == quadStats.Length1 == order + 1
    requires 0.0 <= zeroOrder
    requires weight == 1.0 ==> Covers(quadStats, zeroOrder, linear, x, order, tStart)
    modifies quadStats, stats, loading
    ensures zeroOrder' == weight * zeroOrder + (t - tStart) as real && 0.0 < zeroOrder'
    ensures linear' == weight * linear + BlockSum(x, tStart, t)
    ensures weight == 1.0 ==> Covers(quadStats, zeroOrder', linear', x, order, t)
    ensures stats[..] == FoldedStats(old(stats[..]), x, order, tStart, t, weight, sqrtWeight)
    ensures loading[..] == FoldedLoading(old(loading[..]), order, tStart, t, weight, sqrtWeight)
    ensures Cells(quadStats) == FoldedQuad(old(Cells(quadStats)), x, order, tStart, t, weight)
  {
    DecayedNonnegative(sqrtWeight, weight, zeroOrder);
    ghost var before, stats0, loading0 := Cells(quadStats), stats[..], loading[..];
    zeroOrder', linear' := UpdateStats(x, tStart, t, quadStats, stats, loading, zeroOrder, linear, weight, sqrtWeight);
    StatsFolded(stats, stats0, x, order, tStart, t, weight, sqrtWeight);
    LoadingFolded(loading, loading0, order, tStart, t, weight, sqrtWeight);
    QuadFolded(quadStats, before, x, order, tStart, t, weight);
    if weight == 1.0 {
      BlockSumSplit(x, order, tStart, t);
      WindowGrows(x, order, tStart, t, before, quadStats);
    }
  }

  /** A decayed count stays nonnegative: the decay is a square. */
  lemma DecayedNonnegative(sqrtWeight: real, weight: real, zeroOrder: real)
    requires sqrtWeight * sqrtWeight == weight && 0.0 <= zeroOrder
    ensures 0.0 <= weight * zeroOrder
  {
    assert 0.0 <= sqrtWeight * sqrtWeight;
  }

  /** The work done at an update time t: fold in the block (update_stats),
      then refit the coefficients on the DC-corrected statistics.  Only
      c[1:RefitSize] may change. */
  method Refit(x: Vector, t: nat, order: nat, weight: real, sqrtWeight: real, inv: Matrix -> Matrix,
               autocorr: array<real>, coeff: array<real>, quadStats: array2<real>, stats: array<real>, loading: array<real>,
               zeroOrder: real, linear: real)
    returns (zeroOrder': real, linear': real)
    requires IsUpdateTime(t) && t < |x| && 2 * order <= Block
    requires 0.0 <= sqrtWeight && sqrtWeight * sqrtWeight == weight
    requires stats.Length == loading.Length == order + 1 && stats != loading
    requires quadStats.Length0 == quadStats.Length1 == order + 1
    requires 0.0 <= zeroOrder
    requires weight == 1.0 ==> Covers(quadStats, zeroOrder, linear, x, order, BlockStart(t, order))
    requires KeepsShape(inv) && autocorr.Length == coeff.Length == order + 1
    requires coeff != stats && coeff != loading && autocorr != stats && autocorr != loading && autocorr != coeff
    requires weight == 1.0 ==> AutocorrUpTo(autocorr, x, t)
    modifies coeff, quadStats, stats, loading
    ensures zeroOrder' == weight * zeroOrder + (t - BlockStart(t, order)) as real && 0.0 < zeroOrder'
    ensures linear' == weight * linear + BlockSum(x, BlockStart(t, order), t)
    ensures zeroOrder' == StepZero(t, order, weight, zeroOrder) && linear' == StepLinear(x, t, order, weight, linear)
    ensures stats[..] == FoldedStats(old(stats[..]), x, order, BlockStart(t, order), t, weight, sqrtWeight)
    ensures loading[..] == FoldedLoading(old(loading[..]), order, BlockStart(t, order), t, weight, sqrtWeight)
    ensures Cells(quadStats) == FoldedQuad(old(Cells(quadStats)), x, order, BlockStart(t, order), t, weight)
    ensures weight == 1.0 ==> Covers(quadStats, zeroOrder', linear', x, order, t)
    ensures Refitted(coeff[..], old(coeff[..]), t, order, Cells(quadStats), stats[..], loading[..], zeroOrder', linear', inv)
  {
    BlockBounds(t, order);
    StepTotalsAtUpdate(x, t, order, weight, zeroOrder, linear);
    zeroOrder', linear' := FoldBlock(x, BlockStart(t, order), t, order, weight, sqrtWeight, quadStats, stats, loading, zeroOrder, linear);
    FitCoefficients(x, t, order, weight, inv, autocorr, coeff, quadStats, stats, loading, zeroOrder', linear');
  }

  /** zero_order_term after step t: update_stats decays it and adds the
      block's length at an update time; otherwise it stays as it was. */
  function StepZero(t: nat, order: nat, weight: real, zeroOrder: real): real
  {
    if IsUpdateTime(t) then weight * zeroOrder + (t - BlockStart(t, order)) as real else zeroOrder
  }

  /** linear_term after step t: decayed plus the block's sample sum at an
      update time, unchanged otherwise. */
  function StepLinear(x: Vector, t: nat, order: nat, weight: real, linear: real): real
    requires t < |x|
  {
    if IsUpdateTime(t) then weight * linear + BlockSum(x, BlockStart(t, order), t) else linear
  }

  /** At an update time the step totals are those update_stats returns. */
  lemma StepTotalsAtUpdate(x: Vector, t: nat, order: nat, weight: real, zeroOrder: real, linear: real)
    requires IsUpdateTime(t) && t < |x|
    ensures StepZero(t, order, weight, zeroOrder) == weight * zeroOrder + (t - BlockStart(t, order)) as real
    ensures StepLinear(x, t, order, weight, linear) == weight * linear + BlockSum(x, BlockStart(t, order), t)
  {
  }

  /** The invariant of the driver loop before step t: c[0] == -1; the
      totals are zero until the first refit and, with weight 1, the
      statistics cover eq. (1) from order to the end of the completed
      blocks; the running autocorrelation holds the lag sums up to t unless
      the loop has stopped updating it, which it does only once no refit is
      left. */
  ghost predicate StepInvariant(x: Vector, t: nat, order: nat, weight: real,
                                autocorr: array<real>, coeff: array<real>, quadStats: array2<real>,
                                zeroOrder: real, linear: real, skipped: bool)
    reads autocorr, coeff, quadStats
    requires t <= |x| && 2 * order <= Block
    requires autocorr.Length == coeff.Length == order + 1 && quadStats.Length0 == quadStats.Length1 == order + 1
  {
    coeff[0] == -1.0 && 0.0 <= zeroOrder &&
    (t <= Block ==> zeroOrder == 0.0 && linear == 0.0) &&
    (weight == 1.0 && order <= |x| ==> Covers(quadStats, zeroOrder, linear, x, order, BlocksDone(t, order))) &&
    (!skipped ==> AutocorrUpTo(autocorr, x, t)) &&
    (skipped ==> forall t' :: t <= t' < |x| ==> !IsUpdateTime(t'))
  }

  /** One time step t of the driver loop: a refit when t is an update
      time, then (unless the source skips it) the autocorrelation update.
      It keeps c[0] == -1 and, with weight 1, the statistics covering the
      blocks folded in so far; at an update time it does exactly what
      Refit does, and otherwise it leaves the coefficients and the
      statistics as they were. */
  method Tick(x: Vector, t: nat, order: nat, weight: real, sqrtWeight: real, inv: Matrix -> Matrix,
              autocorr: array<real>, coeff: array<real>, quadStats: array2<real>, stats: array<real>, loading: array<real>,
              zeroOrder: real, linear: real, ghost skipped: bool)
    returns (zeroOrder': real, linear': real, ghost skipped': bool)
    requires t < |x| && 2 * order <= Block
    requires 0.0 <= sqrtWeight && sqrtWeight * sqrtWeight == weight && KeepsShape(inv)
    requires autocorr.Length == coeff.Length == stats.Length == loading.Length == order + 1
    requires quadStats.Length0 == quadStats.Length1 == order + 1
    requires stats != loading && coeff != stats && coeff != loading
    requires autocorr != stats && autocorr != loading && autocorr != coeff
    requires StepInvariant(x, t, order, weight, autocorr, coeff, quadStats, zeroOrder, linear, skipped)
    modifies autocorr, coeff, quadStats, stats, loading
    ensures StepInvariant(x, t + 1, order, weight, autocorr, coeff, quadStats, zeroOrder', linear', skipped')
    ensures !IsUpdateTime(t) ==> coeff[..] == old(coeff[..])
    ensures !IsUpdateTime(t) ==> stats[..] == old(stats[..]) && loading[..] == old(loading[..])
    ensures !IsUpdateTime(t) ==> forall i, j :: 0 <= i <= order && 0 <= j <= order ==> quadStats[i, j] == old(quadStats[i, j])
    ensures IsUpdateTime(t) ==> 0.0 < zeroOrder'
    ensures zeroOrder' == StepZero(t, order, weight, zeroOrder) && linear' == StepLinear(x, t, order, weight, linear)
    ensures IsUpdateTime(t) ==>
      Refitted(coeff[..], old(coeff[..]), t, order, Cells(quadStats), stats[..], loading[..], zeroOrder', linear', inv)
    ensures IsUpdateTime(t) ==>
      stats[..] == FoldedStats(old(stats[..]), x, order, BlockStart(t, order), t, weight, sqrtWeight) &&
      loading[..] == FoldedLoading(old(loading[..]), order, BlockStart(t, order), t, weight, sqrtWeight) &&
      Cells(quadStats) == FoldedQuad(old(Cells(quadStats)), x, order, BlockStart(t, order), t, weight)
  {
    BlockSchedule(t, order);
    zeroOrder', linear', skipped' := zeroOrder, linear, skipped;
    if IsUpdateTime(t) {
      zeroOrder', linear' := Refit(x, t, order, weight, sqrtWeight, inv, autocorr, coeff, quadStats, stats, loading, zeroOrder, linear);
      if t + Block > |x| {
        // The source skips the rest of the iteration here, including the
        // autocorrelation update; no later refit reads it.
        forall t' | t < t' < |x| ensures !IsUpdateTime(t') {
          NoUpdateWithinBlock(t, t');
        }
        skipped' := true;
        return;
      }
    }
    ghost var before := autocorr[..];
    ghost var refitted, stats1, loading1, quad1 := coeff[..], stats[..], loading[..], Cells(quadStats);
    AccumulateAutocorr(autocorr, x, t);
    assert coeff[..] == refitted && stats[..] == stats1 && loading[..] == loading1 && Cells(quadStats) == quad1;
    if !skipped {
      AutocorrStep(x, t, before, autocorr[..]);
    }
  }

  /** test_prediction on the signal x, returning the final coefficients
      and the zeroth- and first-order statistics.  The coefficients keep
      c[0] == -1; with weight 1 the statistics are exactly those of the
      window from sample order to the last refit. */
  method TestPrediction(x: Vector, order: nat, weight: real, sqrtWeight: real, inv: Matrix -> Matrix)
    returns (coeffs: Vector, zeroOrder: real, linear: real)
    requires 2 * order <= Block
    requires 0.0 <= sqrtWeight && sqrtWeight * sqrtWeight == weight && KeepsShape(inv)
    ensures |coeffs| == order + 1 && coeffs[0] == -1.0
    ensures |x| <= Block ==> zeroOrder == 0.0 && linear == 0.0
    ensures weight == 1.0 && Block < |x| ==>
      zeroOrder == (BlocksDone(|x|, order) - order) as real && linear == BlockSum(x, order, BlocksDone(|x|, order))
  {
    var n := order + 1;
    var autocorr := new real[n](_ => 0.0);
    var coeff := new real[n](_ => 0.0);
    coeff[0] := -1.0;
    var quadStats := new real[n, n]((_, _) => 0.0);
    zeroOrder := 0.0;
    var stats := new real[n](_ => 0.0);
    var loading := new real[n](_ => 0.0);
    linear := 0.0;
    ghost var skipped := false;
    for t := 0 to |x|
      invariant StepInvariant(x, t, order, weight, autocorr, coeff, quadStats, zeroOrder, linear, skipped)
    {
      zeroOrder, linear, skipped := Tick(x, t, order, weight, sqrtWeight, inv, autocorr, coeff, quadStats, stats, loading,
                                         zeroOrder, linear, skipped);
    }
    coeffs := coeff[..];
  }
}
