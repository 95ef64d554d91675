/** Specification sums over a signal x for update_stats and test_prediction.

    LagSum(x, lo, hi, j) is the lag-j autocorrelation over the times
    t in [lo, hi); PairSum(x, lo, hi, i, j) is the windowed quadratic form
    of eq. (1) of update_stats' docstring, sum over tau in [lo, hi) of
    x[tau - i] * x[tau - j].  The other functions here restate the
    unoptimised loops of the source (its triple loops and its `not fast`
    branch), which serve as oracles for the optimised code. */
module LagSums {
  import opened Vectors

  /** sum_{t = lo}^{hi - 1} x[t] * x[t - j] (zero when hi <= lo). */
  function LagSum(x: Vector, lo: int, hi: int, j: nat): real
    requires j <= lo && hi <= |x|
    decreases hi - lo
  {
    if hi <= lo then 0.0 else LagSum(x, lo, hi - 1, j) + x[hi - 1] * x[hi - 1 - j]
  }

  /** sum_{tau = lo}^{hi - 1} x[tau - i] * x[tau - j]. */
  function PairSum(x: Vector, lo: int, hi: int, i: nat, j: nat): real
    requires i <= lo && j <= lo && hi <= |x|
    decreases hi - lo
  {
    if hi <= lo then 0.0 else PairSum(x, lo, hi - 1, i, j) + x[hi - 1 - i] * x[hi - 1 - j]
  }

  /** sum_{t = lo}^{hi - 1} x[t] (numpy's `np.sum(array[lo:hi])`). */
  function BlockSum(x: Vector, lo: nat, hi: int): real
    requires hi <= |x|
    decreases hi - lo
  {
    if hi <= lo then 0.0 else BlockSum(x, lo, hi - 1) + x[hi - 1]
  }

  lemma {:induction false} LagSumSplit(x: Vector, lo: int, mid: int, hi: int, j: nat)
    requires j <= lo <= mid <= hi <= |x|
    ensures LagSum(x, lo, hi, j) == LagSum(x, lo, mid, j) + LagSum(x, mid, hi, j)
    decreases hi - mid
  {
    if mid < hi {
      LagSumSplit(x, lo, mid, hi - 1, j);
    }
  }

  lemma {:induction false} PairSumSplit(x: Vector, lo: int, mid: int, hi: int, i: nat, j: nat)
    requires i <= lo && j <= lo <= mid <= hi <= |x|
    ensures PairSum(x, lo, hi, i, j) == PairSum(x, lo, mid, i, j) + PairSum(x, mid, hi, i, j)
    decreases hi - mid
  {
    if mid < hi {
      PairSumSplit(x, lo, mid, hi - 1, i, j);
    }
  }

  lemma {:induction false} BlockSumSplit(x: Vector, lo: nat, mid: nat, hi: nat)
    requires lo <= mid <= hi <= |x|
    ensures BlockSum(x, lo, hi) == BlockSum(x, lo, mid) + BlockSum(x, mid, hi)
    decreases hi - mid
  {
    if mid < hi {
      BlockSumSplit(x, lo, mid, hi - 1);
    }
  }

  /** A stretch of silence has no autocorrelation. */
  lemma {:induction false} LagSumOfSilence(x: Vector, lo: int, hi: int, j: nat)
    requires j <= lo && hi <= |x|
    requires forall t :: lo <= t < hi ==> x[t] == 0.0
    ensures LagSum(x, lo, hi, j) == 0.0
    decreases hi - lo
  {
    if lo < hi {
      LagSumOfSilence(x, lo, hi - 1, j);
    }
  }

  /** The windowed form is symmetric in its two lags. */
  lemma {:induction false} PairSumSymmetric(x: Vector, lo: int, hi: int, i: nat, j: nat)
    requires i <= lo && j <= lo && hi <= |x|
    ensures PairSum(x, lo, hi, i, j) == PairSum(x, lo, hi, j, i)
    decreases hi - lo
  {
    if lo < hi {
      PairSumSymmetric(x, lo, hi - 1, i, j);
    }
  }

  /** Along a diagonal of the quadratic form, the windowed sum is an
      autocorrelation over a shifted time range. */
  lemma {:induction false} PairSumAsLagSum(x: Vector, lo: int, hi: int, i: nat, j: nat)
    requires i <= j <= lo && hi <= |x|
    ensures PairSum(x, lo, hi, i, j) == LagSum(x, lo - i, hi - i, j - i)
    decreases hi - lo
  {
    if lo < hi {
      PairSumAsLagSum(x, lo, hi - 1, i, j);
    }
  }

  /** The amount the O(order^2) edge-correction loops of update_stats add to
      cell (i, k) of quad_mat: sum_{m = 1}^{i} x[t - m] * x[t - m - (k - i)]
      on the upper triangle without row 0, nothing elsewhere. */
  function EdgeTerm(x: Vector, t: int, n: nat, i: nat, k: nat): real
    requires n <= t <= |x|
  {
    if 1 <= i <= k <= n then LagSum(x, t - i, t, k - i) else 0.0
  }

  /** The unoptimised previous-block loop of update_stats (kept in the source
      as dead code): for kk < K, every upper-triangle cell (i, j) with
      kk < i <= j gains x[t + kk - i] * x[t + kk - j]. */
  function PrevBlockOracle(x: Vector, t: int, i: nat, j: nat, K: nat): real
    requires j <= t <= |x|
  {
    if K == 0 then 0.0 else PrevBlockOracle(x, t, i, j, K - 1) + PrevProduct(x, t, i, j, K - 1)
  }

  /** The product the previous-block loop adds to cell (i, j) at step kk. */
  function PrevProduct(x: Vector, t: int, i: nat, j: nat, kk: nat): real
    requires j <= t <= |x|
  {
    if kk < i <= j then x[t + kk - i] * x[t + kk - j] else 0.0
  }

  /** The unoptimised next-block loop of update_stats (kept in the source as
      dead code): for kk < K, every cell (i, j) with kk < i and kk < j loses
      x[t + kk - i] * x[t + kk - j]; this is the amount removed. */
  function NextBlockOracle(x: Vector, t: int, i: nat, j: nat, K: nat): real
    requires i <= t && j <= t <= |x|
  {
    if K == 0 then 0.0 else NextBlockOracle(x, t, i, j, K - 1) + NextProduct(x, t, i, j, K - 1)
  }

  /** The product the next-block loop removes from cell (i, j) at step kk. */
  function NextProduct(x: Vector, t: int, i: nat, j: nat, kk: nat): real
    requires i <= t && j <= t <= |x|
  {
    if kk < i && kk < j then x[t + kk - i] * x[t + kk - j] else 0.0
  }

  lemma {:induction false} PrevBlockOracleRamp(x: Vector, t: int, i: nat, j: nat, K: nat)
    requires 1 <= i <= j <= t <= |x| && K <= i
    ensures PrevBlockOracle(x, t, i, j, K) == LagSum(x, t - i, t - i + K, j - i)
  {
    if K > 0 {
      PrevBlockOracleRamp(x, t, i, j, K - 1);
    }
  }

  lemma {:induction false} PrevBlockOracleFlat(x: Vector, t: int, i: nat, j: nat, K: nat)
    requires j <= t <= |x| && i <= K
    ensures PrevBlockOracle(x, t, i, j, K) == PrevBlockOracle(x, t, i, j, i)
  {
    if K > i {
      PrevBlockOracleFlat(x, t, i, j, K - 1);
    }
  }

  lemma {:induction false} PrevBlockOracleZero(x: Vector, t: int, i: nat, j: nat, K: nat)
    requires j <= t <= |x| && (i > j || i == 0)
    ensures PrevBlockOracle(x, t, i, j, K) == 0.0
  {
    if K > 0 {
      PrevBlockOracleZero(x, t, i, j, K - 1);
    }
  }

  /** The O(order^2) previous-block correction adds to each cell of quad_mat
      exactly what the unoptimised triple loop adds. */
  lemma PrevCorrectionMatchesTripleLoop(x: Vector, t: int, n: nat, i: nat, j: nat)
    requires n <= t <= |x| && i <= n && j <= n
    ensures EdgeTerm(x, t, n, i, j) == PrevBlockOracle(x, t, i, j, n)
  {
    if 1 <= i <= j {
      PrevBlockOracleFlat(x, t, i, j, n);
      PrevBlockOracleRamp(x, t, i, j, i);
    } else {
      PrevBlockOracleZero(x, t, i, j, n);
    }
  }

  lemma {:induction false} NextBlockOracleSymmetric(x: Vector, t: int, i: nat, j: nat, K: nat)
    requires i <= t && j <= t <= |x|
    ensures NextBlockOracle(x, t, i, j, K) == NextBlockOracle(x, t, j, i, K)
  {
    if K > 0 {
      NextBlockOracleSymmetric(x, t, i, j, K - 1);
    }
  }

  lemma {:induction false} NextBlockOracleUpper(x: Vector, t: int, i: nat, j: nat, K: nat)
    requires i <= j <= t <= |x|
    ensures NextBlockOracle(x, t, i, j, K) == PrevBlockOracle(x, t, i, j, K)
  {
    if K > 0 {
      NextBlockOracleUpper(x, t, i, j, K - 1);
    }
  }

  /** The O(order^2) next-block correction, applied to the upper triangle and
      then mirrored, removes from every cell of quad_mat exactly what the
      unoptimised triple loop removes. */
  lemma NextCorrectionMatchesTripleLoop(x: Vector, t: int, n: nat, i: nat, j: nat)
    requires n <= t <= |x| && i <= n && j <= n
    ensures EdgeTerm(x, t, n, Min(i, j), Max(i, j)) == NextBlockOracle(x, t, i, j, n)
  {
    NextBlockOracleSymmetric(x, t, i, j, n);
    NextBlockOracleUpper(x, t, Min(i, j), Max(i, j), n);
    PrevCorrectionMatchesTripleLoop(x, t, n, Min(i, j), Max(i, j));
  }

  /** The three contributions update_stats adds to the upper triangle of
      quad_mat for one block (the lag sum of the block, the previous-block
      correction at t_start and the next-block correction at t_end) together
      make up the windowed form of eq. (1) over [t_start, t_end). */
  lemma BlockIncrement(x: Vector, n: nat, tStart: int, tEnd: int, i: nat, j: nat)
    requires n <= tStart <= tEnd <= |x| && i <= j <= n
    ensures LagSum(x, tStart, tEnd, j - i) + EdgeTerm(x, tStart, n, i, j) - EdgeTerm(x, tEnd, n, i, j)
         == PairSum(x, tStart, tEnd, i, j)
  {
    PairSumAsLagSum(x, tStart, tEnd, i, j);
    if 1 <= i {
      LagSumSplit(x, tStart - i, tStart, tEnd, j - i);
      LagSumSplit(x, tStart - i, tEnd - i, tEnd, j - i);
    }
  }

  /** sum_{m < k} x[t - (j - m)] * x[t - 1 - m]: the first k products that the
      reflection loops of update_stats add to lag j. */
  function ReflectPartial(x: Vector, t: int, j: nat, k: nat): real
    requires k <= j <= t <= |x|
  {
    if k == 0 then 0.0 else ReflectPartial(x, t, j, k - 1) + ReflectProduct(x, t, j, k - 1)
  }

  /** The product the reflection loops add to lag j at their pass i. */
  function ReflectProduct(x: Vector, t: int, j: nat, i: nat): real
    requires i < j <= t <= |x|
  {
    x[t - (j - i)] * x[t - 1 - i]
  }

  /** What the reflection loops of update_stats contribute to lag j, before
      their weight of 0.5: only lags 1 .. order - 1 are touched. */
  function Reflect(x: Vector, t: int, n: nat, j: nat): real
    requires n <= t <= |x|
  {
    if 1 <= j < n then ReflectPartial(x, t, j, j) else 0.0
  }

  /** How many products the reflection loops add to lag j. */
  function ReflectCount(n: nat, j: nat): real
  {
    if 1 <= j < n then j as real else 0.0
  }

  /** What the unoptimised `not fast` loop adds to lag i of autocorr_stats
      for the times t in [local, hi): products whose earlier sample is before
      `local` are weighted by sqrtScale, the others by 1, and products that
      would reach before the start of the signal are skipped. */
  function SlowStatsGain(x: Vector, local: nat, hi: int, i: nat, sqrtScale: real): real
    requires hi <= |x|
    decreases hi - local
  {
    if hi <= local then 0.0 else SlowStatsGain(x, local, hi - 1, i, sqrtScale) + SlowStatsTerm(x, local, hi - 1, i, sqrtScale)
  }

  /** What the `not fast` loop adds to lag i of autocorr_stats at time t. */
  function SlowStatsTerm(x: Vector, local: nat, t: nat, i: nat, sqrtScale: real): real
    requires t < |x|
  {
    if t - i < 0 then 0.0
    else if t - i >= local then x[t] * x[t - i]
    else x[t] * x[t - i] * sqrtScale
  }

  /** What the same loop adds to lag i of autocorr_loading. */
  function SlowLoadingGain(local: nat, hi: int, i: nat, sqrtScale: real): real
    decreases hi - local
  {
    if hi <= local then 0.0 else SlowLoadingGain(local, hi - 1, i, sqrtScale) + SlowLoadingTerm(local, hi - 1, i, sqrtScale)
  }

  /** What the `not fast` loop adds to lag i of autocorr_loading at time t. */
  function SlowLoadingTerm(local: nat, t: nat, i: nat, sqrtScale: real): real
  {
    if t - i < 0 then 0.0
    else if t - i >= local then 1.0
    else sqrtScale
  }

  lemma {:induction false} SlowStatsGainHead(x: Vector, local: nat, hi: int, i: nat, sqrtScale: real)
    requires hi <= |x| && hi <= local + i
    ensures SlowStatsGain(x, local, hi, i, sqrtScale) == sqrtScale * LagSum(x, Max(local, i), hi, i)
    decreases hi - local
  {
    if local < hi {
      SlowStatsGainHead(x, local, hi - 1, i, sqrtScale);
      var lo := Max(local, i);
      if hi - 1 >= i {
        var p := x[hi - 1] * x[hi - 1 - i];
        assert LagSum(x, lo, hi, i) == LagSum(x, lo, hi - 1, i) + p;
        assert sqrtScale * (LagSum(x, lo, hi - 1, i) + p) == sqrtScale * LagSum(x, lo, hi - 1, i) + p * sqrtScale;
      }
    }
  }

  lemma {:induction false} SlowStatsGainTail(x: Vector, local: nat, hi: int, i: nat, sqrtScale: real)
    requires local + i <= hi <= |x|
    ensures SlowStatsGain(x, local, hi, i, sqrtScale)
         == SlowStatsGain(x, local, local + i, i, sqrtScale) + LagSum(x, local + i, hi, i)
    decreases hi - local - i
  {
    if local + i < hi {
      SlowStatsGainTail(x, local, hi - 1, i, sqrtScale);
    }
  }

  /** The `not fast` oracle in closed form: products inside the new samples
      at full weight, products reaching back before `local` at sqrtScale. */
  lemma SlowStatsGainValue(x: Vector, local: nat, hi: int, i: nat, sqrtScale: real)
    requires local + i <= hi <= |x|
    ensures SlowStatsGain(x, local, hi, i, sqrtScale)
         == sqrtScale * LagSum(x, Max(local, i), local + i, i) + LagSum(x, local + i, hi, i)
  {
    SlowStatsGainTail(x, local, hi, i, sqrtScale);
    SlowStatsGainHead(x, local, local + i, i, sqrtScale);
  }

  lemma {:induction false} SlowLoadingGainHead(local: nat, hi: int, i: nat, sqrtScale: real)
    requires hi <= local + i
    ensures SlowLoadingGain(local, hi, i, sqrtScale) == sqrtScale * (Max(hi, Max(local, i)) - Max(local, i)) as real
    decreases hi - local
  {
    if local < hi {
      SlowLoadingGainHead(local, hi - 1, i, sqrtScale);
      var lo := Max(local, i);
      if hi - 1 >= i {
        assert Max(hi, lo) - lo == (Max(hi - 1, lo) - lo) + 1;
        assert sqrtScale * ((Max(hi - 1, lo) - lo) + 1) as real == sqrtScale * (Max(hi - 1, lo) - lo) as real + sqrtScale;
      }
    }
  }

  lemma {:induction false} SlowLoadingGainTail(local: nat, hi: int, i: nat, sqrtScale: real)
    requires local + i <= hi
    ensures SlowLoadingGain(local, hi, i, sqrtScale)
         == SlowLoadingGain(local, local + i, i, sqrtScale) + (hi - local - i) as real
    decreases hi - local - i
  {
    if local + i < hi {
      SlowLoadingGainTail(local, hi - 1, i, sqrtScale);
    }
  }

  /** The `not fast` loading in closed form: one per product at full weight,
      sqrtScale per product reaching back before `local`. */
  lemma SlowLoadingGainValue(local: nat, hi: int, i: nat, sqrtScale: real)
    requires local + i <= hi
    ensures SlowLoadingGain(local, hi, i, sqrtScale)
         == sqrtScale * (local + i - Max(local, i)) as real + (hi - local - i) as real
  {
    SlowLoadingGainTail(local, hi, i, sqrtScale);
    SlowLoadingGainHead(local, local + i, i, sqrtScale);
  }
}
