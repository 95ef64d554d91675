/** update_stats: the decaying second-order statistics of the signal, updated
    in place one block of samples at a time.

    With N == order, x the signal and s == prev_scale, one call over the block
    [t_start, t_end) leaves
      zero_order_term == s * zero_order_term + (t_end - t_start),
      linear_term     == s * linear_term + sum of the block's samples,
      quad_mat[i, j]  == s * quad_mat[i, j] + PairSum(x, t_start, t_end, i, j),
    i.e. eq. (1) of the source's docstring, built from lag sums plus O(N^2)
    edge corrections instead of O(N^3) work; and autocorr_stats /
    autocorr_loading gain what the source's unoptimised per-sample loop would
    add, plus and minus the temporary "reflection" terms at block edges. */
module Accumulator {
  import opened Vectors
  import opened LagSums

  /** Where the per-sample loop of the stats update starts: at 0 for the
      first block (t_start == order), so that the first `order` samples,
      which have no full history, still enter autocorr_stats. */
  function LocalStart(order: nat, tStart: nat): nat
  {
    if tStart == order then 0 else tStart
  }

  /** The lag sums of one block, split by whether the earlier sample of the
      product is inside the block (within) or before it (cross):
      within[j] == sum over t in [t_start + j, t_end) of x[t] x[t - j] and
      cross[j] == sum over t in [t_start, t_start + j) of x[t] x[t - j].
      The first loop always visits `order` samples, so on a block shorter
      than `order` within[j] runs on to t_start + order, past t_end. */
  method BlockLagSums(x: Vector, tStart: nat, tEnd: nat, order: nat) returns (within: Vector, cross: Vector)
    requires order <= tStart && tStart + order <= |x| && tEnd <= |x|
    ensures |within| == |cross| == order + 1
    ensures forall j :: 0 <= j <= order ==> within[j] == LagSum(x, tStart + j, Max(tStart + order, tEnd), j)
    ensures forall j :: 0 <= j <= order ==> cross[j] == LagSum(x, tStart, tStart + j, j)
  {
    var w, c := HeadLagSums(x, tStart, order);
    ghost var hi := Max(tStart + order, tEnd);
    var t := tStart + order;
    while t < tEnd
      invariant tStart + order <= t <= hi
      invariant forall k :: 0 <= k <= order ==> w[k] == LagSum(x, tStart + k, t, k)
      invariant forall k :: 0 <= k <= order ==> c[k] == LagSum(x, tStart, tStart + k, k)
    {
      AddTailSample(w, x, tStart, order, t);
      t := t + 1;
    }
    within, cross := w[..], c[..];
  }

  /** The first loop of BlockLagSums, over the first `order` samples of the
      block: lag j of within takes the products whose earlier sample is in
      the block, lag j of cross those that reach before t_start. */
  method HeadLagSums(x: Vector, tStart: nat, order: nat) returns (w: array<real>, c: array<real>)
    requires order <= tStart && tStart + order <= |x|
    ensures fresh(w) && fresh(c) && w != c && w.Length == c.Length == order + 1
    ensures forall k :: 0 <= k <= order ==> w[k] == LagSum(x, tStart + k, tStart + order, k)
    ensures forall k :: 0 <= k <= order ==> c[k] == LagSum(x, tStart, tStart + k, k)
  {
    w := new real[order + 1](_ => 0.0);
    c := new real[order + 1](_ => 0.0);
    var i := 0;
    while i < order
      invariant 0 <= i <= order
      invariant forall k :: 0 <= k <= order ==> w[k] == LagSum(x, tStart + k, tStart + Max(i, k), k)
      invariant forall k :: 0 <= k <= order ==> c[k] == LagSum(x, tStart, tStart + Min(i, k), k)
    {
      AddHeadSample(w, c, x, tStart, order, i);
      i := i + 1;
    }
    assert forall k :: 0 <= k <= order ==> Max(order, k) == order && Min(order, k) == k;
  }

  /** One pass of the first loop of BlockLagSums, for the sample at
      t_start + i with i < order: its products with lags j <= i go to
      within[j], those with lags j > i reach before t_start and go to
      cross[j]. */
  method AddHeadSample(w: array<real>, c: array<real>, x: Vector, tStart: nat, order: nat, i: nat)
    requires w.Length == c.Length == order + 1 && w != c
    requires i < order <= tStart && tStart + order <= |x|
    requires forall k :: 0 <= k <= order ==> w[k] == LagSum(x, tStart + k, tStart + Max(i, k), k)
    requires forall k :: 0 <= k <= order ==> c[k] == LagSum(x, tStart, tStart + Min(i, k), k)
    modifies w, c
    ensures forall k :: 0 <= k <= order ==> w[k] == LagSum(x, tStart + k, tStart + Max(i + 1, k), k)
    ensures forall k :: 0 <= k <= order ==> c[k] == LagSum(x, tStart, tStart + Min(i + 1, k), k)
  {
    var j := 0;
    while j < i + 1
      invariant 0 <= j <= i + 1
      invariant forall k :: 0 <= k < j ==> w[k] == LagSum(x, tStart + k, tStart + i + 1, k)
      invariant forall k :: j <= k <= order ==> w[k] == old(w[k])
      invariant forall k :: 0 <= k <= order ==> c[k] == old(c[k])
    {
      assert Max(i, j) == i;
      assert LagSum(x, tStart + j, tStart + i + 1, j) == LagSum(x, tStart + j, tStart + i, j) + x[tStart + i] * x[tStart + i - j];
      w[j] := w[j] + x[tStart + i] * x[tStart + i - j];
      j := j + 1;
    }
    while j < order + 1
      invariant i + 1 <= j <= order + 1
      invariant forall k :: 0 <= k < i + 1 ==> w[k] == LagSum(x, tStart + k, tStart + i + 1, k)
      invariant forall k :: i + 1 <= k <= order ==> w[k] == old(w[k])
      invariant forall k :: i + 1 <= k < j ==> c[k] == LagSum(x, tStart, tStart + i + 1, k)
      invariant forall k :: 0 <= k < i + 1 ==> c[k] == old(c[k])
      invariant forall k :: j <= k <= order ==> c[k] == old(c[k])
    {
      assert Min(i, j) == i;
      assert LagSum(x, tStart, tStart + i + 1, j) == LagSum(x, tStart, tStart + i, j) + x[tStart + i] * x[tStart + i - j];
      c[j] := c[j] + x[tStart + i] * x[tStart + i - j];
      j := j + 1;
    }
    forall k | 0 <= k <= order
      ensures w[k] == LagSum(x, tStart + k, tStart + Max(i + 1, k), k)
      ensures c[k] == LagSum(x, tStart, tStart + Min(i + 1, k), k)
    {
      if k <= i {
        assert Min(i, k) == k == Min(i + 1, k);
      } else {
        assert Max(i, k) == k == Max(i + 1, k);
      }
    }
  }

  /** One pass of the second loop of BlockLagSums, for a sample at
      t >= t_start + order: all its products are within the block. */
  method AddTailSample(w: array<real>, x: Vector, tStart: nat, order: nat, t: nat)
    requires w.Length == order + 1 && order <= tStart && tStart + order <= t < |x|
    requires forall k :: 0 <= k <= order ==> w[k] == LagSum(x, tStart + k, t, k)
    modifies w
    ensures forall k :: 0 <= k <= order ==> w[k] == LagSum(x, tStart + k, t + 1, k)
  {
    var j := 0;
    while j < order + 1
      invariant 0 <= j <= order + 1
      invariant forall k :: 0 <= k < j ==> w[k] == LagSum(x, tStart + k, t + 1, k)
      invariant forall k :: j <= k <= order ==> w[k] == old(w[k])
    {
      assert LagSum(x, tStart + j, t + 1, j) == LagSum(x, tStart + j, t, j) + x[t] * x[t - j];
      w[j] := w[j] + x[t] * x[t - j];
      j := j + 1;
    }
  }

  /** The first-block history loop: lag j gains the products x[i] x[i - j]
      for j <= i < order, the pairs that lie before t_start == order. */
  method AddFirstBlockHistory(stats: array<real>, x: Vector, order: nat)
    requires stats.Length == order + 1 && order <= |x|
    modifies stats
    ensures forall j :: 0 <= j <= order ==> stats[j] == old(stats[j]) + LagSum(x, j, order, j)
  {
    var i := 0;
    while i < order
      invariant 0 <= i <= order
      invariant forall k :: 0 <= k <= order ==> stats[k] == old(stats[k]) + LagSum(x, k, Max(i, k), k)
    {
      var j := 0;
      while j < i + 1
        invariant 0 <= j <= i + 1
        invariant forall k :: 0 <= k < j ==> stats[k] == old(stats[k]) + LagSum(x, k, i + 1, k)
        invariant forall k :: j <= k <= order ==> stats[k] == old(stats[k]) + LagSum(x, k, Max(i, k), k)
      {
        stats[j] := stats[j] + x[i] * x[i - j];
        j := j + 1;
      }
      i := i + 1;
    }
  }

  /** The reflection loops, with weight w: -0.5 removes the temporary terms
      that the previous block added at its end t, +0.5 adds them at the end
      of this block.  Lag j in 1 .. order - 1 gains w times the j products
      x[t - (j - i)] x[t - 1 - i], i < j, and w times j in the loading. */
  method AddReflection(stats: array<real>, loading: array<real>, x: Vector, t: nat, order: nat, w: real)
    requires stats.Length == loading.Length == order + 1 && stats != loading
    requires order <= t <= |x|
    modifies stats, loading
    ensures forall j :: 0 <= j <= order ==> stats[j] == old(stats[j]) + w * Reflect(x, t, order, j)
    ensures forall j :: 0 <= j <= order ==> loading[j] == old(loading[j]) + w * ReflectCount(order, j)
  {
    ghost var stats0, loading0 := stats[..], loading[..];
    var i := 0;
    while i < order
      invariant 0 <= i <= order
      invariant forall k :: 0 <= k <= order ==> stats[k] == stats0[k] + ReflectedStats(x, t, order, w, i, k)
      invariant forall k :: 0 <= k <= order ==> loading[k] == loading0[k] + ReflectedLoading(order, w, i, k)
    {
      AddReflectionRow(stats, loading, x, t, order, w, i);
      forall k | 0 <= k <= order
        ensures ReflectedStats(x, t, order, w, i + 1, k) == ReflectedStats(x, t, order, w, i, k) + PassStats(x, t, order, w, i, k)
        ensures ReflectedLoading(order, w, i + 1, k) == ReflectedLoading(order, w, i, k) + PassLoading(order, w, i, k)
      {
        ReflectionPassAt(x, t, order, w, i, k);
      }
      i := i + 1;
    }
  }

  /** What the first i passes of the reflection loops add to lag k. */
  function ReflectedStats(x: Vector, t: nat, order: nat, w: real, i: nat, k: nat): real
    requires order <= t <= |x|
  {
    if k < order then w * ReflectPartial(x, t, k, Min(i, k)) else 0.0
  }

  /** What the first i passes of the reflection loops add to lag k of the
      loading. */
  function ReflectedLoading(order: nat, w: real, i: nat, k: nat): real
  {
    if k < order then w * Min(i, k) as real else 0.0
  }

  /** What pass i of the reflection loops adds to lag k. */
  function PassStats(x: Vector, t: nat, order: nat, w: real, i: nat, k: nat): real
    requires order <= t <= |x|
  {
    if i < k < order then w * ReflectProduct(x, t, k, i) else 0.0
  }

  /** What pass i of the reflection loops adds to lag k of the loading. */
  function PassLoading(order: nat, w: real, i: nat, k: nat): real
  {
    if i < k < order then w else 0.0
  }

  /** Pass i extends what the passes before it added by its own terms. */
  lemma ReflectionPassAt(x: Vector, t: nat, order: nat, w: real, i: nat, k: nat)
    requires i < order <= t <= |x|
    ensures ReflectedStats(x, t, order, w, i + 1, k) == ReflectedStats(x, t, order, w, i, k) + PassStats(x, t, order, w, i, k)
    ensures ReflectedLoading(order, w, i + 1, k) == ReflectedLoading(order, w, i, k) + PassLoading(order, w, i, k)
  {
    if i < k < order {
      assert Min(i + 1, k) == i + 1 && Min(i, k) == i;
      var p := ReflectPartial(x, t, k, i);
      assert ReflectPartial(x, t, k, i + 1) == p + ReflectProduct(x, t, k, i);
      assert w * (p + ReflectProduct(x, t, k, i)) == w * p + w * ReflectProduct(x, t, k, i);
      assert w * (i + 1) as real == w * i as real + w;
    } else if k < order {
      assert Min(i + 1, k) == Min(i, k);
    }
  }

  /** Pass i of the reflection loops: every lag j in i + 1 .. order - 1
      gains w * x[t - (j - i)] * x[t - 1 - i], and w in the loading. */
  method AddReflectionRow(stats: array<real>, loading: array<real>, x: Vector, t: nat, order: nat, w: real, i: nat)
    requires stats.Length == loading.Length == order + 1 && stats != loading
    requires i < order <= t <= |x|
    modifies stats, loading
    ensures forall k :: 0 <= k <= order ==> stats[k] == old(stats[k]) + PassStats(x, t, order, w, i, k)
    ensures forall k :: 0 <= k <= order ==> loading[k] == old(loading[k]) + PassLoading(order, w, i, k)
  {
    var j := i + 1;
    while j < order
      invariant i + 1 <= j <= order
      invariant forall k :: 0 <= k < j ==> stats[k] == old(stats[k]) + PassStats(x, t, order, w, i, k)
      invariant forall k :: 0 <= k < j ==> loading[k] == old(loading[k]) + PassLoading(order, w, i, k)
      invariant forall k :: j <= k <= order ==> stats[k] == old(stats[k])
      invariant forall k :: j <= k <= order ==> loading[k] == old(loading[k])
    {
      stats[j] := stats[j] + w * (x[t - (j - i)] * x[t - 1 - i]);
      loading[j] := loading[j] + w;
      j := j + 1;
    }
  }

  /** What the fast loading update adds to lag i: num_samples - i, plus
      sqrt_scale * i after the first block, num_samples == t_end - local. */
  function LoadingCount(local: nat, tEnd: nat, i: nat, sqrtScale: real): real
  {
    (tEnd - local - i) as real + (if local != 0 then sqrtScale * i as real else 0.0)
  }

  /** The fast loading update, lag by lag. */
  method AddLoadingCounts(loading: array<real>, local: nat, tEnd: nat, sqrtScale: real)
    modifies loading
    ensures forall i :: 0 <= i < loading.Length ==>
      loading[i] == old(loading[i]) + LoadingCount(local, tEnd, i, sqrtScale)
  {
    var numSamples := tEnd - local;
    var i := 0;
    while i < loading.Length
      invariant 0 <= i <= loading.Length
      invariant forall k :: 0 <= k < i ==> loading[k] == old(loading[k]) + LoadingCount(local, tEnd, k, sqrtScale)
      invariant forall k :: i <= k < loading.Length ==> loading[k] == old(loading[k])
    {
      ghost var before := loading[i];
      loading[i] := loading[i] + (numSamples - i) as real;
      if local != 0 {
        loading[i] := loading[i] + sqrtScale * i as real;
      }
      assert loading[i] == before + LoadingCount(local, tEnd, i, sqrtScale);
      i := i + 1;
    }
  }

  /** The fast path adds to autocorr_stats exactly what the unoptimised
      per-sample loop adds: on the first block the history before t_start
      plus both block sums, afterwards the cross-block sums at sqrt_scale
      plus the within-block sums. */
  lemma FastStatsMatchesSlowLoop(x: Vector, order: nat, tStart: nat, tEnd: nat, j: nat, sqrtScale: real)
    requires order <= tStart && tStart + order <= tEnd <= |x| && j <= order
    ensures (if tStart == order
             then LagSum(x, j, order, j) + LagSum(x, tStart, tStart + j, j) + LagSum(x, tStart + j, tEnd, j)
             else sqrtScale * LagSum(x, tStart, tStart + j, j) + LagSum(x, tStart + j, tEnd, j))
         == SlowStatsGain(x, LocalStart(order, tStart), tEnd, j, sqrtScale)
  {
    var local := LocalStart(order, tStart);
    SlowStatsGainValue(x, local, tEnd, j, sqrtScale);
    if tStart == order {
      LagSumSplit(x, j, order, order + j, j);
      LagSumSplit(x, j, order + j, tEnd, j);
    }
  }

  /** The same for autocorr_loading. */
  lemma FastLoadingMatchesSlowLoop(order: nat, tStart: nat, tEnd: nat, j: nat, sqrtScale: real)
    requires order <= tStart && tStart + order <= tEnd && j <= order
    ensures LoadingCount(LocalStart(order, tStart), tEnd, j, sqrtScale)
         == SlowLoadingGain(LocalStart(order, tStart), tEnd, j, sqrtScale)
  {
    var local := LocalStart(order, tStart);
    SlowLoadingGainValue(local, tEnd, j, sqrtScale);
    if local == 0 {
      assert Max(local, j) == j;
    } else {
      assert Max(local, j) == local;
    }
  }

  /** The fast branch of the stats update: the first block also takes the
      history before t_start and both block sums at full weight; later
      blocks take the cross-block sums at sqrt_scale.  Either way lag j
      gains what the per-sample loop would add. */
  method AddFastStats(stats: array<real>, x: Vector, tStart: nat, tEnd: nat, order: nat,
                      within: Vector, cross: Vector, sqrtScale: real)
    requires order <= tStart && tStart + order <= tEnd <= |x|
    requires |within| == |cross| == stats.Length == order + 1
    requires forall j :: 0 <= j <= order ==> within[j] == LagSum(x, tStart + j, tEnd, j)
    requires forall j :: 0 <= j <= order ==> cross[j] == LagSum(x, tStart, tStart + j, j)
    modifies stats
    ensures forall j :: 0 <= j <= order ==>
      stats[j] == old(stats[j]) + SlowStatsGain(x, LocalStart(order, tStart), tEnd, j, sqrtScale)
  {
    ghost var stats0 := stats[..];
    if tStart == order {
      AddFirstBlockHistory(stats, x, order);
      ghost var stats1 := stats[..];
      forall j | 0 <= j < stats.Length {
        stats[j] := stats[j] + cross[j] + within[j];
      }
      forall j | 0 <= j <= order
        ensures stats[j] == stats0[j] + SlowStatsGain(x, LocalStart(order, tStart), tEnd, j, sqrtScale)
      {
        assert stats[j] == stats1[j] + cross[j] + within[j];
        FastStatsMatchesSlowLoop(x, order, tStart, tEnd, j, sqrtScale);
      }
    } else {
      forall j | 0 <= j < stats.Length {
        stats[j] := stats[j] + cross[j] * sqrtScale + within[j];
      }
      forall j | 0 <= j <= order
        ensures stats[j] == stats0[j] + SlowStatsGain(x, LocalStart(order, tStart), tEnd, j, sqrtScale)
      {
        assert stats[j] == stats0[j] + cross[j] * sqrtScale + within[j];
        FastStatsMatchesSlowLoop(x, order, tStart, tEnd, j, sqrtScale);
      }
    }
  }

  /** numpy's `v *= c`. */
  method ScaleVector(v: array<real>, c: real)
    modifies v
    ensures forall j :: 0 <= j < v.Length ==> v[j] == c * old(v[j])
  {
    forall j | 0 <= j < v.Length {
      v[j] := v[j] * c;
    }
  }

  /** What one call of update_stats adds to lag j of autocorr_stats after
      the decay: the previous block's reflection terms removed (except on
      the first block), the new samples as the per-sample loop would add
      them, and this block's reflection terms. */
  function StatsGain(x: Vector, order: nat, tStart: nat, tEnd: nat, j: nat, sqrtScale: real): real
    requires order <= tStart <= tEnd <= |x|
  {
    - (if tStart > order then 0.5 * Reflect(x, tStart, order, j) else 0.0)
    + SlowStatsGain(x, LocalStart(order, tStart), tEnd, j, sqrtScale)
    + 0.5 * Reflect(x, tEnd, order, j)
  }

  /** The same for lag j of autocorr_loading. */
  function LoadingGain(order: nat, tStart: nat, tEnd: nat, j: nat, sqrtScale: real): real
  {
    - (if tStart > order then 0.5 * ReflectCount(order, j) else 0.0)
    + SlowLoadingGain(LocalStart(order, tStart), tEnd, j, sqrtScale)
    + 0.5 * ReflectCount(order, j)
  }

  /** The autocorr_stats / autocorr_loading part of update_stats. */
  method UpdateAutocorrStats(x: Vector, tStart: nat, tEnd: nat, order: nat,
                             within: Vector, cross: Vector,
                             stats: array<real>, loading: array<real>,
                             prevScale: real, sqrtScale: real)
    requires order <= tStart && tStart + order <= tEnd <= |x|
    requires |within| == |cross| == stats.Length == loading.Length == order + 1 && stats != loading
    requires forall j :: 0 <= j <= order ==> within[j] == LagSum(x, tStart + j, tEnd, j)
    requires forall j :: 0 <= j <= order ==> cross[j] == LagSum(x, tStart, tStart + j, j)
    modifies stats, loading
    ensures forall j :: 0 <= j <= order ==>
      stats[j] == prevScale * old(stats[j]) + StatsGain(x, order, tStart, tEnd, j, sqrtScale)
    ensures forall j :: 0 <= j <= order ==>
      loading[j] == prevScale * old(loading[j]) + LoadingGain(order, tStart, tEnd, j, sqrtScale)
  {
    ghost var s0, l0 := stats[..], loading[..];
    DecayStats(stats, loading, x, tStart, order, prevScale);
    ghost var s1, l1 := stats[..], loading[..];
    AddBlockStats(stats, loading, x, tStart, tEnd, order, within, cross, sqrtScale);
    forall j | 0 <= j <= order
      ensures stats[j] == prevScale * s0[j] + StatsGain(x, order, tStart, tEnd, j, sqrtScale)
      ensures loading[j] == prevScale * l0[j] + LoadingGain(order, tStart, tEnd, j, sqrtScale)
    {
      assert s1[j] == prevScale * s0[j] - (if tStart > order then 0.5 * Reflect(x, tStart, order, j) else 0.0);
      assert l1[j] == prevScale * l0[j] - (if tStart > order then 0.5 * ReflectCount(order, j) else 0.0);
    }
  }

  /** The start of the stats update: decay by prev_scale, then (after the
      first block) remove the reflection terms the previous call added at
      its end, which is this block's start. */
  method DecayStats(stats: array<real>, loading: array<real>, x: Vector, tStart: nat, order: nat, prevScale: real)
    requires stats.Length == loading.Length == order + 1 && stats != loading
    requires order <= tStart <= |x|
    modifies stats, loading
    ensures forall j :: 0 <= j <= order ==>
      stats[j] == prevScale * old(stats[j]) - (if tStart > order then 0.5 * Reflect(x, tStart, order, j) else 0.0)
    ensures forall j :: 0 <= j <= order ==>
      loading[j] == prevScale * old(loading[j]) - (if tStart > order then 0.5 * ReflectCount(order, j) else 0.0)
  {
    ScaleVector(stats, prevScale);
    ScaleVector(loading, prevScale);
    if tStart > order {
      AddReflection(stats, loading, x, tStart, order, -0.5);
    }
  }

  /** The rest of the stats update: the new samples of the block, then the
      temporary reflection terms at t_end. */
  method AddBlockStats(stats: array<real>, loading: array<real>, x: Vector, tStart: nat, tEnd: nat, order: nat,
                       within: Vector, cross: Vector, sqrtScale: real)
    requires order <= tStart && tStart + order <= tEnd <= |x|
    requires |within| == |cross| == stats.Length == loading.Length == order + 1 && stats != loading
    requires forall j :: 0 <= j <= order ==> within[j] == LagSum(x, tStart + j, tEnd, j)
    requires forall j :: 0 <= j <= order ==> cross[j] == LagSum(x, tStart, tStart + j, j)
    modifies stats, loading
    ensures forall j :: 0 <= j <= order ==>
      stats[j] == old(stats[j]) + SlowStatsGain(x, LocalStart(order, tStart), tEnd, j, sqrtScale)
                  + 0.5 * Reflect(x, tEnd, order, j)
    ensures forall j :: 0 <= j <= order ==>
      loading[j] == old(loading[j]) + SlowLoadingGain(LocalStart(order, tStart), tEnd, j, sqrtScale)
                    + 0.5 * ReflectCount(order, j)
  {
    AddFastStats(stats, x, tStart, tEnd, order, within, cross, sqrtScale);
    var local := LocalStart(order, tStart);
    AddLoadingCounts(loading, local, tEnd, sqrtScale);
    forall j | 0 <= j <= order
      ensures loading[j] == old(loading[j]) + SlowLoadingGain(local, tEnd, j, sqrtScale)
    {
      FastLoadingMatchesSlowLoop(order, tStart, tEnd, j, sqrtScale);
    }
    AddReflection(stats, loading, x, tEnd, order, 0.5);
  }

  /** quad_mat[i, j] += autocorr_tot[|i - j|] over the whole matrix. */
  method AddToeplitz(quad: array2<real>, tot: Vector)
    requires quad.Length0 == quad.Length1 == |tot|
    modifies quad
    ensures forall i, j :: 0 <= i < quad.Length0 && 0 <= j < quad.Length1 ==>
      quad[i, j] == old(quad[i, j]) + tot[Abs(i - j)]
  {
    var n := quad.Length0;
    var i := 0;
    while i < n
      invariant 0 <= i <= n
      invariant forall p, q :: 0 <= p < n && 0 <= q < n ==>
        quad[p, q] == old(quad[p, q]) + (if p < i then tot[Abs(p - q)] else 0.0)
    {
      var j := 0;
      while j < n
        invariant 0 <= j <= n
        invariant forall p, q :: 0 <= p < n && 0 <= q < n ==>
          quad[p, q] == old(quad[p, q]) + (if p < i || (p == i && q < j) then tot[Abs(p - q)] else 0.0)
      {
        quad[i, j] := quad[i, j] + tot[Abs(i - j)];
        j := j + 1;
      }
      i := i + 1;
    }
  }

  /** The optimised edge-correction loops on the upper triangle, with sign
      w: +1 adds the terms of the previous block at t == t_start, -1 removes
      the terms beyond t == t_end.  Diagonal d is walked from row 1 down,
      with a running sum, so cell (i, i + d) gains w * EdgeTerm. */
  method AccumulateEdgeTerms(quad: array2<real>, x: Vector, t: nat, order: nat, w: real)
    requires quad.Length0 == quad.Length1 == order + 1 && order <= t <= |x|
    modifies quad
    ensures forall i, k :: 0 <= i <= order && 0 <= k <= order ==>
      quad[i, k] == old(quad[i, k]) + w * EdgeTerm(x, t, order, i, k)
  {
    var d := 0;
    while d < order
      invariant 0 <= d <= order
      invariant forall p, q :: 0 <= p <= order && 0 <= q <= order ==>
        quad[p, q] == old(quad[p, q]) + (if q - p < d then w * EdgeTerm(x, t, order, p, q) else 0.0)
    {
      var localSum := 0.0;
      var i := 1;
      while i < order + 1 - d
        invariant 1 <= i <= order + 1 - d
        invariant localSum == LagSum(x, t - (i - 1), t, d)
        invariant forall p, q :: 0 <= p <= order && 0 <= q <= order ==>
          quad[p, q] == old(quad[p, q]) +
            (if q - p < d || (q - p == d && p < i) then w * EdgeTerm(x, t, order, p, q) else 0.0)
      {
        LagSumSplit(x, t - i, t - i + 1, t, d);
        localSum := localSum + x[t - i] * x[t - i - d];
        quad[i, i + d] := quad[i, i + d] + w * localSum;
        i := i + 1;
      }
      d := d + 1;
    }
  }

  /** Copy the upper triangle of quad_mat onto the lower one. */
  method MirrorUpper(quad: array2<real>)
    requires quad.Length0 == quad.Length1
    modifies quad
    ensures forall i, j :: 0 <= i < quad.Length0 && 0 <= j < quad.Length1 ==>
      quad[i, j] == old(quad[Min(i, j), Max(i, j)])
  {
    var n := quad.Length0;
    var i := 0;
    while i < n
      invariant 0 <= i <= n
      invariant forall p, q :: 0 <= p < n && 0 <= q < n ==>
        quad[p, q] == (if q < p < i then old(quad[q, p]) else old(quad[p, q]))
    {
      var j := 0;
      while j < i
        invariant 0 <= j <= i
        invariant forall p, q :: 0 <= p < n && 0 <= q < n ==>
          quad[p, q] == (if q < p < i || (p == i && q < j) then old(quad[q, p]) else old(quad[p, q]))
      {
        quad[i, j] := quad[j, i];
        j := j + 1;
      }
      i := i + 1;
    }
  }

  /** numpy's `m *= c` on a square matrix. */
  method ScaleMatrix(m: array2<real>, c: real)
    modifies m
    ensures forall i, j :: 0 <= i < m.Length0 && 0 <= j < m.Length1 ==> m[i, j] == c * old(m[i, j])
  {
    forall i, j | 0 <= i < m.Length0 && 0 <= j < m.Length1 {
      m[i, j] := m[i, j] * c;
    }
  }

  /** The quad_mat part of update_stats: the decay, the block's lag sums on
      every diagonal, the edge corrections on the upper triangle, and the
      mirror copy.  Together they add the windowed form of eq. (1) over the
      block to the decayed upper triangle, and leave the matrix symmetric. */
  method UpdateQuad(quad: array2<real>, x: Vector, tStart: nat, tEnd: nat, order: nat,
                    within: Vector, cross: Vector, prevScale: real)
    requires quad.Length0 == quad.Length1 == order + 1
    requires order <= tStart && tStart + order <= tEnd <= |x|
    requires |within| == |cross| == order + 1
    requires forall j :: 0 <= j <= order ==> within[j] == LagSum(x, tStart + j, tEnd, j)
    requires forall j :: 0 <= j <= order ==> cross[j] == LagSum(x, tStart, tStart + j, j)
    modifies quad
    ensures forall i, j :: 0 <= i <= j <= order ==>
      quad[i, j] == prevScale * old(quad[i, j]) + PairSum(x, tStart, tEnd, i, j)
    ensures forall i, j :: 0 <= i <= order && 0 <= j <= order ==> quad[i, j] == quad[j, i]
  {
    ScaleMatrix(quad, prevScale);
    AddBlockQuad(quad, x, tStart, tEnd, order, within, cross);
    forall i, j | 0 <= i <= order && 0 <= j <= order
      ensures quad[i, j] == quad[j, i]
    {
      PairSumSymmetric(x, tStart, tEnd, i, j);
      assert Min(i, j) == Min(j, i) && Max(i, j) == Max(j, i);
    }
  }

  /** The block's contribution to quad_mat: see UpdateQuad. */
  method AddBlockQuad(quad: array2<real>, x: Vector, tStart: nat, tEnd: nat, order: nat, within: Vector, cross: Vector)
    requires quad.Length0 == quad.Length1 == order + 1
    requires order <= tStart && tStart + order <= tEnd <= |x|
    requires |within| == |cross| == order + 1
    requires forall j :: 0 <= j <= order ==> within[j] == LagSum(x, tStart + j, tEnd, j)
    requires forall j :: 0 <= j <= order ==> cross[j] == LagSum(x, tStart, tStart + j, j)
    modifies quad
    ensures forall i, j :: 0 <= i <= order && 0 <= j <= order ==>
      quad[i, j] == old(quad[Min(i, j), Max(i, j)]) + PairSum(x, tStart, tEnd, i, j)
  {
    var tot := seq(order + 1, j requires 0 <= j <= order => within[j] + cross[j]);
    forall j | 0 <= j <= order ensures tot[j] == LagSum(x, tStart, tEnd, j) {
      LagSumSplit(x, tStart, tStart + j, tEnd, j);
    }
    AddToeplitz(quad, tot);
    AccumulateEdgeTerms(quad, x, tStart, order, 1.0);
    AccumulateEdgeTerms(quad, x, tEnd, order, -1.0);
    MirrorUpper(quad);
    forall i, j | 0 <= i <= order && 0 <= j <= order
      ensures quad[i, j] == old(quad[Min(i, j), Max(i, j)]) + PairSum(x, tStart, tEnd, i, j)
    {
      BlockIncrement(x, order, tStart, tEnd, Min(i, j), Max(i, j));
      PairSumSymmetric(x, tStart, tEnd, i, j);
    }
  }

  /** update_stats(array, t_start, t_end, quad_mat, autocorr_stats,
      autocorr_loading, zero_order_term, linear_term, prev_scale), with
      order == quad_mat's size - 1.  sqrtScale is math.sqrt(prev_scale),
      passed in.  The block must start after the first `order` samples and
      be at least `order` samples long. */
  method UpdateStats(x: Vector, tStart: nat, tEnd: nat,
                     quad: array2<real>, stats: array<real>, loading: array<real>,
                     zeroOrder: real, linear: real, prevScale: real, sqrtScale: real)
    returns (zeroOrder': real, linear': real)
    requires 1 <= quad.Length0 == quad.Length1
    requires stats.Length == loading.Length == quad.Length0 && stats != loading
    requires quad.Length0 - 1 <= tStart && tStart + (quad.Length0 - 1) <= tEnd <= |x|
    requires 0.0 <= sqrtScale && sqrtScale * sqrtScale == prevScale
    modifies quad, stats, loading
    ensures zeroOrder' == prevScale * zeroOrder + (tEnd - tStart) as real
    ensures linear' == prevScale * linear + BlockSum(x, tStart, tEnd)
    ensures forall i, j :: 0 <= i <= j < quad.Length0 ==>
      quad[i, j] == prevScale * old(quad[i, j]) + PairSum(x, tStart, tEnd, i, j)
    ensures forall i, j :: 0 <= i < quad.Length0 && 0 <= j < quad.Length0 ==> quad[i, j] == quad[j, i]
    ensures forall j :: 0 <= j < quad.Length0 ==>
      stats[j] == prevScale * old(stats[j]) + StatsGain(x, quad.Length0 - 1, tStart, tEnd, j, sqrtScale)
    ensures forall j :: 0 <= j < quad.Length0 ==>
      loading[j] == prevScale * old(loading[j]) + LoadingGain(quad.Length0 - 1, tStart, tEnd, j, sqrtScale)
  {
    zeroOrder' := zeroOrder * prevScale;
    linear' := linear * prevScale;
    zeroOrder' := zeroOrder' + (tEnd - tStart) as real;
    linear' := linear' + BlockSum(x, tStart, tEnd);
    UpdateArrays(x, tStart, tEnd, quad, stats, loading, prevScale, sqrtScale);
  }

  /** The array part of update_stats: the lag sums of the block feed both
      the autocorrelation statistics and quad_mat. */
  method UpdateArrays(x: Vector, tStart: nat, tEnd: nat,
                      quad: array2<real>, stats: array<real>, loading: array<real>,
                      prevScale: real, sqrtScale: real)
    requires 1 <= quad.Length0 == quad.Length1
    requires stats.Length == loading.Length == quad.Length0 && stats != loading
    requires quad.Length0 - 1 <= tStart && tStart + (quad.Length0 - 1) <= tEnd <= |x|
    modifies quad, stats, loading
    ensures forall i, j :: 0 <= i <= j < quad.Length0 ==>
      quad[i, j] == prevScale * old(quad[i, j]) + PairSum(x, tStart, tEnd, i, j)
    ensures forall i, j :: 0 <= i < quad.Length0 && 0 <= j < quad.Length0 ==> quad[i, j] == quad[j, i]
    ensures forall j :: 0 <= j < quad.Length0 ==>
      stats[j] == prevScale * old(stats[j]) + StatsGain(x, quad.Length0 - 1, tStart, tEnd, j, sqrtScale)
    ensures forall j :: 0 <= j < quad.Length0 ==>
      loading[j] == prevScale * old(loading[j]) + LoadingGain(quad.Length0 - 1, tStart, tEnd, j, sqrtScale)
  {
    var order := quad.Length0 - 1;
    var within, cross := BlockLagSums(x, tStart, tEnd, order);
    assert Max(tStart + order, tEnd) == tEnd;
    UpdateAutocorrStats(x, tStart, tEnd, order, within, cross, stats, loading, prevScale, sqrtScale);
    ghost var stats1, loading1 := stats[..], loading[..];
    UpdateQuad(quad, x, tStart, tEnd, order, within, cross, prevScale);
    assert stats[..] == stats1 && loading[..] == loading1;
  }
}
