# Block-adaptive linear prediction in `test/test_reconstruction2.py`

This project models the linear-prediction engine inside lilcom's
`test/test_reconstruction2.py` and proves properties of it. The engine is
exact linear algebra over arrays. The model works over Dafny's `real`, so
every statement below is an algebraic identity or an indexing fact, never a
claim about floating-point rounding.

The engine has four parts. There is one module for each, plus two modules
of shared definitions.

- `Vectors` (`vectors.dfy`). Vectors and matrices as `seq<real>` and
  `seq<seq<real>>`. It defines dot products, matrix-vector products, the
  residual `b - A x`, scaled addition `u + c v` and reversal.
- `Toeplitz` (`toeplitz.dfy`). The symmetric Toeplitz matrix
  `T[i, j] == s[|i - j|]`, both as a function and as the double loop that
  fills an `array2`. It also gives the row products `ToeplitzDot` that the
  Levinson recursion works with.
- `Levinson` (`levinson.dfy`). `levinson_solve`: the Levinson-Trench-Zohar
  recursion for `A x == y` with `A[i, j] == autocorr[|i - j|]`. The forward
  and backward vectors `a`, `b`, the partial solution `x` and `epsilon` are
  loop variables of a `while` loop. The loop invariant is the one the source
  prints at each order: `A_n a == eps e_0`, `A_n b == eps e_n`,
  `A_n x == y[..n + 1]`, and `b` is `a` reversed.
- `LagSums` (`lag_sums.dfy`). The pure sums that specify `update_stats`:
  - lag sums `sum_t x[t] x[t - j]`;
  - the windowed form of eq. (1), `PairSum`, equal to
    `sum_tau x[tau - i] x[tau - j]`;
  - block sums;
  - the triple loops the source keeps disabled as references (`if False`);
  - the per-sample loop of the `not fast` path.
- `Accumulator` (`accumulator.dfy`). `update_stats`. It works in place on an
  `array2` for `quad_mat` and on `array`s for `autocorr_stats` and
  `autocorr_loading`. It has one method per loop group of the source. Each
  method is proved against the `LagSums` functions.
- `Minimizer` (`minimizer.dfy`). `conj_optim` and
  `get_autocorr_preconditioner`:
  - a preconditioned conjugate-gradient loop, proved equal to a recursive
    specification `CgIterate`;
  - the in-place write of `cur_coeffs[1..]`;
  - the recursion onto a leading block for the order ramp.
- `Driver` (`driver.dfy`). The block schedule of `test_prediction`:
  - `update_stats` every `BLOCK == 32` samples;
  - the direct rebuild of `quad_mat` from the plain autocorrelation with its
    two edge corrections;
  - the DC-offset correction and the call to `conj_optim` with the ramp
    order;
  - the running autocorrelation, including the `continue` that stops it.

With `prev_scale == 1`, the model proves two things:
- the directly rebuilt matrix equals the incrementally maintained
  `quad_mat_stats` cell by cell (the `np.array_equal` check);
- the totals `TestPrediction` returns are the count and the sum over the
  samples its completed blocks cover.

Two details of the code that the model follows exactly:
- before each refit, `test_prediction` subtracts `linear^2 / zero` from
  every cell of `quad_mat`, including row and column 0, and passes the
  stats vector with `(linear / zero)^2` times the loading vector removed;
- `update_stats` computes eq. (1) for the cells with `i <= j` and obtains
  the others by copying the upper triangle onto the lower one, so every
  cell ends up as eq. (1) gives it.

## Model

| member | source | states |
|---|---|---|
| Toeplitz.ToeplitzMatrix | test/test_reconstruction2.py:244-248 | the n-by-n matrix built from `s` is square, has `s[|i - j|]` at (i, j), is symmetric and has `s[0]` on its diagonal |
| Toeplitz.FillToeplitz | test/test_reconstruction2.py:244-248 | the double loop fills a fresh n-by-n array with `T[i, j] == s[|i - j|]` |
| Toeplitz.ToeplitzMatVec | test/test_reconstruction2.py:152-154 | row i of `T v` is the row product `sum_j s[|i - j|] v[j]`, the form the recursion's sums take |
| Toeplitz.ToeplitzDotReverse | test/test_reconstruction2.py:126-129 | reversing `v` maps row d of the Toeplitz product to row `|v| - 1 - d` |
| Levinson.LagDotIsRow | test/test_reconstruction2.py:126 | the sum in `xi_n` is row n of `A` applied to the forward vector |
| Levinson.NuDotIsRow | test/test_reconstruction2.py:127 | the sum in `nu_n` is row -1 of `A` applied to the backward vector |
| Levinson.XiEqualsNu | test/test_reconstruction2.py:125-129 | when `b` is `a` reversed, the two sums of eqn 2.6 are equal, so the disabled `assert xi_n == nu_n` holds |
| Levinson.ReflectionsAgree | test/test_reconstruction2.py:125-129 | `xi_n == nu_n` for mirrored vectors |
| Levinson.ReverseStep | test/test_reconstruction2.py:131-138 | the update of eqn 2.7 keeps `b` equal to `a` reversed when the same coefficient is used on both sides |
| Levinson.MirrorCombination | test/test_reconstruction2.py:131-138 | when `b` mirrors `a` entry by entry, entry k of the new backward vector is entry n - k of the new forward vector |
| Levinson.LevinsonRow | test/test_reconstruction2.py:131-138 | row i of the padded and combined vectors is the matching combination of the old rows |
| Levinson.LevinsonStep | test/test_reconstruction2.py:125-143 | eqns 2.6 to 2.8 take `A a == eps e_0`, `A b == eps e_last` at order n - 1 to the same equations at order n with `eps (1 - xi nu)` |
| Levinson.OrderStep | test/test_reconstruction2.py:125-143 | one order of the loop keeps all its invariants: `xi == nu`, the new vectors solve their equations, the new forward vector is monic and the backward one is its mirror |
| Levinson.SolutionStep | test/test_reconstruction2.py:148-150 | the update with `lambda_n / eps` extends `A_n x == y[..n + 1]` by one equation |
| Levinson.KernelWitness | test/test_reconstruction2.py:142-150 | when `eps` becomes 0 (the source then divides by it), the leading block maps the forward vector to zero, so the block is singular |
| Levinson.LevinsonSolve | test/test_reconstruction2.py:67-156 | a solved result satisfies every equation of `A x == y`, which the source prints at the end; otherwise the result exhibits a singular leading block through a vector with first entry 1 that the block maps to zero |
| LagSums.PairSumSplit | test/test_reconstruction2.py:262-268 | eq. (1) over a time range splits at any mid point, so blocks add up |
| LagSums.PairSumSymmetric | test/test_reconstruction2.py:264 | eq. (1) is symmetric in i and j |
| LagSums.PairSumAsLagSum | test/test_reconstruction2.py:264 | eq. (1) at (i, j) with i <= j is the lag-(j - i) autocorrelation over times shifted by i |
| LagSums.PrevCorrectionMatchesTripleLoop | test/test_reconstruction2.py:401-418 | the O(order^2) previous-block loop adds to each cell exactly what the disabled triple loop adds |
| LagSums.NextBlockOracleSymmetric | test/test_reconstruction2.py:424-430 | the disabled next-block triple loop subtracts the same amount from cells (i, j) and (j, i) |
| LagSums.NextCorrectionMatchesTripleLoop | test/test_reconstruction2.py:424-443 | the O(order^2) next-block loop, read at the upper-triangle cell (min, max) as the mirror copy does, subtracts from every cell what the disabled triple loop subtracts |
| LagSums.BlockIncrement | test/test_reconstruction2.py:386-437 | the block's lag sum, plus the previous-block edge term, minus the next-block edge term, is eq. (1) summed over the block |
| LagSums.SlowStatsGainValue | test/test_reconstruction2.py:349-364 | the per-sample `not fast` loop adds `sqrt_scale` times the products reaching before `local_t_start` plus the other products to `autocorr_stats[i]` |
| LagSums.SlowLoadingGainValue | test/test_reconstruction2.py:349-364 | the per-sample `not fast` loop adds `sqrt_scale` per product reaching before `local_t_start` and 1 per other product to `autocorr_loading[i]` |
| Accumulator.BlockLagSums | test/test_reconstruction2.py:294-309 | `within[j]` is the lag-j sum over the times whose earlier sample is in the block; `cross[j]` is the lag-j sum over the first j times, whose earlier sample is before `t_start`; on a block shorter than `order` the first loop carries `within` on to `t_start + order`, past `t_end` |
| Accumulator.HeadLagSums | test/test_reconstruction2.py:301-305 | after the first `order` samples of the block, lag j of within holds the products whose earlier sample is in the block and lag j of cross those reaching before `t_start` |
| Accumulator.AddHeadSample | test/test_reconstruction2.py:301-305 | each of the first `order` samples of the block feeds lag j into within when j <= i and into cross otherwise |
| Accumulator.AddTailSample | test/test_reconstruction2.py:307-309 | each later sample adds its products to every lag of within |
| Accumulator.AddFirstBlockHistory | test/test_reconstruction2.py:333-335 | the first block adds the lag sums over the samples before `order` |
| Accumulator.AddReflection | test/test_reconstruction2.py:320-325 | the reflection loops add `w` times the products `x[t - (j - i)] x[t - 1 - i]`, i < j, to lag j of the stats, and `w` per product to the loading; `w` is -0.5 here and +0.5 at lines 378-382 |
| Accumulator.ReflectionPassAt | test/test_reconstruction2.py:379-382 | pass i of the reflection loops extends what the earlier passes added by its own terms |
| Accumulator.AddReflectionRow | test/test_reconstruction2.py:379-382 | pass i adds its product to each lag j in i + 1 .. order - 1, and `w` to its loading, leaving the other lags unchanged |
| Accumulator.FastStatsMatchesSlowLoop | test/test_reconstruction2.py:327-364 | the fast `autocorr_stats` update equals the per-sample reference loop, both in the first-block case and in the later-block case |
| Accumulator.FastLoadingMatchesSlowLoop | test/test_reconstruction2.py:349-375 | the fast loading update `num_samples - i (+ sqrt_scale i)` equals the per-sample reference loop |
| Accumulator.AddLoadingCounts | test/test_reconstruction2.py:366-375 | lag i of the loading gains `num_samples - i`, plus `sqrt_scale * i` exactly when `local_t_start != 0` |
| Accumulator.AddFastStats | test/test_reconstruction2.py:327-346 | the fast stats update adds to lag j exactly what the per-sample reference loop would |
| Accumulator.ScaleVector | test/test_reconstruction2.py:316-317 | every entry is multiplied by the factor |
| Accumulator.DecayStats | test/test_reconstruction2.py:316-325 | the stats and loading are decayed; after the first block the previous block's reflection terms are then removed |
| Accumulator.AddBlockStats | test/test_reconstruction2.py:327-382 | the block adds its reference-loop gain and its own reflection terms at `t_end` |
| Accumulator.UpdateAutocorrStats | test/test_reconstruction2.py:311-382 | `autocorr_stats[j]` and `autocorr_loading[j]` become `prev_scale` times their old values, less the previous block's reflection terms, plus the reference-loop gain, plus this block's reflection terms. The reference definitions `StatsGain` and `LoadingGain` give these gains: the previous block's reflection terms removed, the per-sample loop's gain, and this block's reflection terms added |
| Accumulator.AddToeplitz | test/test_reconstruction2.py:386-390 | `quad_mat[i, j]` gains `autocorr_tot[|i - j|]` |
| Accumulator.AccumulateEdgeTerms | test/test_reconstruction2.py:414-418 | the local-sum loop adds `w` times the edge term to each upper-triangle cell outside row 0 and nothing elsewhere; `w` is +1 here and -1 at lines 433-437 |
| Accumulator.MirrorUpper | test/test_reconstruction2.py:440-443 | every cell takes the value of its upper-triangle cell |
| Accumulator.ScaleMatrix | test/test_reconstruction2.py:289 | every cell is multiplied by the factor |
| Accumulator.AddBlockQuad | test/test_reconstruction2.py:386-443 | after the block, each cell holds its old upper-triangle value plus eq. (1) summed over the block |
| Accumulator.UpdateQuad | test/test_reconstruction2.py:289-443 | `quad_mat` on and above the diagonal becomes `prev_scale` times its old value plus eq. (1) over the block, and the whole matrix is symmetric |
| Accumulator.UpdateArrays | test/test_reconstruction2.py:294-443 | the array part of `update_stats`: the quad, stats and loading updates together |
| Accumulator.UpdateStats | test/test_reconstruction2.py:252-445 | the returned terms are `prev_scale * zero + (t_end - t_start)` and `prev_scale * linear + sum x[t_start..t_end)`; `quad_mat`, `autocorr_stats` and `autocorr_loading` are updated as above, and `quad_mat` is symmetric |
| Minimizer.CgStart | test/test_reconstruction2.py:211-217 | the starting state has `r == b - A x0`, `x == x0` and the loop variables' sizes |
| Minimizer.StepKeepsResidual | test/test_reconstruction2.py:222-226 | the update `r -= alpha A p` keeps `r == b - A x` for the new `x` |
| Minimizer.StepIsExactLineSearch | test/test_reconstruction2.py:222-233 | the new residual is orthogonal to `p`, and the next direction `z + beta p` meets it in `r . z` for every beta |
| Minimizer.CgIterateBounds | test/test_reconstruction2.py:221-234 | the loop runs between k and `num_iters` steps; it uses all of them unless it stops early; an early stop comes after at least one step. `CgIterate` is the loop body of lines 221-234 as a recursion from iteration k to `num_iters`, and `CgRun` starts it from `CgStart` with `rs_orig == rsold` |
| Minimizer.CgIterateStopRule | test/test_reconstruction2.py:227-232 | an early stop means the preconditioned residual ratio `rsnew / rs_orig` of the returned iterate is below `1e-5`; running out of steps means it is not |
| Minimizer.CgRunStops | test/test_reconstruction2.py:211-234 | over the whole run: at most `num_iters` iterations, and the stop rule above measured against `rs_orig` of the start |
| Minimizer.CgStartDirection | test/test_reconstruction2.py:211-217 | the starting state has `p . r == rsold`, because `p == Minv r` and `rsold == r . Minv r` |
| Minimizer.CgStepDirection | test/test_reconstruction2.py:222-233 | after a step without breakdown, the next direction `z + (rsnew / rsold) p` again has `p' . r' == rsnew`; with `CgStartDirection` this means every state the loop reaches meets the hypothesis of `StepIsExactLineSearch` |
| Minimizer.NoEarlierStop | test/test_reconstruction2.py:227-232 | every iterate before the returned one ran out of steps: the loop did not stop at any of them |
| Minimizer.CgRunNoEarlierStop | test/test_reconstruction2.py:211-234 | for every m below the number of iterations the run used, the m-step run used all m steps and its residual ratio is at least `1e-5`, so the loop stops at the first iterate that passes the test |
| Minimizer.PreconditionedCg | test/test_reconstruction2.py:211-234 | the loop computes exactly the specification `CgRun` |
| Minimizer.Preconditioner | test/test_reconstruction2.py:239-249 | the preconditioner, the inverse of the Toeplitz matrix of the stats, is (order)-by-(order) |
| Minimizer.GetAutocorrPreconditioner | test/test_reconstruction2.py:239-249 | the filled array, read as a matrix, is the Toeplitz matrix, and the result is its inverse |
| Minimizer.QuadBlock | test/test_reconstruction2.py:180 | `A = quad_mat[1:, 1:]` of the active block is square |
| Minimizer.QuadRow | test/test_reconstruction2.py:179 | `b = quad_mat[0, 1:]` of the active block has one entry per free coefficient |
| Minimizer.ActiveSize | test/test_reconstruction2.py:172-176 | the active block never exceeds the view, as numpy clamps the slice, and is the whole view when no order is given |
| Minimizer.OptimCoefficients | test/test_reconstruction2.py:187-235 | the optimised coefficients have one entry per free coefficient |
| Minimizer.OptimizeBlock | test/test_reconstruction2.py:179-235 | `cur_coeffs[0]` and every entry past the block stay unchanged; `cur_coeffs[1:dim]` become the CG result |
| Minimizer.ConjOptim | test/test_reconstruction2.py:161-235 | `cur_coeffs[0]` is never written; only `cur_coeffs[1:order + 1]` change, and they receive the CG result on the leading block |
| Driver.BlockSchedule | test/test_reconstruction2.py:478-484 | at an update time, `max(order, t - BLOCK)` is where the covered stretch of signal ends and leaves at least `order` samples before t; the covered stretch then ends at t, and it moves only at update times. Here `IsUpdateTime(t)` is the test `t % BLOCK == 0 and t > 0` of line 478, `BlockStart(t, order)` is the `max(order, t - BLOCK)` of line 480, and `BlocksDone(t, order)` is the end of the stretch the statistics cover before step t |
| Driver.FirstBlockShorterThanOrder | test/test_reconstruction2.py:452-484 | with `order = 25` and `BLOCK = 32` the first update gets the block [25, 32), shorter than the order, and for a signal whose only nonzero sample is at time 40 the lag sum feeding `quad_mat[0, 0]` is 1 where eq. (1) over the block is 0 |
| Driver.NoUpdateWithinBlock | test/test_reconstruction2.py:478 | no update time falls strictly inside a block |
| Driver.RampGrows | test/test_reconstruction2.py:524-526 | the active size is `min(t // 16, order) + 1` up to `5 * BLOCK` and the full order after it, and it never shrinks as t grows. `RampOrder(t, order)` is the last argument of `conj_optim` at line 526 (`None` past `5 * BLOCK`), and `RefitSize` is the active size `ActiveSize(order + 1, RampOrder(t, order))` it gives |
| Driver.SubtractLagProduct | test/test_reconstruction2.py:497-506 | one time step of an edge loop subtracts `x[tau - i] x[tau - j]` from the cells of its square and nothing else |
| Driver.StartEdgeStep | test/test_reconstruction2.py:497-500 | time t1 joins the start correction of cell (i, j) exactly when both samples exist |
| Driver.SubtractStartEdges | test/test_reconstruction2.py:497-500 | cell (i, j) loses eq. (1) over the times before `order` |
| Driver.SubtractEndEdges | test/test_reconstruction2.py:502-506 | cell (i, j) loses the products that reach past t, the next-block triple loop of `update_stats` |
| Driver.DirectQuad | test/test_reconstruction2.py:486-506 | the rebuilt matrix is the Toeplitz matrix of `autocorr` less both edge corrections |
| Driver.DirectQuadIsWindow | test/test_reconstruction2.py:486-512 | when `autocorr` holds the lag sums up to t, the rebuilt matrix is eq. (1) over `[order, t)`, which is why `np.array_equal` holds with weight 1 |
| Driver.SubtractConstant | test/test_reconstruction2.py:520 | every cell loses the constant |
| Driver.CopyMatrix | test/test_reconstruction2.py:514 | the copy is fresh and equal cell by cell |
| Driver.AccumulateAutocorr | test/test_reconstruction2.py:551-553 | `autocorr[i]` gains `x[t - i] x[t]` exactly when `t - i >= 0` |
| Driver.AutocorrStep | test/test_reconstruction2.py:551-553 | the update keeps `autocorr[l]` equal to the lag-l sum up to the current time |
| Driver.DcCorrected | test/test_reconstruction2.py:523 | the DC-corrected stats have one entry per lag |
| Driver.DcCorrectedQuad | test/test_reconstruction2.py:520 | the DC-corrected matrix keeps the shape of `quad_mat` |
| Driver.FoldedQuad | test/test_reconstruction2.py:386-443 | `quad_mat_stats` after a block is symmetric, and its upper triangle is the decayed old value plus eq. (1) over the block |
| Driver.FoldBlock | test/test_reconstruction2.py:480-484 | `update_stats` on a block `[t_start, t)` (`Refit` passes `max(order, t - BLOCK)`): for every weight, `autocorr_stats`, `autocorr_loading` and `quad_mat_stats` become the decayed old values plus the block's gains, with the lower triangle mirroring the upper one; the count stays positive; with weight 1 the statistics then cover eq. (1) up to t. The new vectors are given by `FoldedStats` and `FoldedLoading`: entry j is `weight` times the old entry plus `StatsGain` or `LoadingGain` |
| Driver.CorrectedQuad | test/test_reconstruction2.py:486-520 | the matrix handed to `conj_optim` is `quad_mat_stats` (for weight 1 via the rebuilt matrix, which equals it; otherwise via the copy) with `linear^2 / zero` subtracted from every cell |
| Driver.FitCoefficients | test/test_reconstruction2.py:516-526 | `cur_coeff[0]` and every coefficient from the ramped active size on keep their values; the others become the three-iteration CG result on the DC-corrected matrix and `autocorr_temp` |
| Driver.Refit | test/test_reconstruction2.py:478-526 | for every weight, the terms, `autocorr_stats`, `autocorr_loading` and `quad_mat_stats` are updated as `update_stats` updates them, and `zero_order_term > 0`, so the DC correction divides by a nonzero count; with weight 1 the statistics then cover eq. (1) up to t; `cur_coeff[0]` and the coefficients from the ramped active size on keep their values, and the others become the CG result on the DC-corrected new statistics |
| Driver.Tick | test/test_reconstruction2.py:474-553 | one pass of the loop keeps its invariant `StepInvariant`: `cur_coeff[0] == -1`, the statistics cover the completed blocks, and the running autocorrelation is exact until the loop skips its update; at an update time the statistics and coefficients change as in `Refit`, and otherwise neither changes. The new totals are `StepZero` and `StepLinear`: at an update time `weight * zero + (t - BlockStart(t, order))` and `weight * linear + sum x[BlockStart(t, order)..t)`, as `update_stats` returns them; otherwise the old values |
| Driver.TestPrediction | test/test_reconstruction2.py:448-553 | `cur_coeff[0]` stays `-1`; with at most one block nothing is accumulated; with weight 1 the returned terms are the count and the sum of the samples from `order` to the end of the last completed block |

## Left out

- `PSNR`, `hash`, `logger`, the global settings, argument parsing, the
  dataset download and the module-level driver loop
  (`test/test_reconstruction2.py:787-890`). These are I/O and floating-point
  scoring.
- `lilcomReconstruct`, `MP3Reconstruct`, `waveRead`, `evaluate`. These call
  foreign libraries and the shell.
- `np.linalg.eig` and `np.linalg.inv`. The inverse is a parameter `inv` of
  `ConjOptim`, `Refit` and `TestPrediction`. It is only assumed to map a
  square matrix to a square matrix of the same size (`KeepsShape`). The
  eigenvalue print carries no contract.
- The exception path of `np.linalg.inv`. On an exactly singular matrix it
  raises `LinAlgError`. It is called before the CG loop, on `A` at
  `test/test_reconstruction2.py:190` (the `exact_x` check) and on the
  Toeplitz matrix of the stats at `:249`. The model's `inv` is total, so this
  stop is not modelled. Example: when the samples of the first block are all
  zero, `A` is the zero matrix at the refit at t = 32. The source stops there
  with the exception. The model runs CG, which breaks down at its first
  step because `p . Ap == 0`, and leaves the coefficients as they were.
- `math.sqrt(prev_scale)`. It is the parameter `sqrtScale` (in the driver,
  `sqrtWeight`) with `sqrtScale >= 0` and `sqrtScale * sqrtScale == prevScale`.
- Every `print`, the `exact_x` and `z_test` cross-checks in `conj_optim`,
  the residual print after the refit, and the `pred_sumsq` / `raw_sumsq`
  diagnostics of `test_prediction` (`test/test_reconstruction2.py:517`,
  `:527-549`). They carry no result, except that the inverse in the
  `exact_x` check can raise (previous item).
- The `if False` and `not fast` branches are not code paths of the model.
  They appear only as specification functions (`PrevBlockOracle`,
  `NextBlockOracle`, `SlowStatsGain`, `SlowLoadingGain`).
- Floating-point rounding. Over reals `np.array_equal` is plain equality.
- Blocks shorter than `order`. `UpdateStats` requires
  `t_start + order <= t_end`, as the docstring of `update_stats` assumes,
  and the driver requires `2 * order <= BLOCK` so that every block meets it.
  The source's own `order = 25` breaks this; see "## Findings".
- `TestPrediction`: `order` and `weight` are parameters. The source fixes
  them at 25 and 0.75. The cell-by-cell equality with the rebuilt matrix and
  the totals are stated for weight 1, the case in which the source compares
  the two matrices.
- `TestPrediction` returns the coefficients and the two totals. The source
  returns nothing, and they are what the driver loop keeps.
- Division by zero of numpy floats: `epsilon` in `levinson_solve`, and
  `p . Ap` or `rs_orig` in `conj_optim`. These give IEEE infinities or NaNs
  rather than an exception. In `conj_optim` a zero can reach them only when
  `A` and the preconditioner are nonsingular, because a singular one has
  already raised at line 190 or 249 (see above). `rs_orig == 0` happens when
  the warm start is already exact (`r == 0`); `p . Ap == 0` happens when
  `A` is indefinite. The model returns a `Singular` result for
  `levinson_solve`. It returns a `Breakdown` status for `conj_optim` and
  leaves the coefficients unchanged. The driver's `zero_order_term` is
  proved never to be zero where it is divided by.
- `LevinsonSolve` keeps the work vectors `a`, `b`, `x` as sequences of their
  active entries. The source keeps arrays of length N + 1 that are zero past
  the active prefix, together with the temporaries `a_temp` and `b_temp`.
- `Minimizer.CgIterate`: its own `ensures` states only the length of the
  result. Its iteration bounds and stop rule are the lemmas
  `CgIterateBounds`, `CgIterateStopRule`, `CgRunStops`, `NoEarlierStop` and
  `CgRunNoEarlierStop`.
- `ConjOptim` and `PreconditionedCg` work on value copies of `quad_mat[1:, 1:]`
  and of the coefficient slice. The source's numpy slices are views, but they
  are only read, and `cur_coeffs[1:]` is written back as a whole, as in the
  model.
- The objective value printed at each CG step, and the claim that CG
  decreases it, are not modelled.

## Findings

| source | as written | input that shows it | evidently intended | confidence | as-written member | corrected member |
|---|---|---|---|---|---|---|
| test/test_reconstruction2.py:452-484 | `order = 25` with `BLOCK = 32`: the first call of `update_stats` gets the block [25, 32), 7 samples, and its first lag-sum loop (lines 301-305) reads samples up to time 49, past `t_end` | a 50-sample signal whose only nonzero sample is a 1 at time 40: after the first update `quad_mat[0, 0]` gains 1, where eq. (1) over [25, 32) gives 0 | every block at least `order` samples long, as the docstring of `update_stats` assumes (lines 273-274); the model requires `2 * order <= BLOCK` | medium; not executed | Accumulator.BlockLagSums, Driver.FirstBlockShorterThanOrder | Driver.BlockSchedule |
