/** conj_optim: preconditioned conjugate gradient for the prediction
    coefficients.  With A == quad_mat[1:, 1:] and b == quad_mat[0, 1:], the
    coefficients c with c[0] == -1 minimise c^T quad_mat c exactly when
    x == c[1:] solves A x == b; a few warm-started CG iterations move x
    towards that solution.  The preconditioner is the inverse of the
    Toeplitz matrix of the autocorrelation stats; the inversion itself
    (numpy's linalg.inv) is a parameter of the model. */
module Minimizer {
  import opened Vectors
  import opened Toeplitz

  /** The relative preconditioned residual below which CG stops early. */
  const Tolerance: real := 0.00001

  /** How a CG run ended: all iterations used, early stop on a small
      residual, or a division by zero (where the source would produce a
      non-finite value). */
  datatype Status = Exhausted | Converged | Breakdown

  /** The CG loop variables x, r, p and rsold. */
  datatype CgState = CgState(x: Vector, r: Vector, p: Vector, rsold: real)

  /** The final iterate, the number of iterations run, and how the run
      ended. */
  datatype CgResult = CgResult(x: Vector, iters: nat, status: Status)

  /** A and the preconditioner are m-by-m, b has m entries. */
  ghost predicate Shapes(A: Matrix, b: Vector, minv: Matrix)
  {
    IsSquare(A, |b|) && IsSquare(minv, |b|)
  }

  /** The loop variables have the size of the system. */
  ghost predicate StateShapes(b: Vector, s: CgState)
  {
    |s.x| == |s.r| == |s.p| == |b|
  }

  /** r == b - A x: the residual the loop variable r tracks. */
  ghost predicate TracksResidual(A: Matrix, b: Vector, s: CgState)
    requires IsSquare(A, |b|) && StateShapes(b, s)
  {
    s.r == Residual(A, b, s.x)
  }

  /** The preconditioned residual norm r . (Minv r). */
  function PrecondNorm(minv: Matrix, r: Vector): real
    requires IsSquare(minv, |r|)
  {
    Dot(r, MatVec(minv, r))
  }

  /** The CG iterations from state s after k of them, with at most n in
      all; rsOrig is the initial preconditioned residual norm. */
  function CgIterate(A: Matrix, b: Vector, minv: Matrix, s: CgState, rsOrig: real, k: nat, n: nat): (res: CgResult)
    requires Shapes(A, b, minv) && StateShapes(b, s)
    requires rsOrig != 0.0 ==> s.rsold != 0.0
    ensures |res.x| == |b|
    decreases n - k
  {
    if k >= n then CgResult(s.x, k, Exhausted)
    else
      var Ap := MatVec(A, s.p);
      var pAp := Dot(s.p, Ap);
      if pAp == 0.0 then CgResult(s.x, k, Breakdown)
      else
        var alpha := s.rsold / pAp;
        var x := AddScaled(s.x, alpha, s.p);
        var r := AddScaled(s.r, -alpha, Ap);
        var z := MatVec(minv, r);
        var rsnew := Dot(r, z);
        if rsOrig == 0.0 then CgResult(x, k + 1, Breakdown)
        else if rsnew / rsOrig < Tolerance then CgResult(x, k + 1, Converged)
        else CgIterate(A, b, minv, CgState(x, r, AddScaled(z, rsnew / s.rsold, s.p), rsnew), rsOrig, k + 1, n)
  }

  /** The state before the first iteration, warm-started from x0:
      r == b - A x0, p == Minv r, rsold == r . p. */
  function CgStart(A: Matrix, b: Vector, minv: Matrix, x0: Vector): (s: CgState)
    requires Shapes(A, b, minv) && |x0| == |b|
    ensures StateShapes(b, s) && TracksResidual(A, b, s) && s.x == x0
  {
    var r := Residual(A, b, x0);
    var z := MatVec(minv, r);
    CgState(x0, r, z, Dot(r, z))
  }

  /** A whole CG run of at most numIters iterations from x0. */
  function CgRun(A: Matrix, b: Vector, minv: Matrix, x0: Vector, numIters: nat): CgResult
    requires Shapes(A, b, minv) && |x0| == |b|
  {
    var s := CgStart(A, b, minv, x0);
    CgIterate(A, b, minv, s, s.rsold, 0, numIters)
  }

  /** One step keeps r == b - A x: moving x by alpha p moves the residual
      by -alpha A p. */
  lemma StepKeepsResidual(A: Matrix, b: Vector, s: CgState, alpha: real)
    requires IsSquare(A, |b|) && StateShapes(b, s) && TracksResidual(A, b, s)
    ensures AddScaled(s.r, -alpha, MatVec(A, s.p)) == Residual(A, b, AddScaled(s.x, alpha, s.p))
  {
    MatVecAddScaled(A, s.x, alpha, s.p);
  }

  /** The line search is exact: when p . r == rsold, the new residual is
      orthogonal to the search direction, and the next direction
      z + beta p again satisfies p' . r' == rsnew. */
  lemma StepIsExactLineSearch(A: Matrix, minv: Matrix, s: CgState, alpha: real, beta: real)
    requires IsSquare(A, |s.p|) && IsSquare(minv, |s.p|) && |s.r| == |s.p|
    requires Dot(s.p, s.r) == s.rsold && Dot(s.p, MatVec(A, s.p)) != 0.0
    requires alpha == s.rsold / Dot(s.p, MatVec(A, s.p))
    ensures Dot(s.p, AddScaled(s.r, -alpha, MatVec(A, s.p))) == 0.0
    ensures var r := AddScaled(s.r, -alpha, MatVec(A, s.p));
            Dot(AddScaled(MatVec(minv, r), beta, s.p), r) == Dot(r, MatVec(minv, r))
  {
    var Ap := MatVec(A, s.p);
    var r := AddScaled(s.r, -alpha, Ap);
    DotAddScaledRight(s.p, s.r, -alpha, Ap);
    assert alpha * Dot(s.p, Ap) == s.rsold;
    var z := MatVec(minv, r);
    DotAddScaled(z, beta, s.p, r);
    DotSymmetric(z, r);
  }

  /** The starting state meets the hypothesis of the exact line search:
      p . r == rsold, since p == Minv r and rsold == r . Minv r. */
  lemma CgStartDirection(A: Matrix, b: Vector, minv: Matrix, x0: Vector)
    requires Shapes(A, b, minv) && |x0| == |b|
    ensures var s := CgStart(A, b, minv, x0); Dot(s.p, s.r) == s.rsold
  {
    var r := Residual(A, b, x0);
    DotSymmetric(MatVec(minv, r), r);
  }

  /** The state CgIterate moves on to after a step without breakdown meets
      the hypothesis again, so by induction from CgStartDirection every
      state the loop reaches has p . r == rsold and every step is an exact
      line search. */
  lemma CgStepDirection(A: Matrix, minv: Matrix, s: CgState)
    requires IsSquare(A, |s.p|) && IsSquare(minv, |s.p|) && |s.r| == |s.p|
    requires Dot(s.p, s.r) == s.rsold && Dot(s.p, MatVec(A, s.p)) != 0.0 && s.rsold != 0.0
    ensures var Ap := MatVec(A, s.p);
            var r := AddScaled(s.r, -(s.rsold / Dot(s.p, Ap)), Ap);
            var z := MatVec(minv, r);
            var rsnew := Dot(r, z);
            Dot(AddScaled(z, rsnew / s.rsold, s.p), r) == rsnew
  {
    var Ap := MatVec(A, s.p);
    var r := AddScaled(s.r, -(s.rsold / Dot(s.p, Ap)), Ap);
    StepIsExactLineSearch(A, minv, s, s.rsold / Dot(s.p, Ap), Dot(r, MatVec(minv, r)) / s.rsold);
  }

  /** The iteration count never exceeds numIters; running out of
      iterations means all of them ran, and an early stop comes after at
      least one. */
  lemma {:induction false} CgIterateBounds(A: Matrix, b: Vector, minv: Matrix, s: CgState, rsOrig: real, k: nat, n: nat)
    requires Shapes(A, b, minv) && StateShapes(b, s)
    requires rsOrig != 0.0 ==> s.rsold != 0.0
    requires k <= n
    ensures var res := CgIterate(A, b, minv, s, rsOrig, k, n);
      k <= res.iters <= n && |res.x| == |b| &&
      (res.status == Exhausted ==> res.iters == n) &&
      (res.status == Converged ==> k < res.iters)
    decreases n - k
  {
    if k < n {
      var Ap := MatVec(A, s.p);
      var pAp := Dot(s.p, Ap);
      if pAp != 0.0 {
        var alpha := s.rsold / pAp;
        var x := AddScaled(s.x, alpha, s.p);
        var r := AddScaled(s.r, -alpha, Ap);
        var z := MatVec(minv, r);
        var rsnew := Dot(r, z);
        if rsOrig != 0.0 && rsnew / rsOrig >= Tolerance {
          CgIterateBounds(A, b, minv, CgState(x, r, AddScaled(z, rsnew / s.rsold, s.p), rsnew), rsOrig, k + 1, n);
        }
      }
    }
  }

  /** The early-stop rule seen from outside: once an iteration has run,
      the run stops by convergence exactly when the returned iterate's
      preconditioned residual is below Tolerance times the initial one. */
  lemma {:induction false} CgIterateStopRule(A: Matrix, b: Vector, minv: Matrix, s: CgState, rsOrig: real, k: nat, n: nat)
    requires Shapes(A, b, minv) && StateShapes(b, s) && TracksResidual(A, b, s)
    requires rsOrig != 0.0 && s.rsold != 0.0
    requires k < n
    ensures var res := CgIterate(A, b, minv, s, rsOrig, k, n);
      |res.x| == |b| &&
      (res.status == Converged ==> PrecondNorm(minv, Residual(A, b, res.x)) / rsOrig < Tolerance) &&
      (res.status == Exhausted ==> PrecondNorm(minv, Residual(A, b, res.x)) / rsOrig >= Tolerance)
    decreases n - k
  {
    CgIterateBounds(A, b, minv, s, rsOrig, k, n);
    var Ap := MatVec(A, s.p);
    var pAp := Dot(s.p, Ap);
    if pAp != 0.0 {
      var alpha := s.rsold / pAp;
      var x := AddScaled(s.x, alpha, s.p);
      var r := AddScaled(s.r, -alpha, Ap);
      StepKeepsResidual(A, b, s, alpha);
      var z := MatVec(minv, r);
      var rsnew := Dot(r, z);
      if rsnew / rsOrig >= Tolerance && k + 1 < n {
        var s' := CgState(x, r, AddScaled(z, rsnew / s.rsold, s.p), rsnew);
        CgIterateStopRule(A, b, minv, s', rsOrig, k + 1, n);
      }
    }
  }

  /** The iteration bound and the early-stop rule for a whole run. */
  lemma CgRunStops(A: Matrix, b: Vector, minv: Matrix, x0: Vector, numIters: nat)
    requires Shapes(A, b, minv) && |x0| == |b|
    ensures var res := CgRun(A, b, minv, x0, numIters);
      var rsOrig := PrecondNorm(minv, Residual(A, b, x0));
      res.iters <= numIters && |res.x| == |b| &&
      (res.status == Exhausted ==> res.iters == numIters) &&
      (res.status == Converged ==> 1 <= res.iters && PrecondNorm(minv, Residual(A, b, res.x)) / rsOrig < Tolerance) &&
      (res.status == Exhausted && 1 <= numIters ==> PrecondNorm(minv, Residual(A, b, res.x)) / rsOrig >= Tolerance)
  {
    var s := CgStart(A, b, minv, x0);
    CgIterateBounds(A, b, minv, s, s.rsold, 0, numIters);
    if s.rsold != 0.0 && 1 <= numIters {
      CgIterateStopRule(A, b, minv, s, s.rsold, 0, numIters);
    }
  }

  /** No earlier stop: when the run with budget n goes past iteration m,
      none of the iterations before m converged or broke down, so the run
      with budget m uses all of them. */
  lemma {:induction false} NoEarlierStop(A: Matrix, b: Vector, minv: Matrix, s: CgState, rsOrig: real, k: nat, n: nat, m: nat)
    requires Shapes(A, b, minv) && StateShapes(b, s)
    requires rsOrig != 0.0 ==> s.rsold != 0.0
    requires k <= m < CgIterate(A, b, minv, s, rsOrig, k, n).iters
    ensures CgIterate(A, b, minv, s, rsOrig, k, m).status == Exhausted
    decreases m - k
  {
    if k < m {
      var Ap := MatVec(A, s.p);
      var pAp := Dot(s.p, Ap);
      var alpha := s.rsold / pAp;
      var x := AddScaled(s.x, alpha, s.p);
      var r := AddScaled(s.r, -alpha, Ap);
      var z := MatVec(minv, r);
      var rsnew := Dot(r, z);
      var s' := CgState(x, r, AddScaled(z, rsnew / s.rsold, s.p), rsnew);
      NoEarlierStop(A, b, minv, s', rsOrig, k + 1, n, m);
    }
  }

  /** The run stops at the first iterate that meets the tolerance: every
      iterate before the returned one is what a run with that smaller
      budget returns, and its residual ratio is at least Tolerance. */
  lemma CgRunNoEarlierStop(A: Matrix, b: Vector, minv: Matrix, x0: Vector, numIters: nat)
    requires Shapes(A, b, minv) && |x0| == |b|
    ensures var res := CgRun(A, b, minv, x0, numIters);
      var rsOrig := PrecondNorm(minv, Residual(A, b, x0));
      forall m :: 1 <= m < res.iters ==>
        CgRun(A, b, minv, x0, m).status == Exhausted && CgRun(A, b, minv, x0, m).iters == m &&
        PrecondNorm(minv, Residual(A, b, CgRun(A, b, minv, x0, m).x)) / rsOrig >= Tolerance
  {
    var s := CgStart(A, b, minv, x0);
    forall m | 1 <= m < CgRun(A, b, minv, x0, numIters).iters
      ensures CgRun(A, b, minv, x0, m).status == Exhausted && CgRun(A, b, minv, x0, m).iters == m &&
        PrecondNorm(minv, Residual(A, b, CgRun(A, b, minv, x0, m).x)) / s.rsold >= Tolerance
    {
      NoEarlierStop(A, b, minv, s, s.rsold, 0, numIters, m);
      CgIterateBounds(A, b, minv, s, s.rsold, 0, m);
      CgIterateStopRule(A, b, minv, s, s.rsold, 0, m);
    }
  }

  /** The CG loop of conj_optim, from the warm start x0. */
  method PreconditionedCg(A: Matrix, b: Vector, minv: Matrix, x0: Vector, numIters: nat) returns (res: CgResult)
    requires Shapes(A, b, minv) && |x0| == |b|
    ensures res == CgRun(A, b, minv, x0, numIters)
  {
    var x := x0;
    var r := AddScaled(b, -1.0, MatVec(A, x));
    var z := MatVec(minv, r);
    var p := z;
    var rsold := Dot(r, z);
    var rsOrig := rsold;
    var k := 0;
    while k < numIters
      invariant 0 <= k <= numIters
      invariant |x| == |r| == |p| == |b|
      invariant rsOrig != 0.0 ==> rsold != 0.0
      invariant CgIterate(A, b, minv, CgState(x, r, p, rsold), rsOrig, k, numIters) == CgRun(A, b, minv, x0, numIters)
    {
      var Ap := MatVec(A, p);
      var pAp := Dot(p, Ap);
      if pAp == 0.0 {
        return CgResult(x, k, Breakdown);
      }
      var alpha := rsold / pAp;
      x := AddScaled(x, alpha, p);
      r := AddScaled(r, -alpha, Ap);
      z := MatVec(minv, r);
      var rsnew := Dot(r, z);
      if rsOrig == 0.0 {
        return CgResult(x, k + 1, Breakdown);
      }
      if rsnew / rsOrig < Tolerance {
        return CgResult(x, k + 1, Converged);
      }
      p := AddScaled(z, rsnew / rsold, p);
      rsold := rsnew;
      k := k + 1;
    }
    return CgResult(x, numIters, Exhausted);
  }

  /** An optional argument (Python's None or a value). */
  datatype Option<T> = None | Some(value: T)

  /** What the model assumes of matrix inversion (numpy's linalg.inv): it
      maps an n-by-n matrix to an n-by-n matrix. */
  ghost predicate KeepsShape(inv: Matrix -> Matrix)
  {
    forall m: Matrix {:trigger inv(m)} :: IsSquare(m, |m|) ==> IsSquare(inv(m), |m|)
  }

  /** get_autocorr_preconditioner: the inverse of the order-by-order
      Toeplitz matrix of the autocorrelation stats, order == |stats| - 1. */
  function Preconditioner(stats: Vector, inv: Matrix -> Matrix): (minv: Matrix)
    requires 1 <= |stats| && KeepsShape(inv)
    ensures IsSquare(minv, |stats| - 1)
  {
    inv(ToeplitzMatrix(stats, |stats| - 1))
  }

  /** get_autocorr_preconditioner, filling the Toeplitz matrix entry by
      entry before inverting it. */
  method GetAutocorrPreconditioner(stats: Vector, inv: Matrix -> Matrix) returns (minv: Matrix)
    requires 1 <= |stats| && KeepsShape(inv)
    ensures minv == Preconditioner(stats, inv)
  {
    var order := |stats| - 1;
    var t := FillToeplitz(stats, order);
    var m := seq(order, i requires 0 <= i < order reads t => seq(order, j requires 0 <= j < order reads t => t[i, j]));
    var toeplitz := ToeplitzMatrix(stats, order);
    forall i | 0 <= i < order ensures m[i] == toeplitz[i] {
      assert forall j :: 0 <= j < order ==> m[i][j] == toeplitz[i][j];
    }
    assert m == toeplitz;
    minv := inv(m);
  }

  /** A == quad_mat[1:dim, 1:dim]. */
  function QuadBlock(quad: Matrix, dim: nat): (A: Matrix)
    requires IsSquare(quad, |quad|) && 1 <= dim <= |quad|
    ensures IsSquare(A, dim - 1)
  {
    seq(dim - 1, i requires 0 <= i < dim - 1 =>
      seq(dim - 1, j requires 0 <= j < dim - 1 => quad[i + 1][j + 1]))
  }

  /** b == quad_mat[0, 1:dim]. */
  function QuadRow(quad: Matrix, dim: nat): (b: Vector)
    requires IsSquare(quad, |quad|) && 1 <= dim <= |quad|
    ensures |b| == dim - 1
  {
    seq(dim - 1, j requires 0 <= j < dim - 1 => quad[0][j + 1])
  }

  /** The number of leading coefficients conj_optim works on: the whole
      view, or its first order + 1 entries, clamped to the view as a numpy
      slice is. */
  function ActiveSize(dim: nat, order: Option<nat>): (n: nat)
    ensures n <= dim
    ensures order.None? ==> n == dim
  {
    match order
    case None => dim
    case Some(o) => Min(o + 1, dim)
  }

  /** The CG run conj_optim makes on the leading n-by-n block, warm-started
      from the coefficients c[1:n]. */
  function OptimRun(quad: Matrix, stats: Vector, c: Vector, n: nat, numIters: nat, inv: Matrix -> Matrix): CgResult
    requires IsSquare(quad, |quad|) && 1 <= n <= |quad| && n <= |stats| && n <= |c|
    requires KeepsShape(inv)
  {
    CgRun(QuadBlock(quad, n), QuadRow(quad, n), Preconditioner(stats[..n], inv), c[1..n], numIters)
  }

  /** The new c[1:n]: the CG iterate, or the old coefficients when CG
      broke down on a zero divisor. */
  function OptimCoefficients(quad: Matrix, stats: Vector, c: Vector, n: nat, numIters: nat, inv: Matrix -> Matrix): (x: Vector)
    requires IsSquare(quad, |quad|) && 1 <= n <= |quad| && n <= |stats| && n <= |c|
    requires KeepsShape(inv)
    ensures |x| == n - 1
  {
    var res := OptimRun(quad, stats, c, n, numIters, inv);
    if res.status == Breakdown then c[1..n] else res.x
  }

  /** The body of conj_optim once the view is exactly the active block:
      CG on A x == b from x == c[1:dim], written back to c[1:dim]. */
  method OptimizeBlock(coeffs: array<real>, quad: array2<real>, stats: Vector, dim: nat, numIters: nat, inv: Matrix -> Matrix)
    requires 1 <= dim <= coeffs.Length == quad.Length0 == quad.Length1 == |stats|
    requires KeepsShape(inv)
    modifies coeffs
    ensures coeffs[0] == old(coeffs[0])
    ensures forall k :: dim <= k < coeffs.Length ==> coeffs[k] == old(coeffs[k])
    ensures coeffs[1..dim] == OptimCoefficients(Cells(quad), stats, old(coeffs[..]), dim, numIters, inv)
  {
    var b := QuadRow(Cells(quad), dim);
    var A := QuadBlock(Cells(quad), dim);
    var x := coeffs[1..dim];
    var minv := GetAutocorrPreconditioner(stats[..dim], inv);
    var res := PreconditionedCg(A, b, minv, x, numIters);
    assert res == OptimRun(Cells(quad), stats, old(coeffs[..]), dim, numIters, inv);
    if res.status != Breakdown {
      forall k | 1 <= k < dim {
        coeffs[k] := res.x[k - 1];
      }
    }
  }

  /** conj_optim on the view of the first dim coefficients, dim-by-dim
      block of quad_mat and first dim stats.  It never writes c[0], writes
      nothing past the active prefix, and puts the CG iterate in
      c[1:active]. */
  method ConjOptim(coeffs: array<real>, quad: array2<real>, stats: Vector, dim: nat, numIters: nat, order: Option<nat>, inv: Matrix -> Matrix)
    requires 1 <= dim <= coeffs.Length == quad.Length0 == quad.Length1 == |stats|
    requires KeepsShape(inv)
    modifies coeffs
    ensures coeffs[0] == old(coeffs[0])
    ensures forall k :: ActiveSize(dim, order) <= k < coeffs.Length ==> coeffs[k] == old(coeffs[k])
    ensures coeffs[1..ActiveSize(dim, order)] == OptimCoefficients(Cells(quad), stats, old(coeffs[..]), ActiveSize(dim, order), numIters, inv)
    decreases order.Some?
  {
    var ord := if order.None? then dim - 1 else order.value;
    if ord != dim - 1 {
      ConjOptim(coeffs, quad, stats, Min(ord + 1, dim), numIters, None, inv);
      return;
    }
    OptimizeBlock(coeffs, quad, stats, dim, numIters, inv);
  }
}
