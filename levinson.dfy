/** levinson_solve: the generalised Levinson-Trench-Zohar recursion for a
    symmetric Toeplitz system A x = y with A[i, j] == r[|i - j|].

    At order n the recursion keeps a forward vector a and a backward vector b
    of length n + 1 with A_n a == eps * e_0 and A_n b == eps * e_n, and a
    partial solution x with A_n x == y[..n + 1], where A_n is the leading
    (n + 1)-by-(n + 1) block of A.  The work vectors are held as the
    sequences of their active entries (the source keeps them in arrays of
    length N + 1 whose entries past the active prefix are zero). */
module Levinson {
  import opened Vectors
  import opened Toeplitz

  /** The outcome of a solve: the solution, or a leading block of A that is
      singular, exhibited by a vector it maps to zero. */
  datatype Solution = Solved(x: Vector) | Singular(kernel: Vector)

  /** sum_{j < |v|} r[n - j] * v[j]: the sum in xi_n and in lambda_n. */
  function LagDot(r: Vector, n: nat, v: Vector): real
    requires |v| <= n + 1 && n < |r|
  {
    if |v| == 0 then 0.0 else LagDot(r, n, v[..|v| - 1]) + r[n - (|v| - 1)] * v[|v| - 1]
  }

  /** sum_{j = 1 .. |b|} r[j] * b[j - 1]: the sum in nu_n. */
  function NuDot(r: Vector, b: Vector): real
    requires |b| < |r|
  {
    if |b| == 0 then 0.0 else NuDot(r, b[..|b| - 1]) + r[|b|] * b[|b| - 1]
  }

  /** A_n a == eps * e_0, with n + 1 == |a|. */
  ghost predicate ForwardInv(r: Vector, a: Vector, eps: real)
    requires |a| <= |r|
  {
    forall i :: 0 <= i < |a| ==> ToeplitzDot(r, i, a) == if i == 0 then eps else 0.0
  }

  /** A_n b == eps * e_n, with n + 1 == |b|. */
  ghost predicate BackwardInv(r: Vector, b: Vector, eps: real)
    requires |b| <= |r|
  {
    forall i :: 0 <= i < |b| ==> ToeplitzDot(r, i, b) == if i == |b| - 1 then eps else 0.0
  }

  /** A_n x == y[..n + 1], with n + 1 == |x|. */
  ghost predicate SolvesPrefix(r: Vector, x: Vector, y: Vector)
    requires |x| <= |r| && |x| <= |y|
  {
    forall i :: 0 <= i < |x| ==> ToeplitzDot(r, i, x) == y[i]
  }

  lemma {:induction false} LagDotIsRow(r: Vector, n: nat, v: Vector)
    requires |v| <= n + 1 && n < |r|
    ensures LagDot(r, n, v) == ToeplitzDot(r, n, v)
  {
    if |v| > 0 {
      var init := v[..|v| - 1];
      LagDotIsRow(r, n, init);
      assert v == init + [v[|v| - 1]];
      ToeplitzDotSnoc(r, n, init, v[|v| - 1]);
    }
  }

  lemma {:induction false} NuDotIsRow(r: Vector, b: Vector)
    requires |b| < |r|
    ensures NuDot(r, b) == ToeplitzDot(r, -1, b)
  {
    if |b| > 0 {
      var init := b[..|b| - 1];
      NuDotIsRow(r, init);
      assert b == init + [b[|b| - 1]];
      ToeplitzDotSnoc(r, -1, init, b[|b| - 1]);
    }
  }

  /** The equality the source leaves as a disabled assertion: when the
      backward vector is the mirror image of the forward one, the two
      reflection sums of eqn 2.6 coincide, so xi_n == nu_n. */
  lemma XiEqualsNu(r: Vector, a: Vector, b: Vector)
    requires 1 <= |a| < |r| && b == Reverse(a)
    ensures LagDot(r, |a|, a) == NuDot(r, b)
  {
    LagDotIsRow(r, |a|, a);
    NuDotIsRow(r, b);
    ToeplitzDotReverse(r, -1, a);
  }

  /** The update of eqn 2.7 keeps the backward vector the mirror image of the
      forward one when the same coefficient is used on both sides. */
  lemma ReverseStep(a: Vector, b: Vector, c: real)
    requires b == Reverse(a)
    ensures AddScaled([0.0] + b, c, a + [0.0]) == Reverse(AddScaled(a + [0.0], c, [0.0] + b))
  {
    var fwd := AddScaled(a + [0.0], c, [0.0] + b);
    var bwd := AddScaled([0.0] + b, c, a + [0.0]);
    ReverseAt(a);
    MirrorCombination(a, b, c);
    ReverseAt(fwd);
    assert forall k :: 0 <= k < |bwd| ==> bwd[k] == Reverse(fwd)[k];
  }

  /** Entry k of the combined backward vector is entry n - k of the
      combined forward vector, when b mirrors a entry by entry. */
  lemma MirrorCombination(a: Vector, b: Vector, c: real)
    requires |b| == |a|
    requires forall i :: 0 <= i < |a| ==> b[i] == a[|a| - 1 - i]
    ensures forall k :: 0 <= k <= |a| ==>
      AddScaled([0.0] + b, c, a + [0.0])[k] == AddScaled(a + [0.0], c, [0.0] + b)[|a| - k]
  {
    var pa, pb := a + [0.0], [0.0] + b;
    forall k | 0 <= k <= |a|
      ensures AddScaled(pb, c, pa)[k] == AddScaled(pa, c, pb)[|a| - k]
    {
      PaddedMirror(a, b, k);
      assert AddScaled(pb, c, pa)[k] == pb[k] + c * pa[k];
      assert AddScaled(pa, c, pb)[|a| - k] == pa[|a| - k] + c * pb[|a| - k];
    }
  }

  /** Entry k of the left-padded mirror is entry n - k of the right-padded
      original. */
  lemma PaddedMirror(a: Vector, b: Vector, k: nat)
    requires |b| == |a| && k <= |a|
    requires forall i :: 0 <= i < |a| ==> b[i] == a[|a| - 1 - i]
    ensures ([0.0] + b)[k] == (a + [0.0])[|a| - k]
    ensures (a + [0.0])[k] == ([0.0] + b)[|a| - k]
  {
    var n := |a|;
    if 0 < k {
      assert ([0.0] + b)[k] == b[k - 1];
    }
    if k < n {
      assert ([0.0] + b)[n - k] == b[n - k - 1];
    }
  }

  /** (-1 / eps) * s: the reflection coefficients xi_n and nu_n of eqn 2.6
      and the value they are computed from. */
  function Reflection(eps: real, s: real): real
    requires eps != 0.0
  {
    (-1.0 / eps) * s
  }

  lemma ReflectionScale(eps: real, s: real)
    requires eps != 0.0
    ensures -eps * Reflection(eps, s) == s
  {
  }

  /** One order of eqns 2.6 to 2.8: from A_{n-1} a == eps e_0 and
      A_{n-1} b == eps e_{n-1}, the new vectors satisfy the same equations
      at order n with eps * (1 - xi * nu). */
  lemma {:induction false} LevinsonStep(r: Vector, a: Vector, b: Vector, eps: real, xi: real, nu: real)
    requires 1 <= |a| == |b| < |r| && eps != 0.0
    requires ForwardInv(r, a, eps) && BackwardInv(r, b, eps)
    requires xi == Reflection(eps, LagDot(r, |a|, a))
    requires nu == Reflection(eps, NuDot(r, b))
    ensures ForwardInv(r, AddScaled(a + [0.0], xi, [0.0] + b), eps * (1.0 - xi * nu))
    ensures BackwardInv(r, AddScaled([0.0] + b, nu, a + [0.0]), eps * (1.0 - xi * nu))
  {
    var n := |a|;
    LagDotIsRow(r, n, a);
    NuDotIsRow(r, b);
    ReflectionScale(eps, LagDot(r, n, a));
    ReflectionScale(eps, NuDot(r, b));
    forall i | 0 <= i <= n
      ensures ToeplitzDot(r, i, AddScaled(a + [0.0], xi, [0.0] + b)) == (if i == 0 then eps * (1.0 - xi * nu) else 0.0)
      ensures ToeplitzDot(r, i, AddScaled([0.0] + b, nu, a + [0.0])) == (if i == n then eps * (1.0 - xi * nu) else 0.0)
    {
      var fa := if i == 0 then eps else if i == n then -eps * xi else 0.0;
      var fb := if i == 0 then -eps * nu else if i == n then eps else 0.0;
      assert ToeplitzDot(r, i, a) == fa;
      assert ToeplitzDot(r, i - 1, b) == fb;
      LevinsonRow(r, a, b, i, xi, nu, fa, fb);
      RowArithmetic(eps, xi, nu, fa, fb, i == 0, i == n);
    }
  }

  /** Row i of the order-n step: padding a on the right keeps its row i,
      padding b on the left shifts its row by one, and the new vectors
      combine the two. */
  lemma {:induction false} LevinsonRow(r: Vector, a: Vector, b: Vector, i: nat, xi: real, nu: real, fa: real, fb: real)
    requires 1 <= |a| == |b| < |r| && i <= |a|
    requires ToeplitzDot(r, i, a) == fa && ToeplitzDot(r, i - 1, b) == fb
    ensures ToeplitzDot(r, i, AddScaled(a + [0.0], xi, [0.0] + b)) == fa + xi * fb
    ensures ToeplitzDot(r, i, AddScaled([0.0] + b, nu, a + [0.0])) == fb + nu * fa
  {
    var pa, pb := a + [0.0], [0.0] + b;
    assert ToeplitzDot(r, i, pa) == fa by {
      ToeplitzDotPadRight(r, i, a);
    }
    assert ToeplitzDot(r, i, pb) == fb by {
      ToeplitzDotPadLeft(r, i, b);
    }
    ToeplitzDotAddScaled(r, i, pa, xi, pb);
    ToeplitzDotAddScaled(r, i, pb, nu, pa);
  }

  /** The arithmetic of eqn 2.8 at the first row, the last row and the
      rows between. */
  lemma RowArithmetic(eps: real, xi: real, nu: real, fa: real, fb: real, first: bool, last: bool)
    requires !(first && last)
    requires fa == if first then eps else if last then -eps * xi else 0.0
    requires fb == if first then -eps * nu else if last then eps else 0.0
    ensures fa + xi * fb == if first then eps * (1.0 - xi * nu) else 0.0
    ensures fb + nu * fa == if last then eps * (1.0 - xi * nu) else 0.0
  {
  }

  /** The unnumbered update below eqn 2.9: adding lambda_n / eps times the
      new backward vector extends the solved prefix by one equation. */
  lemma SolutionStep(r: Vector, y: Vector, x: Vector, b: Vector, eps: real, lambda: real)
    requires |x| + 1 == |b| <= |r| == |y| && eps != 0.0
    requires SolvesPrefix(r, x, y) && BackwardInv(r, b, eps)
    requires lambda == y[|x|] - LagDot(r, |x|, x)
    ensures SolvesPrefix(r, AddScaled(x + [0.0], lambda / eps, b), y)
  {
    var n := |x|;
    LagDotIsRow(r, n, x);
    forall i | 0 <= i <= n
      ensures ToeplitzDot(r, i, AddScaled(x + [0.0], lambda / eps, b)) == y[i]
    {
      ToeplitzDotAddScaled(r, i, x + [0.0], lambda / eps, b);
      ToeplitzDotPadRight(r, i, x);
      if i == n {
        assert (lambda / eps) * eps == lambda;
      }
    }
  }

  /** The state of the reflector recursion at order |a| - 1: the backward
      vector mirrors the forward one, both solve their equations, and the
      forward vector is monic. */
  ghost predicate Reflectors(r: Vector, a: Vector, b: Vector, eps: real)
  {
    1 <= |a| == |b| <= |r| && a[0] == 1.0 && b == Reverse(a) &&
    ForwardInv(r, a, eps) && BackwardInv(r, b, eps)
  }

  /** eqn 2.6 on mirrored vectors: the two reflection coefficients agree. */
  lemma ReflectionsAgree(r: Vector, a: Vector, b: Vector, eps: real, xi: real, nu: real)
    requires 1 <= |a| < |r| && b == Reverse(a) && eps != 0.0
    requires xi == Reflection(eps, LagDot(r, |a|, a))
    requires nu == Reflection(eps, NuDot(r, b))
    ensures xi == nu
  {
    XiEqualsNu(r, a, b);
  }

  /** One order of eqns 2.6 to 2.8 as the source runs it: xi_n == nu_n, and
      the updated vectors are again reflectors, for eps * (1 - xi_n * nu_n). */
  lemma OrderStep(r: Vector, a: Vector, b: Vector, eps: real, xi: real, nu: real)
    requires |a| < |r| && eps != 0.0 && Reflectors(r, a, b, eps)
    requires xi == Reflection(eps, LagDot(r, |a|, a))
    requires nu == Reflection(eps, NuDot(r, b))
    ensures xi == nu
    ensures Reflectors(r, AddScaled(a + [0.0], xi, [0.0] + b), AddScaled([0.0] + b, nu, a + [0.0]), eps * (1.0 - xi * nu))
  {
    ReflectionsAgree(r, a, b, eps, xi, nu);
    var a', b' := AddScaled(a + [0.0], xi, [0.0] + b), AddScaled([0.0] + b, nu, a + [0.0]);
    assert ForwardInv(r, a', eps * (1.0 - xi * nu)) && BackwardInv(r, b', eps * (1.0 - xi * nu)) by {
      LevinsonStep(r, a, b, eps, xi, nu);
    }
    assert b' == Reverse(a') by {
      ReverseStep(a, b, xi);
    }
    assert a'[0] == 1.0;
  }

  /** levinson_solve(autocorr, y).  A solution satisfies every equation of
      A x == y; a failure exhibits a leading block of A that is singular,
      which is exactly when the source would divide by a zero epsilon. */
  method LevinsonSolve(r: Vector, y: Vector) returns (res: Solution)
    requires 1 <= |r| && |y| == |r|
    ensures res.Solved? ==>
      |res.x| == |r| && MatVec(ToeplitzMatrix(r, |r|), res.x) == y
    ensures res.Singular? ==>
      1 <= |res.kernel| <= |r| && res.kernel[0] == 1.0 &&
      MatVec(ToeplitzMatrix(r, |res.kernel|), res.kernel) == Zeros(|res.kernel|)
  {
    var N := |r| - 1;
    var eps := r[0];
    if eps == 0.0 {
      ToeplitzMatVec(r, 1, [1.0]);
      return Singular([1.0]);
    }
    var a, b, x := [1.0], [1.0], [y[0] / eps];
    var n := 1;
    while n <= N
      invariant 1 <= n <= N + 1 && |a| == |x| == n
      invariant eps != 0.0 && Reflectors(r, a, b, eps)
      invariant SolvesPrefix(r, x, y)
    {
      var xi := Reflection(eps, LagDot(r, n, a));
      var nu := Reflection(eps, NuDot(r, b));
      OrderStep(r, a, b, eps, xi, nu);
      a, b := AddScaled(a + [0.0], xi, [0.0] + b), AddScaled([0.0] + b, nu, a + [0.0]);
      eps := eps * (1.0 - xi * nu);
      if eps == 0.0 {
        KernelWitness(r, a);
        return Singular(a);
      }
      var lambda := y[n] - LagDot(r, n, x);
      var x' := AddScaled(x + [0.0], lambda / eps, b);
      assert SolvesPrefix(r, x', y) by {
        SolutionStep(r, y, x, b, eps, lambda);
      }
      x := x';
      n := n + 1;
    }
    ToeplitzMatVec(r, |r|, x);
    return Solved(x);
  }

  lemma KernelWitness(r: Vector, k: Vector)
    requires 1 <= |k| <= |r| && ForwardInv(r, k, 0.0)
    ensures MatVec(ToeplitzMatrix(r, |k|), k) == Zeros(|k|)
  {
    ToeplitzMatVec(r, |k|, k);
  }
}
