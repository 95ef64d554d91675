/** Dense vectors and matrices over the reals, as the numpy arrays of the
    prediction engine are used: element-wise "axpy" updates, dot products and
    matrix-vector products, with the linearity facts the solvers rely on. */
module Vectors {

  type Vector = seq<real>
  type Matrix = seq<seq<real>>

  function Abs(k: int): nat
  {
    if k < 0 then -k else k
  }

  function Min(a: int, b: int): int
  {
    if a < b then a else b
  }

  function Max(a: int, b: int): int
  {
    if a < b then b else a
  }

  /** `m` is an n-by-n matrix. */
  ghost predicate IsSquare(m: Matrix, n: nat)
  {
    |m| == n && forall i :: 0 <= i < n ==> |m[i]| == n
  }

  /** The entries of a 2-D array as a matrix value. */
  function Cells(a: array2<real>): (m: Matrix)
    reads a
    ensures |m| == a.Length0 && forall i :: 0 <= i < a.Length0 ==> |m[i]| == a.Length1
  {
    seq(a.Length0, i requires 0 <= i < a.Length0 reads a =>
      seq(a.Length1, j requires 0 <= j < a.Length1 reads a => a[i, j]))
  }

  /** u + c * v, element-wise (numpy's `u + c * v`, `u += c * v`). */
  function AddScaled(u: Vector, c: real, v: Vector): Vector
    requires |u| == |v|
  {
    seq(|u|, i requires 0 <= i < |u| => u[i] + c * v[i])
  }

  /** The vector of n zeros (numpy's `np.zeros(n)`). */
  function Zeros(n: nat): Vector
  {
    seq(n, i => 0.0)
  }

  /** Inner product (numpy's `np.dot` on two vectors). */
  function Dot(u: Vector, v: Vector): real
    requires |u| == |v|
  {
    if |u| == 0 then 0.0 else u[0] * v[0] + Dot(u[1..], v[1..])
  }

  /** Matrix-vector product (numpy's `np.dot(M, v)`). */
  function MatVec(m: Matrix, v: Vector): Vector
    requires forall i :: 0 <= i < |m| ==> |m[i]| == |v|
  {
    seq(|m|, i requires 0 <= i < |m| => Dot(m[i], v))
  }

  /** b - m * x, the residual of the linear system m * x == b. */
  function Residual(m: Matrix, b: Vector, x: Vector): Vector
    requires |b| == |m|
    requires forall i :: 0 <= i < |m| ==> |m[i]| == |x|
  {
    AddScaled(b, -1.0, MatVec(m, x))
  }

  /** The elements of a sequence in the opposite order. */
  function Reverse(v: Vector): (w: Vector)
    ensures |w| == |v|
  {
    if |v| == 0 then [] else [v[|v| - 1]] + Reverse(v[..|v| - 1])
  }

  lemma {:induction false} ReverseAt(v: Vector)
    ensures |Reverse(v)| == |v|
    ensures forall k :: 0 <= k < |v| ==> Reverse(v)[k] == v[|v| - 1 - k]
  {
    if |v| > 0 {
      ReverseAt(v[..|v| - 1]);
    }
  }

  /** The arithmetic of one inductive step of the linearity proofs. */
  lemma LinearStep(a: real, b: real, c: real, p: real, A: real, B: real)
    ensures (a + c * b) * p + (A + c * B) == (a * p + A) + c * (b * p + B)
  {
  }

  /** Dropping the head of u + c * v. */
  lemma AddScaledTail(u: Vector, c: real, v: Vector)
    requires |u| == |v| && 0 < |u|
    ensures AddScaled(u, c, v)[1..] == AddScaled(u[1..], c, v[1..])
  {
    var s := AddScaled(u, c, v);
    forall k | 0 <= k < |u| - 1 ensures s[1..][k] == AddScaled(u[1..], c, v[1..])[k] {
      assert s[1..][k] == s[k + 1];
    }
  }

  /** Dot product is linear in its first argument. */
  lemma {:induction false} DotAddScaled(u: Vector, c: real, v: Vector, w: Vector)
    requires |u| == |v| == |w|
    ensures Dot(AddScaled(u, c, v), w) == Dot(u, w) + c * Dot(v, w)
  {
    if |u| > 0 {
      var s := AddScaled(u, c, v);
      AddScaledTail(u, c, v);
      DotAddScaled(u[1..], c, v[1..], w[1..]);
      var A, B := Dot(u[1..], w[1..]), Dot(v[1..], w[1..]);
      assert Dot(s, w) == (u[0] + c * v[0]) * w[0] + (A + c * B);
      LinearStep(u[0], v[0], c, w[0], A, B);
    }
  }

  lemma {:induction false} DotSymmetric(u: Vector, v: Vector)
    requires |u| == |v|
    ensures Dot(u, v) == Dot(v, u)
  {
    if |u| > 0 {
      DotSymmetric(u[1..], v[1..]);
    }
  }

  /** Dot product is linear in its second argument. */
  lemma {:induction false} DotAddScaledRight(w: Vector, u: Vector, c: real, v: Vector)
    requires |u| == |v| == |w|
    ensures Dot(w, AddScaled(u, c, v)) == Dot(w, u) + c * Dot(w, v)
  {
    var s := AddScaled(u, c, v);
    DotSymmetric(w, s);
    DotAddScaled(u, c, v, w);
    DotSymmetric(u, w);
    DotSymmetric(v, w);
    assert Dot(w, s) == Dot(s, w) == Dot(u, w) + c * Dot(v, w);
  }

  /** Matrix-vector product is linear. */
  lemma {:induction false} MatVecAddScaled(m: Matrix, u: Vector, c: real, v: Vector)
    requires |u| == |v|
    requires forall i :: 0 <= i < |m| ==> |m[i]| == |u|
    ensures MatVec(m, AddScaled(u, c, v)) == AddScaled(MatVec(m, u), c, MatVec(m, v))
  {
    forall i | 0 <= i < |m|
      ensures MatVec(m, AddScaled(u, c, v))[i] == AddScaled(MatVec(m, u), c, MatVec(m, v))[i]
    {
      DotAddScaledRight(m[i], u, c, v);
    }
  }
}
