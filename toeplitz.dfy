/** Symmetric Toeplitz matrices defined by an autocorrelation vector r:
    T[i, j] == r[|i - j|].  ToeplitzDot is one row of T applied to a vector,
    with the row index allowed to run one place outside the matrix, which is
    how the Levinson recursion writes its reflection sums. */
module Toeplitz {
  import opened Vectors

  /** sum_{k < |v|} r[|d - k|] * v[k]: row d of the Toeplitz matrix of r
      applied to v. */
  function ToeplitzDot(r: Vector, d: int, v: Vector): real
    requires |v| == 0 || (d < |r| && |v| - 1 - d < |r|)
    decreases |v|
  {
    if |v| == 0 then 0.0 else r[Abs(d)] * v[0] + ToeplitzDot(r, d - 1, v[1..])
  }

  /** The n-by-n Toeplitz matrix with T[i, j] == s[|i - j|], as built by
      get_autocorr_preconditioner and by the test matrix of levinson_solve. */
  function ToeplitzMatrix(s: Vector, n: nat): (m: Matrix)
    requires n <= |s|
    ensures IsSquare(m, n)
    ensures forall i, j :: 0 <= i < n && 0 <= j < n ==> m[i][j] == m[j][i]
    ensures forall i :: 0 <= i < n ==> m[i][i] == s[0]
    ensures forall i, j :: 0 <= i < n && 0 <= j < n ==> m[i][j] == s[Abs(i - j)]
  {
    var m := seq(n, i requires 0 <= i < n => seq(n, j requires 0 <= j < n => s[Abs(i - j)]));
    assert forall i, j :: 0 <= i < n && 0 <= j < n ==> m[i][j] == s[Abs(i - j)] == s[Abs(j - i)];
    m
  }

  /** The n-by-n array with T[i, j] == s[|i - j|], filled entry by entry
      (the double loops of get_autocorr_preconditioner and of the direct
      quad_mat build in test_prediction). */
  method FillToeplitz(s: Vector, n: nat) returns (t: array2<real>)
    requires n <= |s|
    ensures fresh(t) && t.Length0 == n && t.Length1 == n
    ensures forall i, j :: 0 <= i < n && 0 <= j < n ==> t[i, j] == s[Abs(i - j)]
  {
    t := new real[n, n];
    for i := 0 to n
      invariant forall i', j :: 0 <= i' < i && 0 <= j < n ==> t[i', j] == s[Abs(i' - j)]
    {
      for j := 0 to n
        invariant forall i', j' :: 0 <= i' < i && 0 <= j' < n ==> t[i', j'] == s[Abs(i' - j')]
        invariant forall j' :: 0 <= j' < j ==> t[i, j'] == s[Abs(i - j')]
      {
        t[i, j] := s[Abs(i - j)];
      }
    }
  }

  /** Appending one element adds one term at the far end of the row. */
  lemma {:induction false} ToeplitzDotSnoc(r: Vector, d: int, v: Vector, e: real)
    requires d < |r| && |v| - d < |r|
    ensures ToeplitzDot(r, d, v + [e]) == ToeplitzDot(r, d, v) + r[Abs(d - |v|)] * e
    decreases |v|
  {
    if |v| > 0 {
      assert (v + [e])[1..] == v[1..] + [e];
      ToeplitzDotSnoc(r, d - 1, v[1..], e);
    }
  }

  /** Zero padding at the end changes nothing. */
  lemma ToeplitzDotPadRight(r: Vector, d: int, v: Vector)
    requires d < |r| && |v| - d < |r|
    ensures ToeplitzDot(r, d, v + [0.0]) == ToeplitzDot(r, d, v)
  {
    ToeplitzDotSnoc(r, d, v, 0.0);
  }

  /** Zero padding at the front shifts the row index by one. */
  lemma ToeplitzDotPadLeft(r: Vector, d: int, v: Vector)
    requires d < |r| && |v| - d < |r|
    ensures ToeplitzDot(r, d, [0.0] + v) == ToeplitzDot(r, d - 1, v)
  {
    assert ([0.0] + v)[1..] == v;
  }

  /** A row of T is linear in the vector it is applied to. */
  lemma {:induction false} ToeplitzDotAddScaled(r: Vector, d: int, u: Vector, c: real, v: Vector)
    requires |u| == |v|
    requires |u| == 0 || (d < |r| && |u| - 1 - d < |r|)
    ensures ToeplitzDot(r, d, AddScaled(u, c, v)) == ToeplitzDot(r, d, u) + c * ToeplitzDot(r, d, v)
    decreases |u|
  {
    if |u| > 0 {
      var s := AddScaled(u, c, v);
      AddScaledTail(u, c, v);
      ToeplitzDotAddScaled(r, d - 1, u[1..], c, v[1..]);
      var A, B := ToeplitzDot(r, d - 1, u[1..]), ToeplitzDot(r, d - 1, v[1..]);
      var p := r[Abs(d)];
      assert ToeplitzDot(r, d, s) == p * (u[0] + c * v[0]) + (A + c * B);
      assert ToeplitzDot(r, d, u) == p * u[0] + A;
      assert ToeplitzDot(r, d, v) == p * v[0] + B;
      LinearStep(u[0], v[0], c, p, A, B);
    }
  }

  /** Applying a row to a reversed vector is applying the mirrored row:
      the symmetry that makes the forward and backward Levinson vectors
      mirror images of each other. */
  lemma {:induction false} ToeplitzDotReverse(r: Vector, d: int, v: Vector)
    requires |v| == 0 || (d < |r| && |v| - 1 - d < |r|)
    ensures ToeplitzDot(r, d, Reverse(v)) == ToeplitzDot(r, |v| - 1 - d, v)
    decreases |v|
  {
    if |v| > 0 {
      var m := |v|;
      var last := v[m - 1];
      var init := v[..m - 1];
      var rv := Reverse(v);
      assert rv[0] == last && rv[1..] == Reverse(init) by {
        assert rv == [last] + Reverse(init);
      }
      assert ToeplitzDot(r, d, rv) == r[Abs(d)] * last + ToeplitzDot(r, d - 1, Reverse(init));
      ToeplitzDotReverse(r, d - 1, init);
      ToeplitzDotLast(r, m - 1 - d, v);
      assert Abs(m - 1 - d - |init|) == Abs(d);
    }
  }

  /** ToeplitzDotSnoc read backwards: the last entry of v splits off. */
  lemma ToeplitzDotLast(r: Vector, d: int, v: Vector)
    requires 0 < |v| && d < |r| && |v| - 1 - d < |r|
    ensures ToeplitzDot(r, d, v) == ToeplitzDot(r, d, v[..|v| - 1]) + r[Abs(d - (|v| - 1))] * v[|v| - 1]
  {
    assert v == v[..|v| - 1] + [v[|v| - 1]];
    ToeplitzDotSnoc(r, d, v[..|v| - 1], v[|v| - 1]);
  }

  /** The rows of ToeplitzMatrix(s, n) are the rows ToeplitzDot computes:
      T * v agrees with ToeplitzDot row by row. */
  lemma ToeplitzMatVec(s: Vector, n: nat, v: Vector)
    requires n <= |s| && |v| == n
    ensures forall i :: 0 <= i < n ==> MatVec(ToeplitzMatrix(s, n), v)[i] == ToeplitzDot(s, i, v)
  {
    var m := ToeplitzMatrix(s, n);
    forall i | 0 <= i < n ensures MatVec(m, v)[i] == ToeplitzDot(s, i, v) {
      RowDot(s, i, v, m[i]);
    }
  }

  lemma {:induction false} RowDot(s: Vector, d: int, v: Vector, row: Vector)
    requires |row| == |v|
    requires |v| == 0 || (d < |s| && |v| - 1 - d < |s|)
    requires forall k :: 0 <= k < |v| ==> row[k] == s[Abs(d - k)]
    ensures Dot(row, v) == ToeplitzDot(s, d, v)
    decreases |v|
  {
    if |v| > 0 {
      RowDot(s, d - 1, v[1..], row[1..]);
    }
  }
}
