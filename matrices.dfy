/** The optional value the model uses for Python's `None`. */
module Wrappers {
  datatype Option<+T> = None | Some(value: T)
}

/**
 Dense real matrices as sequences of rows, with the handful of numpy
 operations the factorisation uses. Entries are mathematical reals: float64
 rounding, infinities and NaN are not modelled.
 */
module Matrices {

  type Matrix = seq<seq<real>>

  /** `M` has numpy shape `(rows, cols)`. */
  predicate IsMatrix(M: Matrix, rows: nat, cols: nat) {
    |M| == rows && forall i :: 0 <= i < rows ==> |M[i]| == cols
  }

  predicate SameShape(X: Matrix, Y: Matrix) {
    |X| == |Y| && forall i :: 0 <= i < |X| ==> |X[i]| == |Y[i]|
  }

  /** Every entry is zero. */
  predicate IsZero(M: Matrix) {
    forall i, j :: 0 <= i < |M| && 0 <= j < |M[i]| ==> M[i][j] == 0.0
  }

  /** `np.zeros((rows, cols))` */
  function Zeros(rows: nat, cols: nat): (Z: Matrix)
    ensures IsMatrix(Z, rows, cols) && IsZero(Z)
  {
    seq(rows, _ => seq(cols, _ => 0.0))
  }

  /** The current contents of a two-dimensional array, row by row. */
  function Rows(a: array2<real>): (M: Matrix)
    reads a
    ensures IsMatrix(M, a.Length0, a.Length1)
  {
    seq(a.Length0, i requires 0 <= i < a.Length0 reads a =>
      seq(a.Length1, j requires 0 <= j < a.Length1 reads a => a[i, j]))
  }

  /** The matrix obtained by applying `f` to every entry together with its position. */
  function MapEntries(M: Matrix, f: (nat, nat, real) -> real): (N: Matrix)
    ensures SameShape(N, M)
    ensures forall i, j :: 0 <= i < |M| && 0 <= j < |M[i]| ==> N[i][j] == f(i, j, M[i][j])
  {
    seq(|M|, i requires 0 <= i < |M| =>
      seq(|M[i]|, j requires 0 <= j < |M[i]| => f(i, j, M[i][j])))
  }

  /** Applies `f` to every entry of `a` in place, row by row. */
  method MapInPlace(a: array2<real>, f: (nat, nat, real) -> real)
    modifies a
    ensures Rows(a) == MapEntries(old(Rows(a)), f)
  {
    ghost var before := Rows(a);
    var i := 0;
    while i < a.Length0
      invariant 0 <= i <= a.Length0
      invariant forall p, q :: 0 <= p < i && 0 <= q < a.Length1 ==> a[p, q] == f(p, q, before[p][q])
      invariant forall p, q :: i <= p < a.Length0 && 0 <= q < a.Length1 ==> a[p, q] == before[p][q]
    {
      var j := 0;
      while j < a.Length1
        invariant 0 <= j <= a.Length1
        invariant forall p, q :: 0 <= p < i && 0 <= q < a.Length1 ==> a[p, q] == f(p, q, before[p][q])
        invariant forall q :: 0 <= q < j ==> a[i, q] == f(i, q, before[i][q])
        invariant forall p, q :: i <= p < a.Length0 && j <= q < a.Length1 ==> a[p, q] == before[p][q]
        invariant forall p, q :: i < p < a.Length0 && 0 <= q < a.Length1 ==> a[p, q] == before[p][q]
      {
        a[i, j] := f(i, j, a[i, j]);
        j := j + 1;
      }
      i := i + 1;
    }
    var after := Rows(a);
    var expected := MapEntries(before, f);
    forall p | 0 <= p < a.Length0 ensures after[p] == expected[p] {
    }
  }

  function Sum(s: seq<real>): real {
    if s == [] then 0.0 else s[0] + Sum(s[1..])
  }

  function SumSq(s: seq<real>): real {
    if s == [] then 0.0 else s[0] * s[0] + SumSq(s[1..])
  }

  function Dot(x: seq<real>, y: seq<real>): real
    requires |x| == |y|
  {
    if x == [] then 0.0 else x[0] * y[0] + Dot(x[1..], y[1..])
  }

  /** Every entry of `s` divided by `d` (numpy's `s / d`). */
  function DivAll(s: seq<real>, d: real): (q: seq<real>)
    requires d != 0.0
    ensures |q| == |s| && forall i :: 0 <= i < |s| ==> q[i] == s[i] / d
  {
    seq(|s|, i requires 0 <= i < |s| => s[i] / d)
  }

  /** Column `j` of `M` (numpy's `M[:, j]`). */
  function Column(M: Matrix, j: nat): (c: seq<real>)
    requires forall i :: 0 <= i < |M| ==> j < |M[i]|
    ensures |c| == |M| && forall i :: 0 <= i < |M| ==> c[i] == M[i][j]
  {
    seq(|M|, i requires 0 <= i < |M| => M[i][j])
  }

  /** `M.T` for a matrix with `cols` columns. */
  function Transpose(M: Matrix, cols: nat): (T: Matrix)
    requires IsMatrix(M, |M|, cols)
    ensures IsMatrix(T, cols, |M|)
    ensures forall i, j :: 0 <= i < cols && 0 <= j < |M| ==> T[i][j] == M[j][i]
  {
    seq(cols, i requires 0 <= i < cols => Column(M, i))
  }

  /** `np.dot(X, Y)`, where `Y` has `cols` columns. */
  function MatMul(X: Matrix, Y: Matrix, cols: nat): (P: Matrix)
    requires IsMatrix(X, |X|, |Y|) && IsMatrix(Y, |Y|, cols)
    ensures IsMatrix(P, |X|, cols)
  {
    seq(|X|, i requires 0 <= i < |X| =>
      seq(cols, j requires 0 <= j < cols => Dot(X[i], Column(Y, j))))
  }

  function Add(X: Matrix, Y: Matrix): (S: Matrix)
    requires SameShape(X, Y)
    ensures SameShape(S, X)
    ensures forall i, j :: 0 <= i < |X| && 0 <= j < |X[i]| ==> S[i][j] == X[i][j] + Y[i][j]
  {
    seq(|X|, i requires 0 <= i < |X| =>
      seq(|X[i]|, j requires 0 <= j < |X[i]| => X[i][j] + Y[i][j]))
  }

  function Sub(X: Matrix, Y: Matrix): (D: Matrix)
    requires SameShape(X, Y)
    ensures SameShape(D, X)
    ensures forall i, j :: 0 <= i < |X| && 0 <= j < |X[i]| ==> D[i][j] == X[i][j] - Y[i][j]
  {
    seq(|X|, i requires 0 <= i < |X| =>
      seq(|X[i]|, j requires 0 <= j < |X[i]| => X[i][j] - Y[i][j]))
  }

  /** `M / d` */
  function DivBy(M: Matrix, d: real): (N: Matrix)
    requires d != 0.0
    ensures SameShape(N, M)
    ensures forall i, j :: 0 <= i < |M| && 0 <= j < |M[i]| ==> N[i][j] == M[i][j] / d
  {
    seq(|M|, i requires 0 <= i < |M| => DivAll(M[i], d))
  }

  /** `np.trace` of a square matrix. */
  function Trace(M: Matrix): real
    requires IsMatrix(M, |M|, |M|)
  {
    TraceFrom(M, 0)
  }

  function TraceFrom(M: Matrix, i: nat): real
    requires IsMatrix(M, |M|, |M|) && i <= |M|
    decreases |M| - i
  {
    if i == |M| then 0.0 else M[i][i] + TraceFrom(M, i + 1)
  }

  /** All entries, row by row (the argument `np.linalg.norm(M, "fro")` takes the L2 norm of). */
  function Flatten(M: Matrix): seq<real> {
    if M == [] then [] else M[0] + Flatten(M[1..])
  }

  /** The largest entry of a non-empty sequence. */
  function MaxOf(s: seq<real>): (m: real)
    requires |s| > 0
    ensures forall i :: 0 <= i < |s| ==> s[i] <= m
    ensures exists i :: 0 <= i < |s| && s[i] == m
  {
    if |s| == 1 then s[0]
    else
      var t := MaxOf(s[1..]);
      assert forall i :: 1 <= i < |s| ==> s[i] == s[1..][i - 1];
      if s[0] >= t then s[0] else t
  }

  /** `M.max()`: the largest entry of a matrix with at least one entry. */
  function MaxEntry(M: Matrix): (m: real)
    requires |M| > 0 && forall i :: 0 <= i < |M| ==> |M[i]| > 0
    ensures forall i, j :: 0 <= i < |M| && 0 <= j < |M[i]| ==> M[i][j] <= m
    ensures exists i, j :: 0 <= i < |M| && 0 <= j < |M[i]| && M[i][j] == m
  {
    var rowMax := seq(|M|, i requires 0 <= i < |M| => MaxOf(M[i]));
    var m := MaxOf(rowMax);
    assert forall i, j :: 0 <= i < |M| && 0 <= j < |M[i]| ==> M[i][j] <= rowMax[i];
    var i :| 0 <= i < |M| && rowMax[i] == m;
    var j :| 0 <= j < |M[i]| && M[i][j] == MaxOf(M[i]);
    m
  }

  /** A sequence of zeros sums to zero. */
  lemma {:induction false} SumOfZeros(s: seq<real>)
    ensures (forall i :: 0 <= i < |s| ==> s[i] == 0.0) ==> Sum(s) == 0.0
  {
    if s != [] {
      SumOfZeros(s[1..]);
      assert forall i :: 0 <= i < |s[1..]| ==> s[1..][i] == s[i + 1];
    }
  }

  /** Scaling every entry divides the sum by the same amount. */
  lemma {:induction false} SumDivAll(s: seq<real>, d: real)
    requires d != 0.0
    ensures Sum(DivAll(s, d)) == Sum(s) / d
  {
    if s != [] {
      assert DivAll(s, d)[1..] == DivAll(s[1..], d);
      SumDivAll(s[1..], d);
    }
  }

  /** Dividing every entry by `d` divides the sum of squares by `d*d`
      (stated multiplicatively). */
  lemma {:induction false} SumSqDivAll(s: seq<real>, d: real)
    requires d != 0.0
    ensures SumSq(DivAll(s, d)) * (d * d) == SumSq(s)
  {
    if s != [] {
      var q, x := DivAll(s, d), s[0] / d;
      assert q[1..] == DivAll(s[1..], d);
      SumSqDivAll(s[1..], d);
      var rest, dd := SumSq(q[1..]), d * d;
      assert rest * dd == SumSq(s[1..]);
      assert x * d == s[0];
      assert SumSq(q) == x * x + rest;
      assert (x * x) * dd == (x * d) * (x * d);
      assert (x * x + rest) * dd == (x * x) * dd + rest * dd;
    }
  }
}
