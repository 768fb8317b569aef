/**
 The two element-wise projections of the online NMF model: the residual
 step `Nmf.__solve_r` (soft thresholding followed by a symmetric clip to
 `v_max`) and the dictionary projection `Nmf.__transform` (clip to
 `[0, v_max]`, then divide every column by the larger of its L2 norm and 1).
 */
module Projections {
  import opened Matrices

  /** A value of `v_max` once it is set: a finite float or `np.inf`. */
  datatype Cap = Finite(bound: real) | Infinite

  /** The caps that occur in practice: `v.max()` of non-negative counts, or `np.inf`. */
  predicate NonNegativeCap(cap: Cap) {
    cap.Finite? ==> cap.bound >= 0.0
  }

  /** `x` lies in `[-v_max, v_max]`. */
  predicate WithinCap(x: real, cap: Cap) {
    cap.Finite? ==> -cap.bound <= x <= cap.bound
  }

  /** Every entry lies in `[0, v_max]`. */
  predicate InBox(M: Matrix, cap: Cap) {
    forall i, j :: 0 <= i < |M| && 0 <= j < |M[i]| ==> 0.0 <= M[i][j] && WithinCap(M[i][j], cap)
  }

  /** Every entry is at least zero. */
  predicate NonNegative(M: Matrix) {
    forall i, j :: 0 <= i < |M| && 0 <= j < |M[i]| ==> 0.0 <= M[i][j]
  }

  function Abs(x: real): real {
    if x < 0.0 then -x else x
  }

  /** `np.sign` */
  function Sign(x: real): real {
    if x > 0.0 then 1.0 else if x < 0.0 then -1.0 else 0.0
  }

  /** `np.maximum` of two scalars */
  function Max(a: real, b: real): real {
    if a >= b then a else b
  }

  function Min(a: real, b: real): real {
    if a <= b then a else b
  }

  /** `np.clip(x, lo, hi)`, which applies the lower bound first and the upper bound second. */
  function Clip(x: real, lo: real, hi: real): real {
    Min(Max(x, lo), hi)
  }

  /** `np.clip(x, -v_max, v_max)`; with `v_max = inf` nothing is cut. */
  function ClipSymmetric(x: real, cap: Cap): real {
    match cap
    case Finite(b) => Clip(x, -b, b)
    case Infinite => x
  }

  /** `np.clip(x, 0, v_max)`; with `v_max = inf` (or `None`) only the lower bound applies. */
  function ClipNonNegative(x: real, cap: Cap): real {
    match cap
    case Finite(b) => Clip(x, 0.0, b)
    case Infinite => Max(x, 0.0)
  }

  // ---------------------------------------------------------------------
  // __solve_r
  // ---------------------------------------------------------------------

  /**
   One entry of `__solve_r(r_actual, lambda_, v_max)`: shrink |x| by `lambda_`
   (`residualPenalty` here; to zero if it would cross zero), restore the sign of x, clip to `v_max`.
   */
  function SolveREntry(x: real, residualPenalty: real, cap: Cap): (y: real)
    ensures Abs(x) > residualPenalty ==> y == ClipSymmetric(Sign(x) * (Abs(x) - residualPenalty), cap)
    ensures NonNegativeCap(cap) && Abs(x) <= residualPenalty ==> y == 0.0
    ensures NonNegativeCap(cap) ==> WithinCap(y, cap)
    ensures NonNegativeCap(cap) ==> (x > 0.0 ==> y >= 0.0) && (x < 0.0 ==> y <= 0.0) && (x == 0.0 ==> y == 0.0)
    ensures NonNegativeCap(cap) && residualPenalty >= 0.0 ==> Abs(y) <= Abs(x)
  {
    var shrunk := Max(Abs(x) - residualPenalty, 0.0);
    assert Abs(x) > residualPenalty ==> shrunk * Sign(x) == Sign(x) * (Abs(x) - residualPenalty);
    assert x == 0.0 ==> shrunk * Sign(x) == 0.0;
    assert x > 0.0 ==> shrunk * Sign(x) == shrunk;
    assert x < 0.0 ==> shrunk * Sign(x) == -shrunk;
    ClipSymmetric(shrunk * Sign(x), cap)
  }

  /** `__solve_r` on a whole matrix. */
  function SolveR(rActual: Matrix, residualPenalty: real, cap: Cap): (res: Matrix)
    ensures SameShape(res, rActual)
    ensures forall i, j :: 0 <= i < |rActual| && 0 <= j < |rActual[i]| ==>
      (Abs(rActual[i][j]) > residualPenalty ==>
         res[i][j] == ClipSymmetric(Sign(rActual[i][j]) * (Abs(rActual[i][j]) - residualPenalty), cap))
    ensures NonNegativeCap(cap) ==> forall i, j :: 0 <= i < |rActual| && 0 <= j < |rActual[i]| ==>
      WithinCap(res[i][j], cap)
      && (Abs(rActual[i][j]) <= residualPenalty ==> res[i][j] == 0.0)
      && (rActual[i][j] >= 0.0 ==> res[i][j] >= 0.0)
      && (rActual[i][j] <= 0.0 ==> res[i][j] <= 0.0)
  {
    MapEntries(rActual, (i, j, x) => SolveREntry(x, residualPenalty, cap))
  }

  // ---------------------------------------------------------------------
  // __transform
  // ---------------------------------------------------------------------

  /** The entry map of `np.clip(W, 0, v_max, out=W)`. */
  function ClipStep(cap: Cap): (nat, nat, real) -> real {
    (i, j, x) => ClipNonNegative(x, cap)
  }

  /** The entry map of `W /= d`, where `d[j]` divides column `j`. */
  function DivideStep(d: seq<real>): (nat, nat, real) -> real {
    (i: nat, j: nat, x: real) => if j < |d| && d[j] != 0.0 then x / d[j] else x
  }

  /** `np.maximum(norm, 1)`: what `__transform` divides a column by. */
  function Divisor(norm: real): (d: real)
    ensures d >= 1.0 && d >= norm
    ensures norm <= 1.0 ==> d == 1.0
  {
    Max(norm, 1.0)
  }

  /** The divisors of the `cols` columns of `C`, given the norm `l2` (`np.linalg.norm(C, axis=0)`). */
  function Divisors(C: Matrix, cols: nat, l2: seq<real> -> real): (d: seq<real>)
    requires IsMatrix(C, |C|, cols)
    ensures |d| == cols && forall j :: 0 <= j < cols ==> d[j] == Divisor(l2(Column(C, j)))
  {
    seq(cols, j requires 0 <= j < cols => Divisor(l2(Column(C, j))))
  }

  lemma DivideByAtLeastOne(x: real, d: real)
    requires 0.0 <= x && 1.0 <= d
    ensures 0.0 <= x / d <= x
  {
    assert (x / d) * d == x;
    assert x / d >= 0.0;
    assert (x / d) * d >= (x / d) * 1.0;
  }

  /**
   What `__transform` leaves in a dictionary `W` with `cols` columns: every
   entry clipped to `[0, v_max]`, then every column divided by
   `max(norm of the clipped column, 1)`. The result stays in `[0, v_max]`.
   */
  function Transformed(W: Matrix, cols: nat, cap: Cap, l2: seq<real> -> real): (T: Matrix)
    requires IsMatrix(W, |W|, cols)
    ensures IsMatrix(T, |W|, cols)
    ensures NonNegativeCap(cap) ==> InBox(T, cap)
  {
    var C := MapEntries(W, ClipStep(cap));
    var d := Divisors(C, cols, l2);
    var T := MapEntries(C, DivideStep(d));
    assert NonNegativeCap(cap) ==> InBox(T, cap) by {
      if NonNegativeCap(cap) {
        forall i, j | 0 <= i < |T| && 0 <= j < |T[i]|
          ensures 0.0 <= T[i][j] && WithinCap(T[i][j], cap)
        {
          DivideByAtLeastOne(C[i][j], d[j]);
        }
      }
    }
    T
  }

  /**
   Column `j` after `__transform` is the clipped column divided by
   `max(its norm, 1)`; a clipped column whose norm is at most 1 is left as it is.
   */
  lemma TransformedColumn(W: Matrix, cols: nat, cap: Cap, l2: seq<real> -> real, j: nat)
    requires IsMatrix(W, |W|, cols) && j < cols
    ensures var C := MapEntries(W, ClipStep(cap));
      Column(Transformed(W, cols, cap, l2), j) == DivAll(Column(C, j), Divisor(l2(Column(C, j))))
    ensures var C := MapEntries(W, ClipStep(cap));
      l2(Column(C, j)) <= 1.0 ==> Column(Transformed(W, cols, cap, l2), j) == Column(C, j)
  {
    var C := MapEntries(W, ClipStep(cap));
    var T := Transformed(W, cols, cap, l2);
    var dj := Divisor(l2(Column(C, j)));
    assert Column(T, j) == DivAll(Column(C, j), dj);
    if l2(Column(C, j)) <= 1.0 {
      assert DivAll(Column(C, j), dj) == Column(C, j);
    }
  }

  lemma SquareAtMostOne(x: real, n: real, d: real)
    requires 0.0 <= n <= d && 1.0 <= d
    requires x * (d * d) == n * n
    ensures x <= 1.0
  {
    assert n * n <= d * d by {
      assert n * n <= n * d;
      assert n * d <= d * d;
    }
    assert (x - 1.0) * (d * d) <= 0.0;
    assert d * d > 0.0;
  }

  /**
   When `l2` is the true Euclidean norm on the clipped column `j`, that column
   has norm at most 1 after `__transform`: columns never grow past unit length.
   */
  lemma TransformedColumnNormAtMostOne(W: Matrix, cols: nat, cap: Cap, l2: seq<real> -> real, j: nat)
    requires IsMatrix(W, |W|, cols) && j < cols
    requires var c := Column(MapEntries(W, ClipStep(cap)), j);
      l2(c) >= 0.0 && l2(c) * l2(c) == SumSq(c)
    ensures SumSq(Column(Transformed(W, cols, cap, l2), j)) <= 1.0
  {
    var c := Column(MapEntries(W, ClipStep(cap)), j);
    var d := Divisor(l2(c));
    TransformedColumn(W, cols, cap, l2, j);
    var n, x := l2(c), SumSq(DivAll(c, d));
    SumSqDivAll(c, d);
    assert x * (d * d) == n * n;
    assert 0.0 <= n <= d && 1.0 <= d;
    SquareAtMostOne(x, n, d);
  }
}
