/**
 The online non-negative matrix factorisation model `Nmf`: a corpus matrix
 `V` (terms x documents) is approximated chunk by chunk as `W.h + r`, with a
 non-negative dictionary `W` (terms x topics) kept across chunks, per-chunk
 activations `h` (topics x documents) and optional sparse residuals `r`.
 The class keeps `W` as a two-dimensional array that training updates in
 place, and the sufficient statistics, the warm-start `h` and `r`, the
 histories of `h` and `r`, `v_max` and the last dictionary error as fields.
 */
module OnlineNmf {
  import opened Wrappers
  import opened Matrices
  import opened Projections
  import opened Queries
  import opened Statistics
  import opened Iteration

  /** The constructor options the training and query code reads. */
  datatype Config = Config(
    numTopics: nat,
    passes: nat,
    residualPenalty: real, // `lambda_`
    kappa: real,
    minimumProbability: real,
    useR: bool,
    wMaxIter: nat,
    wStopCondition: real,
    hrMaxIter: nat,
    hrStopCondition: real,
    evalEvery: int,
    normalize: bool)

  /**
   The two compiled solvers `_solveproj` calls, `solve_h(h, Wt_v_minus_r, WtW, kappa)`
   and `solve_r(r, r_actual, lambda_, v_max)`. Each overwrites its first
   argument and returns an error term; here each is a function from its
   arguments to the new matrix and the error term.
   */
  datatype Kernels = Kernels(
    solveH: (Matrix, Matrix, Matrix, real) -> (Matrix, real),
    solveR: (Matrix, Matrix, real, Cap) -> (Matrix, real))

  /** An in-place update keeps the shape of the matrix it overwrites. */
  ghost predicate ShapePreserving(kernels: Kernels) {
    (forall h, a, b, kappa :: SameShape(kernels.solveH(h, a, b, kappa).0, h))
    && (forall r, a, residualPenalty, cap :: SameShape(kernels.solveR(r, a, residualPenalty, cap).0, r))
  }

  /** Python truthiness of an optional float: `None` and `0.0` are false. */
  predicate Falsy(e: Option<real>) {
    e.None? || e.value == 0.0
  }

  /** The upper bound `np.clip(W, 0, self.v_max)` applies: none while `v_max` is `None`. */
  function CapOf(vMax: Option<Cap>): Cap {
    if vMax.Some? then vMax.value else Infinite
  }

  /** `M` has at least one entry, so `M.max()` is defined. */
  predicate HasEntries(M: Matrix) {
    |M| > 0 && forall i :: 0 <= i < |M| ==> |M[i]| > 0
  }

  /** The number of columns of a matrix (`M.shape[1]`). */
  function Width(M: Matrix): nat {
    if |M| == 0 then 0 else |M[0]|
  }

  /**
   The value `_solveproj` leaves in `self.v_max`: its `v_max` argument when
   one is given, otherwise the current value, otherwise `v.max()`.
   */
  function ResolveVMax(arg: Option<Cap>, current: Option<Cap>, v: Matrix): (cap: Cap)
    requires arg.None? && current.None? ==> HasEntries(v)
    ensures arg.Some? ==> cap == arg.value
    ensures arg.None? && current.Some? ==> cap == current.value
    ensures arg.None? && current.None? ==>
      cap.Finite?
      && (forall i, j :: 0 <= i < |v| && 0 <= j < |v[i]| ==> v[i][j] <= cap.bound)
      && (exists i, j :: 0 <= i < |v| && 0 <= j < |v[i]| && v[i][j] == cap.bound)
  {
    if arg.Some? then arg.value
    else if current.Some? then current.value
    else Finite(MaxEntry(v))
  }

  /**
   The starting point `_solveproj` uses for `h` or `r`: the given matrix
   when it has the shape `(rows, cols)`, zeros otherwise.
   */
  function WarmStart(x: Option<Matrix>, rows: nat, cols: nat): (y: Matrix)
    ensures IsMatrix(y, rows, cols)
    ensures x.Some? && IsMatrix(x.value, rows, cols) ==> y == x.value
    ensures !(x.Some? && IsMatrix(x.value, rows, cols)) ==> IsZero(y)
  {
    if x.Some? && IsMatrix(x.value, rows, cols) then x.value else Zeros(rows, cols)
  }

  /** A zero matrix of the wanted shape is kept as the starting point. */
  lemma WarmStartKeepsZero(x: Option<Matrix>, rows: nat, cols: nat)
    requires x.Some? ==> IsZero(x.value)
    ensures IsZero(WarmStart(x, rows, cols))
  {
  }

  /** `W.A - B`, the gradient of the dictionary error. */
  function Gradient(Wm: Matrix, Aavg: Matrix, Bavg: Matrix, k: nat): (G: Matrix)
    requires IsMatrix(Wm, |Wm|, k) && IsMatrix(Aavg, k, k) && IsMatrix(Bavg, |Wm|, k)
    ensures IsMatrix(G, |Wm|, k)
  {
    Sub(MatMul(Wm, Aavg, k), Bavg)
  }

  /** The entry map of `W -= eta * G`. */
  function SubtractStep(G: Matrix, eta: real): (nat, nat, real) -> real {
    (i: nat, j: nat, x: real) => if i < |G| && j < |G[i]| then x - eta * G[i][j] else x
  }

  /** The dictionary after one gradient step `W -= eta * (W.A - B)`. */
  function Stepped(Wm: Matrix, Aavg: Matrix, Bavg: Matrix, eta: real, k: nat): (S: Matrix)
    requires IsMatrix(Wm, |Wm|, k) && IsMatrix(Aavg, k, k) && IsMatrix(Bavg, |Wm|, k)
    ensures IsMatrix(S, |Wm|, k)
  {
    MapEntries(Wm, SubtractStep(Gradient(Wm, Aavg, Bavg, k), eta))
  }

  /** Entry `(i, j)` of a gradient step moves against `(W.A - B)[i][j]` by `eta`. */
  lemma SteppedEntry(Wm: Matrix, Aavg: Matrix, Bavg: Matrix, eta: real, k: nat, i: nat, j: nat)
    requires IsMatrix(Wm, |Wm|, k) && IsMatrix(Aavg, k, k) && IsMatrix(Bavg, |Wm|, k)
    requires i < |Wm| && j < k
    ensures Stepped(Wm, Aavg, Bavg, eta, k)[i][j] == Wm[i][j] - eta * (Dot(Wm[i], Column(Aavg, j)) - Bavg[i][j])
  {
  }

  /** `error()` of `_solve_w`: `0.5 * tr(W'.W.A) - tr(W'.B)`. */
  function Loss(Wm: Matrix, Aavg: Matrix, Bavg: Matrix, k: nat): real
    requires IsMatrix(Wm, |Wm|, k) && IsMatrix(Aavg, k, k) && IsMatrix(Bavg, |Wm|, k)
  {
    var Wt := Transpose(Wm, k);
    0.5 * Trace(MatMul(MatMul(Wt, Wm, k), Aavg, k)) - Trace(MatMul(Wt, Bavg, k))
  }

  /**
   One iteration of `_solve_w` on the dictionary `Wm`: a gradient step, then
   `__transform`. The result lies in `[0, v_max]`.
   */
  function WStep(Wm: Matrix, Aavg: Matrix, Bavg: Matrix, eta: real, k: nat, cap: Cap,
                 l2: seq<real> -> real): (next: Matrix)
    requires IsMatrix(Wm, |Wm|, k) && IsMatrix(Aavg, k, k) && IsMatrix(Bavg, |Wm|, k)
    ensures IsMatrix(next, |Wm|, k)
    ensures NonNegativeCap(cap) ==> InBox(next, cap)
  {
    Transformed(Stepped(Wm, Aavg, Bavg, eta, k), k, cap, l2)
  }

  /**
   `WStep` as a function value on dictionaries with `|Bavg|` rows and `k`
   columns (it leaves any other matrix alone): the step the loop of
   `_solve_w` iterates.
   */
  function DictionaryStep(Aavg: Matrix, Bavg: Matrix, eta: real, k: nat, cap: Cap,
                          l2: seq<real> -> real): Matrix -> Matrix
  {
    (Wm: Matrix) =>
      if IsMatrix(Wm, |Bavg|, k) && IsMatrix(Aavg, k, k) && IsMatrix(Bavg, |Bavg|, k)
      then WStep(Wm, Aavg, Bavg, eta, k, cap, l2) else Wm
  }

  /** `Loss` as a function value on dictionaries with `|Bavg|` rows and `k` columns. */
  function DictionaryLoss(Aavg: Matrix, Bavg: Matrix, k: nat): Matrix -> real {
    (Wm: Matrix) =>
      if IsMatrix(Wm, |Bavg|, k) && IsMatrix(Aavg, k, k) && IsMatrix(Bavg, |Bavg|, k)
      then Loss(Wm, Aavg, Bavg, k) else 0.0
  }

  /**
   `step` agrees with `WStep` on every dictionary it applies to. The loop
   of `_solve_w` is proved against such a `step` without looking inside it.
   */
  ghost predicate StepsAs(step: Matrix -> Matrix, Aavg: Matrix, Bavg: Matrix, eta: real, k: nat, cap: Cap,
                          l2: seq<real> -> real)
  {
    forall Wm {:trigger WStep(Wm, Aavg, Bavg, eta, k, cap, l2)} ::
      IsMatrix(Wm, |Bavg|, k) && IsMatrix(Aavg, k, k) && IsMatrix(Bavg, |Bavg|, k) ==>
        step(Wm) == WStep(Wm, Aavg, Bavg, eta, k, cap, l2)
  }

  /** `err` agrees with `Loss` on every dictionary it applies to. */
  ghost predicate LossAs(err: Matrix -> real, Aavg: Matrix, Bavg: Matrix, k: nat) {
    forall Wm {:trigger Loss(Wm, Aavg, Bavg, k)} ::
      IsMatrix(Wm, |Bavg|, k) && IsMatrix(Aavg, k, k) && IsMatrix(Bavg, |Bavg|, k) ==>
        err(Wm) == Loss(Wm, Aavg, Bavg, k)
  }

  lemma DictionaryStepIsWStep(Aavg: Matrix, Bavg: Matrix, eta: real, k: nat, cap: Cap, l2: seq<real> -> real)
    ensures StepsAs(DictionaryStep(Aavg, Bavg, eta, k, cap, l2), Aavg, Bavg, eta, k, cap, l2)
  {
  }

  lemma DictionaryLossIsLoss(Aavg: Matrix, Bavg: Matrix, k: nat)
    ensures LossAs(DictionaryLoss(Aavg, Bavg, k), Aavg, Bavg, k)
  {
  }

  /**
   Every dictionary the loop of `_solve_w` reaches keeps the shape of the
   first, and after at least one step lies in `[0, v_max]`.
   */
  lemma {:induction false} DictionaryIterates(step: Matrix -> Matrix, W0: Matrix, n: nat, Aavg: Matrix, Bavg: Matrix,
                                              eta: real, k: nat, cap: Cap, l2: seq<real> -> real)
    requires IsMatrix(W0, |Bavg|, k) && IsMatrix(Aavg, k, k) && IsMatrix(Bavg, |Bavg|, k)
    requires StepsAs(step, Aavg, Bavg, eta, k, cap, l2)
    ensures IsMatrix(Iterated(step, W0, n), |Bavg|, k)
    ensures n >= 1 && NonNegativeCap(cap) ==> InBox(Iterated(step, W0, n), cap)
  {
    if n > 0 {
      DictionaryIterates(step, W0, n - 1, Aavg, Bavg, eta, k, cap, l2);
      var prev := Iterated(step, W0, n - 1);
      assert step(prev) == WStep(prev, Aavg, Bavg, eta, k, cap, l2);
    }
  }

  /**
   The stopping test of `_solve_w`: the relative change of the error is
   below `stop`. When `prev` is zero numpy divides by zero and the result
   (an infinity or NaN) never compares below `stop`.
   */
  function RelChangeBelow(e: real, prev: real, stop: real): bool {
    prev != 0.0 && Abs((e - prev) / prev) < stop
  }

  /** `RelChangeBelow` as the test `Iteration` applies to the error held and the new error. */
  function RelChange(stop: real): (real, real) -> bool {
    (prev: real, e: real) => RelChangeBelow(e, prev, stop)
  }

  /** The stopping test compares the change of the error with `stop` times the previous error. */
  lemma RelChangeBelowMeans(e: real, prev: real, stop: real)
    ensures RelChangeBelow(e, prev, stop) ==> prev != 0.0
    ensures prev != 0.0 ==> (RelChangeBelow(e, prev, stop) <==> Abs(e - prev) < stop * Abs(prev))
  {
    if prev != 0.0 {
      var q, a := (e - prev) / prev, Abs(prev);
      assert q * prev == e - prev;
      assert Abs(q) * a == Abs(e - prev);
      assert a > 0.0;
      if Abs(q) < stop {
        assert Abs(q) * a < stop * a;
      } else {
        assert Abs(q) * a >= stop * a;
      }
    }
  }

  /** One iterate of the `h`/`r` loop of `_solveproj`. */
  datatype Iterate = Iterate(h: Matrix, r: Matrix, error: real)

  /** The error term of an iterate, as a function value. */
  function IterateError(): Iterate -> real {
    (it: Iterate) => it.error
  }

  /**
   The stopping test of `_solveproj`: the error held is truthy and the
   absolute change of the error is below `stop`.
   */
  function HrTest(stop: real): (real, real) -> bool {
    (prev: real, e: real) => prev != 0.0 && Abs(prev - e) < stop
  }

  /** Concatenation is associative. */
  lemma AppendAssoc<T>(a: seq<T>, b: seq<T>, c: seq<T>)
    ensures (a + b) + c == a + (b + c)
  {
  }

  /** The chunks `update` feeds to the model in `passes` passes over the corpus `chunks`. */
  function Repeat(chunks: seq<Matrix>, passes: nat): seq<Matrix> {
    if passes == 0 then [] else Repeat(chunks, passes - 1) + chunks
  }

  /** `passes` passes over `chunks` feed `passes * |chunks|` chunks. */
  lemma {:induction false} RepeatLength(chunks: seq<Matrix>, passes: nat)
    ensures |Repeat(chunks, passes)| == passes * |chunks|
  {
    if passes > 0 {
      RepeatLength(chunks, passes - 1);
      assert passes * |chunks| == (passes - 1) * |chunks| + |chunks|;
    }
  }

  /** Fewer passes feed a prefix of the chunks more passes feed. */
  lemma {:induction false} RepeatPrefix(chunks: seq<Matrix>, p: nat, q: nat)
    requires p <= q
    decreases q
    ensures Repeat(chunks, p) <= Repeat(chunks, q)
  {
    if p < q {
      RepeatPrefix(chunks, p, q - 1);
    }
  }

  /**
   `hs` and `rs` have the shapes of the `h` and `r` solved for the first
   `|hs|` chunks of `fed`, with `k` topics and `m` features, and those
   chunks have entries (`v.max()` is defined on them).
   */
  predicate Solved(hs: seq<Matrix>, rs: seq<Matrix>, fed: seq<Matrix>, k: nat, m: nat) {
    |hs| == |rs| <= |fed|
    && forall t :: 0 <= t < |hs| ==>
         IsMatrix(fed[t], m, Width(fed[t])) && HasEntries(fed[t])
         && IsMatrix(hs[t], k, Width(fed[t])) && IsMatrix(rs[t], m, Width(fed[t]))
  }

  /** The `h.hT` every solved chunk adds to `A`. */
  function AContributions(hs: seq<Matrix>, rs: seq<Matrix>, fed: seq<Matrix>, k: nat, m: nat): (cs: seq<Matrix>)
    requires Solved(hs, rs, fed, k, m)
    ensures |cs| == |hs| && forall t :: 0 <= t < |cs| ==> IsMatrix(cs[t], k, k)
  {
    seq(|hs|, t requires 0 <= t < |hs| => MatMul(hs[t], Transpose(hs[t], Width(fed[t])), k))
  }

  /** The `(v - r).hT` every solved chunk adds to `B`. */
  function BContributions(hs: seq<Matrix>, rs: seq<Matrix>, fed: seq<Matrix>, k: nat, m: nat): (cs: seq<Matrix>)
    requires Solved(hs, rs, fed, k, m)
    ensures |cs| == |hs| && forall t :: 0 <= t < |cs| ==> IsMatrix(cs[t], m, k)
  {
    seq(|hs|, t requires 0 <= t < |hs| => MatMul(Sub(fed[t], rs[t]), Transpose(hs[t], Width(fed[t])), k))
  }

  /** The chunks solved for are those of any longer run of the same chunks. */
  lemma {:induction false} SolvedPrefix(hs: seq<Matrix>, rs: seq<Matrix>, fed: seq<Matrix>, fed2: seq<Matrix>, k: nat, m: nat)
    requires Solved(hs, rs, fed, k, m) && fed <= fed2
    ensures Solved(hs, rs, fed2, k, m)
    ensures AContributions(hs, rs, fed, k, m) == AContributions(hs, rs, fed2, k, m)
    ensures BContributions(hs, rs, fed, k, m) == BContributions(hs, rs, fed2, k, m)
  {
    assert forall t :: 0 <= t < |hs| ==> fed[t] == fed2[t];
  }

  /** One more solved chunk keeps `Solved`. */
  lemma {:induction false} SolvedSnoc(hs: seq<Matrix>, rs: seq<Matrix>, fed: seq<Matrix>, k: nat, m: nat, h: Matrix, r: Matrix)
    requires Solved(hs, rs, fed, k, m) && |hs| < |fed|
    requires var v := fed[|hs|]; IsMatrix(v, m, Width(v)) && HasEntries(v) && IsMatrix(h, k, Width(v)) && IsMatrix(r, m, Width(v))
    ensures Solved(hs + [h], rs + [r], fed, k, m)
  {
    forall t | 0 <= t < |hs| + 1
      ensures IsMatrix((hs + [h])[t], k, Width(fed[t])) && IsMatrix((rs + [r])[t], m, Width(fed[t]))
    {
      if t < |hs| {
        assert (hs + [h])[t] == hs[t] && (rs + [r])[t] == rs[t];
      }
    }
  }

  /** The contributions of one more solved chunk are appended to those before it. */
  lemma {:induction false} ContributionsSnoc(hs: seq<Matrix>, rs: seq<Matrix>, fed: seq<Matrix>, k: nat, m: nat, h: Matrix, r: Matrix)
    requires Solved(hs, rs, fed, k, m) && Solved(hs + [h], rs + [r], fed, k, m)
    ensures var v := fed[|hs|];
      AContributions(hs + [h], rs + [r], fed, k, m)
        == AContributions(hs, rs, fed, k, m) + [MatMul(h, Transpose(h, Width(v)), k)]
      && BContributions(hs + [h], rs + [r], fed, k, m)
        == BContributions(hs, rs, fed, k, m) + [MatMul(Sub(v, r), Transpose(h, Width(v)), k)]
  {
    var ca, cb := AContributions(hs + [h], rs + [r], fed, k, m), BContributions(hs + [h], rs + [r], fed, k, m);
    forall t | 0 <= t < |hs|
      ensures ca[t] == AContributions(hs, rs, fed, k, m)[t] && cb[t] == BContributions(hs, rs, fed, k, m)[t]
    {
      assert (hs + [h])[t] == hs[t] && (rs + [r])[t] == rs[t];
    }
  }

  /**
   Recording one more solved chunk `fed[|hs|]` extends the statistics stored
   as written by that chunk's `h.hT` and `(v - r).hT`, with `len(_H)` one
   past the chunks before it: `A1`, `B1` are the statistics after the chunks
   of `hs` from `A0`, `B0` (after `n` chunks), and `A2`, `B2` those after
   the further chunk.
   */
  lemma {:induction false} RecordedChunk(A0: Matrix, B0: Matrix, n: nat, A1: Matrix, B1: Matrix, A2: Matrix, B2: Matrix,
                                         hs: seq<Matrix>, rs: seq<Matrix>, fed: seq<Matrix>,
                                         k: nat, m: nat, h: Matrix, r: Matrix)
    requires Solved(hs, rs, fed, k, m) && |hs| < |fed| && IsMatrix(A0, k, k) && IsMatrix(B0, m, k)
    requires var v := fed[|hs|]; IsMatrix(v, m, Width(v)) && HasEntries(v) && IsMatrix(h, k, Width(v)) && IsMatrix(r, m, Width(v))
    requires A1 == StoredAsWritten(A0, n, AContributions(hs, rs, fed, k, m))
    requires B1 == StoredAsWritten(B0, n, BContributions(hs, rs, fed, k, m))
    requires var v := fed[|hs|];
      A2 == AccumulateAsWritten(A1, n + |hs| + 1, MatMul(h, Transpose(h, Width(v)), k))
      && B2 == AccumulateAsWritten(B1, n + |hs| + 1, MatMul(Sub(v, r), Transpose(h, Width(v)), k))
    ensures Solved(hs + [h], rs + [r], fed, k, m)
    ensures A2 == StoredAsWritten(A0, n, AContributions(hs + [h], rs + [r], fed, k, m))
    ensures B2 == StoredAsWritten(B0, n, BContributions(hs + [h], rs + [r], fed, k, m))
  {
    var v := fed[|hs|];
    SolvedSnoc(hs, rs, fed, k, m, h, r);
    ContributionsSnoc(hs, rs, fed, k, m, h, r);
    var ca, cb := AContributions(hs, rs, fed, k, m), BContributions(hs, rs, fed, k, m);
    var a, b := MatMul(h, Transpose(h, Width(v)), k), MatMul(Sub(v, r), Transpose(h, Width(v)), k);
    StoredAsWrittenSnoc(A0, n, ca, a);
    StoredAsWrittenSnoc(B0, n, cb, b);
  }

  /** A pass's solved chunks follow those of the passes before it. */
  lemma {:induction false} SolvedAppend(hs1: seq<Matrix>, rs1: seq<Matrix>, hs2: seq<Matrix>, rs2: seq<Matrix>,
                     chunks: seq<Matrix>, p: nat, k: nat, m: nat)
    requires Solved(hs1, rs1, Repeat(chunks, p), k, m) && |hs1| == |Repeat(chunks, p)|
    requires Solved(hs2, rs2, chunks, k, m)
    ensures Solved(hs1 + hs2, rs1 + rs2, Repeat(chunks, p + 1), k, m)
  {
    var fed := Repeat(chunks, p + 1);
    assert fed == Repeat(chunks, p) + chunks;
    forall t | 0 <= t < |hs1 + hs2|
      ensures IsMatrix(fed[t], m, Width(fed[t])) && HasEntries(fed[t]) && IsMatrix((hs1 + hs2)[t], k, Width(fed[t]))
           && IsMatrix((rs1 + rs2)[t], m, Width(fed[t]))
    {
      if t < |hs1| {
        assert fed[t] == Repeat(chunks, p)[t] && (hs1 + hs2)[t] == hs1[t] && (rs1 + rs2)[t] == rs1[t];
      } else {
        var u := t - |hs1|;
        assert fed[t] == chunks[u] && (hs1 + hs2)[t] == hs2[u] && (rs1 + rs2)[t] == rs2[u];
      }
    }
  }

  /** The contributions of a pass are appended to those of the passes before it. */
  lemma {:induction false} ContributionsAppend(hs1: seq<Matrix>, rs1: seq<Matrix>, hs2: seq<Matrix>, rs2: seq<Matrix>,
                            chunks: seq<Matrix>, p: nat, k: nat, m: nat)
    requires Solved(hs1, rs1, Repeat(chunks, p), k, m) && |hs1| == |Repeat(chunks, p)|
    requires Solved(hs2, rs2, chunks, k, m) && Solved(hs1 + hs2, rs1 + rs2, Repeat(chunks, p + 1), k, m)
    ensures AContributions(hs1 + hs2, rs1 + rs2, Repeat(chunks, p + 1), k, m)
      == AContributions(hs1, rs1, Repeat(chunks, p), k, m) + AContributions(hs2, rs2, chunks, k, m)
    ensures BContributions(hs1 + hs2, rs1 + rs2, Repeat(chunks, p + 1), k, m)
      == BContributions(hs1, rs1, Repeat(chunks, p), k, m) + BContributions(hs2, rs2, chunks, k, m)
  {
    var fed := Repeat(chunks, p + 1);
    assert fed == Repeat(chunks, p) + chunks;
    var ca, cb := AContributions(hs1 + hs2, rs1 + rs2, fed, k, m), BContributions(hs1 + hs2, rs1 + rs2, fed, k, m);
    var ca1, cb1 := AContributions(hs1, rs1, Repeat(chunks, p), k, m), BContributions(hs1, rs1, Repeat(chunks, p), k, m);
    var ca2, cb2 := AContributions(hs2, rs2, chunks, k, m), BContributions(hs2, rs2, chunks, k, m);
    forall t | 0 <= t < |hs1 + hs2|
      ensures ca[t] == (ca1 + ca2)[t] && cb[t] == (cb1 + cb2)[t]
    {
      if t < |hs1| {
        assert fed[t] == Repeat(chunks, p)[t] && (hs1 + hs2)[t] == hs1[t] && (rs1 + rs2)[t] == rs1[t];
      } else {
        var u := t - |hs1|;
        assert fed[t] == chunks[u] && (hs1 + hs2)[t] == hs2[u] && (rs1 + rs2)[t] == rs2[u];
      }
    }
  }

  /**
   A further pass over `chunks` after `p` full passes extends the statistics
   stored as written by the contributions of that pass: `A1`, `B1` are the
   statistics after the first `p` passes from `A0`, `B0` (after `n` chunks),
   and `A2`, `B2` those after the further pass from `A1`, `B1` (after `n1`
   chunks).
   */
  lemma {:induction false} PassRecorded(A0: Matrix, B0: Matrix, n: nat, A1: Matrix, B1: Matrix, n1: nat, A2: Matrix, B2: Matrix,
                                        hs1: seq<Matrix>, rs1: seq<Matrix>, hs2: seq<Matrix>, rs2: seq<Matrix>,
                                        chunks: seq<Matrix>, p: nat, k: nat, m: nat)
    requires Solved(hs1, rs1, Repeat(chunks, p), k, m) && |hs1| == |Repeat(chunks, p)|
    requires Solved(hs2, rs2, chunks, k, m) && IsMatrix(A0, k, k) && IsMatrix(B0, m, k)
    requires A1 == StoredAsWritten(A0, n, AContributions(hs1, rs1, Repeat(chunks, p), k, m))
    requires B1 == StoredAsWritten(B0, n, BContributions(hs1, rs1, Repeat(chunks, p), k, m))
    requires n1 == n + |hs1|
    requires A2 == StoredAsWritten(A1, n1, AContributions(hs2, rs2, chunks, k, m))
    requires B2 == StoredAsWritten(B1, n1, BContributions(hs2, rs2, chunks, k, m))
    ensures Solved(hs1 + hs2, rs1 + rs2, Repeat(chunks, p + 1), k, m)
    ensures A2 == StoredAsWritten(A0, n, AContributions(hs1 + hs2, rs1 + rs2, Repeat(chunks, p + 1), k, m))
    ensures B2 == StoredAsWritten(B0, n, BContributions(hs1 + hs2, rs1 + rs2, Repeat(chunks, p + 1), k, m))
  {
    SolvedAppend(hs1, rs1, hs2, rs2, chunks, p, k, m);
    ContributionsAppend(hs1, rs1, hs2, rs2, chunks, p, k, m);
    StoredAsWrittenAppend(A0, n, AContributions(hs1, rs1, Repeat(chunks, p), k, m), AContributions(hs2, rs2, chunks, k, m));
    StoredAsWrittenAppend(B0, n, BContributions(hs1, rs1, Repeat(chunks, p), k, m), BContributions(hs2, rs2, chunks, k, m));
  }

  /** The fields of `Nmf` that `update` changes besides `_W` and `_w_error`. */
  datatype Training = Training(
    H: seq<Matrix>,
    R: Option<seq<Matrix>>,
    A: Matrix,
    B: Matrix,
    hPrev: Option<Matrix>,
    rPrev: Option<Matrix>,
    vMax: Option<Cap>)

  /**
   The training state `s` is `s0` after `update` solved `hs` and `rs` for
   the first `|hs|` chunks of `fed`: the chunks' `h` and `r` are appended to
   `_H` and `_R`, the statistics are stored as written from `s0`'s with
   `len(_H)` counting on from `|s0.H|`, the last `h` and `r` are the warm
   start, and `v_max` is resolved on the first chunk.
   */
  predicate Fed(fed: seq<Matrix>, hs: seq<Matrix>, rs: seq<Matrix>, s0: Training, s: Training, k: nat, m: nat) {
    Solved(hs, rs, fed, k, m) && IsMatrix(s0.A, k, k) && IsMatrix(s0.B, m, k)
    && s.H == s0.H + hs
    && s.R == (if s0.R.Some? then Some(s0.R.value + rs) else None)
    && s.A == StoredAsWritten(s0.A, |s0.H|, AContributions(hs, rs, fed, k, m))
    && s.B == StoredAsWritten(s0.B, |s0.H|, BContributions(hs, rs, fed, k, m))
    && s.hPrev == (if hs == [] then s0.hPrev else Some(hs[|hs| - 1]))
    && s.rPrev == (if rs == [] then s0.rPrev else Some(rs[|rs| - 1]))
    && s.vMax == (if hs == [] then s0.vMax else Some(ResolveVMax(s0.vMax, s0.vMax, fed[0])))
  }

  /** Before any chunk, the training state is its start. */
  lemma {:induction false} FedNone(fed: seq<Matrix>, s: Training, k: nat, m: nat)
    requires IsMatrix(s.A, k, k) && IsMatrix(s.B, m, k)
    ensures Fed(fed, [], [], s, s, k, m)
  {
    assert s.H + [] == s.H;
    assert s.R.Some? ==> s.R.value + [] == s.R.value;
  }

  /**
   One more chunk `fed[|hs|]`, whose `h` and `r` are appended, folded into
   the statistics with `len(_H)` counted after the append and kept as the
   warm start, while `v_max` is resolved on it, keeps `Fed`.
   */
  lemma {:induction false} FedSnoc(fed: seq<Matrix>, hs: seq<Matrix>, rs: seq<Matrix>, s0: Training, s1: Training, s2: Training,
                k: nat, m: nat, h: Matrix, r: Matrix)
    requires Fed(fed, hs, rs, s0, s1, k, m) && |hs| < |fed|
    requires var v := fed[|hs|]; IsMatrix(v, m, Width(v)) && HasEntries(v) && IsMatrix(h, k, Width(v)) && IsMatrix(r, m, Width(v))
    requires var v := fed[|hs|];
      s2.H == s1.H + [h]
      && s2.R == (if s1.R.Some? then Some(s1.R.value + [r]) else None)
      && s2.A == AccumulateAsWritten(s1.A, |s2.H|, MatMul(h, Transpose(h, Width(v)), k))
      && s2.B == AccumulateAsWritten(s1.B, |s2.H|, MatMul(Sub(v, r), Transpose(h, Width(v)), k))
      && s2.hPrev == Some(h) && s2.rPrev == Some(r)
      && s2.vMax == Some(ResolveVMax(s1.vMax, s1.vMax, v))
    ensures Fed(fed, hs + [h], rs + [r], s0, s2, k, m)
  {
    assert |s2.H| == |s0.H| + |hs| + 1;
    RecordedChunk(s0.A, s0.B, |s0.H|, s1.A, s1.B, s2.A, s2.B, hs, rs, fed, k, m, h, r);
    AppendAssoc(s0.H, hs, [h]);
    if s0.R.Some? {
      AppendAssoc(s0.R.value, rs, [r]);
    }
  }

  /** A further pass over `chunks` after `p` full passes keeps `Fed` for the chunks of `p + 1` passes. */
  lemma {:induction false} FedPass(chunks: seq<Matrix>, p: nat, hs1: seq<Matrix>, rs1: seq<Matrix>, hs2: seq<Matrix>, rs2: seq<Matrix>,
                s0: Training, s1: Training, s2: Training, k: nat, m: nat)
    requires Fed(Repeat(chunks, p), hs1, rs1, s0, s1, k, m) && |hs1| == |Repeat(chunks, p)|
    requires Fed(chunks, hs2, rs2, s1, s2, k, m)
    ensures Fed(Repeat(chunks, p + 1), hs1 + hs2, rs1 + rs2, s0, s2, k, m)
  {
    assert |s1.H| == |s0.H| + |hs1|;
    PassRecorded(s0.A, s0.B, |s0.H|, s1.A, s1.B, |s1.H|, s2.A, s2.B, hs1, rs1, hs2, rs2, chunks, p, k, m);
    AppendAssoc(s0.H, hs1, hs2);
    if s0.R.Some? {
      AppendAssoc(s0.R.value, rs1, rs2);
    }
    assert Repeat(chunks, p + 1) == Repeat(chunks, p) + chunks;
    if hs1 == [] && hs2 != [] {
      assert Repeat(chunks, p + 1)[0] == chunks[0] by {
        assert Repeat(chunks, p) == [];
      }
    }
    if hs1 != [] {
      assert Repeat(chunks, p + 1)[0] == Repeat(chunks, p)[0];
    }
    if hs2 != [] {
      assert (hs1 + hs2)[|hs1 + hs2| - 1] == hs2[|hs2| - 1];
      assert (rs1 + rs2)[|rs1 + rs2| - 1] == rs2[|rs2| - 1];
    } else {
      assert hs1 + hs2 == hs1 && rs1 + rs2 == rs1;
    }
  }

  /** `Fed` for the chunks of some passes holds for those of any more passes. */
  lemma {:induction false} FedMorePasses(chunks: seq<Matrix>, p: nat, q: nat, hs: seq<Matrix>, rs: seq<Matrix>,
                      s0: Training, s: Training, k: nat, m: nat)
    requires Fed(Repeat(chunks, p), hs, rs, s0, s, k, m) && p <= q
    ensures Fed(Repeat(chunks, q), hs, rs, s0, s, k, m)
  {
    RepeatPrefix(chunks, p, q);
    SolvedPrefix(hs, rs, Repeat(chunks, p), Repeat(chunks, q), k, m);
    if hs != [] {
      assert Repeat(chunks, p)[0] == Repeat(chunks, q)[0];
    }
  }

  /** The errors of outcomes `Update` reports instead of finishing. */
  datatype UpdateError =
    | EmptyCorpus            // `next(iter(corpus))` in `_setup` raises StopIteration
    | NoChunkProcessed       // the final loss report reads `v`, `h`, `r`, which were never bound
    | DegenerateStatistics   // `np.linalg.norm(self.A, "fro")` is zero, so `eta` is infinite, and `w_max_iter > 0` uses it
    | ZeroEvalInterval       // `chunk_idx % self.eval_every` with `eval_every == 0`

  datatype Outcome = Done | Failed(error: UpdateError)

  class Nmf {
    const cfg: Config
    /** `np.linalg.norm` of a vector. */
    const l2: seq<real> -> real

    var nFeatures: Option<nat>
    /** `_W`: terms x topics. */
    var W: array2<real>
    /** `_A` and `_B`, the stored statistics. */
    var A: Matrix
    var B: Matrix
    /** `_H`, the activation of every chunk processed. */
    var H: seq<Matrix>
    /** `_R`, the residual of every chunk processed, when `store_r` is set. */
    var R: Option<seq<Matrix>>
    /** `_h` and `_r`, the warm start of the next chunk. */
    var hPrev: Option<Matrix>
    var rPrev: Option<Matrix>
    var vMax: Option<Cap>
    /** `_w_error`, the last error `_solve_w` accepted. */
    var wError: Option<real>

    predicate Valid()
      reads this`W, this`nFeatures, this`A, this`B, this`H, this`R, this`rPrev
    {
      W.Length1 == cfg.numTopics
      && (nFeatures.None? ==> W.Length0 == 0 && H == [])
      && (nFeatures.Some? ==>
            nFeatures.value > 0 && W.Length0 == nFeatures.value
            && IsMatrix(A, cfg.numTopics, cfg.numTopics)
            && IsMatrix(B, nFeatures.value, cfg.numTopics))
      && (R.Some? ==> |R.value| == |H|)
      && (!cfg.useR ==>
            (rPrev.Some? ==> IsZero(rPrev.value))
            && (R.Some? ==> forall t :: 0 <= t < |R.value| ==> IsZero(R.value[t])))
    }

    /** The getter `self.A`: `_A / len(_H)`. */
    function AverageA(): (a: Matrix)
      reads this`W, this`nFeatures, this`A, this`B, this`H, this`R, this`rPrev
      requires Valid() && |H| > 0
      ensures IsMatrix(a, cfg.numTopics, cfg.numTopics)
    {
      Average(A, |H|)
    }

    /** The getter `self.B`: `_B / len(_H)`. */
    function AverageB(): (b: Matrix)
      reads this`W, this`nFeatures, this`A, this`B, this`H, this`R, this`rPrev
      requires Valid() && |H| > 0
      ensures IsMatrix(b, W.Length0, cfg.numTopics)
    {
      Average(B, |H|)
    }

    /** `np.linalg.norm(M, "fro")`: the norm of all entries. */
    function Frobenius(M: Matrix): real {
      l2(Flatten(M))
    }

    /**
     The step size `kappa / ||A||_F` of `_solve_w`. For a zero `A` numpy
     gives an infinite step; it is used only when `w_max_iter > 0`, where
     `Update` stops instead, so the value `0` taken here is never used.
     */
    function Eta(): real
      reads this`W, this`nFeatures, this`A, this`B, this`H, this`R, this`rPrev
      requires Valid() && |H| > 0
    {
      var norm := Frobenius(AverageA());
      if norm == 0.0 then 0.0 else cfg.kappa / norm
    }

    /** The training state after `__init__`; a corpus passed to it is trained on by `Update`. */
    constructor (config: Config, storeR: bool, vMax0: Option<Cap>, norm: seq<real> -> real)
      ensures Valid() && fresh(W)
      ensures cfg == config && l2 == norm
      ensures nFeatures.None? && H == [] && R == (if storeR then Some([]) else None)
      ensures vMax == vMax0 && wError.None? && hPrev.None? && rPrev.None?
    {
      cfg := config;
      l2 := norm;
      nFeatures := None;
      W := new real[0, config.numTopics];
      A, B := [], [];
      H := [];
      R := if storeR then Some([]) else None;
      hPrev, rPrev := None, None;
      vMax := vMax0;
      wError := None;
    }

    /**
     `_setup`: `numTerms` features, and `W` the absolute value of `draw`, the
     scaled half-normal sample; the statistics start at zero.
     */
    method Setup(numTerms: nat, draw: Matrix)
      requires Valid() && numTerms > 0 && IsMatrix(draw, numTerms, cfg.numTopics)
      modifies this
      ensures Valid() && fresh(W)
      ensures nFeatures == Some(numTerms)
      ensures forall i, j :: 0 <= i < numTerms && 0 <= j < cfg.numTopics ==> W[i, j] == Abs(draw[i][j])
      ensures forall i, j :: 0 <= i < numTerms && 0 <= j < cfg.numTopics ==> W[i, j] >= 0.0
      ensures A == Zeros(cfg.numTopics, cfg.numTopics) && B == Zeros(numTerms, cfg.numTopics)
      ensures hPrev.None? && rPrev.None?
      ensures H == old(H) && R == old(R) && vMax == old(vMax) && wError == old(wError)
    {
      hPrev, rPrev := None, None;
      nFeatures := Some(numTerms);
      W := new real[numTerms, cfg.numTopics]((i, j) requires 0 <= i < numTerms && 0 <= j < cfg.numTopics => Abs(draw[i][j]));
      A := Zeros(cfg.numTopics, cfg.numTopics);
      B := Zeros(numTerms, cfg.numTopics);
    }

    /** `self._W -= eta * (np.dot(self._W, self.A) - self.B)` */
    method GradientStep(eta: real, Aavg: Matrix, Bavg: Matrix)
      requires W.Length1 == cfg.numTopics
      requires IsMatrix(Aavg, cfg.numTopics, cfg.numTopics) && IsMatrix(Bavg, W.Length0, cfg.numTopics)
      modifies W
      ensures Rows(W) == Stepped(old(Rows(W)), Aavg, Bavg, eta, cfg.numTopics)
    {
      var G := Gradient(Rows(W), Aavg, Bavg, cfg.numTopics);
      MapInPlace(W, SubtractStep(G, eta));
    }

    /** `__transform`: clip `W` to `[0, v_max]`, then divide every column by `max(its norm, 1)`. */
    method Transform()
      requires W.Length1 == cfg.numTopics
      modifies W
      ensures Rows(W) == Transformed(old(Rows(W)), cfg.numTopics, CapOf(vMax), l2)
    {
      MapInPlace(W, ClipStep(CapOf(vMax)));
      var d := Divisors(Rows(W), cfg.numTopics, l2);
      MapInPlace(W, DivideStep(d));
    }

    /**
     The body of the loop of `_solve_w` up to the error: a gradient step,
     then `__transform`; `step` is that step as a function value.
     */
    method StepDictionary(eta: real, Aavg: Matrix, Bavg: Matrix, ghost step: Matrix -> Matrix)
      requires W.Length1 == cfg.numTopics
      requires IsMatrix(Aavg, cfg.numTopics, cfg.numTopics) && IsMatrix(Bavg, W.Length0, cfg.numTopics)
      requires StepsAs(step, Aavg, Bavg, eta, cfg.numTopics, CapOf(vMax), l2)
      modifies W
      ensures Rows(W) == step(old(Rows(W)))
    {
      ghost var before := Rows(W);
      GradientStep(eta, Aavg, Bavg);
      Transform();
      assert Rows(W) == WStep(before, Aavg, Bavg, eta, cfg.numTopics, CapOf(vMax), l2);
    }

    /** `error()` of `_solve_w` for the current dictionary; `err` is `Loss` as a function value. */
    method CurrentError(Aavg: Matrix, Bavg: Matrix, ghost err: Matrix -> real) returns (e: real)
      requires W.Length1 == cfg.numTopics
      requires IsMatrix(Aavg, cfg.numTopics, cfg.numTopics) && IsMatrix(Bavg, W.Length0, cfg.numTopics)
      requires LossAs(err, Aavg, Bavg, cfg.numTopics)
      ensures e == err(Rows(W))
    {
      e := Loss(Rows(W), Aavg, Bavg, cfg.numTopics);
    }

    /**
     `_solve_w`: projected gradient steps on `W` until the relative change of
     the error falls below `w_stop_condition` or `w_max_iter` steps are done.
     `step` is the dictionary step with the current statistics, step size and
     `v_max`, and `err` the dictionary error, as function values; `e0` is the
     error `_w_error` holds before the loop (computed first when it is
     falsy); `steps` is the number of steps taken.
     */
    method SolveW() returns (ghost steps: nat, ghost e0: real, ghost step: Matrix -> Matrix, ghost err: Matrix -> real)
      requires Valid() && |H| > 0
      requires Frobenius(AverageA()) != 0.0 || cfg.wMaxIter == 0
      modifies this`wError, W
      ensures Valid()
      ensures StepsAs(step, AverageA(), AverageB(), Eta(), cfg.numTopics, CapOf(vMax), l2)
      ensures LossAs(err, AverageA(), AverageB(), cfg.numTopics)
      ensures e0 == if Falsy(old(wError)) then err(old(Rows(W))) else old(wError).value
      ensures steps == StepsTaken(step, err, RelChange(cfg.wStopCondition), old(Rows(W)), e0, cfg.wMaxIter)
      ensures Rows(W) == Iterated(step, old(Rows(W)), steps)
      ensures wError == Some(HeldError(step, err, RelChange(cfg.wStopCondition), old(Rows(W)), e0, steps))
      ensures cfg.wMaxIter > 0 ==> steps >= 1
      ensures NonNegativeCap(CapOf(vMax)) && steps >= 1 ==> InBox(Rows(W), CapOf(vMax))
    {
      var k := cfg.numTopics;
      ghost var W0 := Rows(W);
      if Falsy(wError) {
        wError := Some(Loss(Rows(W), AverageA(), AverageB(), k));
      }
      e0 := wError.value;
      var Aavg, Bavg := AverageA(), AverageB();
      var eta := Eta();
      DictionaryStepIsWStep(Aavg, Bavg, eta, k, CapOf(vMax), l2);
      DictionaryLossIsLoss(Aavg, Bavg, k);
      step :| StepsAs(step, Aavg, Bavg, eta, k, CapOf(vMax), l2);
      err :| LossAs(err, Aavg, Bavg, k);
      steps := Descend(eta, Aavg, Bavg, step, err);
      DictionaryIterates(step, W0, steps, Aavg, Bavg, eta, k, CapOf(vMax), l2);
      assert Valid() && Aavg == AverageA() && Bavg == AverageB() && eta == Eta();
    }

    /**
     The loop of `_solve_w` with the step size `eta` and the averaged
     statistics `Aavg`, `Bavg`, from the error `_w_error` holds; `step` and
     `err` are the dictionary step and its error as function values.
     */
    method Descend(eta: real, Aavg: Matrix, Bavg: Matrix, ghost step: Matrix -> Matrix, ghost err: Matrix -> real)
      returns (ghost steps: nat)
      requires W.Length1 == cfg.numTopics && wError.Some?
      requires IsMatrix(Aavg, cfg.numTopics, cfg.numTopics) && IsMatrix(Bavg, W.Length0, cfg.numTopics)
      requires StepsAs(step, Aavg, Bavg, eta, cfg.numTopics, CapOf(vMax), l2)
      requires LossAs(err, Aavg, Bavg, cfg.numTopics)
      modifies this`wError, W
      ensures steps == StepsTaken(step, err, RelChange(cfg.wStopCondition), old(Rows(W)), old(wError).value, cfg.wMaxIter)
      ensures Rows(W) == Iterated(step, old(Rows(W)), steps)
      ensures wError == Some(HeldError(step, err, RelChange(cfg.wStopCondition), old(Rows(W)), old(wError).value, steps))
      ensures cfg.wMaxIter > 0 ==> steps >= 1
    {
      ghost var test := RelChange(cfg.wStopCondition);
      ghost var W0 := Rows(W);
      ghost var e0 := wError.value;
      var iter := 0;
      while iter < cfg.wMaxIter
        invariant W.Length1 == cfg.numTopics && IsMatrix(Bavg, W.Length0, cfg.numTopics)
        invariant iter <= cfg.wMaxIter
        invariant StepsFrom(step, err, test, W0, e0, iter, cfg.wMaxIter) == StepsTaken(step, err, test, W0, e0, cfg.wMaxIter)
        invariant Rows(W) == Iterated(step, W0, iter)
        invariant wError == Some(ErrorAt(step, err, W0, e0, iter))
        invariant !StopsAt(step, err, test, W0, e0, iter)
      {
        StepDictionary(eta, Aavg, Bavg, step);
        var e := CurrentError(Aavg, Bavg, err);
        iter := iter + 1;
        if RelChangeBelow(e, wError.value, cfg.wStopCondition) {
          assert StopsAt(step, err, test, W0, e0, iter);
          steps := iter;
          return;
        }
        wError := Some(e);
      }
      steps := iter;
    }

    /**
     One pass of the loop body of `_solveproj` from `(h, r)`: `solve_h` on
     `h` with `W'(v - r)` and `W'W`; when `use_r` is set, `solve_r` on `r`
     with `v - W.h`; the error terms summed and divided by the number of
     features `m`.
     */
    function HrStep(h: Matrix, r: Matrix, v: Matrix, Wm: Matrix, WtW: Matrix, batch: nat,
                    cap: Cap, kernels: Kernels): (next: Iterate)
      requires ShapePreserving(kernels)
      requires |Wm| > 0 && IsMatrix(Wm, |Wm|, cfg.numTopics) && IsMatrix(WtW, cfg.numTopics, cfg.numTopics)
      requires IsMatrix(v, |Wm|, batch) && IsMatrix(h, cfg.numTopics, batch) && IsMatrix(r, |Wm|, batch)
      ensures IsMatrix(next.h, cfg.numTopics, batch) && IsMatrix(next.r, |Wm|, batch)
      ensures next.h == kernels.solveH(h, MatMul(Transpose(Wm, cfg.numTopics), Sub(v, r), batch), WtW, cfg.kappa).0
      ensures !cfg.useR ==> next.r == r
    {
      var m := |Wm| as real;
      var hSolved := kernels.solveH(h, MatMul(Transpose(Wm, cfg.numTopics), Sub(v, r), batch), WtW, cfg.kappa);
      if cfg.useR then
        var rSolved := kernels.solveR(r, Sub(v, MatMul(Wm, hSolved.0, batch)), cfg.residualPenalty, cap);
        Iterate(hSolved.0, rSolved.0, (hSolved.1 + rSolved.1) / m)
      else
        Iterate(hSolved.0, r, hSolved.1 / m)
    }

    /**
     `step` agrees with `HrStep` on every iterate of the right shape. The
     loop of `_solveproj` is proved against such a `step` without looking
     inside it.
     */
    ghost predicate HrStepsAs(step: Iterate -> Iterate, v: Matrix, Wm: Matrix, WtW: Matrix, batch: nat,
                              cap: Cap, kernels: Kernels)
    {
      forall it: Iterate {:trigger HrStep(it.h, it.r, v, Wm, WtW, batch, cap, kernels)} ::
        ShapePreserving(kernels)
        && |Wm| > 0 && IsMatrix(Wm, |Wm|, cfg.numTopics) && IsMatrix(WtW, cfg.numTopics, cfg.numTopics)
        && IsMatrix(v, |Wm|, batch) && IsMatrix(it.h, cfg.numTopics, batch) && IsMatrix(it.r, |Wm|, batch)
        ==> step(it) == HrStep(it.h, it.r, v, Wm, WtW, batch, cap, kernels)
    }

    /** `HrStep` as a function value on iterates of the right shape (others are left alone). */
    ghost function HrStepFunction(v: Matrix, Wm: Matrix, WtW: Matrix, batch: nat, cap: Cap, kernels: Kernels):
      Iterate -> Iterate
    {
      (it: Iterate) =>
        if ShapePreserving(kernels)
           && |Wm| > 0 && IsMatrix(Wm, |Wm|, cfg.numTopics) && IsMatrix(WtW, cfg.numTopics, cfg.numTopics)
           && IsMatrix(v, |Wm|, batch) && IsMatrix(it.h, cfg.numTopics, batch) && IsMatrix(it.r, |Wm|, batch)
        then HrStep(it.h, it.r, v, Wm, WtW, batch, cap, kernels) else it
    }

    lemma HrStepFunctionIsHrStep(v: Matrix, Wm: Matrix, WtW: Matrix, batch: nat, cap: Cap, kernels: Kernels)
      ensures HrStepsAs(HrStepFunction(v, Wm, WtW, batch, cap, kernels), v, Wm, WtW, batch, cap, kernels)
    {
    }

    /** One pass of the loop of `_solveproj` from `cur`, whose `h` and `r` are given. */
    method HrPass(h: Matrix, r: Matrix, v: Matrix, Wm: Matrix, WtW: Matrix, batch: nat, cap: Cap,
                  kernels: Kernels, ghost step: Iterate -> Iterate, ghost cur: Iterate)
      returns (next: Iterate)
      requires ShapePreserving(kernels)
      requires |Wm| > 0 && IsMatrix(Wm, |Wm|, cfg.numTopics) && IsMatrix(WtW, cfg.numTopics, cfg.numTopics)
      requires IsMatrix(v, |Wm|, batch) && IsMatrix(h, cfg.numTopics, batch) && IsMatrix(r, |Wm|, batch)
      requires HrStepsAs(step, v, Wm, WtW, batch, cap, kernels) && cur.h == h && cur.r == r
      ensures next == step(cur)
      ensures IsMatrix(next.h, cfg.numTopics, batch) && IsMatrix(next.r, |Wm|, batch)
      ensures !cfg.useR ==> next.r == r
    {
      next := HrStep(h, r, v, Wm, WtW, batch, cap, kernels);
    }

    /**
     `_solveproj(v, W, h, r, v_max)`: resolve `v_max`, warm-start `h` and `r`
     (zeros when missing or of the wrong shape), and iterate `HrStep` until
     the stopping test holds or `h_r_max_iter` passes are done. `step` is
     `HrStep` as a function value and `steps` the number of passes taken.
     The error held before the first pass is `None`, which is falsy like
     the `0.0` the iteration starts from, so the first pass is never tested.
     */
    method SolveProj(v: Matrix, Wm: Matrix, h0: Option<Matrix>, r0: Option<Matrix>,
                     vMaxArg: Option<Cap>, kernels: Kernels)
      returns (h: Matrix, r: Matrix, ghost steps: nat, ghost step: Iterate -> Iterate)
      requires ShapePreserving(kernels)
      requires |Wm| > 0 && IsMatrix(Wm, |Wm|, cfg.numTopics) && IsMatrix(v, |Wm|, Width(v))
      requires vMaxArg.None? && vMax.None? ==> HasEntries(v)
      modifies this`vMax
      ensures vMax == Some(ResolveVMax(vMaxArg, old(vMax), v))
      ensures HrStepsAs(step, v, Wm, MatMul(Transpose(Wm, cfg.numTopics), Wm, cfg.numTopics), Width(v),
                        vMax.value, kernels)
      ensures var x0 := Iterate(WarmStart(h0, cfg.numTopics, Width(v)), WarmStart(r0, |Wm|, Width(v)), 0.0);
        steps == StepsTaken(step, IterateError(), HrTest(cfg.hrStopCondition), x0, 0.0, cfg.hrMaxIter)
        && h == Iterated(step, x0, steps).h && r == Iterated(step, x0, steps).r
      ensures IsMatrix(h, cfg.numTopics, Width(v)) && IsMatrix(r, |Wm|, Width(v))
      ensures !cfg.useR ==> r == WarmStart(r0, |Wm|, Width(v))
    {
      var k, batch := cfg.numTopics, Width(v);
      var cap := ResolveVMax(vMaxArg, vMax, v);
      vMax := Some(cap);
      var hs := WarmStart(h0, k, batch);
      var rs := WarmStart(r0, |Wm|, batch);
      var WtW := MatMul(Transpose(Wm, k), Wm, k);
      HrStepFunctionIsHrStep(v, Wm, WtW, batch, cap, kernels);
      step :| HrStepsAs(step, v, Wm, WtW, batch, cap, kernels);
      h, r, steps := Project(hs, rs, v, Wm, WtW, batch, cap, kernels, step);
    }

    /**
     The loop of `_solveproj` from the warm start `(h0, r0)`: run `HrStep`
     passes until the absolute change of the error between two passes is
     below `h_r_stop_condition` (the first pass is never tested: the error
     held before it is falsy) or `h_r_max_iter` passes are done.
     */
    method Project(h0: Matrix, r0: Matrix, v: Matrix, Wm: Matrix, WtW: Matrix, batch: nat, cap: Cap,
                   kernels: Kernels, ghost step: Iterate -> Iterate)
      returns (h: Matrix, r: Matrix, ghost steps: nat)
      requires ShapePreserving(kernels)
      requires |Wm| > 0 && IsMatrix(Wm, |Wm|, cfg.numTopics) && IsMatrix(WtW, cfg.numTopics, cfg.numTopics)
      requires IsMatrix(v, |Wm|, batch) && IsMatrix(h0, cfg.numTopics, batch) && IsMatrix(r0, |Wm|, batch)
      requires HrStepsAs(step, v, Wm, WtW, batch, cap, kernels)
      ensures var x0 := Iterate(h0, r0, 0.0);
        steps == StepsTaken(step, IterateError(), HrTest(cfg.hrStopCondition), x0, 0.0, cfg.hrMaxIter)
        && h == Iterated(step, x0, steps).h && r == Iterated(step, x0, steps).r
      ensures IsMatrix(h, cfg.numTopics, batch) && IsMatrix(r, |Wm|, batch)
      ensures !cfg.useR ==> r == r0
    {
      var k := cfg.numTopics;
      h, r := h0, r0;
      ghost var x0 := Iterate(h, r, 0.0);
      ghost var err, test := IterateError(), HrTest(cfg.hrStopCondition);
      var hrError: Option<real> := None;
      var iter := 0;
      while iter < cfg.hrMaxIter
        invariant iter <= cfg.hrMaxIter
        invariant StepsFrom(step, err, test, x0, 0.0, iter, cfg.hrMaxIter) == StepsTaken(step, err, test, x0, 0.0, cfg.hrMaxIter)
        invariant h == Iterated(step, x0, iter).h && r == Iterated(step, x0, iter).r
        invariant IsMatrix(h, k, batch) && IsMatrix(r, |Wm|, batch)
        invariant hrError == if iter == 0 then None else Some(ErrorAt(step, err, x0, 0.0, iter))
        invariant !cfg.useR ==> r == r0
      {
        ghost var cur := Iterated(step, x0, iter);
        var next := HrPass(h, r, v, Wm, WtW, batch, cap, kernels, step, cur);
        h, r := next.h, next.r;
        iter := iter + 1;
        assert next == Iterated(step, x0, iter);
        if Falsy(hrError) {
          hrError := Some(next.error);
          continue;
        }
        if Abs(hrError.value - next.error) < cfg.hrStopCondition {
          assert StopsAt(step, err, test, x0, 0.0, iter);
          steps := iter;
          return;
        }
        hrError := Some(next.error);
      }
      steps := iter;
    }

    /**
     The body of `update`'s inner loop for one chunk `v` (features x
     documents): solve for `h` and `r` from the warm start, record them,
     fold them into the statistics, then run `_solve_w`. `ok` is false when
     the averaged `A` has zero norm and `w_max_iter > 0`, where `_solve_w`
     would step by an infinite `eta`. When `ok`, `wStep` and `wErr` are the
     dictionary step and error `_solve_w` used, `e0` the error it started
     from and `wSteps` the number of steps it took.
     */
    method ProcessChunk(v: Matrix, kernels: Kernels)
      returns (ok: bool, ghost h: Matrix, ghost r: Matrix, ghost wSteps: nat, ghost wStep: Matrix -> Matrix,
               ghost wErr: Matrix -> real, ghost e0: real)
      requires Valid() && nFeatures.Some? && ShapePreserving(kernels)
      requires IsMatrix(v, nFeatures.value, Width(v))
      requires vMax.None? ==> HasEntries(v)
      modifies this, W
      ensures Valid() && W == old(W) && nFeatures == old(nFeatures)
      ensures IsMatrix(h, cfg.numTopics, Width(v)) && IsMatrix(r, nFeatures.value, Width(v))
      ensures hPrev == Some(h) && rPrev == Some(r)
      ensures H == old(H) + [h]
      ensures R == if old(R).Some? then Some(old(R).value + [r]) else None
      ensures A == AccumulateAsWritten(old(A), |H|, MatMul(h, Transpose(h, Width(v)), cfg.numTopics))
      ensures B == AccumulateAsWritten(old(B), |H|, MatMul(Sub(v, r), Transpose(h, Width(v)), cfg.numTopics))
      ensures vMax == Some(ResolveVMax(old(vMax), old(vMax), v))
      ensures !cfg.useR ==> IsZero(r)
      ensures ok <==> Frobenius(AverageA()) != 0.0 || cfg.wMaxIter == 0
      ensures !ok ==> Rows(W) == old(Rows(W)) && wError == old(wError)
      ensures ok ==>
        StepsAs(wStep, AverageA(), AverageB(), Eta(), cfg.numTopics, CapOf(vMax), l2)
        && LossAs(wErr, AverageA(), AverageB(), cfg.numTopics)
        && e0 == (if Falsy(old(wError)) then wErr(old(Rows(W))) else old(wError).value)
        && wSteps == StepsTaken(wStep, wErr, RelChange(cfg.wStopCondition), old(Rows(W)), e0, cfg.wMaxIter)
        && Rows(W) == Iterated(wStep, old(Rows(W)), wSteps)
        && wError == Some(HeldError(wStep, wErr, RelChange(cfg.wStopCondition), old(Rows(W)), e0, wSteps))
      ensures cfg.wMaxIter == 0 ==> Rows(W) == old(Rows(W))
      ensures ok && cfg.wMaxIter > 0 && NonNegativeCap(CapOf(vMax)) ==> InBox(Rows(W), CapOf(vMax))
    {
      ghost var hrSteps, hrStep;
      var hh, rr;
      hh, rr, hrSteps, hrStep := SolveProj(v, Rows(W), hPrev, rPrev, vMax, kernels);
      if !cfg.useR {
        WarmStartKeepsZero(rPrev, nFeatures.value, Width(v));
      }
      Record(v, hh, rr);
      h, r := hh, rr;
      assert Rows(W) == old(Rows(W));
      ok, wSteps, wStep, wErr, e0 := GuardedSolveW();
    }

    /** The fields `update` changes besides `_W` and `_w_error`. */
    function Snapshot(): Training
      reads this`H, this`R, this`A, this`B, this`hPrev, this`rPrev, this`vMax
    {
      Training(H, R, A, B, hPrev, rPrev, vMax)
    }

    /**
     `ProcessChunk` on the chunk `chunks[c]` of a pass, where the pass began
     in the training state `s0` and solved `hs` and `rs` for the `c` chunks
     before it: the chunk's `h` and `r` extend that record.
     */
    method ProcessNext(chunks: seq<Matrix>, c: nat, kernels: Kernels, ghost hs: seq<Matrix>, ghost rs: seq<Matrix>,
                       ghost s0: Training)
      returns (ok: bool, ghost h: Matrix, ghost r: Matrix)
      requires Valid() && nFeatures.Some? && ShapePreserving(kernels)
      requires forall c :: 0 <= c < |chunks| ==>
        IsMatrix(chunks[c], nFeatures.value, Width(chunks[c])) && HasEntries(chunks[c])
      requires Fed(chunks, hs, rs, s0, Snapshot(), cfg.numTopics, nFeatures.value) && c == |hs| < |chunks|
      modifies this, W
      ensures Valid() && W == old(W) && nFeatures == old(nFeatures)
      ensures Fed(chunks, hs + [h], rs + [r], s0, Snapshot(), cfg.numTopics, nFeatures.value)
      ensures ok <==> Frobenius(AverageA()) != 0.0 || cfg.wMaxIter == 0
      ensures cfg.wMaxIter == 0 ==> Rows(W) == old(Rows(W))
      ensures ok && cfg.wMaxIter > 0 && NonNegativeCap(CapOf(vMax)) ==> InBox(Rows(W), CapOf(vMax))
    {
      ghost var s1 := Snapshot();
      ghost var wSteps, wStep, wErr, e0;
      ok, h, r, wSteps, wStep, wErr, e0 := ProcessChunk(chunks[c], kernels);
      FedSnoc(chunks, hs, rs, s0, s1, Snapshot(), cfg.numTopics, nFeatures.value, h, r);
    }

    /**
     The `_solve_w()` call of `update`, with its outcome: `ok` is false when
     the averaged `A` has zero norm and `w_max_iter > 0`, the one case where
     the source would step by an infinite `eta`; otherwise it runs.
     */
    method GuardedSolveW()
      returns (ok: bool, ghost wSteps: nat, ghost wStep: Matrix -> Matrix, ghost wErr: Matrix -> real, ghost e0: real)
      requires Valid() && |H| > 0
      modifies this`wError, W
      ensures Valid()
      ensures ok <==> Frobenius(AverageA()) != 0.0 || cfg.wMaxIter == 0
      ensures !ok ==> Rows(W) == old(Rows(W)) && wError == old(wError)
      ensures ok ==>
        StepsAs(wStep, AverageA(), AverageB(), Eta(), cfg.numTopics, CapOf(vMax), l2)
        && LossAs(wErr, AverageA(), AverageB(), cfg.numTopics)
        && e0 == (if Falsy(old(wError)) then wErr(old(Rows(W))) else old(wError).value)
        && wSteps == StepsTaken(wStep, wErr, RelChange(cfg.wStopCondition), old(Rows(W)), e0, cfg.wMaxIter)
        && Rows(W) == Iterated(wStep, old(Rows(W)), wSteps)
        && wError == Some(HeldError(wStep, wErr, RelChange(cfg.wStopCondition), old(Rows(W)), e0, wSteps))
      ensures cfg.wMaxIter == 0 ==> Rows(W) == old(Rows(W))
      ensures ok && cfg.wMaxIter > 0 && NonNegativeCap(CapOf(vMax)) ==> InBox(Rows(W), CapOf(vMax))
    {
      ok := Frobenius(AverageA()) != 0.0 || cfg.wMaxIter == 0;
      if ok {
        wSteps, e0, wStep, wErr := SolveW();
      } else {
        wSteps, e0, wStep, wErr := 0, 0.0, (Wm: Matrix) => Wm, (Wm: Matrix) => 0.0;
      }
    }

    /**
     The bookkeeping of `update` after `_solveproj`: keep `h` and `r` as the
     next warm start, append them to `_H` and `_R`, then `self.A += h.hT`
     and `self.B += (v - r).hT`. Each `+=` reads through the getter, after
     the append, and stores through the setter, so `_A` becomes
     `_A / len(_H) + h.hT` (`AccumulateAsWritten`), not the running sum.
     */
    method Record(v: Matrix, hh: Matrix, rr: Matrix)
      requires Valid() && nFeatures.Some?
      requires IsMatrix(v, nFeatures.value, Width(v))
      requires IsMatrix(hh, cfg.numTopics, Width(v)) && IsMatrix(rr, nFeatures.value, Width(v))
      requires !cfg.useR ==> IsZero(rr)
      modifies this`hPrev, this`rPrev, this`H, this`R, this`A, this`B
      ensures Valid()
      ensures hPrev == Some(hh) && rPrev == Some(rr)
      ensures H == old(H) + [hh]
      ensures R == if old(R).Some? then Some(old(R).value + [rr]) else None
      ensures A == AccumulateAsWritten(old(A), |H|, MatMul(hh, Transpose(hh, Width(v)), cfg.numTopics))
      ensures B == AccumulateAsWritten(old(B), |H|, MatMul(Sub(v, rr), Transpose(hh, Width(v)), cfg.numTopics))
    {
      var k, batch := cfg.numTopics, Width(v);
      hPrev, rPrev := Some(hh), Some(rr);
      H := H + [hh];
      if R.Some? {
        R := Some(R.value + [rr]);
      }
      A := AccumulateAsWritten(A, |H|, MatMul(hh, Transpose(hh, batch), k));
      B := AccumulateAsWritten(B, |H|, MatMul(Sub(v, rr), Transpose(hh, batch), k));
    }

    /**
     `update(corpus)` on a corpus already split into `chunks`: set the model
     up on first use (with `numTerms` features and the sample `draw`), then
     run `passes` passes over the chunks. `hs` and `rs` are the `h` and `r`
     solved for the chunks processed, in order.
     */
    method Update(chunks: seq<Matrix>, numTerms: nat, draw: Matrix, kernels: Kernels)
      returns (outcome: Outcome, ghost hs: seq<Matrix>, ghost rs: seq<Matrix>)
      requires Valid() && ShapePreserving(kernels)
      requires nFeatures.None? ==> numTerms > 0 && IsMatrix(draw, numTerms, cfg.numTopics)
      requires forall c :: 0 <= c < |chunks| ==>
        IsMatrix(chunks[c], if nFeatures.Some? then nFeatures.value else numTerms, Width(chunks[c]))
        && HasEntries(chunks[c])
      modifies this, W
      ensures Valid()
      ensures old(nFeatures).None? && chunks == [] ==> outcome == Failed(EmptyCorpus) && H == old(H)
      ensures outcome == Failed(EmptyCorpus) ==> hs == [] && Snapshot() == old(Snapshot())
      ensures outcome != Failed(EmptyCorpus) ==> nFeatures.Some?
      ensures outcome != Failed(EmptyCorpus) ==>
        var k, m := cfg.numTopics, nFeatures.value;
        var start := if old(nFeatures).Some? then old(Snapshot())
                     else old(Snapshot()).(A := Zeros(k, k), B := Zeros(m, k), hPrev := None, rPrev := None);
        Fed(Repeat(chunks, cfg.passes), hs, rs, start, Snapshot(), k, m)
      ensures old(nFeatures).Some? ==> nFeatures == old(nFeatures)
      ensures old(nFeatures).None? && chunks != [] ==> nFeatures == Some(numTerms)
      ensures (cfg.passes == 0 || chunks == []) && (old(nFeatures).Some? || chunks != []) ==>
        outcome == Failed(NoChunkProcessed)
      ensures outcome == Failed(NoChunkProcessed) ==> cfg.passes == 0 || chunks == []
      ensures outcome == Done ==>
        |H| == |old(H)| + cfg.passes * |chunks| && cfg.passes > 0 && chunks != []
      ensures outcome == Failed(ZeroEvalInterval) ==> cfg.evalEvery == 0 && |H| == |old(H)| + 1
      ensures outcome == Failed(DegenerateStatistics) ==> |H| > |old(H)| && cfg.wMaxIter > 0
      ensures outcome == Done && cfg.wMaxIter > 0 && NonNegativeCap(CapOf(vMax)) ==> InBox(Rows(W), CapOf(vMax))
      ensures outcome == Done && NonNegativeCap(CapOf(vMax)) && (old(nFeatures).Some? ==> NonNegative(old(Rows(W)))) ==>
        NonNegative(Rows(W))
    {
      hs, rs := [], [];
      if nFeatures.None? {
        if chunks == [] {
          return Failed(EmptyCorpus), hs, rs;
        }
        Setup(numTerms, draw);
      }
      assert old(nFeatures).None? ==> NonNegative(Rows(W));
      outcome, hs, rs := RunPasses(chunks, kernels);
      RepeatLength(chunks, cfg.passes);
      if cfg.passes == 0 || chunks == [] {
        outcome := Failed(NoChunkProcessed);
      }
    }

    /**
     The `passes` passes of `update` over `chunks` on a model already set up.
     `hs` and `rs` are the `h` and `r` solved for the chunks processed, in
     order. A corpus without chunks, or no passes, leaves the model as it is.
     */
    method RunPasses(chunks: seq<Matrix>, kernels: Kernels)
      returns (outcome: Outcome, ghost hs: seq<Matrix>, ghost rs: seq<Matrix>)
      requires Valid() && nFeatures.Some? && ShapePreserving(kernels)
      requires forall c :: 0 <= c < |chunks| ==>
        IsMatrix(chunks[c], nFeatures.value, Width(chunks[c])) && HasEntries(chunks[c])
      modifies this, W
      ensures nFeatures == old(nFeatures) && W == old(W)
      ensures AfterPasses(chunks, cfg.passes, outcome, hs, rs, old(Snapshot()), old(Rows(W)))
    {
      ghost var k, m := cfg.numTopics, nFeatures.value;
      ghost var s0, W0 := Snapshot(), Rows(W);
      FedNone(Repeat(chunks, 0), s0, k, m);
      hs, rs := [], [];
      outcome := Done;
      var pass := 0;
      while pass < cfg.passes && outcome == Done
        invariant nFeatures == old(nFeatures) && W == old(W)
        invariant AfterPasses(chunks, pass, outcome, hs, rs, s0, W0)
        decreases cfg.passes - pass
      {
        outcome, hs, rs := PassNext(chunks, kernels, pass, hs, rs, s0, W0);
        pass := pass + 1;
      }
      if outcome.Failed? {
        FedMorePasses(chunks, pass, cfg.passes, hs, rs, s0, Snapshot(), k, m);
      }
    }

    /**
     The state of `update` after `pass` passes over `chunks` from the
     training state `s0` and the topics `W0`, ending with `outcome`: the
     chunks fed are those of `pass` passes (all of them while `update` goes
     on), `eval_every == 0` stops it on the first chunk, a degenerate `A`
     only arises when `W` is solved for, and `W` stays `W0` when it is not,
     else it lies in the box the cap sets.
     */
    ghost predicate AfterPasses(chunks: seq<Matrix>, pass: nat, outcome: Outcome,
                                hs: seq<Matrix>, rs: seq<Matrix>, s0: Training, W0: Matrix)
      reads this, W
    {
      Valid() && nFeatures.Some? && pass <= cfg.passes
      && Fed(Repeat(chunks, pass), hs, rs, s0, Snapshot(), cfg.numTopics, nFeatures.value)
      && (outcome == Done || outcome == Failed(DegenerateStatistics) || outcome == Failed(ZeroEvalInterval))
      && (pass == 0 || chunks == [] ==> outcome == Done)
      && (outcome == Done ==> |hs| == |Repeat(chunks, pass)|)
      && (outcome == Done && cfg.evalEvery == 0 ==> hs == [])
      && (outcome == Failed(ZeroEvalInterval) ==> cfg.evalEvery == 0 && |hs| == 1)
      && (outcome == Failed(DegenerateStatistics) ==> hs != [] && cfg.wMaxIter > 0)
      && (cfg.wMaxIter == 0 ==> Rows(W) == W0)
      && (outcome == Done && pass > 0 && chunks != [] && cfg.wMaxIter > 0 && NonNegativeCap(CapOf(vMax)) ==>
            InBox(Rows(W), CapOf(vMax)))
    }

    /**
     The pass of `update` after `pass` full passes that fed the chunks of
     `hs` and `rs`: the state after `pass` passes becomes the state after
     `pass + 1`.
     */
    method PassNext(chunks: seq<Matrix>, kernels: Kernels, pass: nat,
                    ghost hs: seq<Matrix>, ghost rs: seq<Matrix>, ghost s0: Training, ghost W0: Matrix)
      returns (outcome: Outcome, ghost hs': seq<Matrix>, ghost rs': seq<Matrix>)
      requires ShapePreserving(kernels) && AfterPasses(chunks, pass, Done, hs, rs, s0, W0) && pass < cfg.passes
      requires forall c :: 0 <= c < |chunks| ==>
        IsMatrix(chunks[c], nFeatures.value, Width(chunks[c])) && HasEntries(chunks[c])
      modifies this, W
      ensures nFeatures == old(nFeatures) && W == old(W)
      ensures AfterPasses(chunks, pass + 1, outcome, hs', rs', s0, W0)
    {
      ghost var s1 := Snapshot();
      ghost var hs2, rs2;
      outcome, hs2, rs2 := Pass(chunks, kernels);
      FedPass(chunks, pass, hs, rs, hs2, rs2, s0, s1, Snapshot(), cfg.numTopics, nFeatures.value);
      hs', rs' := hs + hs2, rs + rs2;
      assert Repeat(chunks, pass + 1) == Repeat(chunks, pass) + chunks;
      assert |H| == |s1.H| + |hs2|;
      assert hs2 == [] ==> hs' == hs;
    }

    /**
     One pass of `update` over the chunks. It stops early with
     `DegenerateStatistics` when a chunk leaves `A` with zero norm, and with
     `ZeroEvalInterval` after the first chunk when `eval_every` is zero
     (`chunk_idx % 0` raises). `hs` and `rs` are the `h` and `r` solved for
     the chunks processed, in order.
     */
    method Pass(chunks: seq<Matrix>, kernels: Kernels)
      returns (outcome: Outcome, ghost hs: seq<Matrix>, ghost rs: seq<Matrix>)
      requires Valid() && nFeatures.Some? && ShapePreserving(kernels)
      requires forall c :: 0 <= c < |chunks| ==>
        IsMatrix(chunks[c], nFeatures.value, Width(chunks[c])) && HasEntries(chunks[c])
      modifies this, W
      ensures Valid() && nFeatures == old(nFeatures) && W == old(W)
      ensures Fed(chunks, hs, rs, old(Snapshot()), Snapshot(), cfg.numTopics, nFeatures.value)
      ensures outcome == Done || outcome == Failed(DegenerateStatistics) || outcome == Failed(ZeroEvalInterval)
      ensures outcome == Done ==> |H| == |old(H)| + |chunks| && (cfg.evalEvery == 0 ==> chunks == [])
      ensures chunks == [] ==> outcome == Done
      ensures outcome == Failed(ZeroEvalInterval) ==> cfg.evalEvery == 0 && |H| == |old(H)| + 1
      ensures outcome == Failed(DegenerateStatistics) ==> |old(H)| < |H| <= |old(H)| + |chunks| && cfg.wMaxIter > 0
      ensures cfg.wMaxIter == 0 ==> Rows(W) == old(Rows(W))
      ensures outcome == Done && chunks != [] && cfg.wMaxIter > 0 && NonNegativeCap(CapOf(vMax)) ==>
        InBox(Rows(W), CapOf(vMax))
    {
      ghost var s0 := Snapshot();
      FedNone(chunks, s0, cfg.numTopics, nFeatures.value);
      hs, rs := [], [];
      outcome := Done;
      var c := 0;
      while c < |chunks| && outcome == Done
        invariant Valid() && nFeatures == old(nFeatures) && W == old(W)
        invariant 0 <= c <= |chunks|
        invariant Fed(chunks, hs, rs, s0, Snapshot(), cfg.numTopics, nFeatures.value) && |hs| == c
        invariant |H| == |old(H)| + c
        invariant outcome == Done || outcome == Failed(DegenerateStatistics) || outcome == Failed(ZeroEvalInterval)
        invariant outcome == Done && cfg.evalEvery == 0 ==> c == 0
        invariant outcome == Failed(ZeroEvalInterval) ==> cfg.evalEvery == 0 && c == 1
        invariant outcome == Failed(DegenerateStatistics) ==> c > 0 && cfg.wMaxIter > 0
        invariant cfg.wMaxIter == 0 ==> Rows(W) == old(Rows(W))
        invariant c > 0 && outcome == Done && cfg.wMaxIter > 0 && NonNegativeCap(CapOf(vMax)) ==>
          InBox(Rows(W), CapOf(vMax))
        decreases |chunks| - c
      {
        var ok;
        ghost var h, r;
        ok, h, r := ProcessNext(chunks, c, kernels, hs, rs, s0);
        hs, rs := hs + [h], rs + [r];
        c := c + 1;
        if !ok {
          outcome := Failed(DegenerateStatistics);
        } else if cfg.evalEvery == 0 {
          outcome := Failed(ZeroEvalInterval);
        }
      }
    }

    /**
     `get_document_topics(bow, minimum_probability)` for the document column
     `v` (features x 1): solve for `h` from zeros with `v_max = inf` (which
     stays in `self.v_max`), then normalise and filter the topic weights.
     */
    method GetDocumentTopics(v: Matrix, minimumProbability: Option<real>, kernels: Kernels)
      returns (topics: Option<seq<(nat, real)>>, h: Matrix, ghost steps: nat, ghost step: Iterate -> Iterate)
      requires Valid() && nFeatures.Some? && ShapePreserving(kernels)
      requires IsMatrix(v, nFeatures.value, 1)
      modifies this`vMax
      ensures vMax == Some(Infinite)
      ensures HrStepsAs(step, v, Rows(W), MatMul(Transpose(Rows(W), cfg.numTopics), Rows(W), cfg.numTopics), 1,
                        Infinite, kernels)
      ensures var x0 := Iterate(Zeros(cfg.numTopics, 1), Zeros(nFeatures.value, 1), 0.0);
        steps == StepsTaken(step, IterateError(), HrTest(cfg.hrStopCondition), x0, 0.0, cfg.hrMaxIter)
        && h == Iterated(step, x0, steps).h
      ensures IsMatrix(h, cfg.numTopics, 1)
      ensures topics == DocumentTopicsOf(Column(h, 0), cfg.normalize, Threshold(minimumProbability, cfg.minimumProbability))
    {
      var r;
      h, r, steps, step := SolveProj(v, Rows(W), None, None, Some(Infinite), kernels);
      topics := DocumentTopicsOf(Column(h, 0), cfg.normalize, Threshold(minimumProbability, cfg.minimumProbability));
    }

    /**
     `get_term_topics(word_id, minimum_probability)`: the topics whose weight
     for the word is at least the threshold, in topic order. A negative
     `word_id` counts from the last row, as numpy indexing does.
     */
    method GetTermTopics(wordId: int, minimumProbability: Option<real>) returns (values: seq<(nat, real)>)
      requires Valid() && -W.Length0 <= wordId < W.Length0
      ensures var row := Rows(W)[if wordId < 0 then W.Length0 + wordId else wordId];
        var t := Threshold(minimumProbability, cfg.minimumProbability);
        IndexedAscending(values, row)
        && (forall k :: 0 <= k < |values| ==> values[k].1 >= t)
        && (forall topic :: 0 <= topic < cfg.numTopics && row[topic] >= t ==> (topic, row[topic]) in values)
    {
      var t := Threshold(minimumProbability, cfg.minimumProbability);
      var word := if wordId < 0 then W.Length0 + wordId else wordId;
      ghost var row := Rows(W)[word];
      values := [];
      var topic := 0;
      while topic < cfg.numTopics
        invariant 0 <= topic <= cfg.numTopics
        invariant IndexedAscending(values, row)
        invariant forall k :: 0 <= k < |values| ==> values[k].0 < topic && values[k].1 >= t
        invariant forall p :: 0 <= p < topic && row[p] >= t ==> (p, row[p]) in values
      {
        var coef := W[word, topic];
        if coef >= t {
          values := values + [(topic, coef)];
        }
        topic := topic + 1;
      }
    }
  }
}
