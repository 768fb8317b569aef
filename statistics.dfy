/**
 The sufficient statistics of the online NMF model. `Nmf.A` and `Nmf.B` are
 Python properties backed by `_A` and `_B`: the getter divides the stored
 matrix by `len(_H)`, the number of chunks seen, and the setter stores its
 argument. `update` writes `self.A += np.dot(h, h.T)`, which reads through
 the getter and writes through the setter, so the stored matrix becomes
 `_A / len(_H) + h.hT` rather than the running sum `_A + h.hT` whose average
 the getter is meant to report. The same holds for `B` with `(v - r).hT`.
 */
module Statistics {
  import opened Matrices

  /** The property getter: the stored matrix divided by the chunk count `n`. */
  function Average(stored: Matrix, n: nat): (avg: Matrix)
    requires n > 0
    ensures SameShape(avg, stored)
    ensures forall i, j :: 0 <= i < |stored| && 0 <= j < |stored[i]| ==> avg[i][j] * (n as real) == stored[i][j]
  {
    DivBy(stored, n as real)
  }

  /**
   What `self.A += contribution` stores in `_A` when `len(_H) == n`: the
   getter's value plus the contribution.
   */
  function AccumulateAsWritten(stored: Matrix, n: nat, contribution: Matrix): (next: Matrix)
    requires n > 0 && SameShape(stored, contribution)
    ensures SameShape(next, stored)
    ensures forall i, j :: 0 <= i < |stored| && 0 <= j < |stored[i]| ==>
      (next[i][j] - contribution[i][j]) * (n as real) == stored[i][j]
  {
    Add(Average(stored, n), contribution)
  }

  /** The stored matrix after chunks contributing `cs`, as written, when `n` chunks came before. */
  function StoredAsWritten(stored: Matrix, n: nat, cs: seq<Matrix>): (last: Matrix)
    requires forall t :: 0 <= t < |cs| ==> SameShape(stored, cs[t])
    ensures SameShape(last, stored)
    decreases |cs|
  {
    if cs == [] then stored
    else
      var next := AccumulateAsWritten(stored, n + 1, cs[0]);
      assert forall t :: 0 <= t < |cs[1..]| ==> SameShape(stored, cs[1..][t]);
      StoredAsWritten(next, n + 1, cs[1..])
  }

  /**
   Updating over `cs1` and then `cs2` is updating over `cs1 + cs2`, with the
   chunk count carried on from `n + |cs1|`.
   */
  lemma {:induction false} StoredAsWrittenAppend(stored: Matrix, n: nat, cs1: seq<Matrix>, cs2: seq<Matrix>)
    requires forall t :: 0 <= t < |cs1| ==> SameShape(stored, cs1[t])
    requires forall t :: 0 <= t < |cs2| ==> SameShape(stored, cs2[t])
    decreases |cs1|
    ensures forall t :: 0 <= t < |cs1 + cs2| ==> SameShape(stored, (cs1 + cs2)[t])
    ensures forall t :: 0 <= t < |cs2| ==> SameShape(StoredAsWritten(stored, n, cs1), cs2[t])
    ensures StoredAsWritten(stored, n, cs1 + cs2)
      == StoredAsWritten(StoredAsWritten(stored, n, cs1), n + |cs1|, cs2)
  {
    var last := StoredAsWritten(stored, n, cs1);
    assert forall t :: 0 <= t < |cs2| ==> SameShape(last, cs2[t]) by {
      forall t | 0 <= t < |cs2| ensures SameShape(last, cs2[t]) {
        assert SameShape(last, stored) && SameShape(stored, cs2[t]);
      }
    }
    if cs1 != [] {
      var next := AccumulateAsWritten(stored, n + 1, cs1[0]);
      assert forall t :: 0 <= t < |cs1[1..]| ==> SameShape(next, cs1[1..][t]);
      assert forall t :: 0 <= t < |cs2| ==> SameShape(next, cs2[t]);
      StoredAsWrittenAppend(next, n + 1, cs1[1..], cs2);
      assert (cs1 + cs2)[1..] == cs1[1..] + cs2;
      assert StoredAsWritten(stored, n, cs1 + cs2) == StoredAsWritten(next, n + 1, cs1[1..] + cs2);
      assert last == StoredAsWritten(next, n + 1, cs1[1..]);
    } else {
      assert cs1 + cs2 == cs2;
    }
  }

  /** One more chunk updates the stored matrix once more, with `len(_H)` one past the chunks before it. */
  lemma {:induction false} StoredAsWrittenSnoc(stored: Matrix, n: nat, cs: seq<Matrix>, c: Matrix)
    requires forall t :: 0 <= t < |cs| ==> SameShape(stored, cs[t])
    requires SameShape(stored, c)
    ensures forall t :: 0 <= t < |cs + [c]| ==> SameShape(stored, (cs + [c])[t])
    ensures SameShape(StoredAsWritten(stored, n, cs), c)
    ensures StoredAsWritten(stored, n, cs + [c])
      == AccumulateAsWritten(StoredAsWritten(stored, n, cs), n + |cs| + 1, c)
  {
    StoredAsWrittenAppend(stored, n, cs, [c]);
    assert [c][1..] == [];
  }

  /** The running sum the getter's division by the chunk count presupposes. */
  function AccumulateSum(stored: Matrix, contribution: Matrix): (next: Matrix)
    requires SameShape(stored, contribution)
    ensures SameShape(next, stored)
    ensures forall i, j :: 0 <= i < |stored| && 0 <= j < |stored[i]| ==>
      next[i][j] - stored[i][j] == contribution[i][j]
  {
    Add(stored, contribution)
  }

  /** The stored matrix after chunks contributing `cs`, with the running-sum update. */
  function StoredSum(stored: Matrix, cs: seq<Matrix>): (last: Matrix)
    requires forall t :: 0 <= t < |cs| ==> SameShape(stored, cs[t])
    ensures SameShape(last, stored)
    decreases |cs|
  {
    if cs == [] then stored
    else
      assert forall t :: 0 <= t < |cs[1..]| ==> SameShape(stored, cs[1..][t]);
      StoredSum(AccumulateSum(stored, cs[0]), cs[1..])
  }

  /** Entry `(i, j)` summed over all contributions. */
  function EntrySum(cs: seq<Matrix>, i: nat, j: nat): real
    requires forall t :: 0 <= t < |cs| ==> i < |cs[t]| && j < |cs[t][i]|
  {
    if cs == [] then 0.0 else cs[0][i][j] + EntrySum(cs[1..], i, j)
  }

  /** With the running-sum update, the stored matrix is the start plus the sum of the contributions. */
  lemma {:induction false} StoredSumIsSum(stored: Matrix, cs: seq<Matrix>, i: nat, j: nat)
    requires forall t :: 0 <= t < |cs| ==> SameShape(stored, cs[t])
    requires i < |stored| && j < |stored[i]|
    decreases |cs|
    ensures SameShape(StoredSum(stored, cs), stored)
    ensures StoredSum(stored, cs)[i][j] == stored[i][j] + EntrySum(cs, i, j)
  {
    if cs != [] {
      var next := AccumulateSum(stored, cs[0]);
      StoredSumIsSum(next, cs[1..], i, j);
    }
  }

  /**
   With the running-sum update started from zeros, the getter reports the
   mean of the per-chunk contributions, which is what the statistics are
   meant to be.
   */
  lemma RunningSumAverageIsMean(zero: Matrix, cs: seq<Matrix>, i: nat, j: nat)
    requires IsZero(zero) && |cs| > 0 && forall t :: 0 <= t < |cs| ==> SameShape(zero, cs[t])
    requires i < |zero| && j < |zero[i]|
    ensures Average(StoredSum(zero, cs), |cs|)[i][j] * (|cs| as real) == EntrySum(cs, i, j)
  {
    StoredSumIsSum(zero, cs, i, j);
  }

  /**
   The getter after an as-written update with `n >= 2` chunks, in terms of
   the getter before it: the earlier chunks keep the weight `(n - 1) / n^2`
   and the new contribution gets `1 / n`, so the history fades by an extra
   factor `1 / n` at every chunk.
   */
  lemma AsWrittenGetterRecurrence(S: Matrix, n: nat, c: Matrix, i: nat, j: nat)
    requires n >= 2 && SameShape(S, c) && i < |S| && j < |S[i]|
    ensures Average(AccumulateAsWritten(S, n, c), n)[i][j] * ((n * n) as real)
      == Average(S, n - 1)[i][j] * ((n - 1) as real) + c[i][j] * (n as real)
  {
    var N := n as real;
    var x := AccumulateAsWritten(S, n, c)[i][j];
    var g := Average(AccumulateAsWritten(S, n, c), n)[i][j];
    var p := Average(S, n - 1)[i][j];
    assert p * ((n - 1) as real) == S[i][j];
    assert (x - c[i][j]) * N == S[i][j];
    assert g * N == x;
    assert g * (N * N) == (g * N) * N;
    assert x * N == (x - c[i][j]) * N + c[i][j] * N;
  }

  /**
   The getter after a running-sum update with `n >= 2` chunks is the
   running mean: the earlier chunks keep the weight `(n - 1) / n` and the
   new contribution gets `1 / n`.
   */
  lemma RunningSumGetterRecurrence(S: Matrix, n: nat, c: Matrix, i: nat, j: nat)
    requires n >= 2 && SameShape(S, c) && i < |S| && j < |S[i]|
    ensures Average(AccumulateSum(S, c), n)[i][j] * (n as real)
      == Average(S, n - 1)[i][j] * ((n - 1) as real) + c[i][j]
  {
    var g := Average(AccumulateSum(S, c), n)[i][j];
    assert g * (n as real) == AccumulateSum(S, c)[i][j];
    assert Average(S, n - 1)[i][j] * ((n - 1) as real) == S[i][j];
  }

  /**
   One as-written update stores the same entry as the running sum exactly
   when it is the first chunk or the entry stored before is zero.
   */
  lemma AsWrittenIsRunningSumOnlyWhen(S: Matrix, n: nat, c: Matrix, i: nat, j: nat)
    requires n > 0 && SameShape(S, c) && i < |S| && j < |S[i]|
    ensures AccumulateAsWritten(S, n, c)[i][j] == AccumulateSum(S, c)[i][j] <==> n == 1 || S[i][j] == 0.0
  {
    var N := n as real;
    var q := Average(S, n)[i][j];
    assert q * N == S[i][j];
    assert AccumulateAsWritten(S, n, c)[i][j] == q + c[i][j];
    assert AccumulateSum(S, c)[i][j] == S[i][j] + c[i][j];
    if n == 1 {
      assert q == q * N;
    } else if q == S[i][j] {
      var d := N - 1.0;
      assert S[i][j] * d == 0.0 && d != 0.0;
      assert S[i][j] == (S[i][j] * d) / d;
    }
  }

  /** A 1 x 1 matrix is determined by its only entry. */
  lemma OneByOne(M: Matrix)
    requires IsMatrix(M, 1, 1)
    ensures M == [[M[0][0]]]
  {
    assert M[0] == [M[0][0]];
  }

  /**
   As written, two chunks that each contribute the 1 x 1 matrix `[[1]]`
   leave `_A == [[1.5]]`, so the getter reports `0.75`, while the mean of the
   contributions (and the running-sum getter) is `1`.
   */

  lemma AsWrittenAverageIsNotMean()
    ensures StoredAsWritten(Zeros(1, 1), 0, [[[1.0]], [[1.0]]]) == [[1.5]]
    ensures Average(StoredAsWritten(Zeros(1, 1), 0, [[[1.0]], [[1.0]]]), 2) == [[0.75]]
    ensures Average(StoredSum(Zeros(1, 1), [[[1.0]], [[1.0]]]), 2) == [[1.0]]
  {
    var one: Matrix := [[1.0]];
    var cs := [one, one];
    assert cs[1..] == [one];
    assert cs[1..][1..] == [];
    var first := AccumulateAsWritten(Zeros(1, 1), 1, one);
    assert first[0][0] == 1.0;
    OneByOne(first);
    var second := AccumulateAsWritten(first, 2, one);
    assert second[0][0] == 1.5;
    OneByOne(second);
    assert StoredAsWritten(Zeros(1, 1), 0, cs) == StoredAsWritten(first, 1, [one]);
    assert StoredAsWritten(first, 1, [one]) == StoredAsWritten(second, 2, []);
    assert StoredAsWritten(Zeros(1, 1), 0, cs) == second;
    var avg := Average(second, 2);
    assert avg[0][0] == 0.75;
    OneByOne(avg);
    var s1 := AccumulateSum(Zeros(1, 1), one);
    assert s1[0][0] == 1.0;
    var s2 := AccumulateSum(s1, one);
    assert s2[0][0] == 2.0;
    assert StoredSum(Zeros(1, 1), cs) == StoredSum(s1, [one]);
    assert StoredSum(s1, [one]) == StoredSum(s2, []);
    assert StoredSum(Zeros(1, 1), cs) == s2;
    var mean := Average(s2, 2);
    assert mean[0][0] == 1.0;
    OneByOne(mean);
  }
}
