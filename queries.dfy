/**
 The read-only query side of the online NMF model: the topic-term matrix of
 `get_topics`, the probability threshold and the filters of
 `get_term_topics` / `get_document_topics`, and the choice of topics made by
 `show_topics`.
 */
module Queries {
  import opened Wrappers
  import opened Matrices

  // ---------------------------------------------------------------------
  // get_topics
  // ---------------------------------------------------------------------

  /**
   `get_topics()` for a dictionary `W` (features x `cols` topics): `W.T`, and
   with `normalize` every row (topic) divided by its sum, so that it sums to 1.
   A topic whose weights sum to zero would produce NaN; it is excluded.
   */
  function TopicsOf(W: Matrix, cols: nat, normalize: bool): (T: Matrix)
    requires IsMatrix(W, |W|, cols)
    requires normalize ==> forall j :: 0 <= j < cols ==> Sum(Column(W, j)) != 0.0
    ensures IsMatrix(T, cols, |W|)
    ensures forall j, i :: 0 <= j < cols && 0 <= i < |W| ==>
      T[j][i] == if normalize then W[i][j] / Sum(Column(W, j)) else W[i][j]
    ensures normalize ==> forall j :: 0 <= j < cols ==> Sum(T[j]) == 1.0
  {
    if normalize then
      var T := seq(cols, j requires 0 <= j < cols => DivAll(Column(W, j), Sum(Column(W, j))));
      assert forall j :: 0 <= j < cols ==> Sum(T[j]) == 1.0 by {
        forall j | 0 <= j < cols ensures Sum(T[j]) == 1.0 {
          var c := Column(W, j);
          assert T[j] == DivAll(c, Sum(c));
          SumDivAll(c, Sum(c));
          assert Sum(c) / Sum(c) == 1.0;
        }
      }
      T
    else
      Transpose(W, cols)
  }

  // ---------------------------------------------------------------------
  // Thresholds and filters
  // ---------------------------------------------------------------------

  /** The floor `1e-8` that both query filters put under the threshold. */
  const ProbabilityFloor: real := 0.00000001

  /**
   `max(minimum_probability, 1e-8)`, where a `None` argument is first replaced
   by the model's `minimum_probability`.
   */
  function Threshold(minimumProbability: Option<real>, default: real): (t: real)
    ensures t >= ProbabilityFloor
    ensures var asked := if minimumProbability.Some? then minimumProbability.value else default;
      t >= asked && (t == asked || t == ProbabilityFloor)
  {
    var asked := if minimumProbability.Some? then minimumProbability.value else default;
    if asked >= ProbabilityFloor then asked else ProbabilityFloor
  }

  /** `kept` lists `(index, value)` pairs of `col` in strictly increasing index order. */
  predicate IndexedAscending(kept: seq<(nat, real)>, col: seq<real>) {
    (forall k :: 0 <= k < |kept| ==> kept[k].0 < |col| && kept[k].1 == col[kept[k].0])
    && (forall a, b :: 0 <= a < b < |kept| ==> kept[a].0 < kept[b].0)
  }

  /**
   The list comprehension of `get_document_topics`: every `(idx, proba)` of
   `col` with `proba > t`. (Its other disjunct, `not minimum_probability`,
   never holds, because the threshold is at least `1e-8`.)
   */
  function AboveThreshold(col: seq<real>, t: real): (kept: seq<(nat, real)>)
    ensures IndexedAscending(kept, col)
    ensures forall k :: 0 <= k < |kept| ==> kept[k].1 > t
    ensures forall idx :: 0 <= idx < |col| && col[idx] > t ==> (idx, col[idx]) in kept
  {
    AboveThresholdFrom(col, t, 0)
  }

  function AboveThresholdFrom(col: seq<real>, t: real, from: nat): (kept: seq<(nat, real)>)
    requires from <= |col|
    ensures IndexedAscending(kept, col)
    ensures forall k :: 0 <= k < |kept| ==> from <= kept[k].0 && kept[k].1 > t
    ensures forall idx :: from <= idx < |col| && col[idx] > t ==> (idx, col[idx]) in kept
    decreases |col| - from
  {
    if from == |col| then []
    else
      var rest := AboveThresholdFrom(col, t, from + 1);
      if col[from] > t then [(from, col[from])] + rest else rest
  }

  /**
   The tail of `get_document_topics` on the solved activation column `h`:
   divide by its sum when `normalize` is set, then keep the entries above
   `t`. For an all-zero column numpy divides `0 / 0` into NaN, which no
   comparison `proba > t` keeps, so nothing is returned. A zero sum of
   entries that are not all zero would divide them into infinities; the
   model reports `None` there.
   */
  function DocumentTopicsOf(h: seq<real>, normalize: bool, t: real): (r: Option<seq<(nat, real)>>)
    ensures r.None? <==> normalize && Sum(h) == 0.0 && exists i :: 0 <= i < |h| && h[i] != 0.0
    ensures normalize && (forall i :: 0 <= i < |h| ==> h[i] == 0.0) ==> r == Some([])
    ensures r.Some? && normalize && Sum(h) != 0.0 ==>
      Sum(DivAll(h, Sum(h))) == 1.0 && r.value == AboveThreshold(DivAll(h, Sum(h)), t)
    ensures r.Some? && !normalize ==> r.value == AboveThreshold(h, t)
  {
    if !normalize then Some(AboveThreshold(h, t))
    else if Sum(h) == 0.0 then
      if forall i :: 0 <= i < |h| ==> h[i] == 0.0 then Some([]) else None
    else
      SumOfZeros(h);
      SumDivAll(h, Sum(h));
      assert Sum(h) / Sum(h) == 1.0;
      Some(AboveThreshold(DivAll(h, Sum(h)), t))
  }

  // ---------------------------------------------------------------------
  // show_topics: which topics are shown
  // ---------------------------------------------------------------------

  /** `np.count_nonzero(W, axis=0)` for a dictionary with `cols` columns. */
  function Sparsity(W: Matrix, cols: nat): (sp: seq<nat>)
    requires IsMatrix(W, |W|, cols)
    ensures |sp| == cols
  {
    seq(cols, j requires 0 <= j < cols => CountNonZero(Column(W, j)))
  }

  function CountNonZero(s: seq<real>): nat {
    if s == [] then 0 else (if s[0] != 0.0 then 1 else 0) + CountNonZero(s[1..])
  }

  /** Python's `s[:b]` for `b >= 0`. */
  function PrefixTo<T>(s: seq<T>, b: nat): seq<T> {
    if b <= |s| then s[..b] else s
  }

  /** Python's `s[a:]`; a negative `a` counts from the end. */
  function SuffixFrom<T>(s: seq<T>, a: int): seq<T> {
    if a >= 0 then (if a <= |s| then s[a..] else [])
    else if -a <= |s| then s[|s| + a..]
    else s
  }

  /**
   The topic ids `show_topics(num_topics=k)` iterates over, for a model with
   `numTopics` topics, where `order` is `matutils.argsort(sparsity)`, the
   topics by ascending count of non-zero entries.
   `-k // 2` is Python floor division; Dafny's `/` by a positive divisor
   also rounds down, so `(-k) / 2` is the same number.
   */
  function ChosenTopics(k: int, numTopics: nat, order: seq<nat>): (chosen: seq<nat>)
    ensures IsPermutation(order, numTopics) ==>
      |chosen| <= numTopics && forall a :: 0 <= a < |chosen| ==> chosen[a] < numTopics
  {
    if k < 0 || k >= numTopics then seq(numTopics, i => i)
    else PrefixTo(order, k / 2) + SuffixFrom(order, (-k) / 2)
  }

  /** `order` is a permutation of the topic ids `0 .. n-1`. */
  predicate IsPermutation(order: seq<nat>, n: nat) {
    |order| == n
    && (forall p :: 0 <= p < n ==> order[p] < n)
    && (forall p, q :: 0 <= p < q < n ==> order[p] != order[q])
  }

  /** `order` lists the topics by ascending `sp` (what `argsort(sparsity)` returns). */
  predicate SortedBy(order: seq<nat>, sp: seq<nat>) {
    (forall p :: 0 <= p < |order| ==> order[p] < |sp|)
    && (forall p, q :: 0 <= p < q < |order| ==> sp[order[p]] <= sp[order[q]])
  }

  /** Out of range requests show every topic, in id order. */
  lemma ChosenTopicsAll(k: int, numTopics: nat, order: seq<nat>)
    requires k < 0 || k >= numTopics
    ensures ChosenTopics(k, numTopics, order) == seq(numTopics, i => i)
  {
  }

  /**
   `num_topics=0` does not show zero topics: `sorted_topics[-0 // 2:]` is the
   whole list, so every topic is shown, in the order of `order`.
   */
  lemma {:induction false} ChosenTopicsZero(numTopics: nat, order: seq<nat>)
    requires numTopics > 0
    ensures ChosenTopics(0, numTopics, order) == order
  {
    assert PrefixTo(order, 0) == [];
    assert SuffixFrom(order, 0) == order;
  }

  /** Where the `a`-th shown topic sits in `order`, for `0 < k < numTopics`. */
  function ChosenPosition(k: nat, numTopics: nat, a: nat): nat
    requires 0 < k < numTopics
  {
    if a < k / 2 then a else numTopics - (k + 1) / 2 + (a - k / 2)
  }

  /**
   For `0 < k < numTopics`, `show_topics` shows exactly `k` distinct topics:
   the `k // 2` with the fewest non-zero entries first, then the `ceil(k / 2)`
   with the most.
   */
  lemma ChosenTopicsSubset(k: int, numTopics: nat, order: seq<nat>)
    requires 0 < k < numTopics && IsPermutation(order, numTopics)
    ensures var chosen := ChosenTopics(k, numTopics, order);
      |chosen| == k
      && chosen == order[..k / 2] + order[numTopics - (k + 1) / 2..]
      && (forall a :: 0 <= a < k ==> chosen[a] == order[ChosenPosition(k, numTopics, a)])
      && (forall a :: 0 <= a < k ==> chosen[a] < numTopics)
      && (forall a, b :: 0 <= a < b < k ==> chosen[a] != chosen[b])
  {
    var chosen := ChosenTopics(k, numTopics, order);
    ChosenTopicsSlices(k, numTopics, order);
    forall a | 0 <= a < k ensures chosen[a] == order[ChosenPosition(k, numTopics, a)] {
    }
    forall a, b | 0 <= a < b < k ensures chosen[a] != chosen[b] {
      assert ChosenPosition(k, numTopics, a) < ChosenPosition(k, numTopics, b);
    }
  }

  /** For `0 < k < numTopics` the two slices are the front `k // 2` and the back `ceil(k / 2)`. */
  lemma ChosenTopicsSlices(k: int, numTopics: nat, order: seq<nat>)
    requires 0 < k < numTopics && |order| == numTopics
    ensures k / 2 <= numTopics - (k + 1) / 2
    ensures ChosenTopics(k, numTopics, order) == order[..k / 2] + order[numTopics - (k + 1) / 2..]
  {
    assert (-k) / 2 == -((k + 1) / 2);
  }

  /** A topic at either end of `order` is shown. */
  lemma ChosenTopicsContainEnds(k: int, numTopics: nat, order: seq<nat>, q: nat)
    requires 0 < k < numTopics && IsPermutation(order, numTopics) && q < numTopics
    ensures q < k / 2 || q >= numTopics - (k + 1) / 2 ==> order[q] in ChosenTopics(k, numTopics, order)
  {
    var chosen := ChosenTopics(k, numTopics, order);
    ChosenTopicsSubset(k, numTopics, order);
    if q < k / 2 {
      assert chosen[q] == order[q];
    } else if q >= numTopics - (k + 1) / 2 {
      assert chosen[k / 2 + (q - (numTopics - (k + 1) / 2))] == order[q];
    }
  }

  /**
   With `order` sorted by the non-zero counts of the columns of `W`, every
   topic shown from the front has at most as many non-zero entries as every
   topic left out, and every topic shown from the back at least as many.
   */
  lemma ChosenTopicsAreExtremes(k: int, numTopics: nat, order: seq<nat>, W: Matrix)
    requires 0 < k < numTopics && IsPermutation(order, numTopics)
    requires IsMatrix(W, |W|, numTopics) && SortedBy(order, Sparsity(W, numTopics))
    ensures var chosen, sp := ChosenTopics(k, numTopics, order), Sparsity(W, numTopics);
      forall q :: 0 <= q < numTopics && order[q] !in chosen ==>
        (forall a :: 0 <= a < k / 2 ==> sp[chosen[a]] <= sp[order[q]])
        && (forall a :: k / 2 <= a < k ==> sp[order[q]] <= sp[chosen[a]])
  {
    var chosen, sp := ChosenTopics(k, numTopics, order), Sparsity(W, numTopics);
    ChosenTopicsSubset(k, numTopics, order);
    forall q | 0 <= q < numTopics && order[q] !in chosen
      ensures (forall a :: 0 <= a < k / 2 ==> sp[chosen[a]] <= sp[order[q]])
        && (forall a :: k / 2 <= a < k ==> sp[order[q]] <= sp[chosen[a]])
    {
      ChosenTopicsContainEnds(k, numTopics, order, q);
      forall a | 0 <= a < k ensures ChosenPosition(k, numTopics, a) < q <==> a < k / 2 {
      }
    }
  }
}
