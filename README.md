# Online NMF (gensim `Nmf`) in Dafny

This project models the class `Nmf` of gensim's `gensim/models/nmf.py`. The
class implements online non-negative matrix factorisation: a corpus matrix
`V` (terms x documents) arrives chunk by chunk and is approximated as
`W.h + r`. The dictionary `W` (terms x topics) is non-negative and kept
across chunks, `h` (topics x documents) holds per-chunk activations, and
`r` is an optional residual.

The model has six modules.

- `Matrices` (`matrices.dfy`): dense matrices as sequences of rows, the
  numpy operations the class uses, and `MapInPlace`, the in-place entry-wise
  update of a two-dimensional array.
- `Projections` (`projections.dfy`): the element-wise projections
  `__solve_r` and `__transform`.
- `Statistics` (`statistics.dfy`): the `A`/`B` property pair and how
  `self.A += ...` updates the stored `_A` as written, which is what the
  class does. Beside it is the running sum the getter presupposes, with
  what it would give instead (see Findings).
- `Iteration` (`iteration.dfy`): the bounded loop shape shared by
  `_solve_w` and `_solveproj`. It takes a step, computes the error, stops
  when a test on the previous and new error holds, and runs for at most
  `limit` steps.
- `Queries` (`queries.dfy`):
  - the `get_topics` normalisation;
  - the probability threshold and the filters of `get_term_topics` and
    `get_document_topics`;
  - the topic choice of `show_topics`.
- `OnlineNmf` (`nmf.dfy`):
  - the class `Nmf`, whose fields are the training state (`_W` as an
    `array2<real>` changed in place, `_A`, `_B`, `_H`, `_R`, `_h`, `_r`,
    `v_max`, `_w_error`);
  - its training methods `update`, `_setup`, `_solve_w`, `__transform` and
    `_solveproj`, and the queries `get_document_topics` and
    `get_term_topics`.

Each loop is proved against a specification. The loop of `_solve_w` is
iterated `WStep` (a gradient step followed by `__transform`). The loop of
`_solveproj` is iterated `HrStep`. In both, the number of steps taken is
`StepsTaken`: the first step after which the stopping test holds, or the
iteration limit.

The training state that `update` leaves is specified by `Fed`. The chunks
fed are those of `passes` passes over the corpus (`Repeat`), or a prefix of
them when `update` stops early. Their `h` and
`r` are appended to `_H` and `_R`, and the last of them is the warm start.
`_A` and `_B` are the as-written update folded over the chunks' `h.hT` and
`(v - r).hT` (`StoredAsWritten`). `v_max` is resolved on the first chunk.

The compiled solvers `solve_h` and `solve_r` (from `nmf_pgd`) are not part
of this model. They are the fields of a `Kernels` parameter: arbitrary
functions that keep the shape of the matrix they overwrite. The vector norm
`np.linalg.norm` is the class constant `l2`, an arbitrary function. The one
lemma that needs it to be the Euclidean norm says so in its precondition.

## Model

| member | source | states |
|---|---|---|
| Statistics.Average | gensim/models/nmf.py:85-99 | the `A`/`B` getter divides the stored matrix by `len(_H)`: each result entry times the chunk count is the stored entry |
| Statistics.AccumulateAsWritten | gensim/models/nmf.py:273-274 | `self.A += X` as written: entrywise, the new stored value minus `X`, times the chunk count, is the old stored value. `AsWrittenGetterRecurrence` and `AsWrittenIsRunningSumOnlyWhen` state what this means for the getter and how it differs from the running sum |
| Statistics.StoredAsWrittenAppend | gensim/models/nmf.py:273-274 | folding the as-written update over two runs of chunks in turn is folding it over the joined run, with `len(_H)` counting on across the two; the statistic keeps its shape |
| Statistics.StoredAsWrittenSnoc | gensim/models/nmf.py:273-274 | folding over one more chunk is one more as-written update of the statistic so far, with `len(_H)` one past the chunks before it |
| Statistics.AsWrittenGetterRecurrence | gensim/models/nmf.py:273-274 | after `self.A += X` with `n >= 2` chunks, the getter is `(n - 1) / n^2` times the getter before plus `X / n`: the earlier chunks lose an extra factor `1 / n` at every chunk, where the mean would keep `(n - 1) / n` |
| Statistics.AsWrittenIsRunningSumOnlyWhen | gensim/models/nmf.py:273-274 | an as-written update stores the same entry as the running sum exactly when it is the first chunk or the entry stored before is zero |
| Statistics.AsWrittenAverageIsNotMean | gensim/models/nmf.py:273-274 | two chunks that each contribute `[[1]]` leave `_A == [[1.5]]` and a getter value of `0.75`; the mean of the contributions is `1` |
| Statistics.AccumulateSum | gensim/models/nmf.py:273-274 | corrected update: the stored matrix grows by exactly the contribution, entry by entry |
| Statistics.RunningSumGetterRecurrence | gensim/models/nmf.py:85-87 | with the corrected update, the getter after chunk `n` is the running mean: `(n - 1) / n` times the getter before plus `X / n` |
| Statistics.StoredSumIsSum | gensim/models/nmf.py:273-274 | with the corrected update, the stored matrix is the start plus the sum of all contributions |
| Statistics.RunningSumAverageIsMean | gensim/models/nmf.py:85-99 | with the corrected update from zeros, the getter reports the mean of the per-chunk contributions |
| Projections.SolveREntry | gensim/models/nmf.py:319-325 | `__solve_r` on one entry `x`: zero when `\|x\| <= lambda_`; otherwise `sign(x)(\|x\| - lambda_)` clipped to `[-v_max, v_max]`; never of the opposite sign to `x`; never larger in magnitude than `x` when `lambda_ >= 0` |
| Projections.SolveR | gensim/models/nmf.py:319-325 | `__solve_r` on a matrix keeps its shape, applies the soft threshold and clip entry by entry, and keeps every entry within `v_max` and of its input's sign |
| Projections.Divisor | gensim/models/nmf.py:329-330 | `np.maximum(norm, 1)` is at least 1 and at least the norm, and is 1 when the norm is at most 1 |
| Projections.Transformed | gensim/models/nmf.py:327-331 | `__transform` keeps the shape and leaves every entry in `[0, v_max]` |
| Projections.TransformedColumn | gensim/models/nmf.py:327-331 | each column after `__transform` is the clipped column divided by `max(its norm, 1)`; a clipped column of norm at most 1 is unchanged |
| Projections.TransformedColumnNormAtMostOne | gensim/models/nmf.py:329-331 | when `l2` is the Euclidean norm, each column has squared norm at most 1 after `__transform` |
| Iteration.StepsFromIsFirstStop | gensim/models/nmf.py:306-317 | from any point before the limit, the loop ends no later than the limit, does not stop before its last step, and stops at its last step unless that step is the limit |
| Iteration.StepsTakenIsFirstStop | gensim/models/nmf.py:356-378 | the loop takes at most `limit` steps, stops at the first step whose test holds, and ends at the limit only when no earlier step stopped it |
| OnlineNmf.ResolveVMax | gensim/models/nmf.py:335-338 | a `v_max` argument overwrites `self.v_max`; otherwise a value already set is kept; otherwise `v.max()` is used, which bounds every entry of `v` and is one of them |
| OnlineNmf.WarmStart | gensim/models/nmf.py:344-348 | a supplied `h` or `r` is reused exactly when its shape matches; otherwise zeros of the wanted shape are used |
| OnlineNmf.WarmStartKeepsZero | gensim/models/nmf.py:347-348 | a zero `r` stays zero through the warm start, whatever its shape |
| OnlineNmf.SteppedEntry | gensim/models/nmf.py:309 | entry `(i, j)` of `W -= eta (W.A - B)` is `W[i][j] - eta((W.A)[i][j] - B[i][j])` |
| OnlineNmf.WStep | gensim/models/nmf.py:309-310 | one iteration of `_solve_w` (gradient step, then `__transform`) keeps the shape and lands in `[0, v_max]` |
| OnlineNmf.DictionaryIterates | gensim/models/nmf.py:306-310 | every dictionary the loop of `_solve_w` reaches keeps its shape, and after at least one step lies in `[0, v_max]` |
| OnlineNmf.RelChangeBelowMeans | gensim/models/nmf.py:314 | the stop test of `_solve_w` holds only when the held error is non-zero, and then exactly when `\|e - prev\| < w_stop_condition * \|prev\|` |
| OnlineNmf.Nmf.constructor | gensim/models/nmf.py:59-80 | a new model has no features, no history, `_R` an empty list exactly when `store_r`, and the given `v_max` |
| OnlineNmf.Nmf.Setup | gensim/models/nmf.py:230-245 | `_setup` fixes the feature count, sets `W` to the absolute value of the sample (so `W >= 0`), zeroes `A` and `B`, and resets the warm start |
| OnlineNmf.Nmf.GradientStep | gensim/models/nmf.py:309 | the new `W` is the old `W` after one gradient step |
| OnlineNmf.Nmf.Transform | gensim/models/nmf.py:327-331 | the new `W` is `Transformed` of the old `W` under the current `v_max` |
| OnlineNmf.Nmf.StepDictionary | gensim/models/nmf.py:309-310 | the new `W` is one dictionary step applied to the old `W` |
| OnlineNmf.Nmf.SolveW | gensim/models/nmf.py:294-317 | `_w_error` is initialised only when falsy; `W` ends as the dictionary step iterated `StepsTaken` times with the relative-change test; `_w_error` holds the last error accepted; at least one step is taken when `w_max_iter > 0`, and then `W` lies in `[0, v_max]` |
| OnlineNmf.Nmf.Descend | gensim/models/nmf.py:306-317 | the loop of `_solve_w`: the number of steps is the first stop or `w_max_iter`; `W` is the iterate after that many steps; `_w_error` is the error held when the loop ends |
| OnlineNmf.Nmf.HrStep | gensim/models/nmf.py:359-369 | one pass of the `h`/`r` loop: `h` is `solve_h` on `W'(v - r)` and `W'W`; without `use_r`, `r` is left untouched; shapes are kept |
| OnlineNmf.Nmf.SolveProj | gensim/models/nmf.py:333-380 | `_solveproj` resolves `self.v_max`, warm-starts `h` and `r`, and returns the iterate after `StepsTaken` passes of the absolute-change test; `h` has shape `(num_topics, batch)` and `r` shape `(n_features, batch)`; without `use_r`, `r` is its warm start |
| OnlineNmf.Nmf.Project | gensim/models/nmf.py:354-380 | the loop of `_solveproj`: the first pass is never tested, the loop stops at the first absolute change below `h_r_stop_condition` or after `h_r_max_iter` passes, and `h`, `r` are that iterate |
| OnlineNmf.Nmf.Record | gensim/models/nmf.py:267-274 | after `_solveproj` the warm start becomes `(h, r)`; `_H` gains exactly `h`; `_R` gains exactly `r` when kept; then `_A` becomes `_A / len(_H) + h.hT` and `_B` becomes `_B / len(_H) + (v - r).hT`, with `len(_H)` counted after the append, as the `+=` through the getter does |
| OnlineNmf.Nmf.GuardedSolveW | gensim/models/nmf.py:275 | `_solve_w` runs unless the averaged `A` has zero norm with `w_max_iter > 0`; when it runs, `W` is the dictionary step (with the getter's `A`, `B` and `eta`) iterated the first-stop number of times from the old `W`, and `_w_error` is the error held at the end; with `w_max_iter == 0`, `W` is unchanged |
| OnlineNmf.Nmf.ProcessChunk | gensim/models/nmf.py:266-275 | one chunk of `update` appends one `h` (and one `r` when `_R` is kept), folds them into `_A`/`_B` as written, updates `v_max` as `_solveproj` does, keeps `r` zero without `use_r`, then runs `_solve_w` unless `A` has zero norm with `w_max_iter > 0`: `W` and `_w_error` become the first-stop iterate of the dictionary step and its held error, so `W` lies in `[0, v_max]` when `w_max_iter > 0` |
| OnlineNmf.Nmf.ProcessNext | gensim/models/nmf.py:263-275 | processing the next chunk of a run keeps `Fed`: its `h` and `r` are appended to `_H` (and `_R` when kept) and become the warm start, `_A`/`_B` fold in its `h.hT` and `(v - r).hT` as written, and `v_max` stays resolved on the first chunk; the run goes on exactly when `A` has non-zero norm or `w_max_iter == 0` |
| OnlineNmf.Nmf.Pass | gensim/models/nmf.py:263-285 | one pass over the chunks: `_H` gains the `h` of each chunk processed, in order, and `_R` its `r` when kept (`_R` stays `None` otherwise); `_A` and `_B` are the as-written fold (`StoredAsWritten`) of each chunk's `h.hT` and `(v - r).hT`, with `len(_H)` counting on from its length before; the warm start is the last `h` and `r`; `v_max` is resolved on the first chunk. It processes every chunk, or stops early at a zero-norm `A` (only when `w_max_iter > 0`) or, after the first chunk, at `eval_every == 0`; a completed pass over at least one chunk leaves `W` in `[0, v_max]` when `w_max_iter > 0`; with `w_max_iter == 0`, `W` is unchanged |
| OnlineNmf.Nmf.PassNext | gensim/models/nmf.py:262-285 | one more pass takes the state after `pass` passes (`AfterPasses`) to the state after `pass + 1`: the chunks fed are those of `pass + 1` passes over the corpus |
| OnlineNmf.Nmf.RunPasses | gensim/models/nmf.py:262-285 | the `passes` passes of `update` end in `AfterPasses` for all of them: `_H`, `_R`, `_A`, `_B`, the warm start and `v_max` are `Fed` by the chunks of `passes` passes over the corpus (every one of them unless a failure stopped the run); no passes or no chunks leave the run `Done`; `eval_every == 0` stops after one chunk; `W` is unchanged with `w_max_iter == 0` and in `[0, v_max]` after a completed run otherwise |
| OnlineNmf.Nmf.Update | gensim/models/nmf.py:247-292 | `update` sets the model up on first use (an empty corpus then fails); from the state after `_setup` on first use (`A`, `B` zero, no warm start), or the state before otherwise, `_H`, `_R`, `_A`, `_B`, the warm start and `v_max` are `Fed` by the chunks of `passes` passes over the corpus: after a completed update `_H` has grown by `passes` times the chunk count; no chunk processed, a zero `eval_every` and a zero-norm `A` with `w_max_iter > 0` are reported as failures; a completed update leaves `W` in `[0, v_max]` when `w_max_iter > 0`, and non-negative whenever `v_max` is non-negative and `W` was |
| OnlineNmf.RepeatLength | gensim/models/nmf.py:262-264 | `passes` passes over a corpus of `c` chunks feed `passes * c` chunks |
| OnlineNmf.RepeatPrefix | gensim/models/nmf.py:262-264 | the chunks fed by fewer passes are a prefix of those fed by more |
| OnlineNmf.RecordedChunk | gensim/models/nmf.py:267-274 | recording one more chunk after a run extends the as-written statistics of that run by the chunk's `h.hT` and `(v - r).hT` |
| OnlineNmf.PassRecorded | gensim/models/nmf.py:262-274 | the statistics after `p` passes, carried through one more pass, are the statistics of the chunks of `p + 1` passes |
| OnlineNmf.FedSnoc | gensim/models/nmf.py:267-274 | one more chunk, whose `h` and `r` are appended, folded in with `len(_H)` counted after the append, kept as the warm start, with `v_max` resolved on it, keeps `Fed` for the longer run |
| OnlineNmf.FedPass | gensim/models/nmf.py:262-274 | `Fed` for `p` full passes followed by `Fed` for one pass is `Fed` for `p + 1` passes |
| OnlineNmf.FedMorePasses | gensim/models/nmf.py:262-264 | `Fed` for the chunks of some passes also holds for the chunks of any more passes (a run stopped early fed a prefix of them) |

| OnlineNmf.Nmf.GetDocumentTopics | gensim/models/nmf.py:212-228 | `v_max` becomes infinity; `h` is the `_solveproj` iterate from zeros; the result is the column normalised when `normalize` is set, filtered to entries strictly above the threshold, in ascending topic id |
| OnlineNmf.Nmf.GetTermTopics | gensim/models/nmf.py:194-210 | exactly the `(topic, W[word, topic])` pairs whose coefficient is at least the threshold, in ascending topic id; a negative `word_id` counts from the end |
| Queries.TopicsOf | gensim/models/nmf.py:101-105 | `get_topics` is `W.T`, and with `normalize` each topic divided by its sum, so that every topic sums to 1 |
| Queries.Threshold | gensim/models/nmf.py:194-196 | the threshold is the requested probability (or the model default) raised to at least `1e-8` |
| Queries.AboveThreshold | gensim/models/nmf.py:223-228 | the filter keeps exactly the `(idx, value)` pairs with value strictly above the threshold, in ascending index order |
| Queries.DocumentTopicsOf | gensim/models/nmf.py:216-228 | with `normalize` the column is divided by its sum (and then sums to 1) before filtering; an all-zero column gives the empty list (NaN is never above the threshold); a zero sum of entries not all zero gives no result |
| Queries.ChosenTopics | gensim/models/nmf.py:128-137 | for an `order` that is a permutation of the topic ids, `show_topics` chooses at most as many topics as the model has, each a topic id below that count. Which ones, and why they are extremes of the sparsity order, is stated by `ChosenTopicsAll`, `ChosenTopicsZero`, `ChosenTopicsSubset` and `ChosenTopicsAreExtremes` |
| Queries.ChosenTopicsAll | gensim/models/nmf.py:128-130 | a negative `num_topics`, or one at least the model's topic count, shows every topic in id order |
| Queries.ChosenTopicsZero | gensim/models/nmf.py:135-137 | `num_topics == 0` shows every topic in the order of `order` (ascending non-zero count), because the slice `[-0 // 2:]` is the whole list |
| Queries.ChosenTopicsSubset | gensim/models/nmf.py:132-137 | for `0 < k < num_topics`, `k` distinct topics are shown: the first `k // 2` and the last `ceil(k / 2)` of the order |
| Queries.ChosenTopicsSlices | gensim/models/nmf.py:135-137 | for `0 < k < num_topics`, `sorted_topics[:k // 2] + sorted_topics[-k // 2:]` is the front `k // 2` followed by the back `ceil(k / 2)` of the order, and the two do not overlap |
| Queries.ChosenTopicsContainEnds | gensim/models/nmf.py:134-137 | every topic among the first `k // 2` or the last `ceil(k / 2)` of the order is shown |
| Queries.ChosenTopicsAreExtremes | gensim/models/nmf.py:132-137 | with the order sorted by `np.count_nonzero(W, axis=0)`, each topic shown from the front has at most as many non-zero entries as any topic left out, and each shown from the back at least as many |

## Left out

- `solve_h` and `solve_r` from `gensim.models.nmf_pgd` are not part of this model. They are the arbitrary shape-keeping functions of `Kernels`, and nothing is claimed about their numerics.
- `np.linalg.norm` is the arbitrary function `l2`. Nothing is assumed about it except in `TransformedColumnNormAtMostOne`, which requires it to be the Euclidean norm on the column at hand.
- Matrix entries are mathematical reals. float64 rounding, infinities and NaN are not modelled. Each division by a zero sum or norm is handled as the line for its member below says: `RelChangeBelow` is false for a zero held error, `DocumentTopicsOf` gives `Some([])` or `None`, `Eta` is `0` where nothing reads it, and `Update` stops with `DegenerateStatistics`.
- An empty vocabulary is not modelled. `Setup` requires `numTerms > 0`, `Valid` requires `nFeatures.value > 0`, and the chunks of `Update` satisfy `HasEntries`. With no features, or a chunk without documents, `v.max()` in `_solveproj` (gensim/models/nmf.py:338) raises `ValueError`.
- `Update`: when the averaged `A` has zero Frobenius norm and `w_max_iter > 0`, numpy divides by zero in `_solve_w`, warns, and goes on stepping with an infinite `eta` into infinite or NaN values. The model stops with `DegenerateStatistics` instead. With `w_max_iter == 0` the infinite `eta` is never used, and the model goes on as the source does (`Eta` is `0` there, a value nothing reads).
- `DocumentTopicsOf`: under `normalize`, a zero sum of entries that are not all zero (possible only when `solve_h` returns entries of both signs) divides them into infinities, some of which pass the filter; the model gives `None` there. An all-zero column gives `[]`, as in the source.
- `TopicsOf`: a zero topic sum under `normalize` is excluded by its precondition where numpy would produce NaN.
- The random draw of `_setup` (`halfnorm.rvs` scaled by `sqrt(mean / n_features) / sqrt(num_topics)`) is the parameter `draw`. The first-document feature count is the parameter `numTerms`.
- `corpus2csc`, `utils.grouper` and corpus iteration are not modelled. `Update` takes the corpus already split into chunk matrices, and the same chunks are seen on every pass, as with a re-iterable corpus.
- `matutils.argsort` is not modelled. Its result is a given permutation `order`, and `SortedBy(order, Sparsity(W, ...))` states what it must satisfy.
- Logging is not modelled: the debug lines of both loops and the loss reports in `update`. The final report reads `v`, `h` and `r`; when no chunk was processed that report fails, and the model returns `NoChunkProcessed`.
- `Update`: `eval_every=None` is not modelled. `Config.evalEvery` is an integer, and only `0` (a `ZeroDivisionError` in `chunk_idx % eval_every`) is an error.
- Aliasing is not modelled. `solve_h` and `solve_r` overwrite `h` and `r` in place, and the same arrays are appended to `_H`/`_R` and passed as the next warm start. In Python a later chunk can therefore overwrite an earlier entry of `_H`. The model treats every matrix as a value.
- `GetTermTopics`: the string `word_id` path (`id2word.doc2bow`) is not modelled. A `word_id` outside `[-n_features, n_features)`, where numpy raises `IndexError`, is excluded by the precondition.
- `show_topics` output formatting and `show_topic`/`get_topic_terms` (word lookups through `id2word`) are not modelled. The model covers the choice of topics only.
- `__init__` with a corpus is the constructor followed by `Update`.
- `__getitem__` is `get_document_topics` with the same arguments and is not modelled separately.
- `GetDocumentTopics` takes the document as a feature column `v`; the bag-of-words conversion is not modelled.
- `__solve_r` is modelled as `SolveR`, but `_solveproj` calls the compiled `solve_r` instead, so `SolveR` is not used by the training model.

## Findings

The class `Nmf` follows the code as written (`Record` stores `_A / len(_H) + h.hT`). The running sum is defined and its properties are proved in `Statistics` alone.

| source | as written | input that shows it | evidently intended | confidence | as-written member | corrected member |
|---|---|---|---|---|---|---|
| gensim/models/nmf.py:273-274 | `self.A += np.dot(h, h.T)` goes through the getter, so `_A` becomes `_A / len(_H) + h.hT` (likewise `_B`) | two chunks with `h = [[1]]` (one topic, one document): `_A` goes `[[1]]`, then `[[1.5]]`; the getter reports `0.75` | `_A` is the running sum, so the getter `_A / len(_H)` reports the mean `1` of the per-chunk `h.hT` | not executed | Statistics.AsWrittenAverageIsNotMean | Statistics.RunningSumAverageIsMean |
