# AlphaPy model record: a Dafny model

This project models the core of AlphaPy's `model.py`. That core is the per-project model record (`Model`) and the four operations that run after the base algorithms have been trained and scored:

- **Construction** (`Model(specs)`). A blank record is built. Its algorithm list is the upper-cased `algorithms` string split on `separator`, and it is registered in the class-level registry under its project name. `__new__` was written to refuse a project name that is already registered. But `Model` is a Python 2 classic class, whose `__new__` is never called, so a known name is registered again and the new record replaces the old one. The model has both versions (see Findings).
- **`predict_best`**. A running-maximum scan over the algorithm list picks the top scorer. The score starts at 0.0 and is replaced only on a strictly greater score, so ties go to the earliest-listed algorithm. The winner's estimator and its train and test predictions are then copied under the alias `BEST`. For classification its probabilities are copied too.
- **`predict_blend`**. Two meta-feature matrices (train and test) get one column per algorithm, in list order. Each column holds the algorithm's probabilities for classification or its predictions for regression. Each estimator's `coef_` and `feature_importances_` are copied when present. A meta-learner is fit on the train matrix: logistic regression, or ridge regression with a cross-validated penalty. It is stored under `BLEND` together with its predictions, and for classification its positive-class probabilities.
- **`generate_metrics`**. This selects the labels for a partition (`y_train` for `"train"`, `y_test` otherwise). It writes the six classification metrics or the five regression metrics for each algorithm, keyed by (algorithm, partition, metric). With no labels it writes nothing.
- **`save_results`**. This builds the probabilities file `<base_dir>SSEP<project>SSEP probas USEP <MMDDYY> PSEP <extension>` and hands it, with the probabilities and the delimiter, to the writer.

Modules:

- `Text` (text.dfy): byte-string `upper`, `split` and `join`, with their round-trip lemmas.
- `Store` (store.dfy): the record (`class Model`, whose stores are `map` fields), the registry (`class Registry`) and the parsing of the algorithm list.
- `BestSelect` (best.dfy): `predict_best`.
- `Blend` (blend.dfy): `predict_blend`. The meta-feature matrices are `array2<real>` values filled column by column.
- `Metrics` (metrics.dfy): `generate_metrics`.
- `Results` (results.dfy): the path and the lookups of `save_results`.

Errors the source raises are modelled as `Err`/`Fail` values:

- `KeyError` for a missing specs key or store entry.
- An attribute error on a `None` matrix, or a failed fit on a `None` `y_train` (`MissingData`).
- numpy's `ValueError` for a vector that does not fit a column of the meta-feature matrix (`ShapeMismatch`). The operations are not transactional. Writes made before an error stay in the record, and the contracts say which writes those are.

Foreign calls are parameters of the model and are assumed total:

- The scikit-learn learners (`Blend.Learners`).
- The metric functions (`Metrics.MetricFn`).
- The separators of the `globs` module (`Results.Separators`).
- The date stamp (a string argument).

The model follows the code in two places where the code does more than its own uses call for:

- `predict_blend` reads `n_folds` for classification too, and fails without it, although only the `RidgeCV` learner of regression uses it (model.py:235).
- `save_results` fails for regression, although its guard at model.py:350 shows that nothing is meant to be saved for regression (see Findings).

## Model

| member | source | states |
|---|---|---|
| Text.Upper | model.py:95 | the result has the input's length and no lower-case ASCII letter; each lower-case letter becomes the capital 32 code points below it, and every other character is kept |
| Text.Split | model.py:95 | a split has at least one piece, and the first piece is a prefix of the string |
| Text.Join | model.py:351-354 | a join of at least one part is as long as the parts plus one separator between each two, and starts with the first part |
| Text.SplitLeftmost | model.py:95 | a single piece is the whole string; otherwise the separator occurs right after the first piece and nowhere before it, and the other pieces are the split of what follows that occurrence |
| Text.SplitRest | model.py:95 | after the first piece and its separator, the rest of the string splits into the other pieces |
| Text.SplitFirstCut | model.py:95 | with more than one piece, the first cut is at the leftmost occurrence of the separator |
| Text.JoinSplit | model.py:95 | joining the pieces of `s.split(sep)` with `sep` gives back `s` |
| Text.SplitPiecesFree | model.py:95 | no piece of `s.split(sep)` contains `sep` |
| Text.SplitJoin | model.py:351-354 | with a one-character separator that no part contains, splitting the join gives back the parts |
| Store.ParseAlgorithms | model.py:90-97 | missing `separator` gives KeyError('separator'); a missing `algorithms` or an empty separator gives KeyError('algorithms'); otherwise the list is non-empty, its join with the separator is the upper-cased `algorithms` string, no entry contains the separator and none has a lower-case letter; the list is the leftmost, non-overlapping split of the upper-cased string (`Text.Split`); with more than one entry, the first one ends at the leftmost occurrence of the separator in the upper-cased string |
| Store.FirstMissing | model.py:149-150 | the index of the first algorithm without an entry: every earlier one has an entry, the one there has none |
| Store.Model.constructor | model.py:81-108 | a new record has the given specs and algorithm list, its project name, no data and every store empty |
| Store.Registry.constructor | model.py:63 | the registry starts empty |
| Store.Registry.Create | model.py:67-113 | construction as `__new__` intends it: missing `project` gives KeyError('project'); a registered name gives no record and leaves the registry unchanged; a parse error leaves the registry unchanged; otherwise a fresh blank record with the parsed list is registered under its name and nothing else changes |
| Store.Registry.CreateAsWritten | model.py:59-111 | construction as it runs, without `__new__`: missing `project` gives KeyError('project') and a parse error is passed on, both leaving the registry unchanged; otherwise it succeeds and a fresh blank record is registered under the name; a name already registered keeps its key but now maps to the new record |
| Store.RegistryOutcomes | model.py:111 | registering a new record under a known name keeps the set of names and replaces the old record; under a new name it adds exactly that name |
| BestSelect.SelectBest | model.py:142-154 | succeeds iff every algorithm has a score and some score exceeds 0.0; the winner is listed, scores above 0.0, is at least every score, and every algorithm before its first position scores strictly less (ties go to the earliest); a missing score is reported at the first unscored algorithm; no positive score gives NoBestModel |
| BestSelect.BestIsUnique | model.py:149-154 | at most one algorithm meets the winner's description, so the scan's answer is determined by the scores and the list order |
| BestSelect.CopyWinner | model.py:156-163 | the copy stage succeeds iff the winner has its estimator, its train and test predictions and, for classification, its train and test probabilities; then exactly those are copied under BEST; an error is the KeyError for the winner's first missing artifact in the order estimator, train and test predictions, train and test probabilities, and the stores hold exactly the copies made before it (`CopyStopped`); no key other than the BEST keys changes |
| BestSelect.CopyStoppedUnique | model.py:156-163 | the old stores fix the copy-stage error and the stores it leaves: two stops from the same old stores agree on both |
| BestSelect.CopyStoppedMissing | model.py:156-163 | the copy stage stops only when one of the winner's artifacts is missing |
| BestSelect.PredictBest | model.py:125-163 | a selection error changes nothing and happens only without `regression`, with an unscored algorithm, or with no score above 0.0; with `regression` present, every algorithm scored, some score above 0.0 and the winner's artifacts present, it succeeds; on success estimators['BEST'] and preds[('BEST', train/test)] are the winner's, and probas[('BEST', train/test)] too exactly when not regression; a copy-stage error is the KeyError for the winner's first missing artifact, and the stores hold exactly the BEST copies made before it; every key other than the BEST keys is unchanged in every store |
| Blend.BlendMatrix | model.py:198-200 | the meta-feature matrix has one row per sample and one column per algorithm; column c holds algolist[c]'s vector, or its single value broadcast |
| Blend.BlendMatrixReorder | model.py:207-220 | permuting the algorithm list permutes the matrix columns the same way |
| Blend.CopyExposedSpec | model.py:207-213 | after the copy (`CopyExposed`), a listed algorithm whose estimator exposes the attribute maps to that attribute; every other key of coefs/importances is as it was |
| Blend.FillColumn | model.py:216-220 | `X[:, c] = v` sets column c to v (broadcast if of length one) and leaves every other cell |
| Blend.RowsAreBlendMatrix | model.py:199-220 | an array whose columns hold the algorithms' vectors reads back as the meta-feature matrix |
| Blend.Visit | model.py:207-220 | one loop pass: copies the estimator's coef_/feature_importances_ when present, then fills column i of both matrices; fails at a missing estimator, or a missing or ill-shaped train or test vector, in that order |
| Blend.FirstBlocked | model.py:207-220 | the position of the first algorithm whose pass raises: no earlier pass raises, and the one there does (or it is the end of the list) |
| Blend.NoneBlocked | model.py:207-220 | no pass raises iff every algorithm has an estimator and fitting train and test vectors |
| Blend.FillLoop | model.py:207-220 | the loop stops at `stop`: no earlier pass raises, it passes iff `stop` is the end of the list, and otherwise it raises the error of the pass at `stop`; coefs/importances are the copies for the first `visited` algorithms, where `visited` is `stop`, plus one when the failing algorithm has an estimator; on success every column of both arrays holds its algorithm's vector |
| Blend.FillMetaFeatures | model.py:198-220 | passes iff every algorithm has an estimator and fitting train and test vectors; otherwise it raises the error of the FirstBlocked algorithm, with the copies made for the algorithms before it, plus its own when it has an estimator; on success the copies cover every algorithm and the two matrices are the BlendMatrix of the source store for the train and test row counts |
| Blend.StoreBlend | model.py:227-239 | estimators['BLEND'] becomes the fitted meta-learner, preds[('BLEND', p)] its predictions, and probas[('BLEND', p)] its positive-class probabilities only for classification; nothing else in those stores changes |
| Blend.BlendStage | model.py:198-239 | once the specs and matrices are present: the error of the first blocked algorithm with the copies made up to it, or, when no pass raises, every copy made and KeyError exactly when `y_train` is missing; on success the BLEND entries are the meta-learner's, and on failure estimators, preds and probas are unchanged |
| Blend.PredictBlend | model.py:178-239 | errors for missing n_folds, regression, X_train, X_test in that order, before any copy; then the error of the first algorithm whose pass raises, with the copies made for the algorithms up to it; with no such algorithm, a missing y_train is the only remaining error; succeeds iff everything needed is present; coefs/importances are the copies for the first `visited` algorithms; on success estimators['BLEND'] is the meta-learner (`MetaFit`: logistic regression for classification, ridge regression with the listed penalties and cv=n_folds for regression) fit on the train matrix and y_train, preds[('BLEND', p)] its predictions, probas[('BLEND', p)] its positive-class probabilities exactly for classification; on failure estimators, preds and probas are unchanged; no key other than the BLEND keys changes |
| Metrics.Predicted | model.py:269-271 | an algorithm is in the set iff it has predictions for the partition |
| Metrics.RecordSlots | model.py:272-284 | recording one algorithm sets (algo, partition, m) for each metric m of the record's kind (classification or regression) to that metric of its predictions and changes no other key |
| Metrics.MetricsWritten | model.py:267-284 | after recording a list of algorithms, (a, p, m) for a listed a and a metric m of the record's kind (classification or regression) holds that metric of a's predictions; every other key, including every key of another partition, is as it was |
| Metrics.RecordAlgorithm | model.py:272-284 | the six classification or five regression writes for one algorithm are exactly the recording of its metric slots |
| Metrics.RecordAll | model.py:269-284 | the algorithms before the first one without predictions for the partition are recorded in order; that one, if any, raises KeyError and nothing after it is written |
| Metrics.GenerateMetrics | model.py:254-299 | missing `regression` gives KeyError and writes nothing; with no labels for the partition (y_train for "train", y_test for any other name) nothing is written; otherwise the algorithms up to the first one without predictions are recorded, and that one (if any) raises KeyError |
| Results.DateStamp | model.py:326-327 | `%m%d%y` gives six digits that read back as the month, the day and the year modulo 100 |
| Results.ProbasPath | model.py:351-354 | the path is base_dir, SSEP, project, SSEP, probas, USEP, the stamp, PSEP and the extension, in that order |
| Results.ProbasPathLayout | model.py:350-354 | the path is base_dir, SSEP, project, SSEP, then probas, USEP, stamp, PSEP, extension |
| Results.ProbasPathComponents | model.py:350-354 | with a one-character SSEP absent from the components, splitting the path on SSEP gives base_dir, project and the file name |
| Results.ProbasPathDeterminesStamp | model.py:351-354 | two stamps of one length giving the same path are equal, so files of different days do not collide |
| Results.ProbasPathDeterminesDate | model.py:326-354 | two dates giving the same path have the same month, the same day and the same year modulo 100 |
| Results.SaveResultsAsWritten | model.py:306-355 | looks up preds, then probas, then base_dir, project, extension, separator, regression, raising KeyError at the first missing one; on success saves the probabilities under the probas path with the separator as delimiter for classification, and nothing for regression |
| Results.RegressionSaveFailsAsWritten | model.py:316-317 | a regression record with predictions but no probabilities for (tag, partition) gets KeyError from save_results as written |
| Results.SaveResults | model.py:306-355 | the same lookups and file, except that the probabilities are looked up only for classification |
| Results.SaveResultsRefines | model.py:316-355 | wherever the source's save succeeds, the corrected one gives the same result; on a regression record with predictions and the specs keys it succeeds and saves nothing |

## Left out

- Logging, the `datetime.now()` timing, the metric print-out loop and the message `__new__` prints for a known project: side effects only.
- `Model.__str__`: returns the name and has no effect on the record.
- Python object creation: a `Registry` object stands for the class-level `Model.models` dictionary. `CreateAsWritten` stands for `Model(specs)` as it runs, and `Create` for `Model(specs)` as `__new__` intends it.
- Values of the wrong type in the specs dictionary. The model has no `separator` of `None` (which would split on whitespace) and no non-string `algorithms` value.
- Text.Upper: covers ASCII letters only, because the source's strings are byte strings.
- Fitting and prediction by `LogisticRegression` and `RidgeCV`, and the metric values themselves: foreign floating-point numerics. They are uninterpreted parameters assumed not to raise. The duplicate 0.005 in the ridge penalty list is kept as it is.
- numpy column assignment from anything other than a vector of the column's length or of length one: every other shape is `ShapeMismatch`.
- `np.savetxt` and the file write: `save_results` returns the request it would hand to the writer. The date itself comes in as a string argument.
- The `globs` module that defines SSEP, USEP and PSEP is not part of this model. They are parameters.
- The commented-out pickle and feature-dump code in `save_results`: it is not executed.

## Findings

| source | as written | input that shows it | evidently intended | confidence | as-written member | corrected member |
|---|---|---|---|---|---|---|
| model.py:59 | `Model` is a classic class, so `__new__` (model.py:67-77) is never called and `__init__` registers every record at model.py:111 | two `Model(specs)` calls with the same `project`: the second record replaces the first in `Model.models`, and "already exists" is never printed | a known project name is refused and the registry is left as it was | high, not executed | Store.Registry.CreateAsWritten, Store.RegistryOutcomes | Store.Registry.Create |
| model.py:317 | save_results looks up the probabilities of (tag, partition) unconditionally, before the regression guard at model.py:350 | a regression record after predict_best, which never copies probabilities for regression, saved with tag BEST: the probabilities lookup raises KeyError | for regression, save_results does nothing | medium, not executed | Results.SaveResultsAsWritten, Results.RegressionSaveFailsAsWritten | Results.SaveResults, Results.SaveResultsRefines |
