# Fraud scoring core, modelled in Dafny

A credit-card fraud detector scores uploaded transaction batches with a
pretrained autoencoder. This project models the scoring core of `app.py`
and proves properties about it. The core has three parts.

- **Feature-schema alignment** (`engineer_features_for_scoring`). The batch
  loses its `Class` label column and keeps only numeric columns. The first
  batch ever scored fixes the process-wide feature list, unless a persisted
  list was loaded at startup. Every batch is then reindexed to exactly that
  list: missing columns become `0` and extra columns are dropped.
- **Threshold classification** (`detect_fraud`). The scaler and the
  autoencoder are applied. Each row's error is the mean squared difference
  from its reconstruction. The threshold is numpy's linear quantile
  (Hyndman and Fan definition 7) of the batch's errors. A row is flagged
  exactly when its error is strictly above the threshold. The errors and
  flags are written into the frame as `recon_error` and `fraud_flag`.
- **Alert gating** (`upload`). The handler counts the rows flagged `1` and
  sends one email alert carrying that count when it is positive. A failed
  delivery is logged and swallowed.

Files (every module is declared in its own file and imported by name):

- `wrappers.dfy`: `Option` and `Result`.
- `frames.dfy`: a data frame as a sequence of named, typed columns. It has
  lookup (`Find`) and pandas column assignment (`Assign`: overwrite in place
  or append). The `DataFrame` class is what `detect_fraud` mutates.
- `alignment.dfy`: the label and dtype filters, schema establishment,
  `reindex(columns=features, fill_value=0)`, and the `FeatureAligner` class.
  That class holds the global `features` as an `Option<seq<string>>` field
  that goes from unset to set exactly once.
- `threshold.dfy`: row errors, the linear quantile over a sorted copy, strict
  flagging, and the counting lemmas.
- `pipeline.dfy`: the pure specification `Score` of `detect_fraud`, the
  `DetectFraud` and `Upload` methods proved against it, and the
  `AlertDispatcher` class.

Modelling decisions:

- Errors, data and thresholds are `real`.
- A column's dtype is its `ColumnData` constructor: `Floats` and `Ints` are
  numeric, `Texts` stands for every other dtype, booleans included.
- Column names within a frame are unique (`WellFormed`), as `pd.read_csv`
  makes them.
- `scaler.transform` and `model.predict` are function parameters of type
  `Matrix -> Option<Matrix>` that keep the shape of their input. `None`
  stands for an exception.
- Every exception raised while scoring becomes a `ScoreError`. In that case
  the handler flashes the message, leaves the frame untouched and sends no
  alert. The schema is established (`app.py:43-45`) before any of these
  exceptions can occur, so it stays set even when the batch fails.

The code raises when the batch has no rows or when the schema is empty.
Both raises come from `scaler.transform` (`app.py:50`, a scikit-learn
`RobustScaler`), whose input check refuses a matrix without rows or without
columns, so neither the autoencoder nor `np.quantile` is reached. The model makes both
cases `TransformError` (`TransformErrorCases`, `EmptySchemaAlwaysFails`).
The schema becomes empty for good when, with no persisted list, the first
batch scored has no numeric non-label column (`NoFeaturesFirstBatch`). From
then on every upload fails, even one with numeric columns. A batch without
numeric columns under a non-empty schema is not an error: it is zero-filled
(`NoFeaturesZeroFilled`) and scored. A single-row batch does not raise
either: its threshold is its only error and nothing is flagged
(`ScoredThreshold`).

## Model

| member | source | states |
|---|---|---|
| Frames.ColumnData.AsReals | app.py:48-50 | a numeric column read as reals has one value per row: floats unchanged, integers converted exactly |
| Frames.Find | app.py:109 | looking a name up returns a column of the frame that has that name, or reports that no column has it |
| Frames.UniqueFind | app.py:109 | in a frame with unique names, looking up a column's name returns that very column |
| Frames.Assign | app.py:61-62 | pandas `df[name] = data`; `AssignShape`, `AssignWellFormed` and `AssignFind` state that it replaces in place or appends, keeps the frame well formed, and reads back as written |
| Frames.AssignShape | app.py:61-62 | assigning a column overwrites the same-named column in place, or appends a new one at the end; every other column keeps its position |
| Frames.AssignWellFormed | app.py:61-62 | assigning a column with one value per row keeps names unique and the row count unchanged |
| Frames.AssignFind | app.py:61-62 | after assignment the name reads back the new data, and every other name reads back what it did before |
| Frames.DataFrame.constructor | app.py:107 | `df.copy()`: a fresh frame holding the parsed columns and row count |
| Frames.DataFrame.SetColumn | app.py:61-62 | the frame's columns become the pandas assignment of the old ones; the row count is kept |
| FeatureAlignment.DropLabel | app.py:38-39 | the result holds exactly the batch's columns not named `Class` |
| FeatureAlignment.SelectNumeric | app.py:41 | the result holds exactly the numeric columns |
| FeatureAlignment.Retained | app.py:38-41 | the label drop followed by `select_dtypes`; `RetainedMembers`, `RetainedAppend` and `RetainedUnique` state which columns survive, in what order, with unique names |
| FeatureAlignment.Candidates | app.py:44 | `list(df.columns)` of the filtered batch; `CandidatesProperties` states that it names exactly the numeric non-label columns, without `Class` or duplicates |
| FeatureAlignment.RetainedMembers | app.py:38-41 | a column survives both filters iff it is numeric and not named `Class` |
| FeatureAlignment.RetainedAppend | app.py:38-41 | both filters work column by column, so they keep the batch's column order |
| FeatureAlignment.RetainedAllNumeric | app.py:38-41 | a batch of numeric non-label columns passes both filters unchanged |
| FeatureAlignment.RetainedUnique | app.py:38-41 | filtering never creates duplicate names |
| FeatureAlignment.DropLabelAppend | app.py:38-39 | dropping the label works column by column and keeps the order |
| FeatureAlignment.SelectNumericAppend | app.py:41 | selecting numeric columns works column by column and keeps the order |
| FeatureAlignment.DropLabelUnique | app.py:38-39 | dropping the label never creates duplicate names |
| FeatureAlignment.SelectNumericUnique | app.py:41 | selecting numeric columns never creates duplicate names |
| FeatureAlignment.CandidatesProperties | app.py:38-44 | a freshly established schema never contains `Class`; it names exactly the numeric non-label columns, with no duplicates |
| FeatureAlignment.Filled | app.py:48 | each aligned column has one value per row |
| FeatureAlignment.Reindex | app.py:48 | the aligned columns are exactly the schema's, in the schema's order, whatever the batch's order; each is numeric with one value per row, and batch columns outside the schema are absent |
| FeatureAlignment.ReindexFillsMissing | app.py:48 | a schema column with no numeric non-label counterpart in the batch is `0` in every row |
| FeatureAlignment.ReindexKeepsPresent | app.py:48 | a schema column present in the batch keeps its per-row values |
| FeatureAlignment.ReindexIgnoresColumnOrder | app.py:48 | two batches holding the same columns in different orders align identically |
| FeatureAlignment.FilledIgnoresOrder | app.py:48 | one schema column is filled identically from two batches holding the same columns in different orders |
| FeatureAlignment.ReindexIdempotent | app.py:48 | aligning an aligned batch again changes nothing and keeps the row count |
| FeatureAlignment.BootstrapKeepsRetained | app.py:38-48 | a batch aligned to the schema it established is its filtered columns, in order, with their values |
| FeatureAlignment.ToRows | app.py:50 | the aligned columns become a matrix with one row per record and one entry per feature; entry `[i][j]` is record `i` of the `j`-th aligned column, so the scaler sees the features in the schema's order |
| FeatureAlignment.Established | app.py:43-45 | the global `features` after one call: kept when already set, otherwise the batch's candidates; `Align` is proved to leave the schema exactly here |
| FeatureAlignment.SchemaAfter | app.py:43-45 | the schema after a run of calls; `SchemaFixedByFirstBatch` states that only the persisted list or the first batch decides it |
| FeatureAlignment.SchemaFixedByFirstBatch | app.py:43-45 | over any sequence of batches, the schema is the persisted one or the one the first batch established; later batches never change it |
| FeatureAlignment.NothingRetained | app.py:38-41 | a batch whose columns are all the label or non-numeric keeps no column through the two filters |
| FeatureAlignment.NoFeaturesFirstBatch | app.py:38-45 | with no persisted list, a first batch without a numeric non-label column establishes the empty schema, and every later batch leaves it empty |
| FeatureAlignment.NoFeaturesZeroFilled | app.py:41-48 | under any schema, a batch without a numeric non-label column aligns to zeros in every feature and row |
| FeatureAlignment.TrailingLabelDropped | app.py:38-44 | with no persisted schema, numeric non-label columns followed by the label establish exactly those columns' names, in order |
| FeatureAlignment.BootstrapScenario | app.py:38-45 | numeric columns A, B, C followed by `Class` establish the schema [A, B, C] |
| FeatureAlignment.ReindexScenario | app.py:48 | under schema [A, B, C], a batch with columns B, C, D aligns to A (all zeros), B, C, and D is dropped |
| FeatureAlignment.FeatureAligner.constructor | app.py:27-32 | the schema starts as the persisted list, or unset when none was loaded |
| FeatureAlignment.FeatureAligner.Align | app.py:34-48 | if the schema was set it is unchanged; if unset it becomes the batch's numeric non-label column names in order; the result is the batch reindexed to the schema |
| ThresholdClassifier.SumSquares | app.py:58 | a sum of squared differences is non-negative |
| ThresholdClassifier.RowError | app.py:58 | a row's mean squared error is non-negative |
| ThresholdClassifier.PerfectReconstruction | app.py:58 | a row reconstructed exactly has error zero |
| ThresholdClassifier.RowErrors | app.py:58 | there is one non-negative error per row |
| ThresholdClassifier.Insert | app.py:60 | inserting into an ordered sequence gives an ordered sequence one longer, headed by the new value or the old head |
| ThresholdClassifier.InsertPermutes | app.py:60 | insertion adds exactly the new value and loses nothing |
| ThresholdClassifier.Sort | app.py:60 | the quantile's sorted copy is ordered and as long as the errors |
| ThresholdClassifier.SortPermutes | app.py:60 | the sorted copy holds exactly the errors, with their multiplicities |
| ThresholdClassifier.PermutationFirst | app.py:60 | the first element of an ordered rearrangement is the minimum |
| ThresholdClassifier.PermutationLast | app.py:60 | the last element of an ordered rearrangement is the maximum |
| ThresholdClassifier.SortEnds | app.py:60 | the sorted copy starts with the smallest error and ends with the largest |
| ThresholdClassifier.Times | app.py:60 | `k` steps of a fraction `q` in [0, 1] stay within [0, k] |
| ThresholdClassifier.TimesIsProduct | app.py:60 | the virtual index computed by repeated steps equals the product `(n-1)q` |
| ThresholdClassifier.TimesMonotone | app.py:60 | a larger fraction never gives a smaller virtual index |
| ThresholdClassifier.Min | app.py:60 | the smallest error is one of the errors and no error is below it |
| ThresholdClassifier.Max | app.py:60 | the largest error is one of the errors and no error is above it |
| ThresholdClassifier.VirtualIndex | app.py:60 | numpy's virtual index `(n-1)q` lies within the sorted errors |
| ThresholdClassifier.Lower | app.py:60 | the lower neighbour is `floor((n-1)q)`, a valid index |
| ThresholdClassifier.Upper | app.py:60 | the upper neighbour is the next index, clamped to the last; when clamped, the virtual index is exact |
| ThresholdClassifier.Lerp | app.py:60 | numpy's linear interpolation `a + (b-a)g`; `LerpBetween`, `LerpStart` and `LerpMonotone` state that it stays between its ends, starts at `a` and grows with `g` |
| ThresholdClassifier.SortedQuantile | app.py:60 | numpy's linear quantile of already sorted values; the `SortedQuantile…` lemmas state its bounds, endpoints, monotonicity and flagged count |
| ThresholdClassifier.LinearQuantile | app.py:60 | `np.quantile(mse, q)`: the linear quantile of a sorted copy; `ThresholdBounds`, `QuantileEndpoints`, `QuantileMonotone`, `FlaggedAtMost` and `FlaggedCountUntied` state what it promises |
| ThresholdClassifier.VirtualIndexMonotone | app.py:60 | a higher quantile never moves the virtual index or its lower neighbour down |
| ThresholdClassifier.LerpBetween | app.py:60 | interpolating between two ordered values stays between them, and strictly below the upper one when the two values differ and the fraction is below 1 |
| ThresholdClassifier.LerpMonotone | app.py:60 | a larger fraction never interpolates lower |
| ThresholdClassifier.SortedQuantileBetween | app.py:60 | on sorted errors the threshold lies between the two neighbours it interpolates |
| ThresholdClassifier.SortedQuantileBounds | app.py:60 | on sorted errors the threshold lies between the first and the last |
| ThresholdClassifier.SortedQuantileAtRank | app.py:60 | when the virtual index is a whole number the threshold is exactly the error at that rank, with no interpolation |
| ThresholdClassifier.SortedQuantileZero | app.py:60 | quantile 0 of sorted errors is the first |
| ThresholdClassifier.SortedQuantileOne | app.py:60 | quantile 1 of sorted errors is the last |
| ThresholdClassifier.SortedQuantileBelowNext | app.py:60 | when the error at the lower rank is strictly below the next one, the threshold lies strictly below that next error |
| ThresholdClassifier.SortedQuantileMonotone | app.py:60 | on sorted errors a higher quantile never gives a lower threshold |
| ThresholdClassifier.SortedQuantileCountAtMost | app.py:60-62 | on sorted errors at most `n-1-floor((n-1)q)` lie strictly above the threshold |
| ThresholdClassifier.SortedQuantileCountExact | app.py:60-62 | on sorted errors not tied at the cutoff rank, exactly `n-1-floor((n-1)q)` lie strictly above the threshold |
| ThresholdClassifier.ThresholdBounds | app.py:60 | for a nonempty batch the threshold lies between the minimum and the maximum error |
| ThresholdClassifier.QuantileEndpoints | app.py:60 | quantile 0 is the minimum error and quantile 1 the maximum |
| ThresholdClassifier.ConstantThreshold | app.py:60 | when all errors are equal, the threshold is that error |
| ThresholdClassifier.QuantileMonotone | app.py:60 | a higher quantile never gives a lower threshold |
| ThresholdClassifier.Flags | app.py:62 | `(recon_error > threshold).astype(int)`; `FlagsCountAbove` states one 0/1 flag per row, 1 iff strictly above |
| ThresholdClassifier.CountAbove | app.py:62 | the number of errors strictly above a threshold; the `CountAbove…` lemmas state its bounds and how it adds up |
| ThresholdClassifier.CountOnes | app.py:109-110 | `len(results[results["fraud_flag"] == 1])`; `FlagsCountAbove` states that it equals the count of errors above the threshold |
| ThresholdClassifier.FlagsCountAbove | app.py:62 | there is one flag per row; it is 0 or 1, and 1 iff the error is strictly above the threshold; the number of 1s is the number of errors above it |
| ThresholdClassifier.CountAboveSort | app.py:60-62 | counting errors above a threshold does not depend on their order |
| ThresholdClassifier.CountAboveAppend | app.py:62 | the count above a threshold adds up over the two halves of a batch |
| ThresholdClassifier.CountAboveInsert | app.py:60-62 | inserting a value adds one to the count above a threshold iff the value is above it |
| ThresholdClassifier.CountAboveNone | app.py:62 | when no error exceeds the threshold, nothing is counted |
| ThresholdClassifier.CountAboveAll | app.py:62 | when every error exceeds the threshold, every row is counted |
| ThresholdClassifier.CountAboveAtMost | app.py:62 | no more rows are counted than there are |
| ThresholdClassifier.CountAboveBelowLength | app.py:62 | when some error is at or below the threshold, fewer than all rows are counted |
| ThresholdClassifier.SortedCountAtMost | app.py:60-62 | on sorted errors, if the error at rank `lo` is at or below the threshold, at most the ranks above `lo` are counted |
| ThresholdClassifier.SortedCountExact | app.py:60-62 | on sorted errors whose rank `lo` is at or below the threshold and rank `lo+1` above it, exactly the ranks above `lo` are counted |
| ThresholdClassifier.SortedStrictly | app.py:60 | sorting errors with no ties gives a strictly increasing sequence |
| ThresholdClassifier.FlaggedAtMost | app.py:60-62 | at most `n-1-floor((n-1)q)` rows are flagged |
| ThresholdClassifier.FlaggedCountUntied | app.py:60-62 | unless the sorted errors tie at the cutoff rank `floor((n-1)q)`, exactly `n-1-floor((n-1)q)` rows are flagged |
| ThresholdClassifier.FlaggedCountWithoutTies | app.py:60-62 | with no tied errors at all, exactly `n-1-floor((n-1)q)` rows are flagged |
| ThresholdClassifier.HundredRowsLowerRank | app.py:54-60 | for 100 rows at the default quantile 0.95 the virtual index is 94.05, so the lower neighbour is rank 94 |
| ThresholdClassifier.HundredRowsFlagFive | app.py:54-62 | 100 rows with distinct errors at the default quantile 0.95 flag exactly 5 |
| ThresholdClassifier.MinimumNeverFlagged | app.py:60-62 | the minimum-error row is never flagged, so fewer than all rows are flagged |
| ThresholdClassifier.ConstantBatchFlagsNothing | app.py:60-62 | a batch whose errors are all equal has no flags |
| ScoringPipeline.Score | app.py:34-62 | what `detect_fraud` computes or raises; `ScoredRows` and `ScoredThreshold` state its rows and threshold, and `DetectFraud` is proved against it |
| ScoringPipeline.TransformErrorCases | app.py:50 | scoring raises the scaler's error exactly when the batch has no rows, the schema is empty, or the scaler refuses the aligned matrix |
| ScoringPipeline.EmptySchemaAlwaysFails | app.py:43-50 | under the empty schema every batch fails with the scaler's error, whatever columns it has |
| ScoringPipeline.WithScores | app.py:61-62 | the frame after writing `recon_error` and `fraud_flag`; `ScoredTable` states that it keeps every row and column and reads back the scores |
| ScoringPipeline.FlaggedCount | app.py:109-110 | the number of rows whose `fraud_flag` is 1; `ScoredTable` states that it equals the count of 1 flags |
| ScoringPipeline.ScoredRows | app.py:56-62 | a successful score has one non-negative error and one 0/1 flag per row; a flag is 1 iff the error is strictly above the threshold, and an error equal to the threshold is not flagged |
| ScoringPipeline.ScoredThreshold | app.py:58-62 | the threshold lies between the minimum and maximum error; flagged rows are exactly those above it and never all rows; a single-row batch has no flags |
| ScoringPipeline.ScoredTable | app.py:61-62 | scoring keeps every row and every other column in place; `recon_error` reads back the errors and `fraud_flag` the flags, and the count of `fraud_flag == 1` equals the number of flags |
| ScoringPipeline.DetectFraud | app.py:54-64 | the schema is established as `Align` states; on success the frame gains exactly the two score columns and the threshold is returned; on an exception the frame is unchanged and the error is returned |
| ScoringPipeline.UploadOutcome | app.py:107-113 | the page the handler renders or the message it flashes; `UploadCounts` states its counts and `Upload` is proved against it |
| ScoringPipeline.AlertsFor | app.py:109-113 | the alerts one upload sends: one carrying the count when it is positive, none otherwise; `Upload` is proved to send exactly these |
| ScoringPipeline.UploadCounts | app.py:107-110 | a rendered result keeps all rows (`total`); `fraud_count` is the number of errors strictly above the threshold and is below `total` |
| ScoringPipeline.UploadHundredRows | app.py:107-113 | an upload of 100 rows with distinct errors reports exactly 5 frauds |
| ScoringPipeline.AlertDispatcher.SendEmailAlert | app.py:67-84 | every call records one alert carrying the count; a failed delivery is only counted as a logged failure and never raised |
| ScoringPipeline.Upload | app.py:103-113 | the page is determined by the parsed CSV and the schema alone, whatever happens to the email; one alert carrying the fraud count is sent iff scoring succeeded and the count is positive, and none otherwise; a failure is logged exactly when that alert was sent and not delivered, and the handler itself never fails on it |

## Left out

- Flask routing, the missing or empty file checks, `flash`/`redirect` and the HTML rendering (`app.py:87-101`, `115-125`): these are web I/O. A scoring exception is modelled as the `Flash` page.
- `pd.read_csv` parsing and dtype inference: the model starts from parsed, typed columns. Missing values (NaN) are not modelled.
- The internals of `scaler.transform` and `model.predict` (`app.py:24-25`, `50`, `57`), and model and scaler loading: these are foreign library code, modelled as shape-preserving function parameters that may fail.
- The joblib load and dump of the feature list (`app.py:27-32`, `45`): this is file I/O. The persisted list is the constructor's argument and the schema is the aligner's field.
- The SMTP and MIME construction and sending (`app.py:69-81`): this is network I/O. Delivery success is a parameter of `SendEmailAlert`.
- The `print` log lines: console I/O.
- IEEE floating point: errors, means, the quantile interpolation and the comparisons are over the reals.
- `round(threshold, 5)` in the rendered page (`app.py:120`): `Upload` returns the exact threshold.
- Requests served concurrently against the global schema: the model scores one request at a time.
- RowError: states non-negativity and zero for an exact reconstruction, but not the converse (a zero error means an exact reconstruction).
