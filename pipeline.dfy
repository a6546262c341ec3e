/**
 * The scoring pipeline: `detect_fraud` (alignment, scaling, reconstruction,
 * thresholding, and the two columns it writes into the frame it is given)
 * and the part of the upload handler that counts the flagged rows and sends
 * an alert when there are any.
 */
module ScoringPipeline {
  import opened Wrappers
  import opened Frames
  import opened FeatureAlignment
  import opened ThresholdClassifier

  /** The quantile the upload handler scores with (the default of `detect_fraud`). */
  const DefaultQuantile: real := 0.95

  const ErrorColumn: string := "recon_error"
  const FlagColumn: string := "fraud_flag"

  /**
   * A pretrained collaborator, `scaler.transform` or `model.predict`, as an
   * opaque function of the matrix it is given; None stands for an exception.
   */
  type Transform = Matrix -> Option<Matrix>

  /** Whatever the collaborator returns has the shape of its input. */
  ghost predicate PreservesShape(f: Transform) {
    forall m :: f(m).Some? ==> SameShape(f(m).value, m)
  }

  /** The exceptions that abort a batch before anything is written. */
  datatype ScoreError =
    | TransformError      // the scaler raised; scikit-learn refuses a matrix without rows or without features
    | InferenceError      // the model raised
    | QuantileOutOfRange  // `np.quantile` refuses a quantile outside [0, 1]

  /** Per-row errors and flags, and the threshold that produced the flags. */
  datatype Scores = Scores(errors: seq<real>, flags: seq<int>, threshold: real)

  /** What `detect_fraud` computes for a batch under a given feature schema. */
  function Score(features: seq<string>, batch: seq<Column>, rows: nat, q: real, scale: Transform, predict: Transform)
    : Result<Scores, ScoreError>
    requires WellFormed(batch, rows) && PreservesShape(scale) && PreservesShape(predict)
  {
    var x := ToRows(Reindex(batch, features, rows), rows);
    if rows == 0 || |features| == 0 then Failure(TransformError)
    else
      match scale(x)
      case None => Failure(TransformError)
      case Some(scaled) =>
        match predict(scaled)
        case None => Failure(InferenceError)
        case Some(reconstructed) =>
          var errors := RowErrors(scaled, reconstructed);
          if !(0.0 <= q <= 1.0) then Failure(QuantileOutOfRange)
          else
            var t := LinearQuantile(errors, q);
            Success(Scores(errors, Flags(errors, t), t))
  }

  /**
   * The scaler's error is raised exactly for a batch without rows, for an
   * empty schema, or when the scaler itself refuses the aligned matrix;
   * whether the batch has numeric columns of its own does not matter.
   */
  lemma TransformErrorCases(features: seq<string>, batch: seq<Column>, rows: nat, q: real, scale: Transform, predict: Transform)
    requires WellFormed(batch, rows) && PreservesShape(scale) && PreservesShape(predict)
    ensures Score(features, batch, rows, q, scale, predict) == Failure(TransformError) <==>
      rows == 0 || |features| == 0 || scale(ToRows(Reindex(batch, features, rows), rows)).None?
  {
  }

  /** Once the schema is empty, every batch fails, whatever columns it has. */
  lemma EmptySchemaAlwaysFails(batch: seq<Column>, rows: nat, q: real, scale: Transform, predict: Transform)
    requires WellFormed(batch, rows) && PreservesShape(scale) && PreservesShape(predict)
    ensures Score([], batch, rows, q, scale, predict) == Failure(TransformError)
  {
    TransformErrorCases([], batch, rows, q, scale, predict);
  }

  /** The frame after `df["recon_error"] = mse` and `df["fraud_flag"] = ...`. */
  function WithScores(cols: seq<Column>, s: Scores): seq<Column> {
    Assign(Assign(cols, ErrorColumn, Floats(s.errors)), FlagColumn, Ints(s.flags))
  }

  /** `len(results[results["fraud_flag"] == 1])`. */
  function FlaggedCount(table: seq<Column>): nat {
    match Find(table, FlagColumn)
    case Some(Column(_, Ints(flags))) => CountOnes(flags)
    case _ => 0
  }

  /**
   * A successful score has one non-negative error and one 0/1 flag per row,
   * and a row is flagged exactly when its error is strictly above the
   * threshold; an error equal to the threshold is not flagged.
   */
  lemma ScoredRows(features: seq<string>, batch: seq<Column>, rows: nat, q: real, scale: Transform, predict: Transform)
    requires WellFormed(batch, rows) && PreservesShape(scale) && PreservesShape(predict)
    requires Score(features, batch, rows, q, scale, predict).Success?
    ensures var s := Score(features, batch, rows, q, scale, predict).value;
      |s.errors| == rows && |s.flags| == rows &&
      (forall i :: 0 <= i < rows ==> s.errors[i] >= 0.0) &&
      (forall i :: 0 <= i < rows ==> s.flags[i] in {0, 1}) &&
      (forall i :: 0 <= i < rows ==> (s.flags[i] == 1 <==> s.errors[i] > s.threshold)) &&
      (forall i :: 0 <= i < rows && s.errors[i] == s.threshold ==> s.flags[i] == 0)
  {
    var s := Score(features, batch, rows, q, scale, predict).value;
    FlagsCountAbove(s.errors, s.threshold);
  }

  /**
   * The threshold lies between the smallest and the largest error; the
   * smallest-error row is never flagged, so fewer rows than the batch holds
   * are flagged, and a single-row batch flags none.
   */
  lemma ScoredThreshold(features: seq<string>, batch: seq<Column>, rows: nat, q: real, scale: Transform, predict: Transform)
    requires WellFormed(batch, rows) && PreservesShape(scale) && PreservesShape(predict)
    requires Score(features, batch, rows, q, scale, predict).Success?
    ensures var s := Score(features, batch, rows, q, scale, predict).value;
      rows > 0 && 0.0 <= q <= 1.0 &&
      Min(s.errors) <= s.threshold <= Max(s.errors) &&
      CountOnes(s.flags) == CountAbove(s.errors, s.threshold) &&
      CountOnes(s.flags) < rows &&
      (rows == 1 ==> CountOnes(s.flags) == 0)
  {
    var s := Score(features, batch, rows, q, scale, predict).value;
    ThresholdBounds(s.errors, q);
    FlagsCountAbove(s.errors, s.threshold);
    MinimumNeverFlagged(s.errors, q);
  }

  /**
   * Scoring keeps every row and every input column: a column named neither
   * `recon_error` nor `fraud_flag` stays unchanged at its place, and the two
   * score columns read back as the errors and the flags.
   */
  lemma ScoredTable(cols: seq<Column>, rows: nat, s: Scores)
    requires WellFormed(cols, rows) && |s.errors| == rows && |s.flags| == rows
    ensures WellFormed(WithScores(cols, s), rows)
    ensures |WithScores(cols, s)| >= |cols|
    ensures forall j :: 0 <= j < |cols| && cols[j].name != ErrorColumn && cols[j].name != FlagColumn ==>
      WithScores(cols, s)[j] == cols[j]
    ensures Find(WithScores(cols, s), ErrorColumn) == Some(Column(ErrorColumn, Floats(s.errors)))
    ensures Find(WithScores(cols, s), FlagColumn) == Some(Column(FlagColumn, Ints(s.flags)))
    ensures FlaggedCount(WithScores(cols, s)) == CountOnes(s.flags)
  {
    ScoredTableShape(cols, rows, s);
    ScoredTableReadBack(cols, rows, s);
  }

  lemma ScoredTableShape(cols: seq<Column>, rows: nat, s: Scores)
    requires WellFormed(cols, rows) && |s.errors| == rows && |s.flags| == rows
    ensures WellFormed(WithScores(cols, s), rows)
    ensures |WithScores(cols, s)| >= |cols|
    ensures forall j :: 0 <= j < |cols| && cols[j].name != ErrorColumn && cols[j].name != FlagColumn ==>
      WithScores(cols, s)[j] == cols[j]
  {
    var mid := Assign(cols, ErrorColumn, Floats(s.errors));
    AssignShape(cols, ErrorColumn, Floats(s.errors));
    AssignWellFormed(cols, rows, ErrorColumn, Floats(s.errors));
    AssignShape(mid, FlagColumn, Ints(s.flags));
    AssignWellFormed(mid, rows, FlagColumn, Ints(s.flags));
  }

  lemma ScoredTableReadBack(cols: seq<Column>, rows: nat, s: Scores)
    requires WellFormed(cols, rows) && |s.errors| == rows && |s.flags| == rows
    ensures Find(WithScores(cols, s), ErrorColumn) == Some(Column(ErrorColumn, Floats(s.errors)))
    ensures Find(WithScores(cols, s), FlagColumn) == Some(Column(FlagColumn, Ints(s.flags)))
    ensures FlaggedCount(WithScores(cols, s)) == CountOnes(s.flags)
  {
    var mid := Assign(cols, ErrorColumn, Floats(s.errors));
    AssignWellFormed(cols, rows, ErrorColumn, Floats(s.errors));
    AssignFind(cols, rows, ErrorColumn, Floats(s.errors), FlagColumn);
    AssignFind(mid, rows, FlagColumn, Ints(s.flags), ErrorColumn);
  }

  /** `detect_fraud(df, threshold=q)`. */
  method DetectFraud(aligner: FeatureAligner, df: DataFrame, q: real, scale: Transform, predict: Transform)
    returns (threshold: Result<real, ScoreError>)
    requires df.Valid() && PreservesShape(scale) && PreservesShape(predict)
    modifies aligner, df
    ensures aligner.features == Some(Established(old(aligner.features), old(df.columns)))
    ensures df.Valid() && df.rows == old(df.rows)
    ensures match Score(aligner.features.value, old(df.columns), df.rows, q, scale, predict)
      case Success(s) => threshold == Success(s.threshold) && df.columns == WithScores(old(df.columns), s)
      case Failure(e) => threshold == Failure(e) && df.columns == old(df.columns)
  {
    var aligned := aligner.Align(df.columns, df.rows);
    var features := aligner.features.value;
    var x := ToRows(aligned, df.rows);
    if df.rows == 0 || |features| == 0 {
      return Failure(TransformError);
    }
    var scaled := scale(x);
    if scaled.None? {
      return Failure(TransformError);
    }
    var reconstructed := predict(scaled.value);
    if reconstructed.None? {
      return Failure(InferenceError);
    }
    var errors := RowErrors(scaled.value, reconstructed.value);
    if !(0.0 <= q <= 1.0) {
      return Failure(QuantileOutOfRange);
    }
    var t := LinearQuantile(errors, q);
    df.SetColumn(ErrorColumn, Floats(errors));
    df.SetColumn(FlagColumn, Ints(Flags(errors, t)));
    threshold := Success(t);
  }

  /** The page the upload handler renders, or the message it flashes. */
  datatype Page =
    | Results(table: seq<Column>, fraudCount: nat, total: nat, threshold: real)
    | Flash(error: ScoreError)

  /** What the upload handler answers for a parsed CSV, given the schema before the call. */
  function UploadOutcome(features: Option<seq<string>>, csv: seq<Column>, rows: nat, scale: Transform, predict: Transform): Page
    requires WellFormed(csv, rows) && PreservesShape(scale) && PreservesShape(predict)
  {
    match Score(Established(features, csv), csv, rows, DefaultQuantile, scale, predict)
    case Failure(e) => Flash(e)
    case Success(s) =>
      var table := WithScores(csv, s);
      Results(table, FlaggedCount(table), rows, s.threshold)
  }

  /** The alerts an upload sends: one carrying the count when rows were flagged, none otherwise. */
  function AlertsFor(page: Page): seq<nat> {
    if page.Results? && page.fraudCount > 0 then [page.fraudCount] else []
  }

  /**
   * A rendered result keeps every row of the upload, reports as fraud exactly
   * the rows whose error is above the threshold, and never all of them.
   */
  lemma UploadCounts(features: Option<seq<string>>, csv: seq<Column>, rows: nat, scale: Transform, predict: Transform)
    requires WellFormed(csv, rows) && PreservesShape(scale) && PreservesShape(predict)
    requires UploadOutcome(features, csv, rows, scale, predict).Results?
    ensures var page := UploadOutcome(features, csv, rows, scale, predict);
      var s := Score(Established(features, csv), csv, rows, DefaultQuantile, scale, predict).value;
      WellFormed(page.table, rows) && page.total == rows &&
      page.fraudCount == CountAbove(s.errors, page.threshold) &&
      page.fraudCount < page.total
  {
    var s := Score(Established(features, csv), csv, rows, DefaultQuantile, scale, predict).value;
    ScoredRows(Established(features, csv), csv, rows, DefaultQuantile, scale, predict);
    ScoredThreshold(Established(features, csv), csv, rows, DefaultQuantile, scale, predict);
    ScoredTable(csv, rows, s);
  }

  /** A batch of 100 rows without tied errors is reported with exactly five frauds. */
  lemma UploadHundredRows(features: Option<seq<string>>, csv: seq<Column>, scale: Transform, predict: Transform)
    requires WellFormed(csv, 100) && PreservesShape(scale) && PreservesShape(predict)
    requires UploadOutcome(features, csv, 100, scale, predict).Results?
    requires Distinct(Score(Established(features, csv), csv, 100, DefaultQuantile, scale, predict).value.errors)
    ensures UploadOutcome(features, csv, 100, scale, predict).fraudCount == 5
  {
    var s := Score(Established(features, csv), csv, 100, DefaultQuantile, scale, predict).value;
    UploadCounts(features, csv, 100, scale, predict);
    HundredRowsFlagFive(s.errors);
  }

  /**
   * The email alert. Delivery goes over the network; whether it succeeded
   * is a parameter, and a failure is only logged, never raised.
   */
  class AlertDispatcher {
    /** The fraud count of every alert attempted, in order. */
    var sent: seq<nat>
    /** How many attempts failed and were logged. */
    var failures: nat

    constructor ()
      ensures sent == [] && failures == 0
    {
      sent := [];
      failures := 0;
    }

    /** `send_email_alert(fraud_count)`. */
    method SendEmailAlert(fraudCount: nat, delivered: bool)
      modifies this
      ensures sent == old(sent) + [fraudCount]
      ensures failures == old(failures) + (if delivered then 0 else 1)
    {
      sent := sent + [fraudCount];
      if !delivered {
        failures := failures + 1;
      }
    }
  }

  /**
   * The scoring part of the upload handler: score a copy of the parsed CSV,
   * count the flagged rows, alert once with that count when it is positive.
   * An exception while scoring becomes a flashed message and no alert.
   */
  method Upload(aligner: FeatureAligner, alerts: AlertDispatcher, csv: seq<Column>, rows: nat,
                scale: Transform, predict: Transform, delivered: bool)
    returns (page: Page)
    requires WellFormed(csv, rows) && PreservesShape(scale) && PreservesShape(predict)
    modifies aligner, alerts
    ensures aligner.features == Some(Established(old(aligner.features), csv))
    ensures page == UploadOutcome(old(aligner.features), csv, rows, scale, predict)
    ensures alerts.sent == old(alerts.sent) + AlertsFor(page)
    ensures alerts.failures == old(alerts.failures) + (if AlertsFor(page) != [] && !delivered then 1 else 0)
  {
    var df := new DataFrame(csv, rows);
    var result := DetectFraud(aligner, df, DefaultQuantile, scale, predict);
    match result
    case Failure(e) =>
      page := Flash(e);
    case Success(t) =>
      var fraudCount := FlaggedCount(df.columns);
      if fraudCount > 0 {
        alerts.SendEmailAlert(fraudCount, delivered);
      }
      page := Results(df.columns, fraudCount, df.rows, t);
  }
}
