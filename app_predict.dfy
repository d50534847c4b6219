/**
 * The `/api/predict` route of app.py (`predict_churn`): the bundle check,
 * the file-name check, the `'pipeline'` lookup, the empty-upload check, the encoding loop, column
 * cleaning, the required-column check and renames, feature engineering,
 * scoring, and the per-row output with its summary. Every error becomes an
 * HTTP status with a detail text; anything other than the route's own
 * 400/503 responses becomes a 500 "Prediction Failed: ...". The model's
 * `predict_proba` is an input: the probabilities it returns for the
 * engineered table, or the error it raises.
 */
module AppPredict {
  import opened Wrappers
  import opened Text
  import opened Frames
  import opened ColumnNames
  import opened Ingestion
  import FeatureEngineering
  import opened AppScoring
  import opened BundleCache

  /** The JSON body of a successful call, or the status and detail of the `HTTPException` raised. */
  datatype Response =
    | Predictions(predictions: seq<OutputRecord>, summary: Summary)
    | HttpError(status: nat, detail: string)

  const Unavailable := "Prediction model is currently unavailable. Please try again later."
  const ModelNotLoaded := "Model not loaded"
  const InvalidFormat := "Invalid file format. Please upload a CSV file."
  const EmptyUpload := "Uploaded file is empty."
  const InvalidPipeline := "Invalid model pipeline"
  /** `str(KeyError('pipeline'))`, for a bundle dict without that key. */
  const MissingPipeline := "'pipeline'"
  /** pandas' error for a column of `values` cells stored into a table of `index` rows. */
  function LengthMismatch(values: nat, index: nat): string
  {
    "Length of values (" + NatToString(values) + ") does not match length of index (" + NatToString(index) + ")"
  }

  /** An uploaded file: its name, whether its contents are empty, and what each read of it yields. */
  datatype Upload = Upload(filename: string, empty: bool, read: string -> ReadOutcome, fallback: ReadOutcome)

  /** Any exception other than an `HTTPException`, as the route reports it. */
  function Failed(e: string): Response
  {
    HttpError(500, "Prediction Failed: " + e)
  }

  /** The table the encoding loop keeps, or the result of the default-decoder fallback. */
  function UploadTable(read: string -> ReadOutcome, fallback: ReadOutcome): Result<Frame, string>
  {
    match Chosen(Attempts(read))
    case Some(t) => Success(t)
    case None => FallbackResult(fallback)
  }

  /** `[ultra_clean(col) for col in df.columns]`. */
  function CleanNames(cols: seq<string>): (r: seq<string>)
    ensures |r| == |cols|
  {
    seq(|cols|, k requires 0 <= k < |cols| => UltraClean(cols[k]))
  }

  /** The table with cleaned names, checked for the required columns and renamed to their declared casing. */
  function CanonicalTable(df: Frame): Result<Frame, string>
  {
    var found := CleanNames(df.columns);
    match Canonicalize(found)
    case Failure(msg) => Failure(msg)
    case Success(names) =>
      CanonicalizeSpec(found);
      Success(Relabel(Relabel(df, found), names))
  }

  /** What the route answers once a bundle is available. */
  function Respond(bundle: Bundle, up: Upload, score: Frame -> Result<seq<real>, string>): Response
  {
    if !EndsWith(up.filename, ".csv") then HttpError(400, InvalidFormat)
    else if !bundle.hasPipeline then Failed(MissingPipeline)
    else if up.empty then HttpError(400, EmptyUpload)
    else
      match UploadTable(up.read, up.fallback)
      case Failure(e) => Failed(e)
      case Success(df) => RespondTable(bundle, df, score)
  }

  /** The answer for a table that was read: column check and renames, then feature engineering. */
  function RespondTable(bundle: Bundle, df: Frame, score: Frame -> Result<seq<real>, string>): Response
  {
    match CanonicalTable(df)
    case Failure(msg) => HttpError(400, msg)
    case Success(t) =>
      match FeatureEngineering.Engineer(t)
      case Failure(e) => Failed(e)
      case Success(eng) => RespondScored(bundle, eng, score)
  }

  /** The answer for the engineered table: the pipeline check, scoring and the output records. */
  function RespondScored(bundle: Bundle, eng: Frame, score: Frame -> Result<seq<real>, string>): Response
  {
    if !bundle.hasPredictProba then Failed(InvalidPipeline)
    else
      match score(eng)
      case Failure(e) => Failed(e)
      case Success(probs) =>
        if |probs| != |eng.rows| then Failed(LengthMismatch(|probs|, |eng.rows|))
        else
          var out := Records(eng.rows, probs, BatchMeanCharges(eng));
          Predictions(out, Summarize(out))
  }

  /**
   * `predict_churn`: with no bundle the answer is 503; otherwise the route
   * answers for the cached bundle (or the one loaded now), and the cache
   * keeps that bundle. The bundle is fetched a second time after the
   * file-name check; `stillExists` says whether the file is still there then,
   * and without it the answer is 503 "Model not loaded".
   */
  method PredictChurn(cache: Cache, fileExists: bool, stillExists: bool, onDisk: Bundle, up: Upload,
                      score: Frame -> Result<seq<real>, string>)
    returns (resp: Response)
    modifies cache
    ensures !fileExists ==> resp == HttpError(503, Unavailable) && cache.cached == old(cache.cached)
    ensures fileExists ==>
      var b := if old(cache.cached).Some? then old(cache.cached).value else onDisk;
      && cache.cached == Some(b)
      && resp == if EndsWith(up.filename, ".csv") && !stillExists then HttpError(503, ModelNotLoaded)
                 else Respond(b, up, score)
  {
    var bundle := cache.GetBundle(fileExists, onDisk);
    if bundle.None? {
      return HttpError(503, Unavailable);
    }
    if !EndsWith(up.filename, ".csv") {
      return HttpError(400, InvalidFormat);
    }
    var again := cache.GetBundle(stillExists, onDisk);
    if again.None? {
      return HttpError(503, ModelNotLoaded);
    }
    assert again == bundle;
    var b := again.value;
    if !b.hasPipeline {
      return Failed(MissingPipeline);
    }
    if up.empty {
      return HttpError(400, EmptyUpload);
    }
    var table := ReadUpload(up.read, up.fallback);
    ChosenNoneIffAllFailed(Attempts(up.read));
    assert table == UploadTable(up.read, up.fallback);
    if table.Failure? {
      return Failed(table.error);
    }
    var canonical := CanonicalTable(table.value);
    if canonical.Failure? {
      return HttpError(400, canonical.error);
    }
    var engineered := FeatureEngineering.Engineer(canonical.value);
    if engineered.Failure? {
      return Failed(engineered.error);
    }
    var eng := engineered.value;
    if !b.hasPredictProba {
      return Failed(InvalidPipeline);
    }
    var scored := score(eng);
    if scored.Failure? {
      return Failed(scored.error);
    }
    var probs := scored.value;
    if |probs| != |eng.rows| {
      return Failed(LengthMismatch(|probs|, |eng.rows|));
    }
    var mean := BatchMeanCharges(eng);
    var out := BuildOutput(eng.rows, probs, mean);
    assert out == Records(eng.rows, probs, mean);
    resp := Predictions(out, Summarize(out));
  }

  /**
   * The route answers 400 exactly for a non-CSV name, or, when the bundle
   * has its pipeline, for an empty upload or a readable table missing a
   * required column; every other error is 500, a bundle without its
   * pipeline included.
   */
  lemma RespondStatus(bundle: Bundle, up: Upload, score: Frame -> Result<seq<real>, string>)
    ensures Respond(bundle, up, score).HttpError? ==> Respond(bundle, up, score).status in {400, 500}
    ensures Respond(bundle, up, score).HttpError? && Respond(bundle, up, score).status == 400 <==>
      || !EndsWith(up.filename, ".csv")
      || (bundle.hasPipeline && up.empty)
      || (bundle.hasPipeline && UploadTable(up.read, up.fallback).Success? && CanonicalTable(UploadTable(up.read, up.fallback).value).Failure?)
    ensures !EndsWith(up.filename, ".csv") ==> Respond(bundle, up, score) == HttpError(400, InvalidFormat)
    ensures EndsWith(up.filename, ".csv") && !bundle.hasPipeline ==> Respond(bundle, up, score) == Failed(MissingPipeline)
    ensures EndsWith(up.filename, ".csv") && bundle.hasPipeline && up.empty ==> Respond(bundle, up, score) == HttpError(400, EmptyUpload)
  {
    if EndsWith(up.filename, ".csv") && bundle.hasPipeline && !up.empty && UploadTable(up.read, up.fallback).Success? {
      TableStatus(bundle, UploadTable(up.read, up.fallback).value, score);
    }
  }

  /** After a successful read, only the column check answers 400; every other error is 500. */
  lemma TableStatus(bundle: Bundle, df: Frame, score: Frame -> Result<seq<real>, string>)
    ensures RespondTable(bundle, df, score).HttpError? ==> RespondTable(bundle, df, score).status in {400, 500}
    ensures RespondTable(bundle, df, score).HttpError? && RespondTable(bundle, df, score).status == 400 <==>
      CanonicalTable(df).Failure?
  {
    match CanonicalTable(df)
    case Failure(msg) =>
    case Success(t) =>
      match FeatureEngineering.Engineer(t)
      case Failure(e) =>
      case Success(eng) => ScoredStatus(bundle, eng, score);
  }

  /** Scoring fails only with 500. */
  lemma ScoredStatus(bundle: Bundle, eng: Frame, score: Frame -> Result<seq<real>, string>)
    ensures RespondScored(bundle, eng, score).HttpError? ==> RespondScored(bundle, eng, score).status == 500
  {
  }

  /** A readable upload lacking required columns is answered 400, and the detail names every one of them. */
  lemma RespondMissingColumns(bundle: Bundle, up: Upload, score: Frame -> Result<seq<real>, string>, r: string)
    requires EndsWith(up.filename, ".csv") && bundle.hasPipeline && !up.empty
    requires UploadTable(up.read, up.fallback).Success?
    requires r in RequiredColumns
    requires Lower(r) !in LowerAll(CleanNames(UploadTable(up.read, up.fallback).value.columns))
    ensures Respond(bundle, up, score).HttpError? && Respond(bundle, up, score).status == 400
    ensures Contains(Respond(bundle, up, score).detail, r)
  {
    var found := CleanNames(UploadTable(up.read, up.fallback).value.columns);
    CanonicalizeFailure(found);
  }

  /**
   * A successful answer has one record per uploaded row, in row order, each
   * built and classified from its own engineered row and probability, and
   * the summary is taken over those records.
   */
  lemma RespondPredictions(bundle: Bundle, up: Upload, score: Frame -> Result<seq<real>, string>) returns (eng: Frame, probs: seq<real>)
    requires Respond(bundle, up, score).Predictions?
    ensures UploadTable(up.read, up.fallback).Success?
    ensures CanonicalTable(UploadTable(up.read, up.fallback).value).Success?
    ensures FeatureEngineering.Engineer(CanonicalTable(UploadTable(up.read, up.fallback).value).value) == Success(eng)
    ensures bundle.hasPipeline && score(eng) == Success(probs) && bundle.hasPredictProba
    ensures |probs| == |eng.rows| == |UploadTable(up.read, up.fallback).value.rows|
    ensures var out := Respond(bundle, up, score).predictions;
      && |out| == |probs|
      && (forall k :: 0 <= k < |out| ==> out[k] == RecordFor(eng.rows[k], probs[k], BatchMeanCharges(eng)))
      && (forall k :: 0 <= k < |out| ==> out[k].risk == ClassifyRisk(probs[k]))
    ensures Respond(bundle, up, score).summary == Summarize(Records(eng.rows, probs, BatchMeanCharges(eng)))
  {
    var df := UploadTable(up.read, up.fallback).value;
    assert Respond(bundle, up, score) == RespondTable(bundle, df, score);
    var t := CanonicalTable(df).value;
    eng := FeatureEngineering.Engineer(t).value;
    assert RespondTable(bundle, df, score) == RespondScored(bundle, eng, score);
    probs := score(eng).value;
    ScoredRecords(bundle, eng, score);
  }

  /** A scored answer holds one record per engineered row, each built from that row and its probability. */
  lemma ScoredRecords(bundle: Bundle, eng: Frame, score: Frame -> Result<seq<real>, string>)
    requires RespondScored(bundle, eng, score).Predictions?
    ensures bundle.hasPredictProba && score(eng).Success? && |score(eng).value| == |eng.rows|
    ensures var out := RespondScored(bundle, eng, score).predictions;
      && out == Records(eng.rows, score(eng).value, BatchMeanCharges(eng))
      && (forall k :: 0 <= k < |out| ==> out[k] == RecordFor(eng.rows[k], score(eng).value[k], BatchMeanCharges(eng)))
      && (forall k :: 0 <= k < |out| ==> out[k].risk == ClassifyRisk(score(eng).value[k]))
    ensures RespondScored(bundle, eng, score).summary == Summarize(Records(eng.rows, score(eng).value, BatchMeanCharges(eng)))
  {
  }

  /** The summary counts every record once: the four level counts add up to the number of records. */
  lemma RespondSummary(bundle: Bundle, up: Upload, score: Frame -> Result<seq<real>, string>)
    requires Respond(bundle, up, score).Predictions?
    ensures var s := Respond(bundle, up, score).summary;
      s.total == |Respond(bundle, up, score).predictions| && s.high + s.medium + s.stable + s.low == s.total
  {
    var eng, probs := RespondPredictions(bundle, up, score);
    SummaryCountsBands(eng.rows, probs, BatchMeanCharges(eng));
  }
}
