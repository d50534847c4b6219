# ChurnAI core, modelled in Dafny

This project models the deterministic, rule-based logic of the ChurnAI
customer-churn platform, and proves what that logic promises. The learned
models are out of scope: a classifier's probabilities, a CSV reader's
output, a KS-test p-value and pandera's dtype checks are all inputs to the
model.

A table is a `Frame`: its column names, plus a sequence of rows. Each row
maps column names to cells (`Str`, `Num(real)` or `Null`). A missing key
reads as `Null`.

One module per concern, each in its own file:

- **Upload canonicalisation** (app.py, debug_csv.py).
  - `ColumnNames`: `ultra_clean` / `clean_col` as three strips followed by
    the trim of non-alphanumeric borders.
  - `Ingestion`: the three-encoding read loop and its default-decoder
    fallback; the case-insensitive check for the 19 required columns,
    naming every missing one; and the two rename maps.
  - `DebugCsv`: the header diagnosis script.
- **The `/api/predict` route** (app.py).
  - `BundleCache`: the lazily loaded `_BUNDLE`, as a class with an optional
    field.
  - `AppScoring`: risk bands, the reason chain, the output loop and the
    summary counts.
  - `AppPredict`: the whole route as a response function, plus the method
    that runs it against the cache.
- **The `/api/benchmark` and `/api/feature-importance` routes**
  (`BenchmarkView`): header normalisation, derived metrics, clipping to
  [0, 1], ordering by ROC-AUC, and the built-in fallback tables.
- **Three feature-synthesis variants**. Their tenure buckets, "active
  service" rules and batch dependence differ.
  - `FeatureEngineering`: features/feature_engineering.py.
  - `MasterclassEngine`: masterclass_engine.py.
  - `NotebookScripts`: `engineer_features`, `map_attrition_window` and the
    target lists of run_masterclass.py and run_masterclass_fixed.py. The
    two scripts share this code at different lines.
- **Validation**.
  - `Schema`: a small interpreter of pandera-style column declarations.
  - `Validation`: `DataValidator.validate`, an ordered first-failure
    verdict, plus `detect_drift`.
  - `DataGate`: `validate_dataset`.
- **Training and reporting**.
  - `Train`: the champion-selection loop of `train_and_benchmark`.
  - `Explainability`: reason codes and feature importances.
  - `Predict`: report labelling.
  - `Forecasting`: churn horizons and the lifetime simulation.
- **Shared helpers**.
  - `Wrappers`: `Option` and `Result`.
  - `Text`: ASCII lower-casing, joining, substrings, decimal numerals.
  - `Frames`: tables and cell arithmetic.
  - `Sorting`: a stable descending sort, medians, counts above a threshold.
  - `Binning`: `pd.cut` with right-closed intervals.
  - `ReasonChains`: "the first two firing reasons joined by ' + '".

Imperative source code is imperative here.
- `get_bundle` is `BundleCache.Cache.GetBundle`, with `modifies`.
- These loops are methods, each proved equal to a pure function of its inputs:
  - the encoding loop (`Ingestion.SelectEncoding`);
  - the output loop (`AppScoring.BuildOutput`);
  - `explain_churn` and `generate_reason_codes`, which append to a list;
  - the benchmark clip loop (`BenchmarkView.ClipMetrics`);
  - the champion loop (`Train.TrainAndBenchmark`);
  - the drift loop (`Validation.DetectDrift`);
  - the month loop (`Forecasting.ForecastCustomerLifetime`).

Vectorised pandas code is written as functions over rows.

Behaviours of the code that a reader might not expect, each pinned down by
the model:

- **Duplicate-count message.** A table with a repeated customerID never
  gets the duplicate-count message from `DataValidator.validate`.
  `customerID` is declared `unique` in the schema, so the schema stage
  rejects the table first (`Validation.DuplicateStageUnreachable`).
- **Error statuses.** The route answers 500 "Prediction Failed: ...", not a
  client or service-unavailable status, in three cases:
  - a pipeline without `predict_proba` ("Invalid model pipeline");
  - a bundle dict without a `'pipeline'` entry ("Prediction Failed:
    'pipeline'"), which is answered before the empty-upload check;
  - an unreadable upload.
- **A missing bundle file.** The code's answer is 503 even when a bundle is
  already cached, because `get_bundle` checks the file first.
- **The repeated `get_bundle` call.** `predict_churn` fetches the bundle a
  second time after the file-name check. If the bundle file has disappeared
  in between, that call returns None and the answer is 503 "Model not
  loaded", even though the bundle is still cached.
- **Sort order.** The benchmark report is sorted with pandas' default sort,
  which is not stable, so the model states only "sorted and a permutation".
  Ties keep their enumeration order only in the champion choice, where the
  strict `>` picks the earliest maximum.
- **Batch and label dependence.** Two feature rules are not row-local:
  - masterclass_engine.py compares MonthlyCharges with the batch median;
  - the notebook scripts count the `Churn` label among the "Yes" cells.

  So neither feature is a function of its own row alone. The lemmas
  `MasterclassEngine.HighMonthlyDependsOnBatch` and
  `NotebookScripts.ServiceCountLeak` pin both behaviours down.
- **Charges cap.** The `MonthlyCharges` range differs between the two
  gates. src/validation.py caps it at 1000; data_validation/validator.py
  has no cap (`DataGate.GatesDisagreeOnCap`).

## Model

| member | source | states |
|---|---|---|
| BundleCache.Cache.constructor | app.py:35 | the cache starts empty and nothing has been loaded |
| BundleCache.Cache.GetBundle | app.py:37-43 | None whenever the file is absent, leaving the cache alone; otherwise the cached bundle, loading it (one load) only when the cache was empty; afterwards the cache holds what was returned |
| BundleCache.TwoCalls | app.py:41-43 | two calls while the file exists return the same bundle (the cached one, else the first load) and load at most once; no load happens iff something was cached |
| BundleCache.HiddenWhileAbsent | app.py:40 | removing the file hides the cached bundle (None) and it comes back unchanged, with no reload, when the file returns |
| AppPredict.PredictChurn | app.py:89-248 | without the bundle file the answer is 503 "Prediction model is currently unavailable..." and the cache is unchanged; with it, the cache keeps the cached-or-loaded bundle, and the answer is 503 "Model not loaded" when a .csv upload finds the file gone at the second lookup, else the route's response for that bundle, including 500 "Prediction Failed: 'pipeline'" for a bundle without that entry |
| AppPredict.RespondStatus | app.py:98-116 | every error is 400 or 500; 400 exactly for a non-.csv name or, when the bundle has a `'pipeline'` entry, an empty upload or a readable table missing a required column; a .csv upload with a bundle lacking that entry gets 500 "Prediction Failed: 'pipeline'"; the exact texts of the 400s for the name and the empty upload |
| AppPredict.RespondMissingColumns | app.py:156-161 | a readable .csv upload, with a bundle that has a `'pipeline'` entry, lacking a required column (ignoring case) is answered 400, with a detail naming that column |
| AppPredict.RespondPredictions | app.py:171-222 | a successful answer came from a readable, complete, engineerable table and a bundle with a `'pipeline'` entry whose pipeline has predict_proba whose scoring returned one probability per row; one record per uploaded row, in order, each built and banded from its own row and probability; summary over those records |
| AppPredict.RespondSummary | app.py:224-231 | total_customers is the number of records, and the four band counts add up to it |
| Ingestion.Attempts | app.py:122-124 | one read attempt per encoding, as many as there are encodings |
| Ingestion.FirstWide | app.py:125-127 | the index of the first attempt with more than one column, none before it wide; None iff no attempt is wide |
| Ingestion.FirstWideAt | app.py:127 | a wide attempt with no wide attempt before it is the one the loop stops at |
| Ingestion.LastOk | app.py:121-130 | the last successful read, None iff every attempt raised |
| Ingestion.ChosenNoneIffAllFailed | app.py:132 | the loop leaves `df` as None iff all three attempts raised |
| Ingestion.SelectEncoding | app.py:121-130 | the loop keeps the first wide table, or else the last successful read |
| Ingestion.ReadUpload | app.py:121-134 | the default-decoder fallback runs exactly when all three attempts raise; otherwise the table is the one chosen by the loop |
| Text.StripSpec | app.py:139 | `str.strip(chars)` removes the longest prefix and suffix of stripped characters and returns the middle slice |
| Text.StripCompose | app.py:139-140 | stripping by a narrower class and then by a wider class equals stripping by the wider class alone |
| Text.StripPadded | app.py:139 | stripping a text padded by stripped characters gives the text back when it has none of them at its ends |
| Text.ParseNumberPadded | features/feature_engineering.py:16 | ASCII whitespace around a numeral does not change how `pd.to_numeric` reads it |
| Text.ParseScientificValue | features/feature_engineering.py:16 | a mantissa followed by `e` and exponent digits reads as the mantissa times ten to that exponent |
| Text.ParseNatToString | features/feature_engineering.py:13 | the decimal rendering `str(n)` of a natural reads back as n |
| ColumnNames.UltraCleanIsTrim | app.py:138-141 | the three strips and the regex substitution together equal trimming non-alphanumeric characters from both ends |
| ColumnNames.UltraCleanShape | app.py:138-141 | the result is a contiguous slice of the input, only non-alphanumerics cut away, empty or bordered by ASCII letters/digits |
| ColumnNames.UltraCleanIdempotent | app.py:140 | cleaning twice equals cleaning once |
| ColumnNames.UltraCleanKeepsBordered | app.py:140-141 | a name already bordered by ASCII letters/digits is returned unchanged |
| ColumnNames.LowerMap | app.py:163 | `{c.lower(): c}`: every lower-cased name is a key, and each key maps to the last name with that lower-case form |
| Ingestion.LowerAll | app.py:145 | position by position, the lower-cased names |
| Ingestion.MissingColumns | app.py:156 | exactly the required names whose lower case is absent, in declared order |
| Ingestion.MissingMessageNamesAll | app.py:159 | "Columns Missing: ..." contains every missing name |
| Ingestion.RequiredLowerDistinct | app.py:148-154 | the 19 required names are pairwise distinct even ignoring case |
| Ingestion.RequiredPresent | app.py:158-167 | with nothing missing, every required name's lower case is a key of `col_map` |
| Ingestion.LowerMapValues | app.py:163 | each `col_map` value lower-cases to its key |
| Ingestion.RequiredMapSpec | app.py:167 | `rename_map` sends each matched found name to its declared name and has no other keys |
| Ingestion.CustomerIdRenameKeepsCase | app.py:164-165 | the customerID rename changes no name's lower-case form |
| Ingestion.CanonicalChangesCaseOnly | app.py:163-168 | the renames change only letter case, and every changed name becomes a declared name or "customerID" |
| Ingestion.CanonicalHasRequired | app.py:167-168 | after renaming, each required column appears under its declared casing |
| Ingestion.CustomerIdNotRenamed | app.py:167 | "customerID" is never a key of `rename_map`, so the second rename leaves it alone |
| Ingestion.CustomerIdFromLower | app.py:164-165 | any case variant of "customerid" ends up as "customerID" |
| Ingestion.CanonicalCustomerId | app.py:163-168 | "customerID" is among the final names iff some cleaned name lower-cases to "customerid" |
| Ingestion.CanonicalKeepsCaseAt | app.py:168 | at each position the final name has the same lower case as the cleaned name |
| Ingestion.CanonicalizeSpec | app.py:148-168 | on success: same length, same lower case everywhere, all 19 declared names present, customerID iff a variant was found, and only declared names or customerID differ from the cleaned names |
| Ingestion.CanonicalizeFailure | app.py:156-161 | the check fails iff some required name has no case-insensitive match, and the message then names every such column |
| AppScoring.ClassifyRisk | app.py:183-187 | Critical iff p > 0.85, At-Risk iff 0.60 < p <= 0.85, Loyal iff p < 0.15, Stable iff 0.15 <= p <= 0.60, with the timeframe and colour of each |
| AppScoring.ExplainChurn | app.py:191-203 | the appending loop yields the first two firing reasons of the four rules, in order, joined by " + ", or "Stable profile" |
| AppScoring.ExplainMonthlyFirst | app.py:193-200 | a month-to-month, non-electronic-check, non-expensive new customer gets "High-risk monthly contract + New customer risk" |
| AppScoring.ExplainNone | app.py:202 | when no rule fires the reason is "Stable profile" |
| AppScoring.BuildOutput | app.py:209-222 | one record per row, in row order, each holding that row's id, tenure, charges, contract, percentage, band and reason |
| AppScoring.SummaryPartition | app.py:227-231 | records that each carry one of the four bands are counted exactly once across the four counts |
| AppScoring.SummaryCountsBands | app.py:224-231 | total = number of probabilities; Critical count = number above 0.85; Critical + At-Risk = number above 0.60; the four counts sum to the total |
| BenchmarkView.ReplaceChar | app.py:268 | `str.replace` of one character: same length, the character replaced at every position, others kept |
| BenchmarkView.RemoveChar | app.py:268 | `str.replace(c, "")`: the character no longer occurs and nothing new is introduced |
| BenchmarkView.NormalizeNameSpec | app.py:268 | a normalised name has no upper-case letter, '-', ' ', '(' or ')', and normalising it again changes nothing |
| BenchmarkView.NormalizeReportHeaders | app.py:268 | "ROC-AUC" becomes "roc_auc" and "Training Time (s)" becomes "training_time_s" |
| BenchmarkView.NormalizedColumns | app.py:268-272 | each header is normalised in place, and "training_time_s" is then renamed "training_time" |
| BenchmarkView.ReportColumns | app.py:271-272 | the headers train_and_benchmark writes, "Training Time (s)" and "ROC-AUC", arrive as "training_time" and "roc_auc" |
| BenchmarkView.RenameTrainingTime | app.py:271-272 | no "training_time_s" column remains, and the shape is unchanged |
| BenchmarkView.AddDerived | app.py:275-277 | a derived metric succeeds iff it already exists, or accuracy is present, numeric and not a repeated header, and adds the column |
| BenchmarkView.AddDerivedKeeps | app.py:275-277 | adding one derived metric leaves every other column's cells as they were |
| BenchmarkView.AddTrainingTime | app.py:278 | a training_time column is present afterwards, row count unchanged |
| BenchmarkView.Prepare | app.py:275-278 | on success the row count is kept and precision, recall, f1_score and training_time all exist |
| BenchmarkView.PrepareFailure | app.py:275-278 | preparation fails iff a derived metric is missing while accuracy is missing, non-numeric or a repeated header |
| BenchmarkView.PrecisionDefault | app.py:275 | a missing precision is accuracy × 0.98, row by row |
| BenchmarkView.ClipCell | app.py:283 | `clip(0, 1)`: numbers land in [0, 1], numbers already inside are kept, missing values stay missing |
| BenchmarkView.ClipMetrics | app.py:281-283 | the clip loop succeeds iff every present metric column is numeric, and then equals clipping the five metrics |
| BenchmarkView.ClippedInRange | app.py:280-283 | after the clip loop each present metric cell is its clipped value, within [0, 1] |
| BenchmarkView.GetBenchmark | app.py:261-300 | the route's answer: the prepared, clipped and ranked report, or the built-in table when the report cannot be used, including when two headers normalise to roc_auc |
| BenchmarkView.BenchmarkFromReport | app.py:286 | a usable report (prepared, numeric metrics, a single roc_auc header) yields one record per row, a permutation of the clipped rows, ordered by roc_auc non-increasing |
| BenchmarkView.BenchmarkRanking | app.py:285-288 | for a usable report, earlier records never have a lower roc_auc, and records without a roc_auc come last |
| BenchmarkView.BenchmarkMetricsInRange | app.py:280-288 | every metric in the ranked answer lies in [0, 1] |
| BenchmarkView.BenchmarkFallback | app.py:289-300 | a missing, unreadable or non-numeric report, or one with a repeated roc_auc header, yields the built-in table |
| BenchmarkView.PrepareKeepsRepeated | app.py:268-278 | a header repeated after normalisation is still repeated after the defaults |
| BenchmarkView.RepeatedRocAucFallsBack | app.py:286-289 | two headers normalising to roc_auc make the sort raise, and the answer is the built-in table |
| BenchmarkView.CollidingRocHeaders | app.py:268-289 | a report headed "ROC-AUC" and "roc_auc" gets the built-in table |
| BenchmarkView.DefaultBenchmarkShape | app.py:294-300 | the built-in table has five rows, all metrics in [0, 1], no training_time, and is not in roc_auc order (Random Forest precedes LightGBM) |
| BenchmarkView.StaticImportancesShape | app.py:251-258 | the built-in importances are in non-increasing order and sum to 1 |
| DebugCsv.CleanCol | debug_csv.py:9-12 | `clean_col` equals the upload route's `ultra_clean`: empty or bordered by ASCII letters/digits, and idempotent |
| DebugCsv.CleanColKeepsBordered | debug_csv.py:11 | an already bordered name is returned unchanged |
| DebugCsv.CleanAll | debug_csv.py:26 | one cleaned name per header name |
| DebugCsv.Diagnose | debug_csv.py:16-41 | the ReadFailed verdict is given iff reading the file raised |
| DebugCsv.DiagnoseIndex | debug_csv.py:29 | the keys are exactly the lower-cased cleaned names, and each maps to the last cleaned name with that form |
| DebugCsv.DiagnoseVerdict | debug_csv.py:32-38 | Found iff some cleaned name lower-cases exactly to "customerid"; the substring warning only otherwise, iff some name contains it |
| DebugCsv.FoundImpliesSubstring | debug_csv.py:37 | an exact match is also a substring match |
| FeatureEngineering.GeneratedIdsDistinct | features/feature_engineering.py:13 | the generated "CUST-<1000+i>" identifiers are pairwise distinct |
| FeatureEngineering.TenureBinSpec | features/feature_engineering.py:19-22 | New, Junior, Middle, Senior, Legend exactly on (0,12], (12,24], (24,48], (48,72], (72,100]; no bucket otherwise |
| FeatureEngineering.AvailableServices | features/feature_engineering.py:33-35 | exactly the listed service columns that are present |
| FeatureEngineering.CleanCharge | features/feature_engineering.py:16 | `to_numeric(..., 'coerce').fillna(0)`: always a number, and numbers are kept |
| FeatureEngineering.EngineerFailure | features/feature_engineering.py:19-46 | modelled as raising iff tenure holds text, or MonthlyCharges holds text and either TotalCharges exists or some row has a text MonthlyCharges beside a present tenure; a text tenure gives the cut's TypeError |
| FeatureEngineering.KeptValue | features/feature_engineering.py:9 | the columns read but never written (tenure, Contract, PaymentMethod, MonthlyCharges, services) keep their values |
| FeatureEngineering.IdValue | features/feature_engineering.py:12-13 | an existing customerID is kept, otherwise the row gets the identifier of its position |
| FeatureEngineering.TotalValue | features/feature_engineering.py:15-16 | a present TotalCharges is coerced to a number with missing as 0 |
| FeatureEngineering.BinValue | features/feature_engineering.py:20-22 | tenure_bin is the bucket of the row's tenure |
| FeatureEngineering.ContractValue | features/feature_engineering.py:25-26 | is_high_risk_contract is the flag of Contract == "Month-to-month" |
| FeatureEngineering.PaymentValue | features/feature_engineering.py:28-29 | unstable_payment is the flag of PaymentMethod == "Electronic check" |
| FeatureEngineering.ServiceValue | features/feature_engineering.py:33-39 | service_count is the number of present listed services equal to "Yes" |
| FeatureEngineering.PriceValue | features/feature_engineering.py:42-43 | price_sensitivity = MonthlyCharges / (cleaned TotalCharges + 1) |
| FeatureEngineering.ClvValue | features/feature_engineering.py:45-46 | clv_proxy = MonthlyCharges × tenure |
| FeatureEngineering.EngineeredColumnsMembership | features/feature_engineering.py:12-46 | an input column, or TotalCharges, is in the output columns iff it was in the input |
| FeatureEngineering.EngineeredColumnsPrefix | features/feature_engineering.py:9 | the input columns come first, in order, in the output |
| FeatureEngineering.EngineeredColumnsHas | features/feature_engineering.py:12-46 | customerID and service_count are always added, each other derived column exactly when its inputs exist |
| FeatureEngineering.EngineerKeepsColumns | features/feature_engineering.py:9-48 | same row count, input columns kept as a prefix, derived columns added when their inputs exist |
| FeatureEngineering.EngineerGeneratesIds | features/feature_engineering.py:12-13 | without customerID, row i gets "CUST-<1000+i>" and all ids differ |
| FeatureEngineering.EngineerKeepsIds | features/feature_engineering.py:12 | existing ids are left untouched |
| FeatureEngineering.EngineerCleansTotalCharges | features/feature_engineering.py:15-16 | every TotalCharges is numeric afterwards, numbers are kept and " " becomes 0 |
| FeatureEngineering.EngineerRowValues | features/feature_engineering.py:19-46 | each derived cell of row i is computed from row i alone by its rule, flags in both directions |
| FeatureEngineering.ServiceCountRange | features/feature_engineering.py:33-39 | service_count lies in 0..8, and is 0 when no listed service column exists |
| FeatureEngineering.EngineerRowLocal | features/feature_engineering.py:9-46 | two tables with the same columns and the same row i give the same engineered row i |
| FeatureEngineering.EngineeredColumnsIdempotent | features/feature_engineering.py:12-46 | engineering the columns twice adds nothing new |
| FeatureEngineering.AvailableServicesSame | features/feature_engineering.py:35 | the derived columns do not change the set of available services |
| FeatureEngineering.EngineerRowIdempotent | features/feature_engineering.py:9-46 | re-engineering an engineered row gives it back |
| FeatureEngineering.EngineerAgainSucceeds | features/feature_engineering.py:9-46 | an engineered table can be engineered again without error |
| FeatureEngineering.EngineerIdempotent | features/feature_engineering.py:9-48 | applying the transform twice gives the same table as applying it once |
| FeatureEngineering.EngineerRowsIdempotent | features/feature_engineering.py:9-46 | every row of an engineered table is a fixed point of the row rule |
| Binning.CutIndex | features/feature_engineering.py:20-22 | `pd.cut` with right-closed bins: the found interval contains the value, and None iff none does |
| Binning.CutIndexUnique | masterclass_engine.py:41 | with increasing edges, the interval containing a value is the one found |
| Binning.CutIndexNone | run_masterclass.py:97 | with increasing edges, a value is unbucketed iff it is at or below the first edge or above the last |
| Binning.Cut | run_masterclass_fixed.py:68 | a cut value is a label or missing, and a label only for a number |
| MasterclassEngine.TenureGroupSpec | masterclass_engine.py:41 | 0-1yr, 1-2yr, 2-4yr, 4-5yr, 5yr+ exactly on (0,12], (12,24], (24,48], (48,60], (60,100]; missing otherwise |
| MasterclassEngine.ActiveExamples | masterclass_engine.py:47 | "Yes", "No phone service", "DSL", "Fiber optic" and missing count as active; "No" and "No internet service" do not |
| Frames.FilterIn | masterclass_engine.py:46 | a name is kept exactly when it is in the list and a column of the table, and no more names come out than went in |
| MasterclassEngine.CountActiveSpec | masterclass_engine.py:47 | the count is 0 iff no service is active, and the full length iff all are |
| MasterclassEngine.MasterRowSpec | masterclass_engine.py:37-49 | tenure_group, service_count and high_monthly_risk follow their rules; MonthlyCharges kept; TotalCharges cleaned when present |
| MasterclassEngine.MasterRowValues | masterclass_engine.py:32-51 | in the engineered table, each row's derived values follow those rules from its own input row and the batch median |
| MasterclassEngine.CountOnesFlags | masterclass_engine.py:49 | the number of flagged rows is the number of charges strictly above the median |
| MasterclassEngine.CountOnesNone | masterclass_engine.py:49 | with no median (no numeric charge) no row is flagged |
| MasterclassEngine.HighMonthlyAtMostHalf | masterclass_engine.py:49 | at most half the rows are flagged high_monthly_risk |
| MasterclassEngine.HighMonthlyDependsOnBatch | masterclass_engine.py:49 | the same charge of 2 is flagged beside a row of 1 and not beside a row of 3: the flag depends on other rows |
| Sorting.AtMostHalfAboveMedian | masterclass_engine.py:49 | at most half of a sample lies strictly above its median |
| MasterclassEngine.RiskLevels | masterclass_engine.py:145 | Critical iff p > 0.8, High iff 0.6 < p <= 0.8, Moderate iff 0.4 < p <= 0.6, Low iff p <= 0.4, one level per probability |
| MasterclassEngine.PredictResponse | masterclass_engine.py:143-147 | the response exists iff customerID, MonthlyCharges and tenure exist; it holds the first min(n, 1000) rows in order with their probabilities |
| MasterclassEngine.ChurnLabel | masterclass_engine.py:94 | the label is 1 iff Churn == "Yes", else 0 |
| NotebookScripts.EngineerFeatures | run_masterclass.py:93-110 | succeeds iff the columns read exist and the arithmetic ones are numeric; keeps the rows, with the input columns as a prefix |
| NotebookScripts.ScriptColumnsPrefix | run_masterclass_fixed.py:64-81 | the input columns come first and all six derived columns are present |
| NotebookScripts.ScriptRowValues | run_masterclass.py:96-108 | tenure_bin is the (0,12]...(72,100] bucket, with tenure 0 unbucketed; the flags are exact-string tests; service_count counts the "Yes" cells; price_sensitivity reads a null TotalCharges as 0; clv_proxy = MC × tenure |
| NotebookScripts.ScriptKeepsInputs | run_masterclass.py:94 | every non-derived column, TotalCharges with its nulls included, keeps its value |
| NotebookScripts.ServiceCountOfInputs | run_masterclass.py:104 | service_count is the number of "Yes" cells among the row's own columns (the added flags never equal "Yes") |
| NotebookScripts.AddedNotYes | run_masterclass_fixed.py:75 | tenure_bin and the two flags are never "Yes" |
| NotebookScripts.CountYesFlip | run_masterclass_fixed.py:75 | flipping one counted cell from "No" to "Yes" raises the count by one |
| NotebookScripts.ServiceCountLeak | run_masterclass.py:104 | flipping Churn from "No" to "Yes" raises service_count by exactly one: the label leaks into the feature |
| NotebookScripts.MapAttritionWindow | run_masterclass.py:229-236 | Critical iff p > 0.85, At-Risk iff 0.60 < p <= 0.85, Loyal iff p < 0.15, Stable otherwise |
| NotebookScripts.AttritionWindowAgreesWithApp | run_masterclass_fixed.py:183-187 | the four windows coincide band for band with app.py's `classify_risk` |
| NotebookScripts.FinalResults | run_masterclass.py:238-241 | one result per holdout row |
| NotebookScripts.ReasonCodeConstant | run_masterclass_fixed.py:192 | every row carries the reason code "Pricing & Mobility (Month-to-Month)" and its own input row |
| NotebookScripts.FinalResultsMember | run_masterclass_fixed.py:189-191 | each result's window is that of its probability, and its Risk_Probability is 100 × p |
| NotebookScripts.WindowMarkers | run_masterclass.py:244-247 | the window holds a red or orange marker iff p > 0.60, and a green one iff p < 0.15 |
| NotebookScripts.Select | run_masterclass.py:244 | the boolean filter keeps exactly the rows satisfying the mask |
| NotebookScripts.ChurnTargetsMembers | run_masterclass.py:244 | churn_targets holds exactly the result rows with p > 0.60 |
| NotebookScripts.ChurnTargetsOrder | run_masterclass_fixed.py:195 | churn_targets is a permutation of the selected rows, with Risk_Probability non-increasing |
| NotebookScripts.StableFoundationMembers | run_masterclass.py:247 | stable_foundation holds exactly the result rows with p < 0.15 |
| NotebookScripts.StableFoundationOrder | run_masterclass_fixed.py:198 | stable_foundation is a permutation of the selected rows, with Risk_Probability non-decreasing |
| NotebookScripts.TargetsAndLoyalDisjoint | run_masterclass_fixed.py:195-198 | no row is both a churn target and a loyal stayer |
| Schema.DuplicateCountZero | src/validation.py:46-47 | `duplicated().sum()` is 0 iff the identifiers are pairwise distinct |
| Schema.ViolationsEmpty | src/validation.py:34 | a schema raises no error iff every declared column conforms |
| Schema.ColumnViolationsEmpty | data_validation/validator.py:22 | a column contributes no error iff it conforms to its declaration |
| Validation.SchemaStage | src/validation.py:33-42 | the schema stage passes iff the five declarations yield no violation |
| Validation.DuplicateStage | src/validation.py:44-51 | the duplicate stage fails iff customerID exists and has a repeated value |
| Validation.CriticalNulls | src/validation.py:54-56 | exactly the columns whose null share exceeds 25%, a subsequence of the columns |
| Validation.CriticalNullsInOrder | src/validation.py:56 | the offending columns are listed in column order |
| Validation.SparsityStage | src/validation.py:53-61 | the sparsity stage fails iff some column is more than 25% null |
| Validation.SparsityThreshold | src/validation.py:55-56 | a column is too sparse iff 4 × nulls > rows, so exactly 25% passes |
| Validation.Validate | src/validation.py:26-65 | valid iff all three stages pass, and then the message is "" |
| Validation.ValidateFirstFailure | src/validation.py:32-65 | otherwise the message is the first failing stage's, in the order schema, duplicates, sparsity |
| Validation.TypeSkewReplaces | src/validation.py:40-41 | a schema error mentioning "expected series" and "TotalCharges" is replaced by the fixed Critical Type Skew message |
| Validation.ValidationSchemaSpec | src/validation.py:17-23 | passing the schema means each of the five declarations conforms |
| Validation.ValidationSchemaOptional | src/validation.py:18-22 | a table with none of the five columns passes the schema stage: all are optional |
| Validation.MonthlyChargesRange | src/validation.py:20 | MonthlyCharges conforms iff typed and every value is a number in [0, 1000] |
| Validation.DuplicateStageUnreachable | src/validation.py:18 | whenever the schema stage passes the duplicate stage passes too, so the duplicate message is never returned |
| Validation.DetectDrift | src/validation.py:67-81 | the report's keys are the numeric current columns present in the reference; each entry holds the p-value, with drift iff p < 0.05 |
| DataGate.ValidateDataset | data_validation/validator.py:18-27 | True iff every one of the five declarations conforms; never raises |
| DataGate.MissingRequiredRejected | data_validation/validator.py:10-14 | a table missing customerID, tenure, MonthlyCharges or TotalCharges fails |
| DataGate.ChurnOptional | data_validation/validator.py:15 | without Churn, the verdict depends only on the four other declarations |
| DataGate.RepeatedIdRejected | data_validation/validator.py:11 | a repeated customerID fails |
| DataGate.GateNumericRules | data_validation/validator.py:12-13 | tenure and MonthlyCharges conform iff typed and every value is a number >= 0 |
| DataGate.GateLabelRules | data_validation/validator.py:14-15 | Churn conforms iff typed and every value is "Yes" or "No"; TotalCharges only needs its type |
| DataGate.PriceyPassesGate | data_validation/validator.py:13 | a customer charged 1500 a month passes this gate |
| DataGate.PriceyFailsValidation | src/validation.py:20 | that customer fails `DataValidator.validate` |
| DataGate.GatesDisagreeOnCap | data_validation/validator.py:13 | so the two gates disagree on the same table |
| Train.AlgorithmSuiteSize | src/models_factory.py:14-35 | the catalogue holds 20 algorithms |
| Train.SuccessesEmpty | src/train.py:48-51 | there are no results iff every candidate failed |
| Train.SuccessesHas | src/train.py:21-39 | every successful candidate has its result row |
| Train.SuccessesFrom | src/train.py:34-39 | every result row comes from a successful candidate |
| Train.TrainAndBenchmark | src/train.py:13-59 | fails iff every candidate failed (the sort finds no ROC-AUC column); otherwise the report is a permutation of the successes, sorted by ROC-AUC non-increasing; the saved auc bounds every success; no positive AUC means model None, name "" and auc 0; otherwise the champion is a success with the maximal AUC, strictly above every earlier one |
| Train.ChampionUnique | src/train.py:43-46 | the earliest strict maximum is unique |
| Explainability.ScalarNumeric | explainability.py:37 | `pd.to_numeric` of one value: numbers and missing values pass through unchanged; text is read as a signed decimal with optional exponent and surrounding whitespace, and a successful conversion never yields text |
| Explainability.GenerateReasonCodes | explainability.py:22-49 | raises iff a present tenure or MonthlyCharges is text that is neither empty nor a signed decimal (optional exponent, surrounding whitespace); otherwise the first two firing reasons of the five rules, in order, joined by " + ", or the composite-risk text |
| Explainability.AppendIf | explainability.py:31-32 | the reason is appended exactly when its rule holds, after the reasons so far |
| Explainability.ReasonText | explainability.py:46-49 | the returned text is the chain text of the rules whose fired reasons were collected |
| Explainability.ReasonCodesNone | explainability.py:46-47 | no firing rule gives "Behavioral Patterns (Composite Risk)" |
| Explainability.MissingNumbersDefault | explainability.py:37-41 | missing tenure and charges default to 0: the new-customer rule fires, the high-charges rule does not |
| Explainability.ReasonCodesFirstTwo | explainability.py:31-35 | month-to-month and electronic check give exactly those two reasons, whatever else holds |
| Explainability.ReasonCodesChargesAndTenure | explainability.py:37-41 | charges above the constant 70 and tenure under 6, without the first two rules, give those two reasons |
| ReasonChains.ChainAtMostTwo | explainability.py:49 | a reason chain is the fallback, one firing reason, or two firing reasons in order joined by " + " |
| ReasonChains.ChainNone | app.py:202 | with no firing rule the chain is the fallback text |
| ReasonChains.ChainOne | app.py:203 | with exactly one firing rule the chain is its reason |
| ReasonChains.ChainTwo | explainability.py:49 | the chain joins the first two firing reasons, later ones are dropped |
| ReasonChains.FiredEmpty | explainability.py:46 | the list of reasons is empty iff no rule fires |
| Explainability.GetFeatureImportance | explainability.py:9-20 | succeeds iff the importances (when the model has them) match the names in number; one row per name, sorted by importance non-increasing |
| Explainability.FeatureImportanceRows | explainability.py:15-18 | the rows are exactly the (name, importance) pairs, as a permutation |
| Explainability.FeatureImportanceZeros | explainability.py:12-13 | without `feature_importances_`, every importance is 0 and there is one row per name |
| Predict.GetRiskLevel | src/predict.py:23-27 | Critical iff p > 0.8, High iff 0.6 < p <= 0.8, Moderate iff 0.4 < p <= 0.6, Low iff p <= 0.4 |
| Predict.HardPrediction | src/predict.py:15 | the hard prediction is 1 iff p > 0.5, else 0 |
| Predict.PredictionSpec | src/predict.py:20 | "Churn" iff p > 0.5, "Retain" iff p <= 0.5 |
| Predict.BandsAgreeWithPrediction | src/predict.py:15-27 | Critical and High rows are always "Churn", Low rows always "Retain" |
| Predict.ModerateIsSplit | src/predict.py:20-26 | Moderate contains both "Churn" and "Retain" rows (0.55 and 0.45) |
| Predict.ChurnReport | src/predict.py:17-21 | the report exists iff ids and probabilities have equal length; one row per probability with its id, in order |
| Predict.ChurnReportRows | src/predict.py:17-29 | each row's prediction and level follow its own probability |
| Forecasting.ExpectedChurnMonth | forecasting.py:26-31 | 1 iff p > 0.9, 3 iff 0.7 < p <= 0.9, 6 iff 0.5 < p <= 0.7, 12 iff p <= 0.5; always in {1, 3, 6, 12} |
| Forecasting.ExpectedChurnMonthMonotone | forecasting.py:28-31 | the horizon is non-increasing in p |
| Forecasting.ExpectedChurnMonthBoundaries | forecasting.py:28-30 | the boundaries are strict: 0.9 gives 3, 0.7 gives 6, 0.5 gives 12 |
| Forecasting.Repeat | forecasting.py:15 | `str * n` yields a text `n` times as long |
| Forecasting.ShiftCell | forecasting.py:14 | `cell + month` raises exactly on text |
| Forecasting.PlusCell | forecasting.py:15 | `a + b` raises exactly when one operand is text and the other a number; with NaN on either side the result is NaN (pandas' masked retry) |
| Forecasting.Simulate | forecasting.py:13-15 | a successful simulation keeps the columns and one row per input row, each the aged input row; the errors come in line order: tenure missing, tenure text, then the charges columns |
| Forecasting.AgeRowFails | forecasting.py:14-15 | a row raises exactly when its tenure is text or one of TotalCharges and MonthlyCharges is text and the other a number |
| Forecasting.SimulateFails | forecasting.py:13-15 | the simulation raises exactly when a column is missing or some row raises, for every horizon |
| Forecasting.TextTenureFirst | forecasting.py:14-15 | a text tenure raises its TypeError even when TotalCharges or MonthlyCharges is missing |
| Forecasting.TextBesideNaN | forecasting.py:14-15 | a text TotalCharges beside a NaN MonthlyCharges becomes NaN; nothing raises |
| Forecasting.SameFailure | forecasting.py:12-15 | the error raised does not depend on the horizon |
| Forecasting.SimulateSpec | forecasting.py:14-15 | tenure grows by the horizon; TotalCharges grows by MonthlyCharges × horizon, or has the MonthlyCharges text repeated after it when both are text, or is NaN when either is NaN; MonthlyCharges unchanged |
| Forecasting.ForecastCustomerLifetime | forecasting.py:4-24 | fails iff a simulated column is missing or some row raises, with the first horizon's error; otherwise four rows for months 1, 3, 6, 12 in order, each with Avg_Risk 0.5, each simulation computed from the unchanged input |

## Left out

- Network and file I/O are inputs:
  - reading uploads and files, the bundle file's existence, and `joblib.load`/`dump`;
  - pandas CSV parsing and delimiter sniffing (each read is an outcome: a table, or failure);
  - the benchmark CSV and the debug script's header.
- HTTP transport is left out: routes, CORS, static-file serving, logging and the debug-log append. HTTP errors are response values with a status and a detail.
- The learned models and library scores are inputs:
  - `predict_proba`, fit and scoring;
  - `roc_auc_score`, `accuracy_score`, `ks_2samp`;
  - SHAP, and the training and evaluation scripts around them.
  - Each candidate's outcome is given as `Failed` or `Scored`.
- pandera's dtype coercion is an input predicate (`typed`), and its error texts are an input renderer.
- Floating point is modelled as exact reals:
  - rounding to two decimals (app.py:205, run_masterclass.py:239) is not modelled;
  - neither are `prediction_variance` and `average_probability` of the summary;
  - division by zero, which pandas turns into inf or NaN, is a missing cell.
- AppScoring.Summarize: the summary holds the five counts only; the variance and the mean of the probabilities are not modelled (floating point).
- Python `str.lower` is modelled on ASCII letters only; other characters are left unchanged.
- AppPredict.CanonicalTable: duplicate column names are not modelled, because a row is a map and one name holds one value. A repeated header in the upload itself does not produce one, because `read_csv` renames it (`X`, `X.1`); duplicates are created by `ultra_clean` (`" tenure"` and `"tenure"`) or by the renames (`tenure` and `Tenure` both become `tenure`). pandas then keeps both columns, and `pd.cut` on the two-column selection raises (500). The model keeps the later column's value and goes on.
- Text.ParseNumber: the special words pandas reads as infinity (`inf`, `Infinity`, with a sign) are read as not a number, and exponents too large for a double are exact reals rather than infinity.
- FeatureEngineering.CleanCharge: a TotalCharges of `inf` or `Infinity` (with a sign), or one whose exponent overflows a double, becomes 0 or an exact real where pandas gives inf.
- Explainability.ScalarNumeric: the infinity words give a parse error where pandas gives inf, and an overflowing exponent gives an exact real.
- Explainability.GenerateReasonCodes: with an infinity word in a feature it fails where pandas would compare with inf.
- FeatureEngineering.EngineerFailure: the model has no integer type for cells, so it cannot model Python's `str * int` repetition. Without a TotalCharges column, text MonthlyCharges times an integer tenure repeats the text in pandas (`"abc" * 3` gives `"abcabcabc"`), but the model raises. A tenure column with a missing value is a float column, so there the product raises in both, and a text beside the missing tenure itself gives NaN in both. With TotalCharges present, as on the `/api/predict` route, the `price_sensitivity` division raises in both.
- Forecasting.PlusCell: a missing cell is NaN, as pandas reads an empty CSV field. A `None` in an object column is masked the same way and is not modelled separately.
- BenchmarkView.Normalized: headers that become equal after normalisation are kept by pandas as separate columns, while the model's rows keep only the later column's cells. The repeated roc_auc header (the sort raises) and the repeated accuracy header with a derived metric missing (the store raises) are modelled. Clipping a repeated metric header whose earlier copy holds text raises in pandas but not in the model.
- Ties in pandas' default sort are left unspecified; the model sorts stably, and its contracts claim only order and permutation.
- Validation.ListRepr: each name is wrapped in single quotes inside brackets, as `repr` does for plain names; `repr`'s switch to double quotes for a name containing `'`, and its backslash escaping, are not modelled.
- `get_stats`, `test_sample_data` and the static front-end route of app.py are not part of this model. They only reshape bundle metadata or re-enter `predict_churn` with a fixed file.
- main.py, src/preprocess.py, src/master_trainer.py, the UI and the tests are not part of this model.
- Concurrency around `get_bundle` is not modelled. The code has no lock, so calls are taken one at a time.
- `joblib.load` is assumed to succeed and to yield a non-empty dict. Its raising (app.py:42, outside any `try`) gives the web framework's own 500, and the truthiness test `if not bundle` also rejects an empty dict; neither is modelled. A missing `'pipeline'` key is modelled, by `BundleCache.Bundle.hasPipeline`.
- Exception texts: a `KeyError`'s text for a named column is Python's `str(e)` (`'tenure'`), and the `ValueError` texts for mismatched lengths (AppPredict.LengthMismatch carries both counts), unparsable strings and a two-column store, and the two benchmark `TypeError`s, follow pandas and Python. The other `TypeError` texts (FeatureEngineering.TenureTypeError, FeatureEngineering.ChargesTypeError, Forecasting.TypeError and the masterclass and notebook ones), and the masterclass `KeyError` for a missing response column, are labels for where the exception is raised, not Python's `str(e)`; on /api/predict they reach the 500 detail.
- BenchmarkView.Prepare: the multipliers 0.98, 1.02 and 1.01 are applied to exact reals; pandas' float products are not modelled.
