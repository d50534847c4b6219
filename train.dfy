/**
 * Champion selection in `train_and_benchmark` (src/train.py) over the
 * catalogue of `get_algorithm_suite` (src/models_factory.py). Fitting and
 * scoring are foreign: each candidate's outcome is given, either a failure
 * (some step raised) or its scores.
 */
module Train {
  import opened Wrappers
  import opened Sorting

  /** The catalogue of `get_algorithm_suite`, in dictionary order. */
  const AlgorithmSuite: seq<string> := [
    "Logistic Regression", "Random Forest", "Gradient Boosting", "XGBoost", "LightGBM",
    "CatBoost", "AdaBoost", "Decision Tree", "Extra Trees", "SVC (RBF)",
    "Linear SVC", "KNN", "Gaussian NB", "Bernoulli NB", "Ridge Classifier",
    "SGD Classifier", "Passive Aggressive", "Perceptron", "LDA", "QDA"
  ]

  lemma AlgorithmSuiteSize()
    ensures |AlgorithmSuite| == 20
  {
  }

  /**
   * What training one candidate produced: a failure, or the two candidate
   * AUC values (from `predict_proba` and from hard predictions), whether the
   * model has `predict_proba`, the accuracy and the elapsed time.
   */
  datatype Outcome =
    | Failed(error: string)
    | Scored(hasProba: bool, probaAuc: real, predAuc: real, accuracy: real, elapsed: real)

  datatype Candidate = Candidate(name: string, outcome: Outcome)

  /** The AUC the loop uses: from probabilities when the model has them, else from hard predictions. */
  function Auc(o: Outcome): real
    requires o.Scored?
  {
    if o.hasProba then o.probaAuc else o.predAuc
  }

  /** One entry of `results`. */
  datatype ResultRow = ResultRow(algorithm: string, rocAuc: real, accuracy: real, trainingTime: real)

  function RowOf(c: Candidate): ResultRow
    requires c.outcome.Scored?
  {
    ResultRow(c.name, Auc(c.outcome), c.outcome.accuracy, c.outcome.elapsed)
  }

  /** The result rows of the candidates that trained, in catalogue order. */
  function Successes(cands: seq<Candidate>): (rows: seq<ResultRow>)
    ensures |rows| <= |cands|
  {
    if cands == [] then []
    else
      var last := cands[|cands| - 1];
      Successes(cands[..|cands| - 1]) + (if last.outcome.Scored? then [RowOf(last)] else [])
  }

  /** The result rows are empty exactly when every candidate failed. */
  lemma {:induction false} SuccessesEmpty(cands: seq<Candidate>)
    ensures (forall k :: 0 <= k < |cands| ==> cands[k].outcome.Failed?) <==> Successes(cands) == []
  {
    if cands != [] {
      var n := |cands| - 1;
      SuccessesEmpty(cands[..n]);
      assert forall k :: 0 <= k < n ==> cands[..n][k] == cands[k];
    }
  }

  /** Every successful candidate has its row. */
  lemma {:induction false} SuccessesHas(cands: seq<Candidate>, k: nat)
    requires ScoredWith(cands, k)
    ensures RowOf(cands[k]) in Successes(cands)
  {
    var n := |cands| - 1;
    if k < n {
      SuccessesHas(cands[..n], k);
    }
  }

  /** Every row comes from a successful candidate. */
  lemma {:induction false} SuccessesFrom(cands: seq<Candidate>, row: ResultRow) returns (k: nat)
    requires row in Successes(cands)
    ensures ScoredWith(cands, k) && row == RowOf(cands[k])
  {
    var n := |cands| - 1;
    if row in Successes(cands[..n]) {
      k := SuccessesFrom(cands[..n], row);
    } else {
      k := n;
    }
  }

  /** Trying one more candidate appends its row when it trained. */
  lemma SuccessesSnoc(cands: seq<Candidate>, i: nat)
    requires i < |cands|
    ensures Successes(cands[..i + 1]) == Successes(cands[..i]) + (if cands[i].outcome.Scored? then [RowOf(cands[i])] else [])
  {
    assert cands[..i + 1][..i] == cands[..i];
  }

  /** Key of the report order. */
  function RocAucOf(r: ResultRow): real { r.rocAuc }

  /** The saved payload: the champion's catalogue position (the model object), its name and its AUC. */
  datatype Payload = Payload(model: Option<nat>, modelName: string, auc: real)

  /** What a completed run returns and saves. */
  datatype Benchmark = Benchmark(report: seq<ResultRow>, payload: Payload)

  /** The candidate at position `k` trained and was scored. */
  predicate ScoredWith(cands: seq<Candidate>, k: int)
  {
    0 <= k < |cands| && cands[k].outcome.Scored?
  }

  /**
   * `train_and_benchmark`: try every candidate in order, keep the rows of
   * those that trained, and keep the first one whose AUC beats all before it
   * (starting from 0). With no successful candidate the report has no
   * `ROC-AUC` column, the sort raises and the run aborts.
   */
  method TrainAndBenchmark(cands: seq<Candidate>) returns (r: Result<Benchmark, string>)
    ensures r.Failure? <==> Successes(cands) == []
    ensures r.Success? ==> multiset(r.value.report) == multiset(Successes(cands))
    ensures r.Success? ==> SortedDesc(r.value.report, RocAucOf)
    ensures r.Success? ==> r.value.payload.auc >= 0.0
    ensures r.Success? ==> forall k :: ScoredWith(cands, k) ==> Auc(cands[k].outcome) <= r.value.payload.auc
    ensures r.Success? && r.value.payload.model.None? ==>
      r.value.payload.modelName == "" && r.value.payload.auc == 0.0
    ensures r.Success? && r.value.payload.model.Some? ==>
      var k := r.value.payload.model.value;
      && ScoredWith(cands, k)
      && r.value.payload.modelName == cands[k].name
      && r.value.payload.auc == Auc(cands[k].outcome) > 0.0
      && forall j :: j < k && ScoredWith(cands, j) ==> Auc(cands[j].outcome) < Auc(cands[k].outcome)
  {
    var results: seq<ResultRow> := [];
    var bestAuc: real := 0.0;
    var bestModel: Option<nat> := None;
    var bestName := "";
    var i := 0;
    while i < |cands|
      invariant 0 <= i <= |cands|
      invariant results == Successes(cands[..i])
      invariant bestAuc >= 0.0
      invariant forall k :: k < i && ScoredWith(cands, k) ==> Auc(cands[k].outcome) <= bestAuc
      invariant bestModel.None? ==> bestName == "" && bestAuc == 0.0
      invariant bestModel.Some? ==>
        && bestModel.value < i && ScoredWith(cands, bestModel.value)
        && bestName == cands[bestModel.value].name
        && bestAuc == Auc(cands[bestModel.value].outcome) > 0.0
        && forall j :: j < bestModel.value && ScoredWith(cands, j) ==> Auc(cands[j].outcome) < bestAuc
    {
      var c := cands[i];
      SuccessesSnoc(cands, i);
      match c.outcome {
        case Failed(_) =>
        case Scored(hasProba, probaAuc, predAuc, acc, elapsed) =>
          var auc := if hasProba then probaAuc else predAuc;
          results := results + [ResultRow(c.name, auc, acc, elapsed)];
          if auc > bestAuc {
            bestAuc := auc;
            bestModel := Some(i);
            bestName := c.name;
          }
      }
      i := i + 1;
    }
    assert cands[..|cands|] == cands;
    if results == [] {
      return Failure("'ROC-AUC'");
    }
    var report := SortDesc(results, RocAucOf);
    r := Success(Benchmark(report, Payload(bestModel, bestName, bestAuc)));
  }

  /**
   * The champion is the earliest candidate reaching the maximum AUC, when
   * that maximum is positive: any two positions with the properties the
   * method promises are the same.
   */
  lemma ChampionUnique(cands: seq<Candidate>, k: nat, k': nat)
    requires ScoredWith(cands, k) && ScoredWith(cands, k')
    requires forall j :: ScoredWith(cands, j) ==> Auc(cands[j].outcome) <= Auc(cands[k].outcome)
    requires forall j :: ScoredWith(cands, j) ==> Auc(cands[j].outcome) <= Auc(cands[k'].outcome)
    requires forall j :: j < k && ScoredWith(cands, j) ==> Auc(cands[j].outcome) < Auc(cands[k].outcome)
    requires forall j :: j < k' && ScoredWith(cands, j) ==> Auc(cands[j].outcome) < Auc(cands[k'].outcome)
    ensures k == k'
  {
    assert Auc(cands[k].outcome) == Auc(cands[k'].outcome);
  }
}
