/**
 * The batch report of `generate_churn_report` (src/predict.py): a hard
 * Churn/Retain call at 0.5 and a four-level risk band per probability.
 */
module Predict {
  import opened Wrappers
  import opened Frames

  /** `get_risk_level`: the first threshold that holds decides the level. */
  function GetRiskLevel(p: real): (level: string)
    ensures level == "Critical" <==> p > 0.8
    ensures level == "High" <==> 0.6 < p <= 0.8
    ensures level == "Moderate" <==> 0.4 < p <= 0.6
    ensures level == "Low" <==> p <= 0.4
  {
    if p > 0.8 then "Critical"
    else if p > 0.6 then "High"
    else if p > 0.4 then "Moderate"
    else "Low"
  }

  /** `(probs > 0.5).astype(int)` for one probability. */
  function HardPrediction(p: real): (b: nat)
    ensures b == 1 <==> p > 0.5
    ensures b <= 1
  {
    if p > 0.5 then 1 else 0
  }

  /** The `Prediction` text of one report row. */
  function PredictionText(p: real): string
  {
    if HardPrediction(p) == 1 then "Churn" else "Retain"
  }

  /** A customer is called "Churn" exactly when its probability exceeds one half. */
  lemma PredictionSpec(p: real)
    ensures PredictionText(p) == "Churn" <==> p > 0.5
    ensures PredictionText(p) == "Retain" <==> p <= 0.5
  {
  }

  /** The two bands above 0.6 are always "Churn", the band at or below 0.4 always "Retain". */
  lemma BandsAgreeWithPrediction(p: real)
    ensures GetRiskLevel(p) in {"Critical", "High"} ==> PredictionText(p) == "Churn"
    ensures GetRiskLevel(p) == "Low" ==> PredictionText(p) == "Retain"
  {
  }

  /** The "Moderate" band holds both calls: 0.45 is retained, 0.55 churns. */
  lemma ModerateIsSplit()
    ensures GetRiskLevel(0.45) == GetRiskLevel(0.55) == "Moderate"
    ensures PredictionText(0.45) == "Retain" && PredictionText(0.55) == "Churn"
  {
  }

  /** One row of the report. */
  datatype ReportRow = ReportRow(customerId: Cell, confidence: real, prediction: string, riskLevel: string)

  /**
   * `generate_churn_report` after the model has scored the batch: one row per
   * probability, in input order. Building the table from columns of
   * different lengths fails.
   */
  function ChurnReport(ids: seq<Cell>, probs: seq<real>): (r: Result<seq<ReportRow>, string>)
    ensures r.Success? <==> |ids| == |probs|
    ensures r.Success? ==> |r.value| == |probs|
    ensures r.Success? ==> forall k :: 0 <= k < |probs| ==>
      r.value[k].customerId == ids[k] && r.value[k].confidence == probs[k]
  {
    if |ids| != |probs| then Failure("All arrays must be of the same length")
    else Success(seq(|probs|, k requires 0 <= k < |probs| =>
      ReportRow(ids[k], probs[k], PredictionText(probs[k]), GetRiskLevel(probs[k]))))
  }

  /** Every report row's call and band follow from its own probability. */
  lemma ChurnReportRows(ids: seq<Cell>, probs: seq<real>, k: nat)
    requires |ids| == |probs| && k < |probs|
    ensures ChurnReport(ids, probs).value[k].prediction == "Churn" <==> probs[k] > 0.5
    ensures ChurnReport(ids, probs).value[k].riskLevel == "Critical" <==> probs[k] > 0.8
    ensures ChurnReport(ids, probs).value[k].riskLevel == "Low" <==> probs[k] <= 0.4
  {
  }
}
