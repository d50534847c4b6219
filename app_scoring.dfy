/**
 * Scoring an uploaded batch in `predict_churn` (app.py): the four risk bands
 * of `classify_risk`, the reason chain of `explain_churn`, the loop that
 * builds one output record per row, and the per-band summary counts.
 */
module AppScoring {
  import opened Wrappers
  import opened Text
  import opened Frames
  import opened Sorting
  import opened ReasonChains

  /** The `level` / `timeframe` / `color` triple of `classify_risk`. */
  datatype RiskInfo = RiskInfo(level: string, timeframe: string, color: string)

  const CriticalInfo := RiskInfo("Critical", "Next 30 Days", "red")
  const AtRiskInfo := RiskInfo("At-Risk", "2-4 Months", "orange")
  const LoyalInfo := RiskInfo("Loyal", "Strong Retention", "green")
  const StableInfo := RiskInfo("Stable", "Baseline", "yellow")

  /** `classify_risk`: the first threshold that holds decides the band. */
  function ClassifyRisk(p: real): (r: RiskInfo)
    ensures r == CriticalInfo <==> p > 0.85
    ensures r == AtRiskInfo <==> 0.60 < p <= 0.85
    ensures r == LoyalInfo <==> p < 0.15
    ensures r == StableInfo <==> 0.15 <= p <= 0.60
  {
    if p > 0.85 then CriticalInfo
    else if p > 0.60 then AtRiskInfo
    else if p < 0.15 then LoyalInfo
    else StableInfo
  }

  /** `row.get(c, d)`: the cell of `c`, or the number `d` when the row has no such column. */
  function GetOr(r: Row, c: string, d: real): Cell
  {
    if c in r then r[c] else Num(d)
  }

  function Sum(xs: seq<real>): real
  {
    if xs == [] then 0.0 else xs[0] + Sum(xs[1..])
  }

  /** `Series.mean()` over the non-missing values; `None` stands for the `NaN` of an all-missing column. */
  function Mean(xs: seq<real>): Option<real>
  {
    if xs == [] then None else Some(Sum(xs) / |xs| as real)
  }

  /** `results['MonthlyCharges'].mean()` over the whole batch. */
  function BatchMeanCharges(f: Frame): Option<real>
  {
    Mean(NumericValues(Column(f, "MonthlyCharges")))
  }

  /** The four rules of `explain_churn`, in the order they are tested. */
  function AppRules(row: Row, mean: Option<real>): seq<Rule>
  {
    [ Rule("High-risk monthly contract", Get(row, "Contract") == Str("Month-to-month")),
      Rule("Unstable payment", Get(row, "PaymentMethod") == Str("Electronic check")),
      Rule("High charges", mean.Some? && NumGreater(GetOr(row, "MonthlyCharges", 0.0), mean.value * 1.2)),
      Rule("New customer risk", NumLess(GetOr(row, "tenure", 0.0), 6.0)) ]
  }

  const StableProfile := "Stable profile"

  /** `explain_churn`: append each reason whose rule holds, then keep the first two. */
  method ExplainChurn(row: Row, mean: Option<real>) returns (reason: string)
    ensures reason == ChainText(AppRules(row, mean), StableProfile)
  {
    ghost var rules := AppRules(row, mean);
    var reasons: seq<string> := [];
    if Get(row, "Contract") == Str("Month-to-month") {
      reasons := reasons + ["High-risk monthly contract"];
    }
    FiredSnoc([], rules[0]);
    assert reasons == Fired(rules[..1]);
    if Get(row, "PaymentMethod") == Str("Electronic check") {
      reasons := reasons + ["Unstable payment"];
    }
    FiredSnoc(rules[..1], rules[1]);
    assert rules[..1] + [rules[1]] == rules[..2];
    assert reasons == Fired(rules[..2]);
    if mean.Some? && NumGreater(GetOr(row, "MonthlyCharges", 0.0), mean.value * 1.2) {
      reasons := reasons + ["High charges"];
    }
    FiredSnoc(rules[..2], rules[2]);
    assert rules[..2] + [rules[2]] == rules[..3];
    assert reasons == Fired(rules[..3]);
    if NumLess(GetOr(row, "tenure", 0.0), 6.0) {
      reasons := reasons + ["New customer risk"];
    }
    FiredSnoc(rules[..3], rules[3]);
    assert rules[..3] + [rules[3]] == rules;
    assert reasons == Fired(rules);
    if reasons == [] {
      return StableProfile;
    }
    if |reasons| == 1 {
      reason := Join(reasons, " + ");
    } else {
      reason := Join(reasons[..2], " + ");
    }
  }

  /** The reason text names the contract first whenever the contract rule holds. */
  lemma ExplainMonthlyFirst(row: Row, mean: Option<real>)
    requires Get(row, "Contract") == Str("Month-to-month")
    requires Get(row, "PaymentMethod") != Str("Electronic check")
    requires !(mean.Some? && NumGreater(GetOr(row, "MonthlyCharges", 0.0), mean.value * 1.2))
    requires NumLess(GetOr(row, "tenure", 0.0), 6.0)
    ensures ChainText(AppRules(row, mean), StableProfile) == "High-risk monthly contract + New customer risk"
  {
    var rules := AppRules(row, mean);
    assert rules[0].fires && !rules[1].fires && !rules[2].fires && rules[3].fires;
    ChainTwo(rules, StableProfile, 0, 3);
  }

  /** A row matching none of the four rules is a stable profile. */
  lemma ExplainNone(row: Row, mean: Option<real>)
    requires Get(row, "Contract") != Str("Month-to-month")
    requires Get(row, "PaymentMethod") != Str("Electronic check")
    requires !(mean.Some? && NumGreater(GetOr(row, "MonthlyCharges", 0.0), mean.value * 1.2))
    requires !NumLess(GetOr(row, "tenure", 0.0), 6.0)
    ensures ChainText(AppRules(row, mean), StableProfile) == StableProfile
  {
    ChainNone(AppRules(row, mean), StableProfile);
  }

  /** One entry of the `predictions` list. */
  datatype OutputRecord = OutputRecord(
    customerId: Cell, tenureMonths: Cell, monthlyCharges: Cell,
    churnProbability: real, risk: RiskInfo, primaryReason: string, contractType: Cell)

  /** The record built for a row with probability `p`; the probability is reported as a percentage. */
  function RecordFor(row: Row, p: real, mean: Option<real>): OutputRecord
  {
    OutputRecord(Get(row, "customerID"), Get(row, "tenure"), Get(row, "MonthlyCharges"),
      p * 100.0, ClassifyRisk(p), ChainText(AppRules(row, mean), StableProfile), Get(row, "Contract"))
  }

  /** The loop over `results.iterrows()` appending one record per row. */
  method BuildOutput(rows: seq<Row>, probs: seq<real>, mean: Option<real>) returns (out: seq<OutputRecord>)
    requires |rows| == |probs|
    ensures |out| == |rows|
    ensures forall k :: 0 <= k < |rows| ==> out[k] == RecordFor(rows[k], probs[k], mean)
  {
    out := [];
    var i := 0;
    while i < |rows|
      invariant 0 <= i <= |rows| && |out| == i
      invariant forall k :: 0 <= k < i ==> out[k] == RecordFor(rows[k], probs[k], mean)
    {
      var reason := ExplainChurn(rows[i], mean);
      var p := probs[i];
      var rec := OutputRecord(Get(rows[i], "customerID"), Get(rows[i], "tenure"), Get(rows[i], "MonthlyCharges"),
        p * 100.0, ClassifyRisk(p), reason, Get(rows[i], "Contract"));
      assert rec == RecordFor(rows[i], probs[i], mean);
      out := out + [rec];
      i := i + 1;
    }
  }

  /** The spec of the whole output list. */
  function Records(rows: seq<Row>, probs: seq<real>, mean: Option<real>): (out: seq<OutputRecord>)
    requires |rows| == |probs|
    ensures |out| == |rows|
  {
    seq(|rows|, k requires 0 <= k < |rows| => RecordFor(rows[k], probs[k], mean))
  }

  /** The `summary` counts of the response. */
  datatype Summary = Summary(total: nat, high: nat, medium: nat, stable: nat, low: nat)

  function CountLevel(out: seq<OutputRecord>, level: string): (n: nat)
    ensures n <= |out|
  {
    if out == [] then 0 else (if out[0].risk.level == level then 1 else 0) + CountLevel(out[1..], level)
  }

  function Summarize(out: seq<OutputRecord>): Summary
  {
    Summary(|out|, CountLevel(out, "Critical"), CountLevel(out, "At-Risk"),
      CountLevel(out, "Stable"), CountLevel(out, "Loyal"))
  }

  /** Each record falls in exactly one band, so the four counts add up to the total. */
  lemma {:induction false} SummaryPartition(out: seq<OutputRecord>)
    requires forall k :: 0 <= k < |out| ==> out[k].risk in {CriticalInfo, AtRiskInfo, StableInfo, LoyalInfo}
    ensures Summarize(out).high + Summarize(out).medium + Summarize(out).stable + Summarize(out).low == |out|
  {
    if out != [] {
      SummaryPartition(out[1..]);
    }
  }

  /** The output counts the rows in each band of the probability list. */
  lemma {:induction false} SummaryCountsBands(rows: seq<Row>, probs: seq<real>, mean: Option<real>)
    requires |rows| == |probs|
    ensures Summarize(Records(rows, probs, mean)).total == |probs|
    ensures Summarize(Records(rows, probs, mean)).high == CountAbove(probs, 0.85)
    ensures Summarize(Records(rows, probs, mean)).high + Summarize(Records(rows, probs, mean)).medium
      == CountAbove(probs, 0.60)
    ensures Summarize(Records(rows, probs, mean)).high + Summarize(Records(rows, probs, mean)).medium
      + Summarize(Records(rows, probs, mean)).stable + Summarize(Records(rows, probs, mean)).low == |probs|
  {
    var out := Records(rows, probs, mean);
    forall k | 0 <= k < |out|
      ensures out[k].risk in {CriticalInfo, AtRiskInfo, StableInfo, LoyalInfo}
    {
      assert out[k].risk == ClassifyRisk(probs[k]);
    }
    SummaryPartition(out);
    if rows != [] {
      SummaryCountsBands(rows[1..], probs[1..], mean);
      assert Records(rows, probs, mean)[1..] == Records(rows[1..], probs[1..], mean);
    }
  }
}
