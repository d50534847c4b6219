/**
 * The notebook pipelines run_masterclass.py and run_masterclass_fixed.py,
 * whose `engineer_features`, `map_attrition_window` and target lists are the
 * same code at different lines. Their feature rules differ from
 * features/feature_engineering.py: `service_count` counts every cell of the
 * row equal to "Yes" (the `Churn` label included), `TotalCharges` is read
 * with missing values as 0 but left as it is, and nothing is added
 * conditionally.
 */
module NotebookScripts {
  import opened Wrappers
  import opened Frames
  import opened Sorting
  import FeatureEngineering
  import AppScoring

  // ---------------------------------------------------------------------
  // engineer_features
  // ---------------------------------------------------------------------

  /** `(df == 'Yes').sum(axis=1)` for one row over the given columns. */
  function CountYesCells(r: Row, cols: seq<string>): (n: nat)
    ensures n <= |cols|
  {
    if cols == [] then 0
    else (if Get(r, cols[0]) == Str("Yes") then 1 else 0) + CountYesCells(r, cols[1..])
  }

  /** The columns present when `service_count` is computed: the input ones, then the bucket and the two flags. */
  function CountedColumns(cols: seq<string>): seq<string>
  {
    AddName(AddName(AddName(cols, "tenure_bin"), "is_high_risk_contract"), "unstable_payment")
  }

  /** The columns of the result: the input ones, then the six derived ones in assignment order. */
  function ScriptColumns(cols: seq<string>): seq<string>
  {
    AddName(AddName(AddName(CountedColumns(cols), "service_count"), "price_sensitivity"), "clv_proxy")
  }

  /** The six columns `engineer_features` writes. */
  const ScriptDerived: set<string> :=
    {"tenure_bin", "is_high_risk_contract", "unstable_payment", "service_count", "price_sensitivity", "clv_proxy"}

  /** The row after the bucket and the two flags are written, which `service_count` then reads. */
  function FlaggedRow(r: Row): Row
  {
    r["tenure_bin" := FeatureEngineering.TenureBin(Get(r, "tenure"))]
     ["is_high_risk_contract" := Flag(Get(r, "Contract") == Str("Month-to-month"))]
     ["unstable_payment" := Flag(Get(r, "PaymentMethod") == Str("Electronic check"))]
  }

  /** One row of `engineer_features`. */
  function ScriptRow(r: Row, cols: seq<string>): Row
  {
    var r3 := FlaggedRow(r);
    var mc := Get(r, "MonthlyCharges");
    r3["service_count" := Num(CountYesCells(r3, CountedColumns(cols)) as real)]
      ["price_sensitivity" := Div(mc, AddNum(FillNa(Get(r, "TotalCharges"), 0.0), 1.0))]
      ["clv_proxy" := Mul(mc, Get(r, "tenure"))]
  }

  /** The five columns the function reads by name. */
  const ScriptInputs: seq<string> := ["tenure", "Contract", "PaymentMethod", "MonthlyCharges", "TotalCharges"]

  /**
   * `engineer_features`: a missing input column raises `KeyError`; text in
   * `tenure` makes `pd.cut` raise, and text in `MonthlyCharges` or
   * `TotalCharges` makes the arithmetic raise.
   */
  function EngineerFeatures(f: Frame): (r: Result<Frame, string>)
    ensures r.Success? <==>
      (forall c :: c in ScriptInputs ==> c in f.columns)
      && NumericColumn(f, "tenure") && NumericColumn(f, "MonthlyCharges") && NumericColumn(f, "TotalCharges")
    ensures r.Success? ==> |r.value.rows| == |f.rows|
    ensures r.Success? ==> |r.value.columns| >= |f.columns| && r.value.columns[..|f.columns|] == f.columns
  {
    ScriptInputsPresent(f.columns);
    if "tenure" !in f.columns then Failure("'tenure'")
    else if !NumericColumn(f, "tenure") then Failure("TypeError: tenure cannot be binned")
    else if "Contract" !in f.columns then Failure("'Contract'")
    else if "PaymentMethod" !in f.columns then Failure("'PaymentMethod'")
    else if "MonthlyCharges" !in f.columns then Failure("'MonthlyCharges'")
    else if "TotalCharges" !in f.columns then Failure("'TotalCharges'")
    else if !NumericColumn(f, "MonthlyCharges") || !NumericColumn(f, "TotalCharges") then
      Failure("TypeError: charges cannot be used in arithmetic")
    else
      ScriptColumnsPrefix(f.columns);
      Success(Frame(ScriptColumns(f.columns),
        seq(|f.rows|, i requires 0 <= i < |f.rows| => ScriptRow(f.rows[i], f.columns))))
  }

  lemma ScriptInputsPresent(cols: seq<string>)
    ensures (forall c :: c in ScriptInputs ==> c in cols) <==>
      "tenure" in cols && "Contract" in cols && "PaymentMethod" in cols && "MonthlyCharges" in cols && "TotalCharges" in cols
  {
  }

  lemma AddNamePrefix(cols: seq<string>, c: string)
    ensures |AddName(cols, c)| >= |cols| && AddName(cols, c)[..|cols|] == cols
  {
  }

  /** The result keeps the input columns in front and adds every derived one. */
  lemma ScriptColumnsPrefix(cols: seq<string>)
    ensures |ScriptColumns(cols)| >= |cols| && ScriptColumns(cols)[..|cols|] == cols
    ensures forall c :: c in ScriptDerived ==> c in ScriptColumns(cols)
  {
    var c1 := AddName(cols, "tenure_bin");
    var c2 := AddName(c1, "is_high_risk_contract");
    var c3 := AddName(c2, "unstable_payment");
    var c4 := AddName(c3, "service_count");
    var c5 := AddName(c4, "price_sensitivity");
    AddNamePrefix(cols, "tenure_bin");
    AddNamePrefix(c1, "is_high_risk_contract");
    AddNamePrefix(c2, "unstable_payment");
    AddNamePrefix(c3, "service_count");
    AddNamePrefix(c4, "price_sensitivity");
    AddNamePrefix(c5, "clv_proxy");
    assert c2[..|cols|] == c1[..|c1|][..|cols|];
  }

  /**
   * The derived cells of one row: the right-closed tenure bucket (tenure 0 has
   * none), exact-string flags, the count of "Yes" cells, price sensitivity with
   * a missing `TotalCharges` read as 0, and the lifetime-value proxy.
   */
  lemma ScriptRowValues(r: Row, cols: seq<string>)
    ensures Get(ScriptRow(r, cols), "tenure_bin") == FeatureEngineering.TenureBin(Get(r, "tenure"))
    ensures Get(r, "tenure") == Num(0.0) ==> Get(ScriptRow(r, cols), "tenure_bin") == Null
    ensures Get(ScriptRow(r, cols), "is_high_risk_contract") == Num(1.0) <==> Get(r, "Contract") == Str("Month-to-month")
    ensures Get(ScriptRow(r, cols), "unstable_payment") == Num(1.0) <==> Get(r, "PaymentMethod") == Str("Electronic check")
    ensures Get(ScriptRow(r, cols), "service_count") == Num(CountYesCells(FlaggedRow(r), CountedColumns(cols)) as real)
    ensures Get(r, "TotalCharges").Null? ==>
      Get(ScriptRow(r, cols), "price_sensitivity") == Div(Get(r, "MonthlyCharges"), Num(1.0))
    ensures Get(r, "TotalCharges").Num? ==>
      Get(ScriptRow(r, cols), "price_sensitivity") == Div(Get(r, "MonthlyCharges"), Num(Get(r, "TotalCharges").x + 1.0))
    ensures Get(ScriptRow(r, cols), "clv_proxy") == Mul(Get(r, "MonthlyCharges"), Get(r, "tenure"))
  {
    FlaggedValues(r, cols);
    FeatureEngineering.TenureBinSpec(Get(r, "tenure"));
    ComputedValues(r, cols);
  }

  /** The bucket and the two flags survive the three later assignments. */
  lemma FlaggedValues(r: Row, cols: seq<string>)
    ensures Get(ScriptRow(r, cols), "tenure_bin") == Get(FlaggedRow(r), "tenure_bin")
    ensures Get(ScriptRow(r, cols), "is_high_risk_contract") == Get(FlaggedRow(r), "is_high_risk_contract")
    ensures Get(ScriptRow(r, cols), "unstable_payment") == Get(FlaggedRow(r), "unstable_payment")
    ensures Get(FlaggedRow(r), "tenure_bin") == FeatureEngineering.TenureBin(Get(r, "tenure"))
    ensures Get(FlaggedRow(r), "is_high_risk_contract") == Flag(Get(r, "Contract") == Str("Month-to-month"))
    ensures Get(FlaggedRow(r), "unstable_payment") == Flag(Get(r, "PaymentMethod") == Str("Electronic check"))
  {
  }

  /** The three cells computed from the charges and the count. */
  lemma ComputedValues(r: Row, cols: seq<string>)
    ensures Get(ScriptRow(r, cols), "service_count") == Num(CountYesCells(FlaggedRow(r), CountedColumns(cols)) as real)
    ensures Get(ScriptRow(r, cols), "price_sensitivity") == Div(Get(r, "MonthlyCharges"), AddNum(FillNa(Get(r, "TotalCharges"), 0.0), 1.0))
    ensures Get(ScriptRow(r, cols), "clv_proxy") == Mul(Get(r, "MonthlyCharges"), Get(r, "tenure"))
  {
  }

  /** Every column the function does not write keeps its cell; in particular `TotalCharges` keeps its missing values. */
  lemma ScriptKeepsInputs(r: Row, cols: seq<string>, c: string)
    requires c !in ScriptDerived
    ensures Get(ScriptRow(r, cols), c) == Get(r, c)
  {
  }

  /** Counting over two column lists one after the other adds the counts. */
  lemma {:induction false} CountYesConcat(r: Row, a: seq<string>, b: seq<string>)
    ensures CountYesCells(r, a + b) == CountYesCells(r, a) + CountYesCells(r, b)
  {
    if a == [] {
      assert a + b == b;
    } else {
      CountYesConcat(r, a[1..], b);
      assert (a + b)[1..] == a[1..] + b;
    }
  }

  /** Rows that agree on every listed column have the same count. */
  lemma {:induction false} CountYesAgree(a: Row, b: Row, cols: seq<string>)
    requires forall k :: 0 <= k < |cols| ==> Get(a, cols[k]) == Get(b, cols[k])
    ensures CountYesCells(a, cols) == CountYesCells(b, cols)
  {
    if cols != [] {
      CountYesAgree(a, b, cols[1..]);
    }
  }

  /**
   * `service_count` is the number of the row's own input cells equal to
   * "Yes": the bucket and the two flags, written just before, are never "Yes".
   */
  lemma ServiceCountOfInputs(r: Row, cols: seq<string>)
    requires "tenure_bin" !in cols && "is_high_risk_contract" !in cols && "unstable_payment" !in cols
    ensures Get(ScriptRow(r, cols), "service_count") == Num(CountYesCells(r, cols) as real)
  {
    var r3 := FlaggedRow(r);
    ServiceCountCell(r, cols);
    var added := ["tenure_bin", "is_high_risk_contract", "unstable_payment"];
    assert CountedColumns(cols) == cols + added;
    CountYesConcat(r3, cols, added);
    forall k | 0 <= k < |cols|
      ensures Get(r3, cols[k]) == Get(r, cols[k])
    {
      assert cols[k] in cols;
    }
    CountYesAgree(r3, r, cols);
    AddedNotYes(r);
  }

  /** The count is taken over the flagged row, with the three written columns in the list. */
  lemma ServiceCountCell(r: Row, cols: seq<string>)
    ensures Get(ScriptRow(r, cols), "service_count") == Num(CountYesCells(FlaggedRow(r), CountedColumns(cols)) as real)
  {
  }

  /** The bucket and the two flags are never the text "Yes". */
  lemma AddedNotYes(r: Row)
    ensures CountYesCells(FlaggedRow(r), ["tenure_bin", "is_high_risk_contract", "unstable_payment"]) == 0
  {
    var r3 := FlaggedRow(r);
    var added := ["tenure_bin", "is_high_risk_contract", "unstable_payment"];
    assert "Yes" !in FeatureEngineering.TenureLabels;
    assert Get(r3, "tenure_bin") != Str("Yes");
    assert added[1..][1..][1..] == [];
    assert CountYesCells(r3, added[1..][1..]) == 0;
    assert CountYesCells(r3, added[1..]) == 0;
  }

  /**
   * Two rows that agree everywhere except `Churn`, which is "No" in one and
   * "Yes" in the other, differ by exactly one in their "Yes" counts over
   * columns that name `Churn` once.
   */
  lemma {:induction false} CountYesFlip(a: Row, b: Row, cols: seq<string>)
    requires forall c :: c != "Churn" ==> Get(a, c) == Get(b, c)
    requires Get(a, "Churn") == Str("No") && Get(b, "Churn") == Str("Yes")
    requires "Churn" in cols
    requires forall i, j :: 0 <= i < j < |cols| ==> cols[i] != cols[j]
    ensures CountYesCells(b, cols) == CountYesCells(a, cols) + 1
  {
    if cols[0] == "Churn" {
      CountYesSameWithout(a, b, cols[1..]);
    } else {
      CountYesFlip(a, b, cols[1..]);
    }
  }

  /** Rows that agree on every listed column have the same count. */
  lemma {:induction false} CountYesSameWithout(a: Row, b: Row, cols: seq<string>)
    requires forall c :: c != "Churn" ==> Get(a, c) == Get(b, c)
    requires "Churn" !in cols
    ensures CountYesCells(b, cols) == CountYesCells(a, cols)
  {
    if cols != [] {
      CountYesSameWithout(a, b, cols[1..]);
    }
  }

  lemma AddNameDistinct(cols: seq<string>, c: string)
    requires forall i, j :: 0 <= i < j < |cols| ==> cols[i] != cols[j]
    ensures forall i, j :: 0 <= i < j < |AddName(cols, c)| ==> AddName(cols, c)[i] != AddName(cols, c)[j]
  {
  }

  /**
   * The label leak: flipping a customer's `Churn` from "No" to "Yes" raises
   * its `service_count` by exactly one, all else equal.
   */
  lemma ServiceCountLeak(r: Row, cols: seq<string>)
    requires "Churn" in cols
    requires forall i, j :: 0 <= i < j < |cols| ==> cols[i] != cols[j]
    requires Get(r, "Churn") == Str("No")
    ensures Get(ScriptRow(r["Churn" := Str("Yes")], cols), "service_count").x
      == Get(ScriptRow(r, cols), "service_count").x + 1.0
  {
    var r' := r["Churn" := Str("Yes")];
    var a := FlaggedRow(r);
    var b := FlaggedRow(r');
    assert forall c :: c != "Churn" ==> Get(a, c) == Get(b, c);
    AddNameDistinct(cols, "tenure_bin");
    AddNameDistinct(AddName(cols, "tenure_bin"), "is_high_risk_contract");
    AddNameDistinct(AddName(AddName(cols, "tenure_bin"), "is_high_risk_contract"), "unstable_payment");
    CountYesFlip(a, b, CountedColumns(cols));
  }

  // ---------------------------------------------------------------------
  // map_attrition_window and the two target lists
  // ---------------------------------------------------------------------

  const CriticalLabel := "\U{1F534} CRITICAL (Next 30 Days)"
  const AtRiskLabel := "\U{1F7E0} AT-RISK (Phase 1: 2-4 Months)"
  const LoyalLabel := "\U{1F7E2} LOYAL (Retention Stronghold)"
  const StableLabel := "\U{1F7E1} STABLE (Baseline)"

  /** `map_attrition_window`: the first threshold that holds decides the window. */
  function MapAttritionWindow(p: real): (w: string)
    ensures w == CriticalLabel <==> p > 0.85
    ensures w == AtRiskLabel <==> 0.60 < p <= 0.85
    ensures w == LoyalLabel <==> p < 0.15
    ensures w == StableLabel <==> 0.15 <= p <= 0.60
  {
    if p > 0.85 then CriticalLabel
    else if p > 0.60 then AtRiskLabel
    else if p < 0.15 then LoyalLabel
    else StableLabel
  }

  /** The notebook windows are the bands of app.py's `classify_risk`, band for band. */
  lemma AttritionWindowAgreesWithApp(p: real)
    ensures MapAttritionWindow(p) == CriticalLabel <==> AppScoring.ClassifyRisk(p) == AppScoring.CriticalInfo
    ensures MapAttritionWindow(p) == AtRiskLabel <==> AppScoring.ClassifyRisk(p) == AppScoring.AtRiskInfo
    ensures MapAttritionWindow(p) == LoyalLabel <==> AppScoring.ClassifyRisk(p) == AppScoring.LoyalInfo
    ensures MapAttritionWindow(p) == StableLabel <==> AppScoring.ClassifyRisk(p) == AppScoring.StableInfo
  {
  }

  const ReasonCode := "Pricing & Mobility (Month-to-Month)"

  /** One row of `final_results`: the input row and the three added columns. */
  datatype ScriptResult = ScriptResult(row: Row, prob: real, riskProbability: real, forecast: string, reasonCode: string)

  /**
   * `final_results`: every holdout row with its probability as a percentage
   * (rounding to two places is not modelled), its window and the reason code.
   * The probabilities are scored on the same rows, so the lengths agree.
   */
  function FinalResults(rows: seq<Row>, probs: seq<real>): (res: seq<ScriptResult>)
    requires |rows| == |probs|
    ensures |res| == |rows|
  {
    seq(|rows|, k requires 0 <= k < |rows| =>
      ScriptResult(rows[k], probs[k], probs[k] * 100.0, MapAttritionWindow(probs[k]), ReasonCode))
  }

  /** Every result row carries the same reason code, whatever its row and probability. */
  lemma ReasonCodeConstant(rows: seq<Row>, probs: seq<real>, k: nat)
    requires |rows| == |probs| && k < |rows|
    ensures FinalResults(rows, probs)[k].reasonCode == "Pricing & Mobility (Month-to-Month)"
    ensures FinalResults(rows, probs)[k].row == rows[k]
  {
  }

  /** `str.contains('🔴|🟠')`: the window names a red or an orange marker. */
  predicate IsTarget(x: ScriptResult)
  {
    '\U{1F534}' in x.forecast || '\U{1F7E0}' in x.forecast
  }

  /** `str.contains('🟢')`. */
  predicate IsLoyal(x: ScriptResult)
  {
    '\U{1F7E2}' in x.forecast
  }

  /** The markers of the four windows pick out exactly the probability ranges. */
  lemma WindowMarkers(p: real)
    ensures ('\U{1F534}' in MapAttritionWindow(p) || '\U{1F7E0}' in MapAttritionWindow(p)) <==> p > 0.60
    ensures '\U{1F7E2}' in MapAttritionWindow(p) <==> p < 0.15
  {
    assert CriticalLabel[0] == '\U{1F534}' && AtRiskLabel[0] == '\U{1F7E0}' && LoyalLabel[0] == '\U{1F7E2}';
    assert forall i :: 0 <= i < |StableLabel| ==> StableLabel[i] !in {'\U{1F534}', '\U{1F7E0}', '\U{1F7E2}'};
    assert forall i :: 0 <= i < |LoyalLabel| ==> LoyalLabel[i] !in {'\U{1F534}', '\U{1F7E0}'};
    assert forall i :: 0 <= i < |CriticalLabel| ==> CriticalLabel[i] != '\U{1F7E2}';
    assert forall i :: 0 <= i < |AtRiskLabel| ==> AtRiskLabel[i] != '\U{1F7E2}';
  }

  /** The rows kept by a boolean mask, in order. */
  function Select(rs: seq<ScriptResult>, keep: ScriptResult -> bool): (out: seq<ScriptResult>)
    ensures forall x :: x in out <==> x in rs && keep(x)
    ensures |out| <= |rs|
  {
    if rs == [] then []
    else (if keep(rs[0]) then [rs[0]] else []) + Select(rs[1..], keep)
  }

  function RiskKey(x: ScriptResult): real { x.riskProbability }

  function NegRiskKey(x: ScriptResult): real { -x.riskProbability }

  /** `churn_targets`: the red and orange rows, highest probability first. */
  function ChurnTargets(rs: seq<ScriptResult>): seq<ScriptResult>
  {
    SortDesc(Select(rs, IsTarget), RiskKey)
  }

  /** `stable_foundation`: the green rows, lowest probability first. */
  function StableFoundation(rs: seq<ScriptResult>): seq<ScriptResult>
  {
    SortDesc(Select(rs, IsLoyal), NegRiskKey)
  }

  /** A result row of a batch has its window computed from its own probability. */
  lemma FinalResultsMember(rows: seq<Row>, probs: seq<real>, x: ScriptResult)
    requires |rows| == |probs| && x in FinalResults(rows, probs)
    ensures x.forecast == MapAttritionWindow(x.prob) && x.riskProbability == x.prob * 100.0
  {
  }

  /** The churn targets are exactly the rows of the batch above 0.60. */
  lemma ChurnTargetsMembers(rows: seq<Row>, probs: seq<real>)
    requires |rows| == |probs|
    ensures forall x :: x in ChurnTargets(FinalResults(rows, probs)) <==> x in FinalResults(rows, probs) && x.prob > 0.60
  {
    var res := FinalResults(rows, probs);
    var t := ChurnTargets(res);
    forall x | x in res
      ensures IsTarget(x) <==> x.prob > 0.60
    {
      FinalResultsMember(rows, probs, x);
      WindowMarkers(x.prob);
    }
    assert forall x :: x in t <==> x in multiset(t);
  }

  /** Each target appears as often as in the batch, ordered by risk percentage from highest to lowest. */
  lemma ChurnTargetsOrder(rs: seq<ScriptResult>)
    ensures multiset(ChurnTargets(rs)) == multiset(Select(rs, IsTarget))
    ensures forall i, j :: 0 <= i < j < |ChurnTargets(rs)| ==>
      ChurnTargets(rs)[i].riskProbability >= ChurnTargets(rs)[j].riskProbability
  {
    var t := ChurnTargets(rs);
    assert forall i, j :: 0 <= i < j < |t| ==> RiskKey(t[i]) >= RiskKey(t[j]);
  }

  /** The loyal core is exactly the rows of the batch below 0.15. */
  lemma StableFoundationMembers(rows: seq<Row>, probs: seq<real>)
    requires |rows| == |probs|
    ensures forall x :: x in StableFoundation(FinalResults(rows, probs)) <==> x in FinalResults(rows, probs) && x.prob < 0.15
  {
    var res := FinalResults(rows, probs);
    var s := StableFoundation(res);
    forall x | x in res
      ensures IsLoyal(x) <==> x.prob < 0.15
    {
      FinalResultsMember(rows, probs, x);
      WindowMarkers(x.prob);
    }
    assert forall x :: x in s <==> x in multiset(s);
  }

  /** Each loyal row appears as often as in the batch, ordered by risk percentage from lowest to highest. */
  lemma StableFoundationOrder(rs: seq<ScriptResult>)
    ensures multiset(StableFoundation(rs)) == multiset(Select(rs, IsLoyal))
    ensures forall i, j :: 0 <= i < j < |StableFoundation(rs)| ==>
      StableFoundation(rs)[i].riskProbability <= StableFoundation(rs)[j].riskProbability
  {
    var s := StableFoundation(rs);
    assert forall i, j :: 0 <= i < j < |s| ==> NegRiskKey(s[i]) >= NegRiskKey(s[j]);
  }

  /** No customer is both a churn target and part of the loyal core. */
  lemma TargetsAndLoyalDisjoint(rows: seq<Row>, probs: seq<real>)
    requires |rows| == |probs|
    ensures forall x :: !(x in ChurnTargets(FinalResults(rows, probs)) && x in StableFoundation(FinalResults(rows, probs)))
  {
    ChurnTargetsMembers(rows, probs);
    StableFoundationMembers(rows, probs);
  }
}
