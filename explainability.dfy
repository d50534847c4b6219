/**
 * explainability.py: the per-customer reason text of
 * `generate_reason_codes` (five fixed rules, the first two that hold joined
 * by " + ") and the importance table of `get_feature_importance`. The
 * `model` and `feature_names` arguments of `generate_reason_codes` are
 * never read, so they are not parameters here.
 */
module Explainability {
  import opened Wrappers
  import opened Text
  import opened Frames
  import opened Sorting
  import opened ReasonChains
  import AppScoring

  // ---------------------------------------------------------------------
  // generate_reason_codes
  // ---------------------------------------------------------------------

  /**
   * `pd.to_numeric` on one value, without coercion: numbers and missing
   * values pass, the empty text is missing, other text must parse or the
   * call raises.
   */
  function ScalarNumeric(c: Cell): (r: Result<Cell, string>)
    ensures r.Success? ==> !r.value.Str?
    ensures c.Num? || c.Null? ==> r == Success(c)
  {
    match c
    case Num(_) => Success(c)
    case Null => Success(Null)
    case Str(s) =>
      if s == "" then Success(Null)
      else match ParseNumber(s)
        case Some(x) => Success(Num(x))
        case None => Failure("Unable to parse string \"" + s + "\" at position 0")
  }

  /** `pd.to_numeric(customer_row.get(key, 0))`. */
  function RowNumber(row: Row, key: string): Result<Cell, string>
  {
    ScalarNumeric(AppScoring.GetOr(row, key, 0.0))
  }

  /** Both numeric look-ups succeed. */
  predicate NumbersParse(row: Row)
  {
    RowNumber(row, "MonthlyCharges").Success? && RowNumber(row, "tenure").Success?
  }

  const ContractReason := "Month-to-Month Contract"
  const PaymentReason := "Electronic Check Payment"
  const ChargesReason := "High Monthly Charges"
  const TenureReason := "New Customer (Fragile Window)"
  const FiberReason := "Fiber Optic Service (High Churn Segment)"

  /** The five rules, in the order they are tested, given the row's converted charge and tenure. */
  function Rules(row: Row, charges: Cell, tenure: Cell): (rules: seq<Rule>)
    ensures |rules| == 5
  {
    [ Rule(ContractReason, Get(row, "Contract") == Str("Month-to-month")),
      Rule(PaymentReason, Get(row, "PaymentMethod") == Str("Electronic check")),
      Rule(ChargesReason, NumGreater(charges, 70.0)),
      Rule(TenureReason, NumLess(tenure, 6.0)),
      Rule(FiberReason, Get(row, "InternetService") == Str("Fiber optic")) ]
  }

  /** The rules of a row whose numbers convert. */
  function ReasonRules(row: Row): (rules: seq<Rule>)
    requires NumbersParse(row)
    ensures |rules| == 5
  {
    Rules(row, RowNumber(row, "MonthlyCharges").value, RowNumber(row, "tenure").value)
  }

  const CompositeRisk := "Behavioral Patterns (Composite Risk)"

  /**
   * `generate_reason_codes`: append the reason of every rule that holds, in
   * order, then keep the first two; an unparsable charge or tenure raises.
   */
  method GenerateReasonCodes(row: Row) returns (r: Result<string, string>)
    ensures r.Failure? <==> !NumbersParse(row)
    ensures r.Success? ==> NumbersParse(row) && r.value == ChainText(ReasonRules(row), CompositeRisk)
  {
    var reasons: seq<string> := [];
    reasons := AppendIf(reasons, Get(row, "Contract") == Str("Month-to-month"), ContractReason);
    assert reasons == Part(Rule(ContractReason, Get(row, "Contract") == Str("Month-to-month")));
    reasons := AppendIf(reasons, Get(row, "PaymentMethod") == Str("Electronic check"), PaymentReason);
    var mc := RowNumber(row, "MonthlyCharges");
    if mc.Failure? {
      return Failure(mc.error);
    }
    reasons := AppendIf(reasons, NumGreater(mc.value, 70.0), ChargesReason);
    var tenure := RowNumber(row, "tenure");
    if tenure.Failure? {
      return Failure(tenure.error);
    }
    reasons := AppendIf(reasons, NumLess(tenure.value, 6.0), TenureReason);
    reasons := AppendIf(reasons, Get(row, "InternetService") == Str("Fiber optic"), FiberReason);
    ghost var rules := Rules(row, mc.value, tenure.value);
    FiredPrefixes(rules);
    assert reasons == Part(rules[0]) + Part(rules[1]) + Part(rules[2]) + Part(rules[3]) + Part(rules[4]);
    var text := ReasonText(reasons, rules);
    r := Success(text);
  }

  /** `" + ".join(reasons[:2])`, or the composite-risk text when no reason was found. */
  method ReasonText(reasons: seq<string>, ghost rules: seq<Rule>) returns (text: string)
    requires reasons == Fired(rules)
    ensures text == ChainText(rules, CompositeRisk)
  {
    ChainOfFired(reasons, rules, CompositeRisk);
    if reasons == [] {
      return CompositeRisk;
    }
    if |reasons| == 1 {
      text := Join(reasons, " + ");
    } else {
      text := Join(reasons[..2], " + ");
    }
  }

  /** `if cond: reasons.append(reason)`. */
  method AppendIf(reasons: seq<string>, cond: bool, reason: string) returns (reasons': seq<string>)
    ensures reasons' == reasons + Part(Rule(reason, cond))
  {
    reasons' := reasons;
    if cond {
      reasons' := reasons' + [reason];
    }
  }

  /** The reasons of five rules, rule by rule. */
  lemma FiredPrefixes(rules: seq<Rule>)
    requires |rules| == 5
    ensures Fired(rules) == Part(rules[0]) + Part(rules[1]) + Part(rules[2]) + Part(rules[3]) + Part(rules[4])
  {
    assert rules[4..][1..] == [];
    assert rules[3..][1..] == rules[4..];
    assert rules[2..][1..] == rules[3..];
    assert rules[1..][1..] == rules[2..];
    assert Fired(rules[4..]) == Part(rules[4]);
    assert Fired(rules[3..]) == Part(rules[3]) + Fired(rules[4..]);
    assert Fired(rules[2..]) == Part(rules[2]) + Fired(rules[3..]);
    assert Fired(rules[1..]) == Part(rules[1]) + Fired(rules[2..]);
  }

  /** A row matching no rule gets the composite-risk text. */
  lemma ReasonCodesNone(row: Row, charges: Cell, tenure: Cell)
    requires forall k :: 0 <= k < 5 ==> !Rules(row, charges, tenure)[k].fires
    ensures ChainText(Rules(row, charges, tenure), CompositeRisk) == CompositeRisk
  {
    ChainNone(Rules(row, charges, tenure), CompositeRisk);
  }

  /**
   * A missing tenure reads as 0 and so marks a new customer; missing
   * monthly charges read as 0 and never count as high.
   */
  lemma MissingNumbersDefault(row: Row)
    requires "tenure" !in row && "MonthlyCharges" !in row
    ensures NumbersParse(row)
    ensures ReasonRules(row)[3].fires && !ReasonRules(row)[2].fires
  {
  }

  /**
   * When the contract and payment rules both hold, the text is those two
   * reasons, whatever the later rules say: the charge threshold of 70 is
   * absolute, and a third matching reason is dropped.
   */
  lemma ReasonCodesFirstTwo(row: Row, charges: Cell, tenure: Cell)
    requires Get(row, "Contract") == Str("Month-to-month") && Get(row, "PaymentMethod") == Str("Electronic check")
    ensures ChainText(Rules(row, charges, tenure), CompositeRisk) == ContractReason + " + " + PaymentReason
  {
    ChainTwo(Rules(row, charges, tenure), CompositeRisk, 0, 1);
  }

  /** A charge above 70 and a tenure below 6 alone give those two reasons. */
  lemma ReasonCodesChargesAndTenure(row: Row, charges: Cell, tenure: Cell)
    requires Get(row, "Contract") != Str("Month-to-month") && Get(row, "PaymentMethod") != Str("Electronic check")
    requires NumGreater(charges, 70.0) && NumLess(tenure, 6.0)
    ensures ChainText(Rules(row, charges, tenure), CompositeRisk) == ChargesReason + " + " + TenureReason
  {
    ChainTwo(Rules(row, charges, tenure), CompositeRisk, 2, 3);
  }

  // ---------------------------------------------------------------------
  // get_feature_importance
  // ---------------------------------------------------------------------

  datatype FeatureRow = FeatureRow(feature: string, importance: real)

  function ImportanceOf(r: FeatureRow): real { r.importance }

  /** The unsorted table: one row per feature name, paired by position. */
  function Pair(names: seq<string>, importances: seq<real>): (rows: seq<FeatureRow>)
    requires |names| == |importances|
    ensures |rows| == |names|
  {
    seq(|names|, k requires 0 <= k < |names| => FeatureRow(names[k], importances[k]))
  }

  /**
   * `get_feature_importance`: the model's importances, or zeros when it has
   * none, paired with the names and sorted by importance from highest to
   * lowest. Columns of different lengths make the table constructor raise.
   */
  function GetFeatureImportance(names: seq<string>, modelImportances: Option<seq<real>>): (r: Result<seq<FeatureRow>, string>)
    ensures r.Success? <==> modelImportances.None? || |modelImportances.value| == |names|
    ensures r.Success? ==> |r.value| == |names|
    ensures r.Success? ==> SortedDesc(r.value, ImportanceOf)
  {
    var importances := if modelImportances.Some? then modelImportances.value else seq(|names|, k => 0.0);
    if |importances| != |names| then Failure("All arrays must be of the same length")
    else Success(SortDesc(Pair(names, importances), ImportanceOf))
  }

  /** Every feature keeps its own importance, and the table holds nothing else. */
  lemma FeatureImportanceRows(names: seq<string>, importances: seq<real>)
    requires |importances| == |names|
    ensures forall k :: 0 <= k < |names| ==> FeatureRow(names[k], importances[k]) in GetFeatureImportance(names, Some(importances)).value
    ensures forall x :: x in GetFeatureImportance(names, Some(importances)).value ==>
      exists k :: 0 <= k < |names| && x == FeatureRow(names[k], importances[k])
    ensures multiset(GetFeatureImportance(names, Some(importances)).value) == multiset(Pair(names, importances))
  {
    var rows := Pair(names, importances);
    var out := GetFeatureImportance(names, Some(importances)).value;
    assert out == SortDesc(rows, ImportanceOf);
    SameMembers(out, rows);
    forall k | 0 <= k < |names|
      ensures FeatureRow(names[k], importances[k]) in out
    {
      assert rows[k] in rows;
    }
    forall x | x in out
      ensures exists k :: 0 <= k < |names| && x == FeatureRow(names[k], importances[k])
    {
      var k :| 0 <= k < |rows| && rows[k] == x;
    }
  }

  /** Two lists with the same multiset have the same members. */
  lemma SameMembers(a: seq<FeatureRow>, b: seq<FeatureRow>)
    requires multiset(a) == multiset(b)
    ensures forall x :: x in a <==> x in b
  {
    forall x
      ensures x in a <==> x in b
    {
      assert x in a <==> x in multiset(a);
      assert x in b <==> x in multiset(b);
    }
  }

  /** Without importances every feature scores 0. */
  lemma FeatureImportanceZeros(names: seq<string>)
    ensures forall x :: x in GetFeatureImportance(names, None).value ==> x.importance == 0.0
    ensures |GetFeatureImportance(names, None).value| == |names|
  {
    var rows := Pair(names, seq(|names|, k => 0.0));
    var out := GetFeatureImportance(names, None).value;
    assert forall x :: x in out <==> x in multiset(out);
  }
}
