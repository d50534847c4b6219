/**
 * masterclass_engine.py: `engineer_masterclass_features`, the `RiskLevel`
 * bands of the prediction response, its 1000-record cap, and the training
 * label. Unlike the production feature step, this one counts every service
 * value other than "No" and "No internet service" as active, buckets tenure
 * at 60 months, and flags charges against the median of the whole batch.
 */
module MasterclassEngine {
  import opened Wrappers
  import opened Frames
  import opened Binning
  import opened Sorting
  import Predict

  const GroupEdges: seq<real> := [0.0, 12.0, 24.0, 48.0, 60.0, 100.0]
  const GroupLabels: seq<string> := ["0-1yr", "1-2yr", "2-4yr", "4-5yr", "5yr+"]

  /** The nine service columns; `InternetService` is one of them here. */
  const MasterServices: seq<string> := [
    "PhoneService", "MultipleLines", "InternetService", "OnlineSecurity", "OnlineBackup",
    "DeviceProtection", "TechSupport", "StreamingTV", "StreamingMovies"
  ]

  /** `pd.cut` with the masterclass edges. */
  function TenureGroup(c: Cell): Cell
  {
    Cut(c, GroupEdges, GroupLabels)
  }

  /** The bucket edges increase and the labels differ. */
  lemma GroupScale()
    ensures StrictlyIncreasing(GroupEdges)
    ensures forall i, j :: 0 <= i < j < |GroupLabels| ==> GroupLabels[i] != GroupLabels[j]
  {
  }

  /** `(0,12]` 0-1yr, `(12,24]` 1-2yr, `(24,48]` 2-4yr, `(48,60]` 4-5yr, `(60,100]` 5yr+, otherwise no group. */
  lemma TenureGroupSpec(c: Cell)
    ensures TenureGroup(c) == Str("0-1yr") <==> c.Num? && 0.0 < c.x <= 12.0
    ensures TenureGroup(c) == Str("1-2yr") <==> c.Num? && 12.0 < c.x <= 24.0
    ensures TenureGroup(c) == Str("2-4yr") <==> c.Num? && 24.0 < c.x <= 48.0
    ensures TenureGroup(c) == Str("4-5yr") <==> c.Num? && 48.0 < c.x <= 60.0
    ensures TenureGroup(c) == Str("5yr+") <==> c.Num? && 60.0 < c.x <= 100.0
    ensures TenureGroup(c) == Null <==> !c.Num? || c.x <= 0.0 || c.x > 100.0
  {
    GroupScale();
    CutLabel(c, GroupEdges, GroupLabels, 0);
    CutLabel(c, GroupEdges, GroupLabels, 1);
    CutLabel(c, GroupEdges, GroupLabels, 2);
    CutLabel(c, GroupEdges, GroupLabels, 3);
    CutLabel(c, GroupEdges, GroupLabels, 4);
    CutNull(c, GroupEdges, GroupLabels);
  }

  /**
   * `(x != 'No') & (x != 'No internet service')`: any other cell counts,
   * including other texts, numbers and missing values (a missing value is
   * unequal to every text).
   */
  predicate Active(c: Cell)
  {
    c != Str("No") && c != Str("No internet service")
  }

  /** The texts the data set uses that are not rejections all count as active services. */
  lemma ActiveExamples()
    ensures Active(Str("Yes")) && Active(Str("No phone service")) && Active(Str("DSL")) && Active(Str("Fiber optic"))
    ensures Active(Null)
    ensures !Active(Str("No")) && !Active(Str("No internet service"))
  {
  }

  /** Number of the columns `avail` whose cell is active. */
  function CountActive(r: Row, avail: seq<string>): (n: nat)
    ensures n <= |avail|
  {
    if avail == [] then 0
    else (if Active(Get(r, avail[0])) then 1 else 0) + CountActive(r, avail[1..])
  }

  /** The count is 0 exactly when no listed cell is active, and full exactly when all are. */
  lemma {:induction false} CountActiveSpec(r: Row, avail: seq<string>)
    ensures CountActive(r, avail) == 0 <==> forall k :: 0 <= k < |avail| ==> !Active(Get(r, avail[k]))
    ensures CountActive(r, avail) == |avail| <==> forall k :: 0 <= k < |avail| ==> Active(Get(r, avail[k]))
  {
    if avail != [] {
      CountActiveSpec(r, avail[1..]);
      assert forall k :: 0 < k < |avail| ==> avail[1..][k - 1] == avail[k];
    }
  }

  /** `Series.median()` of a column: `None` stands for the `NaN` of a column with no numbers. */
  function MedianOf(cells: seq<Cell>): Option<real>
  {
    var xs := NumericValues(cells);
    if xs == [] then None else Some(Median(xs))
  }

  /** `(x > median).astype(int)`: a comparison with `NaN` is false. */
  function HighMonthly(c: Cell, med: Option<real>): Cell
  {
    if med.Some? && NumGreater(c, med.value) then Num(1.0) else Num(0.0)
  }

  // The assignments of `engineer_masterclass_features`, one per statement,
  // each writing one column and leaving the others as they were.

  function SetCleanTotal(r: Row, cols: seq<string>): (r': Row)
    ensures forall k :: k != "TotalCharges" ==> Get(r', k) == Get(r, k)
  {
    if "TotalCharges" in cols then r["TotalCharges" := FillNa(ToNumeric(Get(r, "TotalCharges")), 0.0)] else r
  }

  function SetGroup(r: Row): (r': Row)
    ensures forall k :: k != "tenure_group" ==> Get(r', k) == Get(r, k)
  {
    r["tenure_group" := TenureGroup(Get(r, "tenure"))]
  }

  function SetActiveCount(r: Row, cols: seq<string>): (r': Row)
    ensures forall k :: k != "service_count" ==> Get(r', k) == Get(r, k)
  {
    r["service_count" := Num(CountActive(r, FilterIn(MasterServices, cols)) as real)]
  }

  function SetHighMonthly(r: Row, med: Option<real>): (r': Row)
    ensures forall k :: k != "high_monthly_risk" ==> Get(r', k) == Get(r, k)
  {
    r["high_monthly_risk" := HighMonthly(Get(r, "MonthlyCharges"), med)]
  }

  /** One engineered row, given the batch median of `MonthlyCharges`. */
  function MasterRow(r: Row, cols: seq<string>, med: Option<real>): Row
  {
    SetHighMonthly(SetActiveCount(SetGroup(SetCleanTotal(r, cols)), cols), med)
  }

  /**
   * `engineer_masterclass_features`: the engineered copy, or the error pandas
   * raises for a missing `tenure` or `MonthlyCharges` column or a column of
   * text where numbers are needed.
   */
  function EngineerMasterclass(f: Frame): Result<Frame, string>
  {
    if "tenure" !in f.columns then Failure("'tenure'")
    else if !NumericColumn(f, "tenure") then Failure("TypeError: tenure cannot be binned")
    else if "MonthlyCharges" !in f.columns then Failure("'MonthlyCharges'")
    else if !NumericColumn(f, "MonthlyCharges") then Failure("TypeError: MonthlyCharges has no median")
    else
      var med := MedianOf(Column(f, "MonthlyCharges"));
      var cols := AddName(AddName(AddName(f.columns, "tenure_group"), "service_count"), "high_monthly_risk");
      Success(Frame(cols, seq(|f.rows|, i requires 0 <= i < |f.rows| => MasterRow(f.rows[i], f.columns, med))))
  }

  /** The cells the rules write, in terms of the row's own cells and the batch median. */
  lemma MasterRowSpec(r: Row, cols: seq<string>, med: Option<real>)
    ensures Get(MasterRow(r, cols, med), "tenure_group") == TenureGroup(Get(r, "tenure"))
    ensures Get(MasterRow(r, cols, med), "service_count") == Num(CountActive(r, FilterIn(MasterServices, cols)) as real)
    ensures Get(MasterRow(r, cols, med), "high_monthly_risk") == HighMonthly(Get(r, "MonthlyCharges"), med)
    ensures Get(MasterRow(r, cols, med), "MonthlyCharges") == Get(r, "MonthlyCharges")
    ensures "TotalCharges" in cols ==> Get(MasterRow(r, cols, med), "TotalCharges") == FillNa(ToNumeric(Get(r, "TotalCharges")), 0.0)
  {
    var r1 := SetCleanTotal(r, cols);
    var r2 := SetGroup(r1);
    ActiveCountSame(r, cols);
  }

  /** Cleaning `TotalCharges` and bucketing tenure leave the services alone. */
  lemma ActiveCountSame(r: Row, cols: seq<string>)
    ensures CountActive(SetGroup(SetCleanTotal(r, cols)), FilterIn(MasterServices, cols))
      == CountActive(r, FilterIn(MasterServices, cols))
  {
    var avail := FilterIn(MasterServices, cols);
    assert "TotalCharges" !in MasterServices && "tenure_group" !in MasterServices;
    ActiveSame(SetGroup(SetCleanTotal(r, cols)), r, avail);
  }

  /** The same, for row `i` of an engineered table. */
  lemma MasterRowValues(f: Frame, i: nat)
    requires EngineerMasterclass(f).Success? && i < |f.rows|
    ensures var g := EngineerMasterclass(f).value.rows[i]; var r := f.rows[i];
      && Get(g, "tenure_group") == TenureGroup(Get(r, "tenure"))
      && Get(g, "service_count") == Num(CountActive(r, FilterIn(MasterServices, f.columns)) as real)
      && Get(g, "high_monthly_risk") == HighMonthly(Get(r, "MonthlyCharges"), MedianOf(Column(f, "MonthlyCharges")))
      && Get(g, "MonthlyCharges") == Get(r, "MonthlyCharges")
      && ("TotalCharges" in f.columns ==> Get(g, "TotalCharges") == FillNa(ToNumeric(Get(r, "TotalCharges")), 0.0))
  {
    MasterRowSpec(f.rows[i], f.columns, MedianOf(Column(f, "MonthlyCharges")));
  }

  lemma {:induction false} ActiveSame(r: Row, r': Row, avail: seq<string>)
    requires forall s :: s in avail ==> Get(r, s) == Get(r', s)
    ensures CountActive(r, avail) == CountActive(r', avail)
  {
    if avail != [] {
      assert avail[0] in avail;
      assert forall s :: s in avail[1..] ==> s in avail;
      ActiveSame(r, r', avail[1..]);
    }
  }

  /** Number of `1` flags in a column. */
  function CountOnes(cells: seq<Cell>): (n: nat)
    ensures n <= |cells|
  {
    if cells == [] then 0 else (if cells[0] == Num(1.0) then 1 else 0) + CountOnes(cells[1..])
  }

  /** The flags of a column against a median. */
  function Flags(cells: seq<Cell>, med: Option<real>): (fl: seq<Cell>)
    ensures |fl| == |cells|
  {
    seq(|cells|, k requires 0 <= k < |cells| => HighMonthly(cells[k], med))
  }

  /** A row is flagged exactly when its charge is a number above the median. */
  lemma {:induction false} CountOnesFlags(cells: seq<Cell>, m: real)
    ensures CountOnes(Flags(cells, Some(m))) == CountAbove(NumericValues(cells), m)
  {
    if cells != [] {
      CountOnesFlags(cells[1..], m);
      assert Flags(cells, Some(m))[1..] == Flags(cells[1..], Some(m));
      var c := cells[0];
      var xs := NumericValues(cells);
      if c.Num? {
        assert xs == [c.x] + NumericValues(cells[1..]);
        assert xs[1..] == NumericValues(cells[1..]);
      } else {
        assert xs == NumericValues(cells[1..]);
      }
    }
  }

  lemma {:induction false} CountOnesNone(cells: seq<Cell>)
    ensures CountOnes(Flags(cells, None)) == 0
  {
    if cells != [] {
      CountOnesNone(cells[1..]);
      assert Flags(cells, None)[1..] == Flags(cells[1..], None);
    }
  }

  /** At most half of the rows (rounded down) get `high_monthly_risk = 1`. */
  lemma HighMonthlyAtMostHalf(f: Frame)
    requires EngineerMasterclass(f).Success?
    ensures CountOnes(Column(EngineerMasterclass(f).value, "high_monthly_risk")) <= |f.rows| / 2
  {
    var g := EngineerMasterclass(f).value;
    var cells := Column(f, "MonthlyCharges");
    var med := MedianOf(cells);
    forall i | 0 <= i < |f.rows|
      ensures Column(g, "high_monthly_risk")[i] == Flags(cells, med)[i]
    {
      MasterRowValues(f, i);
    }
    assert Column(g, "high_monthly_risk") == Flags(cells, med);
    var xs := NumericValues(cells);
    if xs == [] {
      CountOnesNone(cells);
    } else {
      CountOnesFlags(cells, Median(xs));
      AtMostHalfAboveMedian(xs);
    }
  }

  lemma MedianOfPair(a: real, b: real)
    requires a >= b
    ensures MedianOf([Num(a), Num(b)]) == Some((a + b) / 2.0)
    ensures MedianOf([Num(b), Num(a)]) == Some((a + b) / 2.0)
  {
    NumericPair(a, b);
    NumericPair(b, a);
    MedianPair(a, b);
  }

  lemma NumericPair(a: real, b: real)
    ensures NumericValues([Num(a), Num(b)]) == [a, b]
  {
    assert [Num(a), Num(b)][1..] == [Num(b)];
  }

  lemma MedianPair(a: real, b: real)
    requires a >= b
    ensures Median([a, b]) == (a + b) / 2.0 && Median([b, a]) == (a + b) / 2.0
  {
    SortPair(a, b);
  }

  lemma SortPair(a: real, b: real)
    requires a >= b
    ensures SortDesc([a, b], Id) == [a, b] && SortDesc([b, a], Id) == [a, b]
  {
    assert SortDesc([b], Id) == [b];
    assert SortDesc([a], Id) == [a];
    assert [a, b][1..] == [b];
    assert [b, a][1..] == [a];
  }

  /**
   * The flag is not row-local: the same charge of 2 is flagged next to a
   * charge of 1 and not flagged next to a charge of 3.
   */
  lemma HighMonthlyDependsOnBatch()
    ensures HighMonthly(Num(2.0), MedianOf([Num(2.0), Num(1.0)])) == Num(1.0)
    ensures HighMonthly(Num(2.0), MedianOf([Num(2.0), Num(3.0)])) == Num(0.0)
  {
    MedianOfPair(2.0, 1.0);
    MedianOfPair(3.0, 2.0);
  }

  /** The `RiskLevel` list of the prediction response: one band per probability. */
  function RiskLevels(probs: seq<real>): (levels: seq<string>)
    ensures |levels| == |probs|
    ensures forall k :: 0 <= k < |probs| ==>
      && (levels[k] == "Critical" <==> probs[k] > 0.8)
      && (levels[k] == "High" <==> 0.6 < probs[k] <= 0.8)
      && (levels[k] == "Moderate" <==> 0.4 < probs[k] <= 0.6)
      && (levels[k] == "Low" <==> probs[k] <= 0.4)
  {
    seq(|probs|, k requires 0 <= k < |probs| => Predict.GetRiskLevel(probs[k]))
  }

  /** One record of the prediction response. */
  datatype MasterRecord = MasterRecord(customerId: Cell, monthlyCharges: Cell, tenure: Cell, churnProbability: real, riskLevel: string)

  /**
   * The response of `predict`: the selected columns of the first 1000 rows of
   * the uploaded table (not of the engineered copy), each with its
   * probability and band. A missing `customerID` column is a `KeyError`.
   */
  function PredictResponse(f: Frame, probs: seq<real>): (r: Result<seq<MasterRecord>, string>)
    requires |probs| == |f.rows|
    ensures r.Success? <==> "customerID" in f.columns && "MonthlyCharges" in f.columns && "tenure" in f.columns
    ensures r.Success? ==> |r.value| == if |f.rows| < 1000 then |f.rows| else 1000
    ensures r.Success? ==> forall k :: 0 <= k < |r.value| ==>
      r.value[k].customerId == Get(f.rows[k], "customerID") && r.value[k].churnProbability == probs[k]
  {
    if "customerID" !in f.columns || "MonthlyCharges" !in f.columns || "tenure" !in f.columns then
      Failure("KeyError: a response column is missing")
    else
      var levels := RiskLevels(probs);
      var n := if |f.rows| < 1000 then |f.rows| else 1000;
      Success(seq(n, k requires 0 <= k < n =>
        MasterRecord(Get(f.rows[k], "customerID"), Get(f.rows[k], "MonthlyCharges"), Get(f.rows[k], "tenure"),
          probs[k], levels[k])))
  }

  /** The training label: 1 exactly for "Yes". */
  function ChurnLabel(c: Cell): (y: nat)
    ensures y <= 1
    ensures y == 1 <==> c == Str("Yes")
  {
    if c == Str("Yes") then 1 else 0
  }
}
