/**
 * forecasting.py: the churn-horizon step function and the four-point
 * lifetime simulation, whose risk value is a fixed placeholder.
 */
module Forecasting {
  import opened Wrappers
  import opened Frames

  /** `expected_churn_month`: months until the expected churn, from the probability. */
  function ExpectedChurnMonth(p: real): (m: nat)
    ensures m in {1, 3, 6, 12}
    ensures m == 1 <==> p > 0.9
    ensures m == 3 <==> 0.7 < p <= 0.9
    ensures m == 6 <==> 0.5 < p <= 0.7
    ensures m == 12 <==> p <= 0.5
  {
    if p > 0.9 then 1
    else if p > 0.7 then 3
    else if p > 0.5 then 6
    else 12
  }

  /** A riskier customer never gets a later churn month. */
  lemma ExpectedChurnMonthMonotone(p: real, q: real)
    requires p <= q
    ensures ExpectedChurnMonth(q) <= ExpectedChurnMonth(p)
  {
  }

  /** The thresholds themselves fall in the later bucket. */
  lemma ExpectedChurnMonthBoundaries()
    ensures ExpectedChurnMonth(0.9) == 3 && ExpectedChurnMonth(0.7) == 6 && ExpectedChurnMonth(0.5) == 12
  {
  }

  /** The simulated horizons, in the order the loop visits them. */
  const Months: seq<nat> := [1, 3, 6, 12]

  datatype ForecastRow = ForecastRow(month: nat, avgRisk: real)

  const TypeError := "TypeError: unsupported operand types"

  /** `str * n` for a non-negative integer `n`: the text repeated `n` times. */
  function Repeat(s: string, n: nat): (r: string)
    ensures |r| == |s| * n
  {
    if n == 0 then "" else s + Repeat(s, n - 1)
  }

  /** `c + n` with a Python integer `n`: a number moves, NaN stays NaN, text raises. */
  function ShiftCell(c: Cell, n: nat): (r: Result<Cell, string>)
    ensures r.Failure? <==> c.Str?
  {
    match c
    case Num(x) => Success(Num(x + n as real))
    case Null => Success(Null)
    case Str(_) => Failure(TypeError)
  }

  /** `c * n` with a Python integer `n`: a number is scaled, NaN stays NaN, text is repeated. */
  function TimesCell(c: Cell, n: nat): Cell
  {
    match c
    case Num(x) => Num(x * n as real)
    case Null => Null
    case Str(s) => Str(Repeat(s, n))
  }

  /** Text beside a number: the one pairing of cells that `+` cannot add. */
  predicate Mixed(a: Cell, b: Cell)
  {
    (a.Str? && b.Num?) || (a.Num? && b.Str?)
  }

  /**
   * `a + b` on two cells of object columns: numbers add, two texts
   * concatenate, and text beside a number raises. pandas retries a failed
   * object-column sum on the rows where both cells are present and writes
   * NaN elsewhere, so NaN absorbs a number and a text alike.
   */
  function PlusCell(a: Cell, b: Cell): (r: Result<Cell, string>)
    ensures r.Failure? <==> Mixed(a, b)
    ensures a.Null? || b.Null? ==> r == Success(Null)
  {
    match (a, b)
    case (Num(x), Num(y)) => Success(Num(x + y))
    case (Str(s), Str(t)) => Success(Str(s + t))
    case (Str(_), Num(_)) => Failure(TypeError)
    case (Num(_), Str(_)) => Failure(TypeError)
    case _ => Success(Null)
  }

  /**
   * One row `month` months ahead: `tenure += month`, then
   * `TotalCharges += MonthlyCharges * month`, or the TypeError of the first
   * of them that raises.
   */
  function AgeRow(r: Row, month: nat): Result<Row, string>
  {
    match ShiftCell(Get(r, "tenure"), month)
    case Failure(e) => Failure(e)
    case Success(t) =>
      match PlusCell(Get(r, "TotalCharges"), TimesCell(Get(r, "MonthlyCharges"), month))
      case Failure(e) => Failure(e)
      case Success(tc) => Success(r["tenure" := t]["TotalCharges" := tc])
  }

  /** Some row's tenure is text. */
  predicate TextTenure(f: Frame)
  {
    exists k :: 0 <= k < |f.rows| && Get(f.rows[k], "tenure").Str?
  }

  /**
   * The simulated copy `sim_df` for one horizon, or what it raises: the
   * KeyError for a missing tenure, the TypeError of a text tenure (line 14
   * runs before line 15 looks anything up), the KeyError for a missing
   * charges column, or the TypeError of a row whose charges are text beside
   * a number.
   */
  function Simulate(f: Frame, month: nat): (g: Result<Frame, string>)
    ensures g.Success? ==> g.value.columns == f.columns && |g.value.rows| == |f.rows|
    ensures g.Success? ==> forall i :: 0 <= i < |f.rows| ==> AgeRow(f.rows[i], month) == Success(g.value.rows[i])
  {
    if "tenure" !in f.columns then Failure("'tenure'")
    else if TextTenure(f) then Failure(TypeError)
    else if "TotalCharges" !in f.columns then Failure("'TotalCharges'")
    else if "MonthlyCharges" !in f.columns then Failure("'MonthlyCharges'")
    else if exists i :: 0 <= i < |f.rows| && AgeRow(f.rows[i], month).Failure? then Failure(TypeError)
    else Success(Frame(f.columns, seq(|f.rows|, i requires 0 <= i < |f.rows| => AgeRow(f.rows[i], month).value)))
  }

  /**
   * The three columns the simulation updates exist, no tenure is text, and
   * no row has one charge text and the other a number.
   */
  predicate CanSimulate(f: Frame)
  {
    && "tenure" in f.columns && "TotalCharges" in f.columns && "MonthlyCharges" in f.columns
    && forall k :: 0 <= k < |f.rows| ==>
      && !Get(f.rows[k], "tenure").Str?
      && !Mixed(Get(f.rows[k], "TotalCharges"), Get(f.rows[k], "MonthlyCharges"))
  }

  /** A row ages without error exactly when its tenure is not text and its charges are not text beside a number. */
  lemma AgeRowFails(r: Row, month: nat)
    ensures AgeRow(r, month).Failure? <==>
      Get(r, "tenure").Str? || Mixed(Get(r, "TotalCharges"), Get(r, "MonthlyCharges"))
  {
    var mc := Get(r, "MonthlyCharges");
    assert TimesCell(mc, month).Str? == mc.Str? && TimesCell(mc, month).Num? == mc.Num?;
  }

  /** A text total beside a missing monthly charge is simulated to NaN, not raised. */
  lemma TextBesideNaN()
    ensures var f := Frame(["tenure", "TotalCharges", "MonthlyCharges"],
      [map["tenure" := Num(1.0), "TotalCharges" := Str("abc"), "MonthlyCharges" := Null]]);
      Simulate(f, 3) == Success(Frame(f.columns, [f.rows[0]["tenure" := Num(4.0)]["TotalCharges" := Null]]))
  {
    var f := Frame(["tenure", "TotalCharges", "MonthlyCharges"],
      [map["tenure" := Num(1.0), "TotalCharges" := Str("abc"), "MonthlyCharges" := Null]]);
    var g := f.rows[0]["tenure" := Num(4.0)]["TotalCharges" := Null];
    assert AgeRow(f.rows[0], 3) == Success(g);
    assert !TextTenure(f);
    assert !exists i :: 0 <= i < |f.rows| && AgeRow(f.rows[i], 3).Failure?;
    assert seq(|f.rows|, i requires 0 <= i < |f.rows| => AgeRow(f.rows[i], 3).value) == [g];
  }

  /** A text tenure raises its TypeError even when a charges column is missing. */
  lemma TextTenureFirst(f: Frame, month: nat)
    requires "tenure" in f.columns && TextTenure(f)
    ensures Simulate(f, month) == Failure(TypeError)
  {
  }

  /** The simulation raises exactly when the table cannot be simulated, whatever the horizon. */
  lemma SimulateFails(f: Frame, month: nat)
    ensures Simulate(f, month).Failure? <==> !CanSimulate(f)
  {
    forall k | 0 <= k < |f.rows|
      ensures AgeRow(f.rows[k], month).Failure? <==>
        Get(f.rows[k], "tenure").Str? || Mixed(Get(f.rows[k], "TotalCharges"), Get(f.rows[k], "MonthlyCharges"))
    {
      AgeRowFails(f.rows[k], month);
    }
  }

  /**
   * `forecast_customer_lifetime`: for each horizon, simulate on a fresh copy
   * and record the placeholder risk. Returns the rows of the result table and
   * the simulated copies, or the error of the first simulation.
   */
  method ForecastCustomerLifetime(current: Frame) returns (r: Result<seq<ForecastRow>, string>, sims: seq<Frame>)
    ensures r.Failure? <==> !CanSimulate(current)
    ensures r.Failure? ==> r == Failure(Simulate(current, 1).error)
    ensures r.Success? ==> |r.value| == 4 && |sims| == 4
    ensures r.Success? ==> forall k :: 0 <= k < 4 ==>
      r.value[k] == ForecastRow(Months[k], 0.5) && Simulate(current, Months[k]) == Success(sims[k])
  {
    var results: seq<ForecastRow> := [];
    sims := [];
    var k := 0;
    while k < |Months|
      invariant 0 <= k <= |Months| && |results| == k && |sims| == k
      invariant k > 0 ==> CanSimulate(current)
      invariant forall j :: 0 <= j < k ==> results[j] == ForecastRow(Months[j], 0.5)
      invariant forall j :: 0 <= j < k ==> Simulate(current, Months[j]) == Success(sims[j])
    {
      var month := Months[k];
      var simDf := Simulate(current, month);
      SimulateFails(current, month);
      if simDf.Failure? {
        SimulateFails(current, 1);
        SameFailure(current, month);
        return Failure(simDf.error), sims;
      }
      sims := sims + [simDf.value];
      results := results + [ForecastRow(month, 0.5)];
      k := k + 1;
    }
    r := Success(results);
  }

  /** The error a simulation raises does not depend on the horizon. */
  lemma SameFailure(f: Frame, month: nat)
    requires month >= 1
    ensures Simulate(f, month).Failure? ==> Simulate(f, month) == Simulate(f, 1)
  {
    forall k | 0 <= k < |f.rows|
      ensures AgeRow(f.rows[k], month).Failure? <==> AgeRow(f.rows[k], 1).Failure?
    {
      AgeRowFails(f.rows[k], month);
      AgeRowFails(f.rows[k], 1);
    }
  }

  /**
   * The simulation moves tenure forward, adds the monthly charges times the
   * horizon to the total (or concatenates the repeated text), and leaves the
   * monthly charges alone.
   */
  lemma SimulateSpec(f: Frame, month: nat, i: nat)
    requires CanSimulate(f) && i < |f.rows|
    ensures Simulate(f, month).Success?
    ensures var g := Simulate(f, month).value.rows[i];
      && Get(g, "tenure") == ShiftCell(Get(f.rows[i], "tenure"), month).value
      && Get(g, "MonthlyCharges") == Get(f.rows[i], "MonthlyCharges")
    ensures var g, tc, mc := Simulate(f, month).value.rows[i], Get(f.rows[i], "TotalCharges"), Get(f.rows[i], "MonthlyCharges");
      && (tc.Num? && mc.Num? ==> Get(g, "TotalCharges") == Num(tc.x + mc.x * month as real))
      && (tc.Str? && mc.Str? ==> Get(g, "TotalCharges") == Str(tc.s + Repeat(mc.s, month)))
      && (tc.Null? || mc.Null? ==> Get(g, "TotalCharges") == Null)
  {
    SimulateFails(f, month);
    AgeRowFails(f.rows[i], month);
  }
}
