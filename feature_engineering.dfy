/**
 * `engineer_enterprise_features` (features/feature_engineering.py): a copy of
 * the input table with a generated `customerID` when there is none,
 * `TotalCharges` coerced to numbers, the tenure bucket, two risk flags, the
 * count of active services, price sensitivity and a lifetime-value proxy.
 * Every derived cell is computed from its own row; the generated identifier
 * is the only value that depends on the row's position.
 */
module FeatureEngineering {
  import opened Wrappers
  import opened Text
  import opened Frames
  import opened Binning

  const TenureEdges: seq<real> := [0.0, 12.0, 24.0, 48.0, 72.0, 100.0]
  const TenureLabels: seq<string> := ["New", "Junior", "Middle", "Senior", "Legend"]

  /** The services counted by `service_count`; `InternetService` is not among them. */
  const Services: seq<string> := [
    "PhoneService", "MultipleLines", "OnlineSecurity", "OnlineBackup",
    "DeviceProtection", "TechSupport", "StreamingTV", "StreamingMovies"
  ]

  /** The identifier given to the row at position `i` of a table without `customerID`. */
  function GeneratedId(i: nat): string
  {
    "CUST-" + NatToString(1000 + i)
  }

  /** Identifiers generated for different positions differ. */
  lemma GeneratedIdsDistinct(i: nat, j: nat)
    requires i != j
    ensures GeneratedId(i) != GeneratedId(j)
  {
    NatToStringInjective(1000 + i, 1000 + j);
    assert GeneratedId(i)[5..] == NatToString(1000 + i);
    assert GeneratedId(j)[5..] == NatToString(1000 + j);
  }

  /** The tenure bucket of one cell: right-closed intervals, `None` outside `(0, 100]`. */
  function TenureBin(c: Cell): Cell
  {
    Cut(c, TenureEdges, TenureLabels)
  }

  /** The bucket edges increase and the labels differ. */
  lemma TenureScale()
    ensures StrictlyIncreasing(TenureEdges)
    ensures forall i, j :: 0 <= i < j < |TenureLabels| ==> TenureLabels[i] != TenureLabels[j]
  {
  }

  /** `(0,12]` New, `(12,24]` Junior, `(24,48]` Middle, `(48,72]` Senior, `(72,100]` Legend, otherwise no bucket. */
  lemma TenureBinSpec(c: Cell)
    ensures TenureBin(c) == Str("New") <==> c.Num? && 0.0 < c.x <= 12.0
    ensures TenureBin(c) == Str("Junior") <==> c.Num? && 12.0 < c.x <= 24.0
    ensures TenureBin(c) == Str("Middle") <==> c.Num? && 24.0 < c.x <= 48.0
    ensures TenureBin(c) == Str("Senior") <==> c.Num? && 48.0 < c.x <= 72.0
    ensures TenureBin(c) == Str("Legend") <==> c.Num? && 72.0 < c.x <= 100.0
    ensures TenureBin(c) == Null <==> !c.Num? || c.x <= 0.0 || c.x > 100.0
  {
    TenureScale();
    CutLabel(c, TenureEdges, TenureLabels, 0);
    CutLabel(c, TenureEdges, TenureLabels, 1);
    CutLabel(c, TenureEdges, TenureLabels, 2);
    CutLabel(c, TenureEdges, TenureLabels, 3);
    CutLabel(c, TenureEdges, TenureLabels, 4);
    CutNull(c, TenureEdges, TenureLabels);
  }

  /** The services of the list that are columns of the table, in list order. */
  function AvailableServices(cols: seq<string>): (avail: seq<string>)
    ensures forall s :: s in avail <==> s in Services && s in cols
  {
    FilterIn(Services, cols)
  }

  /** How many of the columns `avail` hold exactly `"Yes"` in the row. */
  function CountYes(r: Row, avail: seq<string>): (n: nat)
    ensures n <= |avail|
  {
    if avail == [] then 0
    else (if Get(r, avail[0]) == Str("Yes") then 1 else 0) + CountYes(r, avail[1..])
  }

  /** `x + 1` on a numeric cell. */
  function AddOne(c: Cell): Cell
  {
    if c.Num? then Num(c.x + 1.0) else Null
  }

  /** `pd.to_numeric(c, errors='coerce').fillna(0)` on one cell. */
  function CleanCharge(c: Cell): (r: Cell)
    ensures r.Num?
    ensures c.Num? ==> r == c
  {
    FillNa(ToNumeric(c), 0.0)
  }

  /** Some cell of column `c` holds text. */
  predicate HasText(f: Frame, c: string)
  {
    c in f.columns && !NumericColumn(f, c)
  }

  /**
   * Some row multiplies a text MonthlyCharges by a present tenure. pandas
   * retries a failed object-column product on the rows where both cells are
   * present, so a text beside a missing tenure gives NaN instead.
   */
  predicate TextTimesTenure(f: Frame)
  {
    exists k :: 0 <= k < |f.rows| && Get(f.rows[k], "MonthlyCharges").Str? && Get(f.rows[k], "tenure").Num?
  }

  /** Labels for the two `TypeError`s the transform can raise. */
  const TenureTypeError := "tenure holds text and cannot be binned"
  const ChargesTypeError := "MonthlyCharges holds text and cannot be used in arithmetic"

  /** The columns the function writes that the input need not have. */
  const DerivedNames: seq<string> := [
    "tenure_bin", "is_high_risk_contract", "unstable_payment", "service_count", "price_sensitivity", "clv_proxy"
  ]

  /** A column the function reads and never writes. */
  predicate ReadOnly(c: string)
  {
    c !in DerivedNames && c != "customerID" && c != "TotalCharges"
  }

  /** The columns read by the rules are never written, and neither is any service. */
  lemma ReadOnlyNames()
    ensures ReadOnly("tenure") && ReadOnly("Contract") && ReadOnly("PaymentMethod") && ReadOnly("MonthlyCharges")
    ensures forall s :: s in Services ==> ReadOnly(s)
  {
  }

  /** `df[c] = ...`, performed only when `b` holds. */
  function AddIf(cols: seq<string>, b: bool, c: string): (r: seq<string>)
    ensures forall d :: d in r <==> d in cols || (b && d == c)
  {
    if b then AddName(cols, c) else cols
  }

  /** A conditional assignment keeps the existing columns in place. */
  lemma AddIfPrefix(cols: seq<string>, b: bool, c: string)
    ensures |cols| <= |AddIf(cols, b, c)| && AddIf(cols, b, c)[..|cols|] == cols
  {
  }

  /** The column list of the result: the input columns, then the derived ones in the order they are first assigned. */
  function EngineeredColumns(cols: seq<string>): seq<string>
  {
    var c1 := AddIf(cols, true, "customerID");
    var c2 := AddIf(c1, "tenure" in cols, "tenure_bin");
    var c3 := AddIf(c2, "Contract" in cols, "is_high_risk_contract");
    var c4 := AddIf(c3, "PaymentMethod" in cols, "unstable_payment");
    var c5 := AddIf(c4, true, "service_count");
    var c6 := AddIf(c5, "MonthlyCharges" in cols && "TotalCharges" in cols, "price_sensitivity");
    AddIf(c6, "MonthlyCharges" in cols && "tenure" in cols, "clv_proxy")
  }

  // The assignments of `engineer_enterprise_features`, one function per
  // statement, each reading the row left by the previous one. Each writes one
  // column and leaves every other column as it was.

  function SetId(r: Row, i: nat, cols: seq<string>): (r': Row)
    ensures forall k :: k != "customerID" ==> Get(r', k) == Get(r, k)
  {
    if "customerID" in cols then r else r["customerID" := Str(GeneratedId(i))]
  }

  function SetTotal(r: Row, cols: seq<string>): (r': Row)
    ensures forall k :: k != "TotalCharges" ==> Get(r', k) == Get(r, k)
  {
    if "TotalCharges" in cols then r["TotalCharges" := CleanCharge(Get(r, "TotalCharges"))] else r
  }

  function SetBin(r: Row, cols: seq<string>): (r': Row)
    ensures forall k :: k != "tenure_bin" ==> Get(r', k) == Get(r, k)
  {
    if "tenure" in cols then r["tenure_bin" := TenureBin(Get(r, "tenure"))] else r
  }

  function SetContractFlag(r: Row, cols: seq<string>): (r': Row)
    ensures forall k :: k != "is_high_risk_contract" ==> Get(r', k) == Get(r, k)
  {
    if "Contract" in cols then r["is_high_risk_contract" := Flag(Get(r, "Contract") == Str("Month-to-month"))] else r
  }

  function SetPaymentFlag(r: Row, cols: seq<string>): (r': Row)
    ensures forall k :: k != "unstable_payment" ==> Get(r', k) == Get(r, k)
  {
    if "PaymentMethod" in cols then r["unstable_payment" := Flag(Get(r, "PaymentMethod") == Str("Electronic check"))] else r
  }

  function SetServiceCount(r: Row, cols: seq<string>): (r': Row)
    ensures forall k :: k != "service_count" ==> Get(r', k) == Get(r, k)
  {
    r["service_count" := Num(CountYes(r, AvailableServices(cols)) as real)]
  }

  function SetPrice(r: Row, cols: seq<string>): (r': Row)
    ensures forall k :: k != "price_sensitivity" ==> Get(r', k) == Get(r, k)
  {
    if "MonthlyCharges" in cols && "TotalCharges" in cols then
      r["price_sensitivity" := Div(Get(r, "MonthlyCharges"), AddOne(Get(r, "TotalCharges")))]
    else r
  }

  function SetClv(r: Row, cols: seq<string>): (r': Row)
    ensures forall k :: k != "clv_proxy" ==> Get(r', k) == Get(r, k)
  {
    if "MonthlyCharges" in cols && "tenure" in cols then
      r["clv_proxy" := Mul(Get(r, "MonthlyCharges"), Get(r, "tenure"))]
    else r
  }

  /** One row of the result, for the row at position `i` of a table with columns `cols`. */
  function EngineerRow(r: Row, i: nat, cols: seq<string>): Row
  {
    var r1 := SetId(r, i, cols);
    var r2 := SetTotal(r1, cols);
    var r3 := SetBin(r2, cols);
    var r4 := SetContractFlag(r3, cols);
    var r5 := SetPaymentFlag(r4, cols);
    var r6 := SetServiceCount(r5, cols);
    var r7 := SetPrice(r6, cols);
    SetClv(r7, cols)
  }

  /**
   * `engineer_enterprise_features`: the engineered copy, or the type error
   * pandas raises when `tenure` holds text, or when a text `MonthlyCharges`
   * is divided by the (always present) cleaned TotalCharges or multiplied by
   * a present tenure.
   */
  function Engineer(f: Frame): Result<Frame, string>
  {
    if HasText(f, "tenure") then Failure(TenureTypeError)
    else if HasText(f, "MonthlyCharges") && ("TotalCharges" in f.columns || ("tenure" in f.columns && TextTimesTenure(f))) then
      Failure(ChargesTypeError)
    else
      Success(Frame(EngineeredColumns(f.columns),
        seq(|f.rows|, i requires 0 <= i < |f.rows| => EngineerRow(f.rows[i], i, f.columns))))
  }

  /**
   * When the transform raises: on text in tenure (at the cut), on text in
   * MonthlyCharges beside a TotalCharges column, or on text in MonthlyCharges
   * in a row whose tenure is present. The two error texts are labels for
   * where the exception is raised, not pandas' own messages.
   */
  lemma EngineerFailure(f: Frame)
    ensures Engineer(f).Failure? <==>
      (HasText(f, "tenure") || (HasText(f, "MonthlyCharges") && ("TotalCharges" in f.columns || ("tenure" in f.columns && TextTimesTenure(f)))))
    ensures Engineer(f) == Failure(TenureTypeError) <==> HasText(f, "tenure")
  {
  }

  // ---------------------------------------------------------------------
  // Cell values of an engineered row
  // ---------------------------------------------------------------------

  /** A read-only column keeps its cell. */
  lemma KeptValue(r: Row, i: nat, cols: seq<string>, c: string)
    requires ReadOnly(c)
    ensures Get(EngineerRow(r, i, cols), c) == Get(r, c)
  {
  }

  lemma IdValue(r: Row, i: nat, cols: seq<string>)
    ensures Get(EngineerRow(r, i, cols), "customerID")
      == if "customerID" in cols then Get(r, "customerID") else Str(GeneratedId(i))
  {
    var r1 := SetId(r, i, cols);
    assert Get(r1, "customerID") == if "customerID" in cols then Get(r, "customerID") else Str(GeneratedId(i));
  }

  lemma TotalValue(r: Row, i: nat, cols: seq<string>)
    ensures Get(EngineerRow(r, i, cols), "TotalCharges")
      == if "TotalCharges" in cols then CleanCharge(Get(r, "TotalCharges")) else Get(r, "TotalCharges")
    ensures "TotalCharges" in cols ==> "TotalCharges" in EngineerRow(r, i, cols)
  {
    var r1 := SetId(r, i, cols);
    var r2 := SetTotal(r1, cols);
    assert Get(r2, "TotalCharges") == if "TotalCharges" in cols then CleanCharge(Get(r, "TotalCharges")) else Get(r, "TotalCharges");
  }

  lemma BinValue(r: Row, i: nat, cols: seq<string>)
    requires "tenure" in cols
    ensures Get(EngineerRow(r, i, cols), "tenure_bin") == TenureBin(Get(r, "tenure"))
    ensures "tenure_bin" in EngineerRow(r, i, cols)
  {
    var r1 := SetId(r, i, cols);
    var r2 := SetTotal(r1, cols);
    var r3 := SetBin(r2, cols);
    assert Get(r3, "tenure_bin") == TenureBin(Get(r, "tenure"));
  }

  lemma ContractValue(r: Row, i: nat, cols: seq<string>)
    requires "Contract" in cols
    ensures Get(EngineerRow(r, i, cols), "is_high_risk_contract") == Flag(Get(r, "Contract") == Str("Month-to-month"))
    ensures "is_high_risk_contract" in EngineerRow(r, i, cols)
  {
    var r1 := SetId(r, i, cols);
    var r2 := SetTotal(r1, cols);
    var r3 := SetBin(r2, cols);
    var r4 := SetContractFlag(r3, cols);
    assert Get(r4, "is_high_risk_contract") == Flag(Get(r, "Contract") == Str("Month-to-month"));
  }

  lemma PaymentValue(r: Row, i: nat, cols: seq<string>)
    requires "PaymentMethod" in cols
    ensures Get(EngineerRow(r, i, cols), "unstable_payment") == Flag(Get(r, "PaymentMethod") == Str("Electronic check"))
    ensures "unstable_payment" in EngineerRow(r, i, cols)
  {
    var r1 := SetId(r, i, cols);
    var r2 := SetTotal(r1, cols);
    var r3 := SetBin(r2, cols);
    var r4 := SetContractFlag(r3, cols);
    var r5 := SetPaymentFlag(r4, cols);
    assert Get(r5, "unstable_payment") == Flag(Get(r, "PaymentMethod") == Str("Electronic check"));
  }

  lemma ServiceValue(r: Row, i: nat, cols: seq<string>)
    ensures Get(EngineerRow(r, i, cols), "service_count") == Num(CountYes(r, AvailableServices(cols)) as real)
    ensures "service_count" in EngineerRow(r, i, cols)
  {
    var r1 := SetId(r, i, cols);
    var r2 := SetTotal(r1, cols);
    var r3 := SetBin(r2, cols);
    var r4 := SetContractFlag(r3, cols);
    var r5 := SetPaymentFlag(r4, cols);
    ReadOnlyNames();
    CountYesSame(r5, r, AvailableServices(cols));
  }

  lemma PriceValue(r: Row, i: nat, cols: seq<string>)
    requires "MonthlyCharges" in cols && "TotalCharges" in cols
    ensures Get(EngineerRow(r, i, cols), "price_sensitivity")
      == Div(Get(r, "MonthlyCharges"), AddOne(CleanCharge(Get(r, "TotalCharges"))))
    ensures "price_sensitivity" in EngineerRow(r, i, cols)
  {
    var r1 := SetId(r, i, cols);
    var r2 := SetTotal(r1, cols);
    var r3 := SetBin(r2, cols);
    var r4 := SetContractFlag(r3, cols);
    var r5 := SetPaymentFlag(r4, cols);
    var r6 := SetServiceCount(r5, cols);
    assert Get(r6, "MonthlyCharges") == Get(r, "MonthlyCharges");
    assert Get(r6, "TotalCharges") == CleanCharge(Get(r, "TotalCharges"));
  }

  lemma ClvValue(r: Row, i: nat, cols: seq<string>)
    requires "MonthlyCharges" in cols && "tenure" in cols
    ensures Get(EngineerRow(r, i, cols), "clv_proxy") == Mul(Get(r, "MonthlyCharges"), Get(r, "tenure"))
    ensures "clv_proxy" in EngineerRow(r, i, cols)
  {
    var r1 := SetId(r, i, cols);
    var r2 := SetTotal(r1, cols);
    var r3 := SetBin(r2, cols);
    var r4 := SetContractFlag(r3, cols);
    var r5 := SetPaymentFlag(r4, cols);
    var r6 := SetServiceCount(r5, cols);
    var r7 := SetPrice(r6, cols);
    assert Get(r7, "MonthlyCharges") == Get(r, "MonthlyCharges");
    assert Get(r7, "tenure") == Get(r, "tenure");
  }

  /** Rows that agree on the counted services give the same count. */
  lemma {:induction false} CountYesSame(r: Row, r': Row, avail: seq<string>)
    requires forall s :: s in avail ==> Get(r, s) == Get(r', s)
    ensures CountYes(r, avail) == CountYes(r', avail)
  {
    if avail != [] {
      assert avail[0] in avail;
      assert forall s :: s in avail[1..] ==> s in avail;
      CountYesSame(r, r', avail[1..]);
    }
  }

  /** No name is kept when none is a column. */
  lemma {:induction false} FilterInNone(names: seq<string>, cols: seq<string>)
    requires forall s :: s in names ==> s !in cols
    ensures FilterIn(names, cols) == []
  {
    if names != [] {
      assert names[0] in names;
      assert forall s :: s in names[1..] ==> s in names;
      FilterInNone(names[1..], cols);
    }
  }

  // ---------------------------------------------------------------------
  // Properties of the engineered table
  // ---------------------------------------------------------------------

  /** The input columns the rules read are columns of the result exactly when they are columns of the input. */
  lemma EngineeredColumnsMembership(cols: seq<string>, x: string)
    requires ReadOnly(x) || x == "TotalCharges"
    ensures x in EngineeredColumns(cols) <==> x in cols
  {
  }

  /** The result has every input column in place, the generated ones after them. */
  lemma EngineeredColumnsPrefix(cols: seq<string>)
    ensures |cols| <= |EngineeredColumns(cols)| && EngineeredColumns(cols)[..|cols|] == cols
  {
    var c1 := AddIf(cols, true, "customerID");
    var c2 := AddIf(c1, "tenure" in cols, "tenure_bin");
    var c3 := AddIf(c2, "Contract" in cols, "is_high_risk_contract");
    var c4 := AddIf(c3, "PaymentMethod" in cols, "unstable_payment");
    var c5 := AddIf(c4, true, "service_count");
    var c6 := AddIf(c5, "MonthlyCharges" in cols && "TotalCharges" in cols, "price_sensitivity");
    var c7 := AddIf(c6, "MonthlyCharges" in cols && "tenure" in cols, "clv_proxy");
    AddIfPrefix(cols, true, "customerID");
    AddIfPrefix(c1, "tenure" in cols, "tenure_bin");
    AddIfPrefix(c2, "Contract" in cols, "is_high_risk_contract");
    AddIfPrefix(c3, "PaymentMethod" in cols, "unstable_payment");
    AddIfPrefix(c4, true, "service_count");
    AddIfPrefix(c5, "MonthlyCharges" in cols && "TotalCharges" in cols, "price_sensitivity");
    AddIfPrefix(c6, "MonthlyCharges" in cols && "tenure" in cols, "clv_proxy");
    PrefixTrans(cols, c1, c2);
    PrefixTrans(cols, c2, c3);
    PrefixTrans(cols, c3, c4);
    PrefixTrans(cols, c4, c5);
    PrefixTrans(cols, c5, c6);
    PrefixTrans(cols, c6, c7);
  }

  /** The derived columns the result defines. */
  lemma EngineeredColumnsHas(cols: seq<string>)
    ensures "customerID" in EngineeredColumns(cols) && "service_count" in EngineeredColumns(cols)
    ensures "tenure" in cols ==> "tenure_bin" in EngineeredColumns(cols)
    ensures "Contract" in cols ==> "is_high_risk_contract" in EngineeredColumns(cols)
    ensures "PaymentMethod" in cols ==> "unstable_payment" in EngineeredColumns(cols)
    ensures "MonthlyCharges" in cols && "TotalCharges" in cols ==> "price_sensitivity" in EngineeredColumns(cols)
    ensures "MonthlyCharges" in cols && "tenure" in cols ==> "clv_proxy" in EngineeredColumns(cols)
  {
    HasId(cols);
    HasBin(cols);
    HasFlags(cols);
    HasCharges(cols);
  }

  lemma HasId(cols: seq<string>)
    ensures "customerID" in EngineeredColumns(cols) && "service_count" in EngineeredColumns(cols)
  {
  }

  lemma HasBin(cols: seq<string>)
    ensures "tenure" in cols ==> "tenure_bin" in EngineeredColumns(cols)
  {
  }

  lemma HasFlags(cols: seq<string>)
    ensures "Contract" in cols ==> "is_high_risk_contract" in EngineeredColumns(cols)
    ensures "PaymentMethod" in cols ==> "unstable_payment" in EngineeredColumns(cols)
  {
  }

  lemma HasCharges(cols: seq<string>)
    ensures "MonthlyCharges" in cols && "TotalCharges" in cols ==> "price_sensitivity" in EngineeredColumns(cols)
    ensures "MonthlyCharges" in cols && "tenure" in cols ==> "clv_proxy" in EngineeredColumns(cols)
  {
  }

  lemma PrefixTrans(a: seq<string>, b: seq<string>, c: seq<string>)
    requires |a| <= |b| <= |c| && b[..|a|] == a && c[..|b|] == b
    ensures c[..|a|] == a
  {
    assert c[..|a|] == c[..|b|][..|a|];
  }

  /** The result keeps every input column in place and has one row per input row. */
  lemma EngineerKeepsColumns(f: Frame)
    requires Engineer(f).Success?
    ensures |Engineer(f).value.rows| == |f.rows|
    ensures |f.columns| <= |Engineer(f).value.columns|
    ensures Engineer(f).value.columns[..|f.columns|] == f.columns
    ensures "customerID" in Engineer(f).value.columns && "service_count" in Engineer(f).value.columns
    ensures "tenure" in f.columns ==> "tenure_bin" in Engineer(f).value.columns
    ensures "Contract" in f.columns ==> "is_high_risk_contract" in Engineer(f).value.columns
    ensures "PaymentMethod" in f.columns ==> "unstable_payment" in Engineer(f).value.columns
    ensures "MonthlyCharges" in f.columns && "TotalCharges" in f.columns ==> "price_sensitivity" in Engineer(f).value.columns
    ensures "MonthlyCharges" in f.columns && "tenure" in f.columns ==> "clv_proxy" in Engineer(f).value.columns
  {
    EngineeredColumnsPrefix(f.columns);
    EngineeredColumnsHas(f.columns);
  }

  /** Without a `customerID` column, the rows get `CUST-1000`, `CUST-1001`, ... by position, all distinct. */
  lemma EngineerGeneratesIds(f: Frame)
    requires Engineer(f).Success? && "customerID" !in f.columns
    ensures forall i :: 0 <= i < |f.rows| ==> Get(Engineer(f).value.rows[i], "customerID") == Str(GeneratedId(i))
    ensures forall i, j :: 0 <= i < j < |f.rows| ==>
      Get(Engineer(f).value.rows[i], "customerID") != Get(Engineer(f).value.rows[j], "customerID")
  {
    forall i | 0 <= i < |f.rows|
      ensures Get(Engineer(f).value.rows[i], "customerID") == Str(GeneratedId(i))
    {
      IdValue(f.rows[i], i, f.columns);
    }
    forall i, j | 0 <= i < j < |f.rows|
      ensures Get(Engineer(f).value.rows[i], "customerID") != Get(Engineer(f).value.rows[j], "customerID")
    {
      GeneratedIdsDistinct(i, j);
    }
  }

  /** An existing `customerID` column is left as it is. */
  lemma EngineerKeepsIds(f: Frame)
    requires Engineer(f).Success? && "customerID" in f.columns
    ensures forall i :: 0 <= i < |f.rows| ==> Get(Engineer(f).value.rows[i], "customerID") == Get(f.rows[i], "customerID")
  {
    forall i | 0 <= i < |f.rows|
      ensures Get(Engineer(f).value.rows[i], "customerID") == Get(f.rows[i], "customerID")
    {
      IdValue(f.rows[i], i, f.columns);
    }
  }

  /** `TotalCharges` is numeric and never missing afterwards; blanks and words become 0, numbers stay. */
  lemma EngineerCleansTotalCharges(f: Frame)
    requires Engineer(f).Success? && "TotalCharges" in f.columns
    ensures forall i :: 0 <= i < |f.rows| ==> Get(Engineer(f).value.rows[i], "TotalCharges").Num?
    ensures forall i :: 0 <= i < |f.rows| && Get(f.rows[i], "TotalCharges").Num? ==>
      Get(Engineer(f).value.rows[i], "TotalCharges") == Get(f.rows[i], "TotalCharges")
    ensures forall i :: 0 <= i < |f.rows| && Get(f.rows[i], "TotalCharges") == Str(" ") ==>
      Get(Engineer(f).value.rows[i], "TotalCharges") == Num(0.0)
  {
    forall i | 0 <= i < |f.rows|
      ensures Get(Engineer(f).value.rows[i], "TotalCharges") == CleanCharge(Get(f.rows[i], "TotalCharges"))
    {
      TotalValue(f.rows[i], i, f.columns);
    }
    assert ParseNumber(" ").None?;
  }

  /** The derived cells of one row, each as the rules define it. */
  lemma EngineerRowValues(f: Frame, i: nat)
    requires Engineer(f).Success? && i < |f.rows|
    ensures "tenure" in f.columns ==> Get(Engineer(f).value.rows[i], "tenure_bin") == TenureBin(Get(f.rows[i], "tenure"))
    ensures "Contract" in f.columns ==>
      (Get(Engineer(f).value.rows[i], "is_high_risk_contract") == Num(1.0) <==> Get(f.rows[i], "Contract") == Str("Month-to-month"))
    ensures "Contract" in f.columns ==>
      (Get(Engineer(f).value.rows[i], "is_high_risk_contract") == Num(0.0) <==> Get(f.rows[i], "Contract") != Str("Month-to-month"))
    ensures "PaymentMethod" in f.columns ==>
      (Get(Engineer(f).value.rows[i], "unstable_payment") == Num(1.0) <==> Get(f.rows[i], "PaymentMethod") == Str("Electronic check"))
    ensures "PaymentMethod" in f.columns ==>
      (Get(Engineer(f).value.rows[i], "unstable_payment") == Num(0.0) <==> Get(f.rows[i], "PaymentMethod") != Str("Electronic check"))
    ensures Get(Engineer(f).value.rows[i], "service_count") == Num(CountYes(f.rows[i], AvailableServices(f.columns)) as real)
    ensures "MonthlyCharges" in f.columns && "TotalCharges" in f.columns ==>
      Get(Engineer(f).value.rows[i], "price_sensitivity")
        == Div(Get(f.rows[i], "MonthlyCharges"), AddOne(CleanCharge(Get(f.rows[i], "TotalCharges"))))
    ensures "MonthlyCharges" in f.columns && "tenure" in f.columns ==>
      Get(Engineer(f).value.rows[i], "clv_proxy") == Mul(Get(f.rows[i], "MonthlyCharges"), Get(f.rows[i], "tenure"))
  {
    var r, cols := f.rows[i], f.columns;
    if "tenure" in cols { BinValue(r, i, cols); }
    if "Contract" in cols { ContractValue(r, i, cols); }
    if "PaymentMethod" in cols { PaymentValue(r, i, cols); }
    ServiceValue(r, i, cols);
    if "MonthlyCharges" in cols && "TotalCharges" in cols { PriceValue(r, i, cols); }
    if "MonthlyCharges" in cols && "tenure" in cols { ClvValue(r, i, cols); }
  }

  /** From 0 to 8 services are active, and none when none of the service columns exists. */
  lemma ServiceCountRange(f: Frame, i: nat)
    requires Engineer(f).Success? && i < |f.rows|
    ensures Get(Engineer(f).value.rows[i], "service_count").Num?
    ensures 0.0 <= Get(Engineer(f).value.rows[i], "service_count").x <= 8.0
    ensures (forall s :: s in Services ==> s !in f.columns) ==> Get(Engineer(f).value.rows[i], "service_count") == Num(0.0)
  {
    ServiceValue(f.rows[i], i, f.columns);
    if forall s :: s in Services ==> s !in f.columns {
      FilterInNone(Services, f.columns);
    }
  }

  /**
   * Row locality: two tables with the same columns that agree on row `i`
   * give the same engineered row `i`.
   */
  lemma EngineerRowLocal(f: Frame, g: Frame, i: nat)
    requires Engineer(f).Success? && Engineer(g).Success?
    requires f.columns == g.columns && i < |f.rows| && i < |g.rows| && f.rows[i] == g.rows[i]
    ensures Engineer(f).value.rows[i] == Engineer(g).value.rows[i]
  {
  }

  // ---------------------------------------------------------------------
  // Idempotence
  // ---------------------------------------------------------------------

  /** Every derived name is already a column of an engineered table, so its column list is final. */
  lemma EngineeredColumnsIdempotent(cols: seq<string>)
    ensures EngineeredColumns(EngineeredColumns(cols)) == EngineeredColumns(cols)
  {
    EngineeredColumnsHas(cols);
    ReadOnlyNames();
    EngineeredColumnsMembership(cols, "TotalCharges");
    EngineeredColumnsMembership(cols, "tenure");
    EngineeredColumnsMembership(cols, "Contract");
    EngineeredColumnsMembership(cols, "PaymentMethod");
    EngineeredColumnsMembership(cols, "MonthlyCharges");
  }

  /** Services present in the result are those present in the input. */
  lemma AvailableServicesSame(cols: seq<string>)
    ensures AvailableServices(EngineeredColumns(cols)) == AvailableServices(cols)
  {
    ReadOnlyNames();
    forall s | s in Services
      ensures s in EngineeredColumns(cols) <==> s in cols
    {
      EngineeredColumnsMembership(cols, s);
    }
    FilterInSame(Services, cols, EngineeredColumns(cols));
  }

  lemma {:induction false} FilterInSame(names: seq<string>, cols: seq<string>, cols': seq<string>)
    requires forall s :: s in names ==> (s in cols <==> s in cols')
    ensures FilterIn(names, cols) == FilterIn(names, cols')
  {
    if names != [] {
      assert names[0] in names;
      assert forall s :: s in names[1..] ==> s in names;
      FilterInSame(names[1..], cols, cols');
    }
  }

  /** Assigning a cell the value it already holds leaves the row as it was. */
  lemma UpdateSame(m: Row, k: string, v: Cell)
    requires k in m && m[k] == v
    ensures m[k := v] == m
  {
  }

  // Each assignment, repeated on an engineered row, writes back the cell it already holds.

  lemma TotalIdle(g: Row, e: seq<string>, cols: seq<string>)
    requires "TotalCharges" in e <==> "TotalCharges" in cols
    requires "TotalCharges" in cols ==> "TotalCharges" in g && g["TotalCharges"].Num?
    ensures SetTotal(g, e) == g
  {
    if "TotalCharges" in cols { UpdateSame(g, "TotalCharges", g["TotalCharges"]); }
  }

  lemma BinIdle(g: Row, e: seq<string>, cols: seq<string>)
    requires "tenure" in e <==> "tenure" in cols
    requires "tenure" in cols ==> "tenure_bin" in g && g["tenure_bin"] == TenureBin(Get(g, "tenure"))
    ensures SetBin(g, e) == g
  {
    if "tenure" in cols { UpdateSame(g, "tenure_bin", g["tenure_bin"]); }
  }

  lemma ContractIdle(g: Row, e: seq<string>, cols: seq<string>)
    requires "Contract" in e <==> "Contract" in cols
    requires "Contract" in cols ==>
      ("is_high_risk_contract" in g && g["is_high_risk_contract"] == Flag(Get(g, "Contract") == Str("Month-to-month")))
    ensures SetContractFlag(g, e) == g
  {
    if "Contract" in cols { UpdateSame(g, "is_high_risk_contract", g["is_high_risk_contract"]); }
  }

  lemma PaymentIdle(g: Row, e: seq<string>, cols: seq<string>)
    requires "PaymentMethod" in e <==> "PaymentMethod" in cols
    requires "PaymentMethod" in cols ==>
      ("unstable_payment" in g && g["unstable_payment"] == Flag(Get(g, "PaymentMethod") == Str("Electronic check")))
    ensures SetPaymentFlag(g, e) == g
  {
    if "PaymentMethod" in cols { UpdateSame(g, "unstable_payment", g["unstable_payment"]); }
  }

  lemma ServiceIdle(g: Row, e: seq<string>, cols: seq<string>)
    requires AvailableServices(e) == AvailableServices(cols)
    requires "service_count" in g && g["service_count"] == Num(CountYes(g, AvailableServices(cols)) as real)
    ensures SetServiceCount(g, e) == g
  {
    UpdateSame(g, "service_count", g["service_count"]);
  }

  lemma PriceIdle(g: Row, e: seq<string>, cols: seq<string>)
    requires "MonthlyCharges" in e <==> "MonthlyCharges" in cols
    requires "TotalCharges" in e <==> "TotalCharges" in cols
    requires "MonthlyCharges" in cols && "TotalCharges" in cols ==>
      ("price_sensitivity" in g && g["price_sensitivity"] == Div(Get(g, "MonthlyCharges"), AddOne(Get(g, "TotalCharges"))))
    ensures SetPrice(g, e) == g
  {
    if "MonthlyCharges" in cols && "TotalCharges" in cols { UpdateSame(g, "price_sensitivity", g["price_sensitivity"]); }
  }

  lemma ClvIdle(g: Row, e: seq<string>, cols: seq<string>)
    requires "MonthlyCharges" in e <==> "MonthlyCharges" in cols
    requires "tenure" in e <==> "tenure" in cols
    requires "MonthlyCharges" in cols && "tenure" in cols ==>
      ("clv_proxy" in g && g["clv_proxy"] == Mul(Get(g, "MonthlyCharges"), Get(g, "tenure")))
    ensures SetClv(g, e) == g
  {
    if "MonthlyCharges" in cols && "tenure" in cols { UpdateSame(g, "clv_proxy", g["clv_proxy"]); }
  }

  /** Re-engineering an engineered row writes back the values it already holds. */
  lemma EngineerRowIdempotent(r: Row, i: nat, cols: seq<string>)
    ensures EngineerRow(EngineerRow(r, i, cols), i, EngineeredColumns(cols)) == EngineerRow(r, i, cols)
  {
    var g := EngineerRow(r, i, cols);
    var e := EngineeredColumns(cols);
    ReadOnlyNames();
    EngineeredColumnsHas(cols);
    EngineeredColumnsMembership(cols, "TotalCharges");
    EngineeredColumnsMembership(cols, "tenure");
    EngineeredColumnsMembership(cols, "Contract");
    EngineeredColumnsMembership(cols, "PaymentMethod");
    EngineeredColumnsMembership(cols, "MonthlyCharges");
    KeptValue(r, i, cols, "tenure");
    KeptValue(r, i, cols, "Contract");
    KeptValue(r, i, cols, "PaymentMethod");
    KeptValue(r, i, cols, "MonthlyCharges");
    TotalValue(r, i, cols);
    TotalIdle(g, e, cols);
    if "tenure" in cols { BinValue(r, i, cols); }
    BinIdle(g, e, cols);
    if "Contract" in cols { ContractValue(r, i, cols); }
    ContractIdle(g, e, cols);
    if "PaymentMethod" in cols { PaymentValue(r, i, cols); }
    PaymentIdle(g, e, cols);
    ServiceValue(r, i, cols);
    forall s | s in AvailableServices(cols)
      ensures Get(g, s) == Get(r, s)
    {
      KeptValue(r, i, cols, s);
    }
    CountYesSame(g, r, AvailableServices(cols));
    AvailableServicesSame(cols);
    ServiceIdle(g, e, cols);
    if "MonthlyCharges" in cols && "TotalCharges" in cols { PriceValue(r, i, cols); }
    PriceIdle(g, e, cols);
    if "MonthlyCharges" in cols && "tenure" in cols { ClvValue(r, i, cols); }
    ClvIdle(g, e, cols);
    assert SetId(g, i, e) == g;
  }

  /** An engineered table passes the type checks again: the columns they test are unchanged. */
  lemma EngineerAgainSucceeds(f: Frame)
    requires Engineer(f).Success?
    ensures Engineer(Engineer(f).value).Success?
  {
    var g := Engineer(f).value;
    EngineeredColumnsMembership(f.columns, "tenure");
    EngineeredColumnsMembership(f.columns, "MonthlyCharges");
    EngineeredColumnsMembership(f.columns, "TotalCharges");
    EngineerKeepsTested(f);
    ChecksAgree(f, g);
  }

  /** Two tables with the same tested columns and cells pass or fail the type checks alike. */
  lemma ChecksAgree(f: Frame, g: Frame)
    requires |g.rows| == |f.rows|
    requires forall c :: c in ["tenure", "MonthlyCharges", "TotalCharges"] ==> (c in g.columns <==> c in f.columns)
    requires forall i :: 0 <= i < |g.rows| ==>
      Get(g.rows[i], "tenure") == Get(f.rows[i], "tenure") && Get(g.rows[i], "MonthlyCharges") == Get(f.rows[i], "MonthlyCharges")
    ensures HasText(g, "tenure") == HasText(f, "tenure")
    ensures HasText(g, "MonthlyCharges") == HasText(f, "MonthlyCharges")
    ensures TextTimesTenure(g) == TextTimesTenure(f)
  {
    assert "tenure" in ["tenure", "MonthlyCharges", "TotalCharges"];
    assert "MonthlyCharges" in ["tenure", "MonthlyCharges", "TotalCharges"];
  }

  /** The cells the type checks look at pass through unchanged. */
  lemma EngineerKeepsTested(f: Frame)
    requires Engineer(f).Success?
    ensures var g := Engineer(f).value; forall i :: 0 <= i < |g.rows| ==>
      Get(g.rows[i], "tenure") == Get(f.rows[i], "tenure") && Get(g.rows[i], "MonthlyCharges") == Get(f.rows[i], "MonthlyCharges")
  {
    var g := Engineer(f).value;
    ReadOnlyNames();
    forall i | 0 <= i < |g.rows|
      ensures Get(g.rows[i], "tenure") == Get(f.rows[i], "tenure")
      ensures Get(g.rows[i], "MonthlyCharges") == Get(f.rows[i], "MonthlyCharges")
    {
      KeptValue(f.rows[i], i, f.columns, "tenure");
      KeptValue(f.rows[i], i, f.columns, "MonthlyCharges");
    }
  }

  /** Engineering an engineered table changes nothing. */
  lemma EngineerIdempotent(f: Frame)
    requires Engineer(f).Success?
    ensures Engineer(Engineer(f).value) == Engineer(f)
  {
    var g := Engineer(f).value;
    EngineerAgainSucceeds(f);
    EngineeredColumnsIdempotent(f.columns);
    EngineerRowsIdempotent(f);
    assert Engineer(g).value.columns == g.columns;
  }

  lemma EngineerRowsIdempotent(f: Frame)
    requires Engineer(f).Success?
    ensures var g := Engineer(f).value;
      seq(|g.rows|, i requires 0 <= i < |g.rows| => EngineerRow(g.rows[i], i, g.columns)) == g.rows
  {
    var g := Engineer(f).value;
    forall i | 0 <= i < |g.rows|
      ensures EngineerRow(g.rows[i], i, g.columns) == g.rows[i]
    {
      EngineerRowIdempotent(f.rows[i], i, f.columns);
    }
  }
}
