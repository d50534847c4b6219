/**
 * `validate_dataset` (data_validation/validator.py): the schema gate that
 * answers yes or no. Unlike `DataValidator.SCHEMA`, four columns are
 * required and monthly charges have no upper bound. Every failure, of
 * whatever kind, becomes `False`.
 */
module DataGate {
  import opened Frames
  import opened Schema
  import Validation

  /** `ENERP_SCHEMA`. */
  const GateSchema: seq<ColumnSpec> := [
    ColumnSpec("customerID", TextType, NoCheck, false, true, true),
    ColumnSpec("tenure", IntType, AtLeast(0.0), false, false, true),
    ColumnSpec("MonthlyCharges", FloatType, AtLeast(0.0), false, false, true),
    ColumnSpec("TotalCharges", FloatType, NoCheck, true, false, true),
    ColumnSpec("Churn", TextType, OneOf(["Yes", "No"]), false, false, false)
  ]

  /** `validate_dataset`: true exactly when the table conforms to every column rule. */
  function ValidateDataset(f: Frame, typed: string -> bool): (ok: bool)
    ensures ok <==> forall k :: 0 <= k < |GateSchema| ==> ColumnConforms(GateSchema[k], f, typed)
  {
    ViolationsEmpty(GateSchema, f, typed);
    Violations(GateSchema, f, typed) == []
  }

  /** A table lacking any of the four required columns is rejected. */
  lemma MissingRequiredRejected(f: Frame, typed: string -> bool, c: string)
    requires c in ["customerID", "tenure", "MonthlyCharges", "TotalCharges"]
    requires c !in f.columns
    ensures !ValidateDataset(f, typed)
  {
    if c == "customerID" {
      assert !ColumnConforms(GateSchema[0], f, typed);
    } else if c == "tenure" {
      assert !ColumnConforms(GateSchema[1], f, typed);
    } else if c == "MonthlyCharges" {
      assert !ColumnConforms(GateSchema[2], f, typed);
    } else {
      assert !ColumnConforms(GateSchema[3], f, typed);
    }
  }

  /** Without a `Churn` column the verdict depends on the other four rules alone. */
  lemma ChurnOptional(f: Frame, typed: string -> bool)
    requires "Churn" !in f.columns
    ensures ValidateDataset(f, typed) <==> forall k :: 0 <= k < 4 ==> ColumnConforms(GateSchema[k], f, typed)
  {
    assert ColumnConforms(GateSchema[4], f, typed);
  }

  /** Identifiers must be distinct. */
  lemma RepeatedIdRejected(f: Frame, typed: string -> bool)
    requires "customerID" in f.columns && !Distinct(Column(f, "customerID"))
    ensures !ValidateDataset(f, typed)
  {
    assert !ColumnConforms(GateSchema[0], f, typed);
  }

  /** Tenure and monthly charges must be numbers no smaller than 0, with no cap on the charges. */
  lemma GateNumericRules(f: Frame, typed: string -> bool)
    requires "tenure" in f.columns && "MonthlyCharges" in f.columns
    ensures ColumnConforms(GateSchema[1], f, typed) <==>
      typed("tenure") && forall k :: 0 <= k < |f.rows| ==> Get(f.rows[k], "tenure").Num? && Get(f.rows[k], "tenure").x >= 0.0
    ensures ColumnConforms(GateSchema[2], f, typed) <==>
      typed("MonthlyCharges") && forall k :: 0 <= k < |f.rows| ==>
        Get(f.rows[k], "MonthlyCharges").Num? && Get(f.rows[k], "MonthlyCharges").x >= 0.0
  {
  }

  /** `Churn`, when present, holds only "Yes" and "No"; `TotalCharges` may hold missing values. */
  lemma GateLabelRules(f: Frame, typed: string -> bool)
    requires "Churn" in f.columns && "TotalCharges" in f.columns
    ensures ColumnConforms(GateSchema[4], f, typed) <==>
      typed("Churn") && forall k :: 0 <= k < |f.rows| ==> Get(f.rows[k], "Churn") in {Str("Yes"), Str("No")}
    ensures ColumnConforms(GateSchema[3], f, typed) <==> typed("TotalCharges")
  {
    if ColumnConforms(GateSchema[4], f, typed) {
      forall k | 0 <= k < |f.rows|
        ensures Get(f.rows[k], "Churn") in {Str("Yes"), Str("No")}
      {
        assert !Get(f.rows[k], "Churn").Null?;
      }
    }
  }

  /** Every column has its declared type. */
  function AllTyped(c: string): bool { true }

  /** A one-customer table charging 1500 a month. */
  const Pricey: Frame := Frame(["customerID", "tenure", "MonthlyCharges", "TotalCharges"],
    [map["customerID" := Str("A"), "tenure" := Num(1.0), "MonthlyCharges" := Num(1500.0), "TotalCharges" := Null]])

  /** The cells of the single row. */
  lemma PriceyCells()
    ensures |Pricey.rows| == 1
    ensures Get(Pricey.rows[0], "customerID") == Str("A") && Get(Pricey.rows[0], "tenure") == Num(1.0)
    ensures Get(Pricey.rows[0], "MonthlyCharges") == Num(1500.0) && Get(Pricey.rows[0], "TotalCharges") == Null
    ensures "Churn" !in Pricey.columns && "MonthlyCharges" in Pricey.columns
  {
  }

  /** The table passes the gate of `validate_dataset`. */
  lemma PriceyPassesGate()
    ensures ValidateDataset(Pricey, AllTyped)
  {
    PriceyCells();
    assert Column(Pricey, "customerID") == [Str("A")];
    GateNumericRules(Pricey, AllTyped);
    assert ColumnConforms(GateSchema[0], Pricey, AllTyped);
    assert ColumnConforms(GateSchema[1], Pricey, AllTyped);
    assert ColumnConforms(GateSchema[2], Pricey, AllTyped);
    assert ColumnConforms(GateSchema[3], Pricey, AllTyped);
    ChurnOptional(Pricey, AllTyped);
  }

  /** The table fails `DataValidator.validate` at its schema stage. */
  lemma PriceyFailsValidation()
    ensures !Validation.Validate(Pricey, AllTyped, (vs: seq<Violation>) => "").valid
  {
    PriceyCells();
    Validation.MonthlyChargesRange(Pricey, AllTyped);
    Validation.ValidationSchemaSpec(Pricey, AllTyped);
  }

  /** The two gates disagree: a charge of 1500 passes `validate_dataset` and fails `DataValidator.validate`. */
  lemma GatesDisagreeOnCap()
    ensures ValidateDataset(Pricey, AllTyped)
    ensures !Validation.Validate(Pricey, AllTyped, (vs: seq<Violation>) => "").valid
  {
    PriceyPassesGate();
    PriceyFailsValidation();
  }
}
