/**
 * `DataValidator` (src/validation.py): the three-stage verdict of `validate`
 * (schema, then duplicate identifiers, then null sparsity, the first stage
 * that fails deciding the message) and the column loop of `detect_drift`.
 * pandera's rendering of a schema failure and the KS test are inputs.
 */
module Validation {
  import opened Wrappers
  import opened Text
  import opened Frames
  import opened Schema

  /** `DataValidator.SCHEMA`: every column optional; only `TotalCharges` may hold missing values. */
  const ValidationSchema: seq<ColumnSpec> := [
    ColumnSpec("customerID", TextType, NoCheck, false, true, false),
    ColumnSpec("tenure", IntType, AtLeast(0.0), false, false, false),
    ColumnSpec("MonthlyCharges", FloatType, Between(0.0, 1000.0), false, false, false),
    ColumnSpec("TotalCharges", FloatType, NoCheck, true, false, false),
    ColumnSpec("Churn", TextType, OneOf(["Yes", "No"]), false, false, false)
  ]

  datatype Verdict = Verdict(valid: bool, message: string)

  const TypeSkewMessage := "Critical Type Skew: 'TotalCharges' contains non-numeric characters (e.g. spaces). Ensure data is cleaned."

  /**
   * Stage 1: the schema. A failure is reported as pandera renders it,
   * except that a rendering naming both a type mismatch ("expected series")
   * and `TotalCharges` is replaced by the fixed type-skew message.
   */
  function SchemaStage(f: Frame, typed: string -> bool, render: seq<Violation> -> string): (r: Option<string>)
    ensures r.None? <==> Violations(ValidationSchema, f, typed) == []
  {
    var vs := Violations(ValidationSchema, f, typed);
    if vs == [] then None
    else
      var msg := "Schema mapping violation: " + render(vs);
      if Contains(msg, "expected series") && Contains(msg, "TotalCharges") then Some(TypeSkewMessage)
      else Some(msg)
  }

  /** Stage 2: repeated identifiers, counted only when the column exists. */
  function DuplicateStage(f: Frame): (r: Option<string>)
    ensures r.Some? <==> "customerID" in f.columns && !Distinct(Column(f, "customerID"))
  {
    DuplicateCountZero(Column(f, "customerID"));
    if "customerID" in f.columns then
      var duplicates := DuplicateCount(Column(f, "customerID"));
      if duplicates > 0 then
        Some("Institutional Safety violation: " + NatToString(duplicates) + " non-unique customer instances detected.")
      else None
    else None
  }

  /** The number of missing cells of column `c`. */
  function NullCount(f: Frame, c: string): (n: nat)
    ensures n <= |f.rows|
  {
    |NullRows(f.rows, c)|
  }

  function NullRows(rows: seq<Row>, c: string): (ks: seq<Row>)
    ensures |ks| <= |rows|
  {
    if rows == [] then []
    else (if Get(rows[0], c).Null? then [rows[0]] else []) + NullRows(rows[1..], c)
  }

  /** `(null_counts / len(df)) * 100 > 25`; an empty table gives `NaN`, which is never above. */
  predicate TooSparse(f: Frame, c: string)
  {
    |f.rows| > 0 && (NullCount(f, c) as real / |f.rows| as real) * 100.0 > 25.0
  }

  /** The offending columns, in column order. */
  function CriticalNulls(cols: seq<string>, f: Frame): (r: seq<string>)
    ensures forall c :: c in r <==> c in cols && TooSparse(f, c)
  {
    if cols == [] then []
    else (if TooSparse(f, cols[0]) then [cols[0]] else []) + CriticalNulls(cols[1..], f)
  }

  /** Python's `repr` of a list of names that hold no quote or backslash. */
  function ListRepr(names: seq<string>): string
  {
    "[" + Join(seq(|names|, k requires 0 <= k < |names| => "'" + names[k] + "'"), ", ") + "]"
  }

  /** Stage 3: the null-sparsity audit. */
  function SparsityStage(f: Frame): (r: Option<string>)
    ensures r.Some? <==> exists c :: c in f.columns && TooSparse(f, c)
  {
    var critical := CriticalNulls(f.columns, f);
    if critical != [] then
      assert critical[0] in critical;
      Some("Data Quality violation: Features " + ListRepr(critical) + " exceed the 25% null threshold.")
    else
      assert forall c :: c in f.columns ==> !TooSparse(f, c);
      None
  }

  /** `DataValidator.validate`: the first stage that fails decides the verdict. */
  function Validate(f: Frame, typed: string -> bool, render: seq<Violation> -> string): (v: Verdict)
    ensures v.valid <==>
      SchemaStage(f, typed, render).None? && DuplicateStage(f).None? && SparsityStage(f).None?
    ensures v.valid ==> v.message == ""
  {
    match SchemaStage(f, typed, render)
    case Some(msg) => Verdict(false, msg)
    case None =>
      match DuplicateStage(f)
      case Some(msg) => Verdict(false, msg)
      case None =>
        match SparsityStage(f)
        case Some(msg) => Verdict(false, msg)
        case None => Verdict(true, "")
  }

  /** A failing verdict carries the message of the first stage that fails. */
  lemma ValidateFirstFailure(f: Frame, typed: string -> bool, render: seq<Violation> -> string)
    ensures SchemaStage(f, typed, render).Some? ==>
      Validate(f, typed, render) == Verdict(false, SchemaStage(f, typed, render).value)
    ensures SchemaStage(f, typed, render).None? && DuplicateStage(f).Some? ==>
      Validate(f, typed, render) == Verdict(false, DuplicateStage(f).value)
    ensures SchemaStage(f, typed, render).None? && DuplicateStage(f).None? && SparsityStage(f).Some? ==>
      Validate(f, typed, render) == Verdict(false, SparsityStage(f).value)
  {
  }

  /** A rendering naming a type mismatch and `TotalCharges` always yields the type-skew message. */
  lemma TypeSkewReplaces(f: Frame, typed: string -> bool, render: seq<Violation> -> string)
    requires Violations(ValidationSchema, f, typed) != []
    requires Contains(render(Violations(ValidationSchema, f, typed)), "expected series")
    requires Contains(render(Violations(ValidationSchema, f, typed)), "TotalCharges")
    ensures Validate(f, typed, render) == Verdict(false, TypeSkewMessage)
  {
    var text := render(Violations(ValidationSchema, f, typed));
    ContainsAppendLeft("Schema mapping violation: ", text, "expected series");
    ContainsAppendLeft("Schema mapping violation: ", text, "TotalCharges");
  }

  /** The schema passes exactly when each of its five column rules holds. */
  lemma ValidationSchemaSpec(f: Frame, typed: string -> bool)
    ensures Violations(ValidationSchema, f, typed) == [] <==>
      && ColumnConforms(ValidationSchema[0], f, typed)
      && ColumnConforms(ValidationSchema[1], f, typed)
      && ColumnConforms(ValidationSchema[2], f, typed)
      && ColumnConforms(ValidationSchema[3], f, typed)
      && ColumnConforms(ValidationSchema[4], f, typed)
  {
    ViolationsEmpty(ValidationSchema, f, typed);
  }

  /** No column of the schema is required. */
  lemma ValidationSchemaOptional(f: Frame, typed: string -> bool)
    requires forall k :: 0 <= k < 5 ==> ValidationSchema[k].name !in f.columns
    ensures SchemaStage(f, typed, (vs: seq<Violation>) => "").None?
  {
    ViolationsEmpty(ValidationSchema, f, typed);
  }

  /** Monthly charges are capped at 1000, both ends inclusive. */
  lemma MonthlyChargesRange(f: Frame, typed: string -> bool)
    requires "MonthlyCharges" in f.columns
    ensures ColumnConforms(ValidationSchema[2], f, typed) <==>
      typed("MonthlyCharges") &&
      forall k :: 0 <= k < |f.rows| ==>
        Get(f.rows[k], "MonthlyCharges").Num? && 0.0 <= Get(f.rows[k], "MonthlyCharges").x <= 1000.0
  {
  }

  /**
   * The duplicate stage never decides a verdict: the schema already
   * declares `customerID` unique, so a table with a repeated identifier is
   * rejected by the schema stage first.
   */
  lemma DuplicateStageUnreachable(f: Frame, typed: string -> bool, render: seq<Violation> -> string)
    requires SchemaStage(f, typed, render).None?
    ensures DuplicateStage(f).None?
  {
    ViolationsEmpty(ValidationSchema, f, typed);
    assert ColumnConforms(ValidationSchema[0], f, typed);
  }

  /** Exactly a quarter of missing cells passes; anything more fails. */
  lemma SparsityThreshold(f: Frame, c: string)
    requires |f.rows| > 0
    ensures TooSparse(f, c) <==> 4 * NullCount(f, c) > |f.rows|
  {
    var n := |f.rows| as real;
    var z := NullCount(f, c) as real;
    QuarterRule(z, n);
    assert (4 * NullCount(f, c)) as real == 4.0 * z;
  }

  /** A share above 25 percent is four times the part exceeding the whole. */
  lemma QuarterRule(z: real, n: real)
    requires n > 0.0
    ensures (z / n) * 100.0 > 25.0 <==> 4.0 * z > n
  {
    var q := z / n;
    assert q * n == z;
    assert (q * 100.0 - 25.0) * n == z * 100.0 - 25.0 * n;
    SignOfProduct(q * 100.0 - 25.0, n);
  }

  /** A product with a positive factor has the sign of the other factor. */
  lemma SignOfProduct(a: real, n: real)
    requires n > 0.0
    ensures a > 0.0 <==> a * n > 0.0
  {
    if a > 0.0 {
      assert a * n > 0.0;
    } else {
      assert a * n <= 0.0;
    }
  }

  /** Each listed column is a column of the table, found at position `a`. */
  lemma {:induction false} CriticalNullsFrom(cols: seq<string>, f: Frame, i: nat) returns (a: nat)
    requires i < |CriticalNulls(cols, f)|
    ensures a < |cols| && cols[a] == CriticalNulls(cols, f)[i]
  {
    var rest := CriticalNulls(cols[1..], f);
    if TooSparse(f, cols[0]) && i == 0 {
      a := 0;
    } else {
      var i' := if TooSparse(f, cols[0]) then i - 1 else i;
      var a' := CriticalNullsFrom(cols[1..], f, i');
      a := a' + 1;
    }
  }

  /** The sparsity message lists the offending columns in column order: positions `i < j` of the list come from positions `a < b` of the table. */
  lemma {:induction false} CriticalNullsInOrder(cols: seq<string>, f: Frame, i: nat, j: nat) returns (a: nat, b: nat)
    requires i < j < |CriticalNulls(cols, f)|
    ensures a < b < |cols| && cols[a] == CriticalNulls(cols, f)[i] && cols[b] == CriticalNulls(cols, f)[j]
  {
    var rest := CriticalNulls(cols[1..], f);
    if TooSparse(f, cols[0]) {
      if i == 0 {
        var b' := CriticalNullsFrom(cols[1..], f, j - 1);
        a, b := 0, b' + 1;
      } else {
        var a', b' := CriticalNullsInOrder(cols[1..], f, i - 1, j - 1);
        a, b := a' + 1, b' + 1;
      }
    } else {
      var a', b' := CriticalNullsInOrder(cols[1..], f, i, j);
      a, b := a' + 1, b' + 1;
    }
  }

  // ---------------------------------------------------------------------
  // detect_drift
  // ---------------------------------------------------------------------

  datatype DriftEntry = DriftEntry(driftDetected: bool, pValue: real)

  /** The p-value the KS test gives for one column of both tables. */
  function ColumnPValue(current: Frame, reference: Frame, c: string, ks: (seq<real>, seq<real>) -> real): real
  {
    ks(NumericValues(Column(current, c)), NumericValues(Column(reference, c)))
  }

  /**
   * `detect_drift`: for every numeric column of the current table that the
   * reference also has, the KS p-value of the two columns' non-missing
   * values, flagged when below 0.05.
   */
  method DetectDrift(current: Frame, reference: Frame, ks: (seq<real>, seq<real>) -> real)
    returns (report: map<string, DriftEntry>)
    ensures report.Keys == set c | c in current.columns && NumericColumn(current, c) && c in reference.columns
    ensures forall c :: c in report ==>
      report[c].pValue == ColumnPValue(current, reference, c, ks)
      && (report[c].driftDetected <==> ColumnPValue(current, reference, c, ks) < 0.05)
  {
    report := map[];
    var i := 0;
    while i < |current.columns|
      invariant 0 <= i <= |current.columns|
      invariant report.Keys == set c | c in current.columns[..i] && NumericColumn(current, c) && c in reference.columns
      invariant forall c :: c in report ==>
        report[c].pValue == ColumnPValue(current, reference, c, ks)
        && (report[c].driftDetected <==> ColumnPValue(current, reference, c, ks) < 0.05)
    {
      var col := current.columns[i];
      assert current.columns[..i + 1] == current.columns[..i] + [col];
      if NumericColumn(current, col) && col in reference.columns {
        var pVal := ks(NumericValues(Column(current, col)), NumericValues(Column(reference, col)));
        report := report[col := DriftEntry(pVal < 0.05, pVal)];
      }
      i := i + 1;
    }
    assert current.columns[..|current.columns|] == current.columns;
  }
}
