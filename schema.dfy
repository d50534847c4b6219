/**
 * The part of a pandera `DataFrameSchema` the two validation gates use:
 * per column a declared type, an optional value check, and the `nullable`,
 * `unique` and `required` flags. Validating a table yields the list of
 * violations, column by column in schema order; the table conforms when the
 * list is empty. Whether a column's pandas type matches the declared one is
 * decided by pandera and is an input here.
 */
module Schema {
  import opened Frames

  datatype DType = TextType | IntType | FloatType

  /** `Check.greater_than_or_equal_to`, `Check.in_range` (both ends included) and `Check.isin`. */
  datatype ValueCheck = NoCheck | AtLeast(lo: real) | Between(lo: real, hi: real) | OneOf(values: seq<string>)

  datatype ColumnSpec = ColumnSpec(name: string, dtype: DType, check: ValueCheck, nullable: bool, unique: bool, required: bool)

  datatype Violation =
    | MissingColumn(col: string)
    | WrongType(col: string)
    | NullValues(col: string)
    | DuplicateValues(col: string)
    | CheckFailed(col: string)

  /** A non-missing value passes a check; text never passes a numeric check, nor a number a membership check. */
  predicate Passes(c: Cell, check: ValueCheck)
  {
    match check
    case NoCheck => true
    case AtLeast(lo) => c.Num? && c.x >= lo
    case Between(lo, hi) => c.Num? && lo <= c.x <= hi
    case OneOf(values) => c.Str? && c.s in values
  }

  /** The value at position `k` repeats an earlier one (`Series.duplicated()`). */
  predicate Repeats(cells: seq<Cell>, k: int)
  {
    0 <= k < |cells| && cells[k] in cells[..k]
  }

  /** `Series.duplicated().sum()`: the number of values equal to an earlier one. */
  function DuplicateCount(cells: seq<Cell>): (n: nat)
    ensures n <= |cells|
  {
    if cells == [] then 0
    else
      var m := |cells| - 1;
      DuplicateCount(cells[..m]) + (if cells[m] in cells[..m] then 1 else 0)
  }

  predicate Distinct(cells: seq<Cell>)
  {
    forall i, j :: 0 <= i < j < |cells| ==> cells[i] != cells[j]
  }

  /** No value repeats exactly when all values differ. */
  lemma {:induction false} DuplicateCountZero(cells: seq<Cell>)
    ensures DuplicateCount(cells) == 0 <==> Distinct(cells)
  {
    if cells != [] {
      var m := |cells| - 1;
      var init := cells[..m];
      DuplicateCountZero(init);
      assert forall i :: 0 <= i < m ==> init[i] == cells[i];
      if Distinct(cells) {
        assert Distinct(init);
        assert cells[m] !in init by {
          forall i | 0 <= i < m
            ensures init[i] != cells[m]
          {
            assert cells[i] != cells[m];
          }
        }
      }
      if DuplicateCount(cells) == 0 {
        forall i, j | 0 <= i < j < |cells|
          ensures cells[i] != cells[j]
        {
          if j < m {
            assert init[i] != init[j];
          } else {
            assert init[i] in init;
          }
        }
      }
    }
  }

  /** Some cell of column `c` is missing. */
  predicate HasNull(f: Frame, c: string)
  {
    exists k :: 0 <= k < |f.rows| && Get(f.rows[k], c).Null?
  }

  /** Every non-missing cell of column `c` passes the check. */
  predicate ValuesPass(f: Frame, c: string, check: ValueCheck)
  {
    forall k :: 0 <= k < |f.rows| ==> Get(f.rows[k], c).Null? || Passes(Get(f.rows[k], c), check)
  }

  /** What validating one column reports; an absent optional column is skipped. */
  function ColumnViolations(spec: ColumnSpec, f: Frame, typed: string -> bool): seq<Violation>
  {
    var c := spec.name;
    if c !in f.columns then (if spec.required then [MissingColumn(c)] else [])
    else
      (if typed(c) then [] else [WrongType(c)])
      + (if !spec.nullable && HasNull(f, c) then [NullValues(c)] else [])
      + (if spec.unique && !Distinct(Column(f, c)) then [DuplicateValues(c)] else [])
      + (if ValuesPass(f, c, spec.check) then [] else [CheckFailed(c)])
  }

  /** `schema.validate(df, lazy=True)`: every violation of every column, in schema order. */
  function Violations(schema: seq<ColumnSpec>, f: Frame, typed: string -> bool): seq<Violation>
  {
    if schema == [] then [] else ColumnViolations(schema[0], f, typed) + Violations(schema[1..], f, typed)
  }

  /** One column conforms: present when required, and when present of the declared type, null-free unless nullable, distinct when unique, and its values pass. */
  predicate ColumnConforms(spec: ColumnSpec, f: Frame, typed: string -> bool)
  {
    var c := spec.name;
    && (c !in f.columns ==> !spec.required)
    && (c in f.columns ==>
        && typed(c)
        && (!spec.nullable ==> !HasNull(f, c))
        && (spec.unique ==> Distinct(Column(f, c)))
        && ValuesPass(f, c, spec.check))
  }

  /** A column reports nothing exactly when it conforms. */
  lemma ColumnViolationsEmpty(spec: ColumnSpec, f: Frame, typed: string -> bool)
    ensures ColumnViolations(spec, f, typed) == [] <==> ColumnConforms(spec, f, typed)
  {
  }

  /** The table passes exactly when every column of the schema conforms. */
  lemma {:induction false} ViolationsEmpty(schema: seq<ColumnSpec>, f: Frame, typed: string -> bool)
    ensures Violations(schema, f, typed) == [] <==> forall k :: 0 <= k < |schema| ==> ColumnConforms(schema[k], f, typed)
  {
    if schema != [] {
      ViolationsEmpty(schema[1..], f, typed);
      ColumnViolationsEmpty(schema[0], f, typed);
      assert forall k :: 1 <= k < |schema| ==> schema[1..][k - 1] == schema[k];
      if forall k :: 0 <= k < |schema| ==> ColumnConforms(schema[k], f, typed) {
        assert forall k :: 0 <= k < |schema| - 1 ==> ColumnConforms(schema[1..][k], f, typed) by {
          forall k | 0 <= k < |schema| - 1
            ensures ColumnConforms(schema[1..][k], f, typed)
          {
            assert schema[1..][k] == schema[k + 1];
          }
        }
      }
    }
  }
}
