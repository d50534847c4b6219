/**
 * The table model that stands for a pandas DataFrame: an ordered list of
 * column names and, per row, a map from column name to cell. A cell is a
 * text value, a number, or missing (`NaN` / `None`).
 */
module Frames {
  import opened Text

  datatype Cell = Str(s: string) | Num(x: real) | Null

  type Row = map<string, Cell>

  datatype Frame = Frame(columns: seq<string>, rows: seq<Row>)

  /** Distinct column names, and every row defines exactly those columns. */
  ghost predicate WellFormed(f: Frame)
  {
    && (forall i, j :: 0 <= i < j < |f.columns| ==> f.columns[i] != f.columns[j])
    && (forall k :: 0 <= k < |f.rows| ==> f.rows[k].Keys == set c | c in f.columns)
  }

  /** `row.get(c)`: the cell of column `c`, missing when the row has no such column. */
  function Get(r: Row, c: string): Cell
  {
    if c in r then r[c] else Null
  }

  /** The cells of column `c`, top to bottom (`df[c]`). */
  function Column(f: Frame, c: string): seq<Cell>
  {
    seq(|f.rows|, i requires 0 <= i < |f.rows| => Get(f.rows[i], c))
  }

  /** The column list after `df[c] = ...`: an existing column keeps its place, a new one is appended. */
  function AddName(cols: seq<string>, c: string): seq<string>
  {
    if c in cols then cols else cols + [c]
  }

  /** A 0/1 indicator cell. */
  function Flag(b: bool): Cell
  {
    if b then Num(1.0) else Num(0.0)
  }

  /** `x + d` on a numeric cell; missing stays missing. */
  function AddNum(c: Cell, d: real): Cell
  {
    if c.Num? then Num(c.x + d) else Null
  }

  /** The names of the list that are columns of the table, in list order (`[c for c in names if c in cols]`). */
  function FilterIn(names: seq<string>, cols: seq<string>): (r: seq<string>)
    ensures forall s :: s in r <==> s in names && s in cols
    ensures |r| <= |names|
  {
    if names == [] then []
    else
      var rest := FilterIn(names[1..], cols);
      assert forall s :: s in names <==> s == names[0] || s in names[1..];
      if names[0] in cols then [names[0]] + rest else rest
  }

  /** No cell of column `c` holds text, so pandas can treat the column as numeric. */
  predicate NumericColumn(f: Frame, c: string)
  {
    forall k :: 0 <= k < |f.rows| ==> !Get(f.rows[k], c).Str?
  }

  /** `pd.to_numeric(x, errors='coerce')` on one cell: unparsable text becomes missing. */
  function ToNumeric(c: Cell): (r: Cell)
    ensures !r.Str?
    ensures c.Num? ==> r == c
  {
    match c
    case Num(_) => c
    case Null => Null
    case Str(s) => match ParseNumber(s) { case Some(x) => Num(x) case None => Null }
  }

  /** `fillna(v)` on one cell. */
  function FillNa(c: Cell, v: real): (r: Cell)
    ensures r.Null? == false
    ensures !c.Null? ==> r == c
  {
    if c.Null? then Num(v) else c
  }

  /** `x > t` on a numeric cell; a missing value compares false. */
  predicate NumGreater(c: Cell, t: real)
  {
    c.Num? && c.x > t
  }

  /** `x < t` on a numeric cell; a missing value compares false. */
  predicate NumLess(c: Cell, t: real)
  {
    c.Num? && c.x < t
  }

  /** Product of two numeric cells; missing if either is missing. */
  function Mul(a: Cell, b: Cell): Cell
  {
    if a.Num? && b.Num? then Num(a.x * b.x) else Null
  }

  /** Quotient of two numeric cells; missing if either is missing or the divisor is 0. */
  function Div(a: Cell, b: Cell): Cell
  {
    if a.Num? && b.Num? && b.x != 0.0 then Num(a.x / b.x) else Null
  }

  /** The non-missing numbers of a column (`dropna()`). */
  function NumericValues(cells: seq<Cell>): (xs: seq<real>)
    ensures |xs| <= |cells|
  {
    if cells == [] then []
    else (if cells[0].Num? then [cells[0].x] else []) + NumericValues(cells[1..])
  }

  /**
   * A row re-keyed positionally: the cell of `olds[k]` is stored under
   * `news[k]`; when two new names coincide the later position wins.
   */
  function RekeyRow(r: Row, olds: seq<string>, news: seq<string>): (r': Row)
    requires |olds| == |news|
    ensures r'.Keys == set k | 0 <= k < |news| :: news[k]
    decreases |olds|
  {
    if olds == [] then map[]
    else
      var n := |olds| - 1;
      RekeyRow(r, olds[..n], news[..n])[news[n] := Get(r, olds[n])]
  }

  /** `df.columns = names`: every column is given the name at its position. */
  function Relabel(f: Frame, names: seq<string>): (g: Frame)
    requires |names| == |f.columns|
    ensures g.columns == names && |g.rows| == |f.rows|
  {
    Frame(names, seq(|f.rows|, i requires 0 <= i < |f.rows| => RekeyRow(f.rows[i], f.columns, names)))
  }
}
