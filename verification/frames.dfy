/** Tables as the dashboard holds them: a header of column labels and rows of
  cells, read as pandas DataFrames with `;` as delimiter. */
module Frames {
  import opened Results
  import Seqs

  /** One cell: pandas' missing value (NaN/None), a text, or a number. */
  datatype Cell = Missing | Str(text: string) | Num(number: real)

  /** A row holds one cell per column, by position. */
  type Row = seq<Cell>

  datatype Table = Table(columns: seq<string>, rows: seq<Row>)

  /** Every row has exactly one cell per column. */
  predicate Rectangular(t: Table) {
    forall i :: 0 <= i < |t.rows| ==> |t.rows[i]| == |t.columns|
  }

  /** What `read_csv` yields: a rectangular table whose labels are all different
    (pandas renames a repeated label on reading). */
  predicate IsFrame(t: Table) {
    Rectangular(t) && Seqs.Distinct(t.columns)
  }

  type Frame = t: Table | IsFrame(t) witness Table([], [])

  /** `pd.DataFrame()`: no columns, no rows. */
  const Empty: Frame := Table([], [])

  /** The cell at position `k`, missing when the row is too short. */
  function CellAt(row: Row, k: nat): Cell {
    if k < |row| then row[k] else Missing
  }

  /** `row[name]`: the cell under the first column with that label, or nothing
    when no column has that label (pandas would raise a `KeyError`). */
  function Field(columns: seq<string>, row: Row, name: string): (r: Option<Cell>)
    ensures r.Some? <==> name in columns
    ensures r.Some? ==> r.value == CellAt(row, Seqs.IndexOf(columns, name))
  {
    if name in columns then Some(CellAt(row, Seqs.IndexOf(columns, name))) else None
  }

  /** The cell under `name`, missing when there is no such column. */
  function FieldOrMissing(columns: seq<string>, row: Row, name: string): Cell {
    match Field(columns, row, name)
    case Some(c) => c
    case None => Missing
  }

  /** `df[name]` as a sequence of cells, one per row. */
  function Column(t: Table, name: string): (r: Option<seq<Cell>>)
    ensures r.Some? <==> name in t.columns
    ensures r.Some? ==> |r.value| == |t.rows|
    ensures r.Some? ==> forall i :: 0 <= i < |t.rows| ==> Field(t.columns, t.rows[i], name) == Some(r.value[i])
  {
    if name in t.columns then
      Some(seq(|t.rows|, i requires 0 <= i < |t.rows| => FieldOrMissing(t.columns, t.rows[i], name)))
    else None
  }

  /** `x if pd.notna(x) else fallback`: a present value is kept as it is, a missing
    one is shown as the fallback text. */
  function OrText(c: Cell, fallback: string): (r: Cell)
    ensures r != Missing
    ensures c != Missing ==> r == c
    ensures c == Missing ==> r == Str(fallback)
  {
    if c == Missing then Str(fallback) else c
  }
}
