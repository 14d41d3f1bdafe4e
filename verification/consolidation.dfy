/** The introduction page's per-dataset summary (row count of every loaded
  table and their total) and the consolidated table of `pd.concat`. */
module Consolidation {
  import opened Results
  import opened Frames
  import opened Loader
  import Seqs

  /** The tables of the dictionary, in its order (`datos.values()`). */
  function Tables(datos: Datos): (ts: seq<Table>)
    ensures |ts| == |datos|
    ensures forall i :: 0 <= i < |datos| ==> ts[i] == datos[i].table
  {
    seq(|datos|, i requires 0 <= i < |datos| => datos[i].table)
  }

  /** Total number of rows over a list of tables. */
  function TotalRows(ts: seq<Table>): nat {
    if |ts| == 0 then 0 else TotalRows(ts[..|ts| - 1]) + |ts[|ts| - 1].rows|
  }

  /** The loop that fills `cuadros_datos` with (key, `df.shape[0]`) and adds
    every count to `total_datos`. */
  method Summarize(datos: Datos) returns (boxes: seq<(string, nat)>, total: nat)
    ensures |boxes| == |datos|
    ensures forall i :: 0 <= i < |datos| ==> boxes[i] == (datos[i].key, |datos[i].table.rows|)
    ensures total == TotalRows(Tables(datos))
    ensures total == |Concat(Tables(datos)).rows|
  {
    boxes := [];
    total := 0;
    var k := 0;
    while k < |datos|
      invariant k <= |datos|
      invariant |boxes| == k
      invariant forall i :: 0 <= i < k ==> boxes[i] == (datos[i].key, |datos[i].table.rows|)
      invariant total == TotalRows(Tables(datos[..k]))
    {
      var count := |datos[k].table.rows|;
      assert Tables(datos[..k + 1])[..k] == Tables(datos[..k]);
      total := total + count;
      boxes := boxes + [(datos[k].key, count)];
      k := k + 1;
    }
    assert datos[..k] == datos;
  }

  /** Every column label of every table, table after table. */
  function AllColumns(ts: seq<Table>): (cs: seq<string>)
    ensures forall c :: c in cs <==> exists i :: 0 <= i < |ts| && c in ts[i].columns
  {
    if |ts| == 0 then []
    else
      var init := ts[..|ts| - 1];
      var cs := AllColumns(init) + ts[|ts| - 1].columns;
      assert forall i :: 0 <= i < |init| ==> init[i] == ts[i];
      cs
  }

  /** A row of a table laid out under the labels `header`: the cell of each label
    it has, missing for each label it lacks. */
  function Realign(columns: seq<string>, row: Row, header: seq<string>): (r: Row)
    ensures |r| == |header|
  {
    seq(|header|, k requires 0 <= k < |header| => FieldOrMissing(columns, row, header[k]))
  }

  /** The rows of all tables, table after table, each laid out under `header`. */
  function ConcatRows(ts: seq<Table>, header: seq<string>): (rows: seq<Row>)
    ensures |rows| == TotalRows(ts)
    ensures forall i :: 0 <= i < |rows| ==> |rows[i]| == |header|
  {
    if |ts| == 0 then []
    else
      var t := ts[|ts| - 1];
      ConcatRows(ts[..|ts| - 1], header) + seq(|t.rows|, j requires 0 <= j < |t.rows| => Realign(t.columns, t.rows[j], header))
  }

  /** `pd.concat(datos.values())`: the union of the labels in order of first
    appearance, and every row of every table, table after table, with the
    labels its own table lacks left missing. */
  function Concat(ts: seq<Table>): (r: Table)
    ensures Seqs.Distinct(r.columns)
    ensures forall c :: c in r.columns <==> exists i :: 0 <= i < |ts| && c in ts[i].columns
    ensures Rectangular(r)
    ensures forall c :: c in r.columns <==> c in AllColumns(ts)
    ensures forall i, j :: 0 <= i < j < |r.columns| ==>
              Seqs.IndexOf(AllColumns(ts), r.columns[i]) < Seqs.IndexOf(AllColumns(ts), r.columns[j])
    ensures |r.rows| == TotalRows(ts)
  {
    var header := Seqs.Unique(AllColumns(ts));
    Table(header, ConcatRows(ts, header))
  }

  /** Where the rows of table `i` start in the consolidated table. */
  function Offset(ts: seq<Table>, i: nat): nat
    requires i <= |ts|
  {
    TotalRows(ts[..i])
  }

  lemma {:induction false} TotalRowsPrefix(ts: seq<Table>, i: nat)
    requires i < |ts|
    ensures TotalRows(ts[..i]) + |ts[i].rows| <= TotalRows(ts)
    decreases |ts|
  {
    if i < |ts| - 1 {
      var init := ts[..|ts| - 1];
      assert init[..i] == ts[..i];
      TotalRowsPrefix(init, i);
    } else {
      assert ts[..i] == ts[..|ts| - 1];
    }
  }

  lemma {:induction false} ConcatRowsAt(ts: seq<Table>, header: seq<string>, i: nat, j: nat)
    requires i < |ts| && j < |ts[i].rows|
    ensures Offset(ts, i) + j < |ConcatRows(ts, header)|
    ensures ConcatRows(ts, header)[Offset(ts, i) + j] == Realign(ts[i].columns, ts[i].rows[j], header)
    decreases |ts|
  {
    TotalRowsPrefix(ts, i);
    var init := ts[..|ts| - 1];
    if i < |ts| - 1 {
      assert init[..i] == ts[..i];
      ConcatRowsAt(init, header, i, j);
    } else {
      assert ts[..i] == init;
    }
  }

  /** Each row of table `i` appears at offset `Offset(ts, i)` plus its own
    position, and under every label of the consolidated table it holds the
    cell of its own table, or a missing value where its table has no such label. */
  lemma ConcatCells(ts: seq<Table>, i: nat, j: nat, c: string)
    requires i < |ts| && j < |ts[i].rows|
    requires c in Concat(ts).columns
    ensures Offset(ts, i) + j < |Concat(ts).rows|
    ensures Field(Concat(ts).columns, Concat(ts).rows[Offset(ts, i) + j], c) ==
            Some(FieldOrMissing(ts[i].columns, ts[i].rows[j], c))
  {
    var header := Concat(ts).columns;
    ConcatRowsAt(ts, header, i, j);
  }

  /** Each table's block of rows lies inside the consolidated table, and the
    blocks follow one another without overlapping: no row is dropped or
    duplicated by the merge. */
  lemma ConcatPreservesRows(ts: seq<Table>)
    ensures forall i :: 0 <= i < |ts| ==> Offset(ts, i) + |ts[i].rows| <= |Concat(ts).rows|
    ensures forall i, j :: 0 <= i < j < |ts| ==> Offset(ts, i) + |ts[i].rows| <= Offset(ts, j)
  {
    forall i | 0 <= i < |ts| {
      TotalRowsPrefix(ts, i);
    }
    forall i, j | 0 <= i < j < |ts|
      ensures Offset(ts, i) + |ts[i].rows| <= Offset(ts, j)
    {
      TotalRowsPrefix(ts[..j], i);
      assert ts[..j][..i] == ts[..i];
    }
  }
}
