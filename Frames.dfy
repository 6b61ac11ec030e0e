/**
 * The part of a pandas DataFrame that the merge depends on: an ordered
 * header of column names and a sequence of rows, each row mapping a column
 * name to its cell. `Blank` is the missing value (NaN) that reindexing
 * inserts and that CSV output renders as an empty field.
 */
module Frames {
  import opened Wrappers

  type Column = string

  datatype Cell = Blank | Text(text: string)

  type Row = map<Column, Cell>

  datatype Table = Table(header: seq<Column>, rows: seq<Row>)

  /** The message pandas raises when asked to concatenate an empty list of frames. */
  const NoObjectsToConcatenate: string := "No objects to concatenate"

  function Elems<T(==)>(s: seq<T>): set<T>
  {
    set x | x in s
  }

  predicate NoDup<T(==)>(s: seq<T>)
  {
    forall i, j :: 0 <= i < j < |s| ==> s[i] != s[j]
  }

  /** A table as the CSV reader produces it: distinct column names, and every row has exactly those columns. */
  predicate WellFormed(t: Table)
  {
    NoDup(t.header) && forall i :: 0 <= i < |t.rows| ==> t.rows[i].Keys == Elems(t.header)
  }

  /** One row reindexed to `cols`: the columns of `cols`, each keeping the row's cell or else blank. */
  function ReindexRow(row: Row, cols: seq<Column>): (r: Row)
    ensures r.Keys == Elems(cols)
  {
    map c | c in cols :: if c in row then row[c] else Blank
  }

  /** `df.reindex(columns=cols)`: the table with header `cols`, row for row. */
  function Reindex(t: Table, cols: seq<Column>): (r: Table)
    ensures r.header == cols && |r.rows| == |t.rows|
  {
    Table(cols, seq(|t.rows|, i requires 0 <= i < |t.rows| => ReindexRow(t.rows[i], cols)))
  }

  /** Every table of `ts` reindexed to `cols`, in the same order. */
  function ReindexAll(ts: seq<Table>, cols: seq<Column>): (r: seq<Table>)
    ensures |r| == |ts|
  {
    seq(|ts|, i requires 0 <= i < |ts| => Reindex(ts[i], cols))
  }

  /** The number of rows of all tables together. */
  function TotalRows(ts: seq<Table>): nat
  {
    if ts == [] then 0 else |ts[0].rows| + TotalRows(ts[1..])
  }

  /** The rows of all tables, table by table, each table's rows in their own order. */
  function ConcatRows(ts: seq<Table>): (r: seq<Row>)
    ensures |r| == TotalRows(ts)
  {
    if ts == [] then [] else ts[0].rows + ConcatRows(ts[1..])
  }

  /**
   * `pd.concat(ts, ignore_index=True)` for frames that share one header (the
   * only way the merge calls it): an error for the empty list, otherwise the
   * common header over all the rows.
   */
  function Concat(ts: seq<Table>): (r: Result<Table, string>)
    ensures r.Err? <==> ts == []
    ensures r.Err? ==> r.error == NoObjectsToConcatenate
    ensures r.Ok? ==> r.value.header == ts[0].header && |r.value.rows| == TotalRows(ts)
  {
    if ts == [] then Err(NoObjectsToConcatenate) else Ok(Table(ts[0].header, ConcatRows(ts)))
  }

  /** Reindexing keeps a cell whose column the table has, and fills a blank where it has none. */
  lemma ReindexCells(t: Table, cols: seq<Column>, i: nat, c: Column)
    requires WellFormed(t) && i < |t.rows| && c in cols
    ensures c in Reindex(t, cols).rows[i]
    ensures c in t.header ==> Reindex(t, cols).rows[i][c] == t.rows[i][c]
    ensures c !in t.header ==> Reindex(t, cols).rows[i][c] == Blank
  {
    assert c in Elems(t.header) <==> c in t.header;
  }

  /** Reindexing to a duplicate-free column list yields a well-formed table. */
  lemma ReindexWellFormed(t: Table, cols: seq<Column>)
    requires NoDup(cols)
    ensures WellFormed(Reindex(t, cols))
  {
  }

  /** Reindexing a well-formed table to its own header changes nothing. */
  lemma ReindexOwnHeader(t: Table)
    requires WellFormed(t)
    ensures Reindex(t, t.header) == t
  {
    var r := Reindex(t, t.header);
    forall i | 0 <= i < |t.rows|
      ensures r.rows[i] == t.rows[i]
    {
      assert r.rows[i].Keys == t.rows[i].Keys;
      forall c | c in t.rows[i]
        ensures r.rows[i][c] == t.rows[i][c]
      {
        assert c in Elems(t.header);
      }
    }
  }

  /** Reindexing twice to the same columns is reindexing once. */
  lemma ReindexIdempotent(t: Table, cols: seq<Column>)
    ensures Reindex(Reindex(t, cols), cols) == Reindex(t, cols)
  {
    var once := Reindex(t, cols);
    var twice := Reindex(once, cols);
    forall i | 0 <= i < |t.rows|
      ensures twice.rows[i] == once.rows[i]
    {
      assert twice.rows[i].Keys == once.rows[i].Keys;
    }
  }

  /** Concatenation distributes over splitting the list of tables. */
  lemma {:induction false} ConcatRowsAppend(a: seq<Table>, b: seq<Table>)
    ensures ConcatRows(a + b) == ConcatRows(a) + ConcatRows(b)
    ensures TotalRows(a + b) == TotalRows(a) + TotalRows(b)
  {
    if a == [] {
      assert a + b == b;
    } else {
      assert (a + b)[1..] == a[1..] + b;
      ConcatRowsAppend(a[1..], b);
    }
  }

  /** Row `j` of table `k` sits in the concatenation after the rows of all earlier tables. */
  lemma {:induction false} ConcatRowsAt(ts: seq<Table>, k: nat, j: nat)
    requires k < |ts| && j < |ts[k].rows|
    ensures TotalRows(ts[..k]) + j < |ConcatRows(ts)|
    ensures ConcatRows(ts)[TotalRows(ts[..k]) + j] == ts[k].rows[j]
  {
    assert ts == ts[..k] + ts[k..];
    ConcatRowsAppend(ts[..k], ts[k..]);
    assert ts[k..][0] == ts[k];
  }

  /** Reindexing does not change any table's row count, so neither does it change the total. */
  lemma {:induction false} TotalRowsReindexAll(ts: seq<Table>, cols: seq<Column>)
    ensures TotalRows(ReindexAll(ts, cols)) == TotalRows(ts)
  {
    if ts != [] {
      assert ReindexAll(ts, cols)[1..] == ReindexAll(ts[1..], cols);
      TotalRowsReindexAll(ts[1..], cols);
    }
  }
}
