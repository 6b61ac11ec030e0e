/**
 * `CSVMerger.merge_files`: read a batch of CSV files, union their columns,
 * reindex every table to that union, concatenate the rows in file order and
 * write the result, collecting a newline-joined report of what went wrong.
 *
 * Reading a file is an input: each path comes with the outcome of
 * `pd.read_csv` on it, a table or the message of the exception it raised.
 * Writing the merged table is an oracle: `to_csv` either succeeds or raises.
 */
module CsvMerger {
  import opened Wrappers
  import opened Frames
  import opened MergeReport

  /** A path of the batch together with what reading it produced. */
  datatype Source = Source(path: string, read: Result<Table, string>)

  /** What `to_csv` on the output path does. */
  datatype WriteOutcome = Written | WriteFailed(cause: string)

  // ---------------------------------------------------------------------
  // The read loop, as functions of the prefix of the batch read so far

  /** The tables that were read successfully, in batch order (`dataframes` after the read loop). */
  function Loaded(sources: seq<Source>): (ts: seq<Table>)
    ensures |ts| <= |sources|
  {
    if sources == [] then []
    else
      var last := sources[|sources| - 1];
      Loaded(sources[..|sources| - 1]) + (if last.read.Ok? then [last.read.value] else [])
  }

  /** One report entry per file that could not be read, in batch order. */
  function ReadErrors(sources: seq<Source>): (es: seq<Entry>)
    ensures |es| <= |sources|
  {
    if sources == [] then []
    else
      var last := sources[|sources| - 1];
      ReadErrors(sources[..|sources| - 1])
        + (if last.read.Err? then [ReadError(last.path, last.read.error)] else [])
  }

  /** The distinct header tuples of the tables (`headers_set`). */
  function HeaderSet(ts: seq<Table>): (hs: set<seq<Column>>)
    ensures |hs| <= |ts|
    ensures ts != [] ==> hs != {}
  {
    if ts == [] then {} else HeaderSet(ts[..|ts| - 1]) + {ts[|ts| - 1].header}
  }

  /** Every column name of every table (`all_columns` as a set). */
  function ColumnUnion(ts: seq<Table>): set<Column>
  {
    if ts == [] then {} else ColumnUnion(ts[..|ts| - 1]) + Elems(ts[|ts| - 1].header)
  }

  predicate HeadersMismatch(ts: seq<Table>)
  {
    |HeaderSet(ts)| > 1
  }

  /** What reading one more file does to the loaded tables and the read errors. */
  lemma ReadStep(sources: seq<Source>, k: nat)
    requires k < |sources|
    ensures Loaded(sources[..k + 1])
         == Loaded(sources[..k]) + (if sources[k].read.Ok? then [sources[k].read.value] else [])
    ensures ReadErrors(sources[..k + 1])
         == ReadErrors(sources[..k])
            + (if sources[k].read.Err? then [ReadError(sources[k].path, sources[k].read.error)] else [])
  {
    assert sources[..k + 1][..k] == sources[..k];
  }

  /** What one more loaded table does to the header set and the column union. */
  lemma TablesStep(ts: seq<Table>, t: Table)
    ensures HeaderSet(ts + [t]) == HeaderSet(ts) + {t.header}
    ensures ColumnUnion(ts + [t]) == ColumnUnion(ts) + Elems(t.header)
  {
    assert (ts + [t])[..|ts|] == ts;
  }

  /** Every file is either loaded or reported, never both and never neither. */
  lemma {:induction false} LoadedOrReported(sources: seq<Source>)
    ensures |Loaded(sources)| + |ReadErrors(sources)| == |sources|
  {
    if sources != [] {
      LoadedOrReported(sources[..|sources| - 1]);
    }
  }

  /** No table is loaded exactly when every file of the batch fails to read. */
  lemma {:induction false} NothingLoaded(sources: seq<Source>)
    ensures Loaded(sources) == [] <==> forall i :: 0 <= i < |sources| ==> sources[i].read.Err?
  {
    if sources != [] {
      var init := sources[..|sources| - 1];
      NothingLoaded(init);
      assert forall i :: 0 <= i < |init| ==> init[i] == sources[i];
    }
  }

  /** Both the loaded tables and the read errors of a batch are those of its parts, in order. */
  lemma {:induction false} ReadLoopAppend(a: seq<Source>, b: seq<Source>)
    ensures Loaded(a + b) == Loaded(a) + Loaded(b)
    ensures ReadErrors(a + b) == ReadErrors(a) + ReadErrors(b)
  {
    if b == [] {
      assert a + b == a;
    } else {
      var init := b[..|b| - 1];
      assert (a + b)[..|a + b| - 1] == a + init;
      assert (a + b)[|a + b| - 1] == b[|b| - 1];
      ReadLoopAppend(a, init);
    }
  }

  lemma ReadOne(s: Source)
    ensures Loaded([s]) == if s.read.Ok? then [s.read.value] else []
    ensures ReadErrors([s]) == if s.read.Err? then [ReadError(s.path, s.read.error)] else []
  {
    assert [s][..0] == [];
  }

  /**
   * A file anywhere in the batch contributes, at its place, its table when it
   * reads and its error entry when it does not, never both.
   */
  lemma FileInBatch(a: seq<Source>, s: Source, b: seq<Source>)
    ensures Loaded(a + [s] + b)
         == Loaded(a) + (if s.read.Ok? then [s.read.value] else []) + Loaded(b)
    ensures ReadErrors(a + [s] + b)
         == ReadErrors(a) + (if s.read.Err? then [ReadError(s.path, s.read.error)] else []) + ReadErrors(b)
  {
    ReadLoopAppend(a, [s]);
    ReadLoopAppend(a + [s], b);
    ReadOne(s);
  }

  lemma {:induction false} HeaderSetMembers(ts: seq<Table>, h: seq<Column>)
    ensures h in HeaderSet(ts) <==> exists i :: 0 <= i < |ts| && ts[i].header == h
  {
    if ts != [] {
      var init := ts[..|ts| - 1];
      HeaderSetMembers(init, h);
      if h in HeaderSet(init) {
        var i :| 0 <= i < |init| && init[i].header == h;
        assert ts[i] == init[i];
      }
      if exists i :: 0 <= i < |ts| && ts[i].header == h {
        var i :| 0 <= i < |ts| && ts[i].header == h;
        if i < |init| {
          assert init[i] == ts[i];
        }
      }
    }
  }

  /** A column is in the union exactly when some loaded table has it. */
  lemma {:induction false} ColumnUnionMembers(ts: seq<Table>, c: Column)
    ensures c in ColumnUnion(ts) <==> exists i :: 0 <= i < |ts| && c in ts[i].header
  {
    if ts != [] {
      var init := ts[..|ts| - 1];
      ColumnUnionMembers(init, c);
      if c in ColumnUnion(init) {
        var i :| 0 <= i < |init| && c in init[i].header;
        assert ts[i] == init[i];
      }
      if exists i :: 0 <= i < |ts| && c in ts[i].header {
        var i :| 0 <= i < |ts| && c in ts[i].header;
        if i < |init| {
          assert init[i] == ts[i];
        }
      }
    }
  }

  /**
   * More than one distinct header tuple exactly when two loaded tables have
   * different headers; headers are compared as ordered tuples, so the same
   * columns in another order count as different.
   */
  lemma HeadersMismatchIff(ts: seq<Table>)
    ensures HeadersMismatch(ts)
        <==> exists i, j :: 0 <= i < |ts| && 0 <= j < |ts| && ts[i].header != ts[j].header
  {
    var hs := HeaderSet(ts);
    if |hs| > 1 {
      var a :| a in hs;
      assert |hs - {a}| == |hs| - 1;
      var b :| b in hs - {a};
      HeaderSetMembers(ts, a);
      HeaderSetMembers(ts, b);
      var i :| 0 <= i < |ts| && ts[i].header == a;
      var j :| 0 <= j < |ts| && ts[j].header == b;
      assert ts[i].header != ts[j].header;
    }
    if exists i, j :: 0 <= i < |ts| && 0 <= j < |ts| && ts[i].header != ts[j].header {
      var i, j :| 0 <= i < |ts| && 0 <= j < |ts| && ts[i].header != ts[j].header;
      HeaderSetMembers(ts, ts[i].header);
      HeaderSetMembers(ts, ts[j].header);
      var a, b := ts[i].header, ts[j].header;
      assert b in hs - {a};
      assert |hs - {a}| == |hs| - 1;
    }
  }

  /** Zero or one loaded table never triggers the warning. */
  lemma AtMostOneTableNoMismatch(ts: seq<Table>)
    requires |ts| <= 1
    ensures !HeadersMismatch(ts)
  {
    HeadersMismatchIff(ts);
  }

  /** Tables that all share one header give no warning, and their columns are that header's. */
  lemma CommonHeader(ts: seq<Table>, h: seq<Column>)
    requires ts != [] && forall i :: 0 <= i < |ts| ==> ts[i].header == h
    ensures !HeadersMismatch(ts)
    ensures ColumnUnion(ts) == Elems(h)
  {
    HeadersMismatchIff(ts);
    forall c
      ensures c in ColumnUnion(ts) <==> c in Elems(h)
    {
      ColumnUnionMembers(ts, c);
      assert ts[0].header == h;
    }
  }

  // ---------------------------------------------------------------------
  // The column list and the merged table

  /**
   * `list(all_columns)`: the elements of a set in some order that Python does
   * not fix; each element is picked arbitrarily, so the model allows any
   * duplicate-free enumeration.
   */
  method ListFromSet(s: set<Column>) returns (r: seq<Column>)
    ensures NoDup(r) && Elems(r) == s && |r| == |s|
  {
    r := [];
    var rest := s;
    while rest != {}
      invariant NoDup(r) && Elems(r) !! rest && Elems(r) + rest == s
      invariant |r| + |rest| == |s|
      decreases rest
    {
      var x :| x in rest;
      r := r + [x];
      rest := rest - {x};
    }
  }

  /**
   * `m` is the concatenation of `ts` reindexed to some duplicate-free
   * enumeration of the union of their columns.
   */
  predicate IsMergeOf(m: Table, ts: seq<Table>)
  {
    && NoDup(m.header)
    && Elems(m.header) == ColumnUnion(ts)
    && m.rows == ConcatRows(ReindexAll(ts, m.header))
  }

  /** Concatenating the loaded tables reindexed to a column list gives a merge of them, unless none loaded. */
  lemma ConcatOfReindexed(loaded: seq<Table>, cols: seq<Column>)
    requires NoDup(cols) && Elems(cols) == ColumnUnion(loaded)
    ensures var c := Concat(ReindexAll(loaded, cols));
      && (c.Ok? <==> loaded != [])
      && (c.Ok? ==> IsMergeOf(c.value, loaded))
  {
    if loaded != [] {
      assert ReindexAll(loaded, cols)[0] == Reindex(loaded[0], cols);
    }
  }

  /** Every row of a concatenation is some row of some table. */
  lemma {:induction false} RowOfConcat(ts: seq<Table>, i: nat)
    requires i < |ConcatRows(ts)|
    ensures exists k, j :: 0 <= k < |ts| && 0 <= j < |ts[k].rows| && ConcatRows(ts)[i] == ts[k].rows[j]
  {
    if i < |ts[0].rows| {
      assert ConcatRows(ts)[i] == ts[0].rows[i];
    } else {
      RowOfConcat(ts[1..], i - |ts[0].rows|);
      var k, j :| 0 <= k < |ts[1..]| && 0 <= j < |ts[1..][k].rows|
        && ConcatRows(ts[1..])[i - |ts[0].rows|] == ts[1..][k].rows[j];
      assert ConcatRows(ts)[i] == ts[k + 1].rows[j];
    }
  }

  /** Each merged row has exactly the merged columns, and no row is lost or duplicated. */
  lemma MergedShape(m: Table, ts: seq<Table>)
    requires IsMergeOf(m, ts)
    ensures WellFormed(m)
    ensures |m.rows| == TotalRows(ts)
  {
    TotalRowsReindexAll(ts, m.header);
    var rs := ReindexAll(ts, m.header);
    forall i | 0 <= i < |m.rows|
      ensures m.rows[i].Keys == Elems(m.header)
    {
      RowOfConcat(rs, i);
      var k, j :| 0 <= k < |rs| && 0 <= j < |rs[k].rows| && m.rows[i] == rs[k].rows[j];
    }
  }

  /**
   * Row `j` of loaded table `k` is merged row `TotalRows(ts[..k]) + j`; in it,
   * a column of the union holds the file's cell when the file has that column,
   * and a blank when it does not.
   */
  lemma MergedRowAt(m: Table, ts: seq<Table>, k: nat, j: nat, c: Column)
    requires IsMergeOf(m, ts)
    requires k < |ts| && j < |ts[k].rows| && WellFormed(ts[k])
    requires c in ColumnUnion(ts)
    ensures TotalRows(ts[..k]) + j < |m.rows|
    ensures c in m.rows[TotalRows(ts[..k]) + j]
    ensures c in ts[k].header ==> m.rows[TotalRows(ts[..k]) + j][c] == ts[k].rows[j][c]
    ensures c !in ts[k].header ==> m.rows[TotalRows(ts[..k]) + j][c] == Blank
  {
    var rs := ReindexAll(ts, m.header);
    assert |rs[k].rows| == |ts[k].rows|;
    ConcatRowsAt(rs, k, j);
    TotalRowsReindexAll(ts[..k], m.header);
    assert rs[..k] == ReindexAll(ts[..k], m.header);
    assert c in m.header by {
      assert c in Elems(m.header);
    }
    ReindexCells(ts[k], m.header, j, c);
  }

  // ---------------------------------------------------------------------
  // Outcome and report

  /** The merge succeeds exactly when some table was loaded (so concatenation succeeds) and the write succeeds. */
  predicate Succeeds(sources: seq<Source>, write: WriteOutcome)
  {
    Loaded(sources) != [] && write.Written?
  }

  /** The entry the final `except` adds, if any. */
  function SaveErrors(ts: seq<Table>, write: WriteOutcome): seq<Entry>
  {
    if ts == [] then [SaveError(NoObjectsToConcatenate)]
    else if write.WriteFailed? then [SaveError(write.cause)]
    else []
  }

  /** The report's entries in the order they are produced: read errors, warning, save error. */
  function ReportEntries(sources: seq<Source>, write: WriteOutcome): seq<Entry>
  {
    var ts := Loaded(sources);
    ReadErrors(sources)
      + (if HeadersMismatch(ts) then [HeaderWarning] else [])
      + SaveErrors(ts, write)
  }

  /** The returned report text. */
  function Report(sources: seq<Source>, write: WriteOutcome): string
  {
    Join(Texts(ReportEntries(sources, write)))
  }

  lemma {:induction false} ReadErrorsAreReadErrors(sources: seq<Source>)
    ensures forall i :: 0 <= i < |ReadErrors(sources)| ==> ReadErrors(sources)[i].ReadError?
  {
    if sources != [] {
      ReadErrorsAreReadErrors(sources[..|sources| - 1]);
    }
  }

  /** The header warning appears once when the loaded headers differ, and not at all otherwise. */
  lemma WarningOnce(sources: seq<Source>, write: WriteOutcome)
    ensures multiset(ReportEntries(sources, write))[HeaderWarning]
         == if HeadersMismatch(Loaded(sources)) then 1 else 0
    ensures multiset(Texts(ReportEntries(sources, write)))[MismatchWarning]
         == if HeadersMismatch(Loaded(sources)) then 1 else 0
  {
    ReadErrorsAreReadErrors(sources);
    var errs := ReadErrors(sources);
    assert HeaderWarning !in errs;
    assert multiset(errs)[HeaderWarning] == 0;
    CountWarningText(ReportEntries(sources, write));
  }

  /**
   * A save error is in the report exactly when the merge fails, and then it
   * is the last entry and the only one.
   */
  lemma SaveErrorLast(sources: seq<Source>, write: WriteOutcome)
    ensures var e := ReportEntries(sources, write);
      && (Succeeds(sources, write) ==> forall i :: 0 <= i < |e| ==> !e[i].SaveError?)
      && (!Succeeds(sources, write) ==>
            && e != [] && e[|e| - 1].SaveError?
            && forall i :: 0 <= i < |e| - 1 ==> !e[i].SaveError?)
  {
    ReadErrorsAreReadErrors(sources);
  }

  /** On failure the report text ends with the save-error text, after a newline when other entries precede it. */
  lemma ReportEndsWithSaveError(sources: seq<Source>, write: WriteOutcome)
    requires !Succeeds(sources, write)
    ensures SuffixAfterNewline(Report(sources, write),
      SaveErrorPrefix + if Loaded(sources) == [] then NoObjectsToConcatenate else write.cause)
  {
    var ts := Loaded(sources);
    var cause := if ts == [] then NoObjectsToConcatenate else write.cause;
    var prefix := ReadErrors(sources) + (if HeadersMismatch(ts) then [HeaderWarning] else []);
    assert ReportEntries(sources, write) == prefix + [SaveError(cause)];
    LastEntryLine(prefix, SaveError(cause));
  }

  // ---------------------------------------------------------------------
  // The merge

  /**
   * `CSVMerger.merge_files`. `output` is the table handed to `to_csv` when
   * the write succeeds; there is none when the merge fails.
   */
  method MergeFiles(sources: seq<Source>, write: WriteOutcome)
    returns (success: bool, report: string, output: Option<Table>)
    ensures success <==> Succeeds(sources, write)
    ensures report == Report(sources, write)
    ensures output.Some? <==> success
    ensures output.Some? ==> IsMergeOf(output.value, Loaded(sources))
  {
    var errorReport, dataframes, headersSet, allColumnSet := ReadAll(sources);
    ghost var loaded := dataframes;

    if |headersSet| > 1 {
      errorReport := errorReport + [HeaderWarning];
    }
    ghost var beforeSave := errorReport;
    assert ReportEntries(sources, write) == beforeSave + SaveErrors(loaded, write);

    var allColumns := ListFromSet(allColumnSet);
    dataframes := ReindexEach(dataframes, allColumns);

    var concatenated := Concat(dataframes);
    ConcatOfReindexed(loaded, allColumns);
    if concatenated.Ok? && write.Written? {
      success, output := true, Some(concatenated.value);
      assert SaveErrors(loaded, write) == [];
    } else {
      var cause := if concatenated.Err? then concatenated.error else write.cause;
      assert SaveErrors(loaded, write) == [SaveError(cause)];
      errorReport := errorReport + [SaveError(cause)];
      success, output := false, None;
    }
    assert errorReport == ReportEntries(sources, write);
    report := Join(Texts(errorReport));
  }

  /**
   * The `for path in file_paths` loop: the entries of the unreadable files,
   * the loaded tables, their distinct headers and their columns.
   */
  method ReadAll(sources: seq<Source>)
    returns (errorReport: seq<Entry>, dataframes: seq<Table>,
             headersSet: set<seq<Column>>, allColumnSet: set<Column>)
    ensures errorReport == ReadErrors(sources)
    ensures dataframes == Loaded(sources)
    ensures headersSet == HeaderSet(dataframes)
    ensures allColumnSet == ColumnUnion(dataframes)
  {
    errorReport, dataframes, headersSet, allColumnSet := [], [], {}, {};
    for k := 0 to |sources|
      invariant dataframes == Loaded(sources[..k])
      invariant errorReport == ReadErrors(sources[..k])
      invariant headersSet == HeaderSet(dataframes)
      invariant allColumnSet == ColumnUnion(dataframes)
    {
      ReadStep(sources, k);
      var source := sources[k];
      match source.read {
        case Ok(df) =>
          TablesStep(dataframes, df);
          dataframes := dataframes + [df];
          headersSet := headersSet + {df.header};
          allColumnSet := allColumnSet + Elems(df.header);
        case Err(cause) =>
          errorReport := errorReport + [ReadError(source.path, cause)];
      }
    }
    assert sources[..|sources|] == sources;
  }

  /** The `enumerate` loop: each table replaced in place by its reindexed form. */
  method ReindexEach(tables: seq<Table>, cols: seq<Column>) returns (dataframes: seq<Table>)
    ensures dataframes == ReindexAll(tables, cols)
  {
    dataframes := tables;
    for i := 0 to |dataframes|
      invariant |dataframes| == |tables|
      invariant forall j :: 0 <= j < i ==> dataframes[j] == Reindex(tables[j], cols)
      invariant forall j :: i <= j < |dataframes| ==> dataframes[j] == tables[j]
    {
      dataframes := dataframes[i := Reindex(dataframes[i], cols)];
    }
  }
}
