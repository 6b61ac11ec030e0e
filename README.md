# CSV merger: a verified model of `CSVMerger.merge_files`

`CSVMerger.merge_files(file_paths, output_path)` processes a batch of CSV files. It loads every file it can and records one error line for each file it cannot. It adds a single warning when the loaded files do not all have the same header tuple. It then reindexes every loaded table to the union of all columns, filling missing cells with blanks, and concatenates the rows in file order. Finally it writes the result and returns `(success, report)`, where the report is the `'\n'`-join of the collected lines.

The model has four modules:

- `Wrappers` holds `Option` and `Result`. `Result` stands in for "a value or the message of the exception raised instead".
- `Frames` is the part of a pandas DataFrame the merge depends on:
  - a `Table` is an ordered header plus rows, each row mapping a column to a `Cell` (`Blank` is the missing value);
  - `Reindex` is `df.reindex(columns=...)`;
  - `Concat` is `pd.concat(..., ignore_index=True)`, including its error on an empty list.
- `MergeReport` defines the report entries and their texts:
  - a report entry is an `Entry` (read error, header warning, save error), and `EntryText` renders it as the source's f-strings do;
  - `Basename` follows the POSIX rule: the text after the last `/`;
  - `Join` is `'\n'.join`.
- `CsvMerger` holds the merge as imperative Dafny:
  - `MergeFiles` runs five parts in order: the read loop, the header warning, the column list, the reindex loop, and concatenation with the write;
  - `ReadAll` is the `for path in file_paths` loop, which appends to `error_report` and `dataframes` and grows `headers_set` and `all_columns`;
  - `ListFromSet` is `list(all_columns)`;
  - `ReindexEach` is the `enumerate` loop that overwrites `dataframes[i]` in place.

  Each method is proved against specification functions of the batch (`Loaded`, `ReadErrors`, `HeaderSet`, `ColumnUnion`, `ReindexAll`, `ConcatRows`, `ReportEntries`, `Report`). The lemmas next to them prove what the merge promises about those functions.

Reading is an input: each path comes as a `Source` paired with the outcome of `pd.read_csv` on it. That outcome is either a table or the exception's message. Writing is an oracle parameter, `WriteOutcome`: `to_csv` either succeeds or fails with a message.

The order of `list(all_columns)` is not fixed by Python. `ListFromSet` picks each element with `:|`, so the model allows any duplicate-free enumeration of the union. Everything proved about the merged table holds for every such enumeration (`IsMergeOf`).

**An empty or all-unreadable batch is a failure.** With no table loaded, `dataframes` is empty, and `pd.concat([])` at csv_merger_app/core/csv_merger.py:31 raises "No objects to concatenate". That call is inside the `try` at csv_merger_app/core/csv_merger.py:30-36, so the `except` appends "Error during merging or saving: No objects to concatenate" and the function returns `False`; nothing is written. This differs from a reading of the merge under which success means only "the write succeeded", which would write an empty file and return `True`. The model follows the code: `Succeeds` requires at least one loaded table (see `Frames.Concat`, `CsvMerger.NothingLoaded` and `CsvMerger.ReportEndsWithSaveError`).

## Model

| member | source | states |
|---|---|---|
| CsvMerger.MergeFiles | csv_merger_app/core/csv_merger.py:6-36 | Returns success exactly when at least one file loaded and the write succeeded. The report is the newline-join of the read errors, then the warning if any, then the save error if any. On success the table handed to `to_csv` is a merge of the loaded tables: union columns, no duplicates, reindexed rows concatenated in order. |
| CsvMerger.Loaded | csv_merger_app/core/csv_merger.py:12-15 | The tables appended to `dataframes`, in batch order: at most one per file. |
| CsvMerger.ReadErrors | csv_merger_app/core/csv_merger.py:19-20 | The entries appended to `error_report` by the read loop, in batch order: at most one per file. |
| CsvMerger.HeaderSet | csv_merger_app/core/csv_merger.py:16-17 | `headers_set`: at most one distinct tuple per loaded table, and empty only when no table loaded. |
| CsvMerger.ColumnUnion | csv_merger_app/core/csv_merger.py:10-18 | `all_columns` as a set: the union of the loaded tables' columns (members characterised by `CsvMerger.ColumnUnionMembers`). |
| CsvMerger.ReadAll | csv_merger_app/core/csv_merger.py:12-20 | After the read loop, `error_report` holds one entry per unreadable file in batch order. `dataframes` holds the readable files' tables in batch order. `headers_set` is their set of header tuples and `all_columns` the union of their columns. |
| CsvMerger.LoadedOrReported | csv_merger_app/core/csv_merger.py:12-20 | Every file adds either a table or an error entry: the two counts add up to the number of files. |
| CsvMerger.NothingLoaded | csv_merger_app/core/csv_merger.py:12-20 | No table is loaded exactly when every file fails to read. |
| CsvMerger.ReadLoopAppend | csv_merger_app/core/csv_merger.py:12-20 | The loaded tables and the read errors of a batch are those of its two halves, concatenated in order. |
| CsvMerger.ReadOne | csv_merger_app/core/csv_merger.py:13-20 | A single file yields its table when it reads and its error entry when it does not. |
| CsvMerger.FileInBatch | csv_merger_app/core/csv_merger.py:12-20 | A file anywhere in the batch contributes, at its own position, its table when it reads or its "Error reading" entry when it does not, never both. The files before and after it contribute what they would on their own. |
| CsvMerger.HeaderSetMembers | csv_merger_app/core/csv_merger.py:16-17 | A header tuple is in `headers_set` exactly when some loaded table has that header. |
| CsvMerger.ColumnUnionMembers | csv_merger_app/core/csv_merger.py:10-18 | A column is in `all_columns` exactly when some loaded table has it. |
| CsvMerger.HeadersMismatchIff | csv_merger_app/core/csv_merger.py:9-22 | There is more than one distinct header tuple exactly when two loaded tables have different headers, compared as ordered tuples. |
| CsvMerger.AtMostOneTableNoMismatch | csv_merger_app/core/csv_merger.py:22 | Zero or one loaded tables never produce the warning. |
| CsvMerger.CommonHeader | csv_merger_app/core/csv_merger.py:16-22 | Tables that all share one header produce no warning, and the column union is exactly that header's columns. |
| CsvMerger.ListFromSet | csv_merger_app/core/csv_merger.py:26 | The column list has no duplicates, and its elements and length are exactly those of the set. |
| CsvMerger.ReindexEach | csv_merger_app/core/csv_merger.py:27-28 | After the loop, each table is replaced by its reindexed form, in the same order and with the same number of tables. |
| CsvMerger.ConcatOfReindexed | csv_merger_app/core/csv_merger.py:26-31 | Concatenating the loaded tables reindexed to the column list fails exactly when nothing was loaded. Otherwise the result is a merge of the loaded tables. |
| CsvMerger.RowOfConcat | csv_merger_app/core/csv_merger.py:31 | Every concatenated row is a row of one of the tables. |
| CsvMerger.MergedShape | csv_merger_app/core/csv_merger.py:26-31 | Every merged row has exactly the merged columns, and the merged row count is the sum of the loaded tables' row counts. |
| CsvMerger.MergedRowAt | csv_merger_app/core/csv_merger.py:27-31 | Row `j` of loaded table `k` is merged row (rows of tables before `k`) + `j`. In that row, each union column keeps the file's cell when the file has the column, and is blank otherwise. |
| CsvMerger.ReadErrorsAreReadErrors | csv_merger_app/core/csv_merger.py:19-20 | The read loop adds only "Error reading" entries. |
| CsvMerger.WarningOnce | csv_merger_app/core/csv_merger.py:22-23 | The header warning, as an entry and as its text, appears exactly once in the report when the headers differ, and not at all otherwise. |
| CsvMerger.Succeeds | csv_merger_app/core/csv_merger.py:30-36 | The returned flag: some table loaded, so concatenation succeeds, and the write succeeded. |
| CsvMerger.ReportEntries | csv_merger_app/core/csv_merger.py:20-36 | `error_report` at return: the read errors, then the warning when the headers differ, then the save error when concatenation or the write failed. |
| CsvMerger.Report | csv_merger_app/core/csv_merger.py:33-36 | The returned text: the entries' texts joined by newlines. |
| CsvMerger.SaveErrorLast | csv_merger_app/core/csv_merger.py:30-36 | On success the report has no save error. On failure the report has exactly one, and it is the last entry. |
| CsvMerger.ReportEndsWithSaveError | csv_merger_app/core/csv_merger.py:30-36 | On failure the report text ends with "Error during merging or saving: " and the cause, after a newline when other entries precede it. The cause is "No objects to concatenate" when nothing loaded, and the write's message otherwise. |
| Frames.ReindexRow | csv_merger_app/core/csv_merger.py:28 | A reindexed row has exactly the requested columns. |
| Frames.Reindex | csv_merger_app/core/csv_merger.py:28 | The header is the requested list and the row count is unchanged. |
| Frames.ReindexAll | csv_merger_app/core/csv_merger.py:27-28 | One reindexed table per table, so the number of tables is unchanged. |
| Frames.ConcatRows | csv_merger_app/core/csv_merger.py:31 | The concatenated rows number exactly the total row count of the tables. |
| Frames.Concat | csv_merger_app/core/csv_merger.py:31 | Concatenation fails, with "No objects to concatenate", exactly on the empty list. Otherwise the result has the common header and the total row count. |
| Frames.ReindexCells | csv_merger_app/core/csv_merger.py:28 | A reindexed row has every requested column. It keeps the cell of a column the table has and is blank for one it lacks. |
| Frames.ReindexWellFormed | csv_merger_app/core/csv_merger.py:28 | Reindexing to a duplicate-free column list gives a table whose every row has exactly those columns. |
| Frames.ReindexOwnHeader | csv_merger_app/core/csv_merger.py:28 | Reindexing a table to its own header changes nothing. |
| Frames.ReindexIdempotent | csv_merger_app/core/csv_merger.py:28 | Reindexing twice to the same columns is the same as reindexing once. |
| Frames.ConcatRowsAppend | csv_merger_app/core/csv_merger.py:31 | Concatenation distributes over splitting the list of tables, for both rows and row counts. |
| Frames.ConcatRowsAt | csv_merger_app/core/csv_merger.py:31 | Row `j` of table `k` follows all rows of the earlier tables in the concatenation. |
| Frames.TotalRowsReindexAll | csv_merger_app/core/csv_merger.py:27-28 | Reindexing keeps the total row count. |
| MergeReport.NameStart | csv_merger_app/core/csv_merger.py:20 | The start of the base name lies within the path. |
| MergeReport.Basename | csv_merger_app/core/csv_merger.py:20 | The base name is a suffix of the path (which suffix is stated by `MergeReport.BasenameSpec`). |
| MergeReport.EntryText | csv_merger_app/core/csv_merger.py:20-35 | An entry's text: "Error reading " with the base name, ": " and the cause; the literal warning; or "Error during merging or saving: " with the cause. |
| MergeReport.Join | csv_merger_app/core/csv_merger.py:33-36 | `'\n'.join`: the text has every string's characters plus one newline between each two adjacent strings. |
| MergeReport.BasenameSpec | csv_merger_app/core/csv_merger.py:20 | The base name is the longest suffix of the path without a '/'. |
| MergeReport.EntryKinds | csv_merger_app/core/csv_merger.py:20-35 | An entry's text tells exactly which of the three kinds of entry it came from: it is the warning exactly for the warning, starts with "Error during merging or saving: " exactly for a save error and with "Error reading " exactly for a read error (helpers `ReadErrorText`, `SaveErrorText`, `WarningText`). |
| MergeReport.CountWarningText | csv_merger_app/core/csv_merger.py:23 | The warning text occurs among the entry texts exactly as often as the warning entry occurs among the entries. |
| MergeReport.JoinAppend | csv_merger_app/core/csv_merger.py:33-36 | Joining one more string to a non-empty list adds a newline and that string to the text. |
| MergeReport.JoinLastLine | csv_merger_app/core/csv_merger.py:33-36 | The last joined string is a suffix of the text, preceded by a newline when it is not the only string. |
| MergeReport.LastEntryLine | csv_merger_app/core/csv_merger.py:35-36 | The last entry's text is a suffix of the joined report, after a newline when other entries precede it. |

## Left out

- CSV parsing (`pd.read_csv`: dialects, quoting, type inference, duplicate-column mangling) is left out. So is writing (`to_csv` rendering, the file system, `output_path`). Both are foreign library calls: each read arrives as an input `Result`, and the write is a `WriteOutcome` oracle with an opaque message.
- Exception message texts are opaque strings. The one exception is pandas' "No objects to concatenate", which the code path for an empty batch depends on.
- Cell values are opaque `Text` strings or `Blank`; dtypes and NaN floats are not modelled.
- Frames.Concat models `pd.concat` only for frames that share one header, which is the only way the merge calls it. Concatenating differently-shaped frames is not modelled.
- CsvMerger.MergedRowAt, Frames.ReindexCells and Frames.ReindexOwnHeader require the table to be well formed (`WellFormed`): its header names are distinct, and every row has exactly the header's columns. `pd.read_csv` guarantees both, renaming duplicate header names (`a`, `a.1`), but the model takes each read table as given and does not prove this of it.
- A cause may itself contain newlines, so splitting the report text at newlines need not give one piece per entry; the report lemmas speak of entry texts and of suffixes after a newline, not of lines.
- MergeReport.Basename uses only the POSIX separator '/'. The Windows behaviour of `os.path.basename`, which also splits at '\\', is not modelled.
- A write that fails after writing part of the file is seen only through its message.
- csv_merger_app/gui/main_window.py is the PyQt shell. It covers the dialogs, drag and drop, styling, the progress bar and the `MergeThread` worker that runs the merge off the UI thread. Its only logic is the order-preserving path deduplication in `add_files`, which is bound to a list widget. None of it is modelled.
