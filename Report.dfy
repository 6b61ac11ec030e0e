/**
 * The merge report: its entries, the text each entry is rendered to, and
 * `'\n'.join` over those texts.
 */
module MergeReport {

  /** The index just after the last '/' of the path, or 0 when it has none (`path.rfind('/') + 1`). */
  function NameStart(path: string): (i: nat)
    ensures i <= |path|
  {
    if path == [] then 0
    else if path[|path| - 1] == '/' then |path|
    else NameStart(path[..|path| - 1])
  }

  /** `os.path.basename` with the POSIX separator: everything after the last '/'. */
  function Basename(path: string): (name: string)
    ensures |name| <= |path| && name == path[|path| - |name|..]
  {
    path[NameStart(path)..]
  }

  /** The base name is the longest suffix of the path without a '/'. */
  lemma {:induction false} BasenameSpec(path: string)
    ensures forall j :: NameStart(path) <= j < |path| ==> path[j] != '/'
    ensures NameStart(path) > 0 ==> path[NameStart(path) - 1] == '/'
    ensures '/' !in Basename(path)
  {
    if path != [] && path[|path| - 1] != '/' {
      var init := path[..|path| - 1];
      BasenameSpec(init);
      assert forall j :: 0 <= j < |init| ==> init[j] == path[j];
    }
  }

  const ReadErrorPrefix: string := "Error reading "

  const SaveErrorPrefix: string := "Error during merging or saving: "

  const WarningPrefix: string := "Warning: "

  const MismatchWarning: string :=
    WarningPrefix + "Not all files have matching headers. Columns will be unioned and missing values filled with blanks."

  /** One entry of the report, named after the `except` or `if` that appends it. */
  datatype Entry = ReadError(path: string, cause: string) | HeaderWarning | SaveError(cause: string)

  /** The text of an entry, as the source's f-strings render it. */
  function EntryText(e: Entry): string
  {
    match e
    case ReadError(path, cause) => ReadErrorPrefix + (Basename(path) + ": " + cause)
    case HeaderWarning => MismatchWarning
    case SaveError(cause) => SaveErrorPrefix + cause
  }

  /** The texts of the entries, in order. */
  function Texts(es: seq<Entry>): (lines: seq<string>)
    ensures |lines| == |es|
  {
    seq(|es|, i requires 0 <= i < |es| => EntryText(es[i]))
  }

  predicate StartsWith(line: string, prefix: string)
  {
    |prefix| <= |line| && line[..|prefix|] == prefix
  }

  function SumOfLengths(lines: seq<string>): nat
  {
    if lines == [] then 0 else |lines[0]| + SumOfLengths(lines[1..])
  }

  /** `'\n'.join(lines)`: every line's characters plus one newline between each two lines. */
  function Join(lines: seq<string>): (text: string)
    ensures |text| == SumOfLengths(lines) + (if lines == [] then 0 else |lines| - 1)
  {
    if |lines| == 0 then ""
    else if |lines| == 1 then lines[0]
    else lines[0] + "\n" + Join(lines[1..])
  }


  lemma StartsWithConcat(a: string, b: string)
    ensures StartsWith(a + b, a)
  {
    assert (a + b)[..|a|] == a;
  }

  /** A read-error text is neither the warning nor a save-error text. */
  lemma ReadErrorText(path: string, cause: string)
    ensures var t := EntryText(ReadError(path, cause));
      StartsWith(t, ReadErrorPrefix) && !StartsWith(t, SaveErrorPrefix) && t != MismatchWarning
  {
    var t := EntryText(ReadError(path, cause));
    StartsWithConcat(ReadErrorPrefix, Basename(path) + ": " + cause);
    assert t[6] == ReadErrorPrefix[6] == 'r';
    assert SaveErrorPrefix[6] == 'd';
    assert t[0] == 'E' && MismatchWarning[0] == WarningPrefix[0] == 'W';
  }

  /** A save-error text starts with its prefix and is neither the warning nor a read-error text. */
  lemma SaveErrorText(cause: string)
    ensures var t := EntryText(SaveError(cause));
      StartsWith(t, SaveErrorPrefix) && !StartsWith(t, ReadErrorPrefix) && t != MismatchWarning
  {
    var t := EntryText(SaveError(cause));
    StartsWithConcat(SaveErrorPrefix, cause);
    assert t[6] == SaveErrorPrefix[6] == 'd';
    assert ReadErrorPrefix[6] == 'r';
    assert t[0] == 'E' && MismatchWarning[0] == WarningPrefix[0] == 'W';
  }

  /** The warning text starts with neither error prefix. */
  lemma WarningText()
    ensures !StartsWith(MismatchWarning, ReadErrorPrefix) && !StartsWith(MismatchWarning, SaveErrorPrefix)
  {
    assert MismatchWarning[0] == WarningPrefix[0] == 'W';
    assert ReadErrorPrefix[0] == 'E' && SaveErrorPrefix[0] == 'E';
  }

  /** The text of an entry tells which kind of entry it is. */
  lemma EntryKinds(e: Entry)
    ensures EntryText(e) == MismatchWarning <==> e.HeaderWarning?
    ensures StartsWith(EntryText(e), SaveErrorPrefix) <==> e.SaveError?
    ensures StartsWith(EntryText(e), ReadErrorPrefix) <==> e.ReadError?
  {
    match e
    case ReadError(path, cause) => ReadErrorText(path, cause);
    case HeaderWarning => WarningText();
    case SaveError(cause) => SaveErrorText(cause);
  }

  lemma TextsAppend(es: seq<Entry>, e: Entry)
    ensures Texts(es + [e]) == Texts(es) + [EntryText(e)]
  {
  }

  /** Counting the warning text among the rendered lines is counting the warning entries. */
  lemma {:induction false} CountWarningText(es: seq<Entry>)
    ensures multiset(Texts(es))[MismatchWarning] == multiset(es)[HeaderWarning]
  {
    if es != [] {
      var init, last := es[..|es| - 1], es[|es| - 1];
      CountWarningText(init);
      assert es == init + [last];
      TextsAppend(init, last);
      EntryKinds(last);
    }
  }

  /** Appending a line to a non-empty list appends a newline and the line to the joined text. */
  lemma {:induction false} JoinAppend(lines: seq<string>, line: string)
    requires lines != []
    ensures Join(lines + [line]) == Join(lines) + "\n" + line
  {
    if |lines| > 1 {
      assert (lines + [line])[1..] == lines[1..] + [line];
      JoinAppend(lines[1..], line);
    }
  }

  /**
   * `suffix` ends `text` and is preceded there by a newline unless it is all of
   * `text`. (A cause may itself hold newlines, so this is not "the last line".)
   */
  predicate SuffixAfterNewline(text: string, suffix: string)
  {
    && |suffix| <= |text|
    && text[|text| - |suffix|..] == suffix
    && (|suffix| < |text| ==> text[|text| - |suffix| - 1] == '\n')
  }

  /** The last of the joined strings ends the joined text, after a newline when other strings precede it. */
  lemma JoinLastLine(lines: seq<string>, line: string)
    ensures SuffixAfterNewline(Join(lines + [line]), line)
  {
    if lines == [] {
      assert lines + [line] == [line];
    } else {
      JoinAppend(lines, line);
      var front := Join(lines) + "\n";
      assert (front + line)[|front|..] == line;
      assert (front + line)[|front| - 1] == '\n';
    }
  }

  /** The text of the last entry ends the joined report, after a newline when other entries precede it. */
  lemma LastEntryLine(es: seq<Entry>, e: Entry)
    ensures SuffixAfterNewline(Join(Texts(es + [e])), EntryText(e))
  {
    TextsAppend(es, e);
    JoinLastLine(Texts(es), EntryText(e));
  }
}
