/**
 * The stack history: a text file of blocks, newest first, each a version line followed by
 * one tab-indented `name-version minecraftVersion` line per source of the stack that was
 * given that version. Reading it looks for the block of the current stack; a stack not in
 * the history gets the newest version plus one.
 */
module StackHistory {
  import opened Wrappers
  import opened JavaStrings
  import opened JavaIntegers
  import opened JavaIo
  import opened MappingSources

  /** How a source of the stack is recorded. */
  function Entry(f: MappingFile): string {
    f.name + "-" + f.version + " " + f.minecraftVersion
  }

  /** The entries the current stack would have, in stack order. */
  function Expected(files: seq<MappingFile>): (r: seq<string>)
    ensures |r| == |files|
    ensures forall i :: 0 <= i < |files| ==> r[i] == Entry(files[i])
  {
    if |files| == 0 then [] else [Entry(files[0])] + Expected(files[1..])
  }

  /** The stack's version (`null` possible as written) and whether it was found in the history. */
  datatype StackVersion = StackVersion(version: Option<string>, known: bool)

  /** The reader between lines: the block it is following (`null` once it stopped matching) and how many entries matched. */
  datatype ScanState = ScanState(current: Option<string>, position: nat)

  /** How a scan ends: at a block's version, or at the end of the file. */
  datatype ScanEnd = Found(version: Option<string>) | Exhausted

  predicate IsHeader(line: string) {
    |line| > 0 && line[0] != '\t'
  }

  predicate IsTabLine(line: string) {
    |line| > 0 && line[0] == '\t'
  }

  /** The version after `newest`, computed in 32-bit `int`s and printed signed. */
  function NextVersion(newest: Option<string>): (r: Result<string>)
    ensures newest.None? ==> r == Err(NumberFormat)
  {
    if newest.None? then Err(NumberFormat)
    else
      var n :- ParseUnsignedInt(newest.value);
      Ok(IntToString(Wrap32(n + 1)))
  }

  // ---------------------------------------------------------------------------------------
  // The reader as written

  /** A tab line matches when the text after the tab is a prefix of the expected entry. */
  predicate MatchesAsWritten(line: string, expected: string)
    requires |line| > 0
  {
    RegionMatches(line, 1, expected, 0, |line| - 1)
  }

  lemma MatchesAsWrittenIsPrefix(line: string, expected: string)
    requires |line| > 0
    ensures MatchesAsWritten(line, expected) <==> |line| - 1 <= |expected| && line[1..] == expected[..|line| - 1]
  {
  }

  /** An entry's own line matches it. */
  lemma MatchesOwnEntry(entry: string)
    ensures IsTabLine("\t" + entry) && MatchesAsWritten("\t" + entry, entry)
  {
    MatchesAsWrittenIsPrefix("\t" + entry, entry);
    assert ("\t" + entry)[1..] == entry;
  }

  /** The loop over the lines after the first, as written. */
  function ScanAsWritten(lines: seq<string>, expected: seq<string>, s: ScanState): (r: Result<ScanEnd>)
    ensures r.Err? ==> r.error == StringIndexOutOfBounds
  {
    if |lines| == 0 then Ok(Exhausted)
    else
      var line := lines[0];
      if |line| == 0 then Err(StringIndexOutOfBounds)
      else if line[0] != '\t' then
        if s.position == |expected| then Ok(Found(s.current))
        else ScanAsWritten(lines[1..], expected, ScanState(Some(line), 0))
      else if s.current.Some? then
        if s.position >= |expected| || !MatchesAsWritten(line, expected[s.position]) then
          ScanAsWritten(lines[1..], expected, ScanState(None, s.position))
        else ScanAsWritten(lines[1..], expected, ScanState(s.current, s.position + 1))
      else ScanAsWritten(lines[1..], expected, s)
  }

  /**
   * `readStackHistory` as written. `history` is the file's lines, or none when the file does
   * not exist; the first line is the newest version.
   */
  function ReadAsWritten(history: Option<seq<string>>, expected: seq<string>): (r: Result<StackVersion>)
    ensures history.None? ==> r == Ok(StackVersion(Some("1"), false))
    ensures history == Some([]) ==> r == Err(NumberFormat)
    ensures r.Ok? && r.value.known ==> history.Some? && |history.value| > 0
  {
    if history.None? then Ok(StackVersion(Some("1"), false))
    else
      var lines := history.value;
      var newest := if |lines| == 0 then None else Some(lines[0]);
      var scan :- ScanAsWritten(if |lines| == 0 then [] else lines[1..], expected, ScanState(newest, 0));
      match scan
      case Found(v) => Ok(StackVersion(v, true))
      case Exhausted =>
        var next :- NextVersion(newest);
        Ok(StackVersion(Some(next), false))
  }

  /** The reading loop of `readStackHistory`, with the early return of a found block. */
  method ReadStackHistory(history: Option<seq<string>>, files: seq<MappingFile>) returns (r: Result<StackVersion>)
    ensures r == ReadAsWritten(history, Expected(files))
  {
    if history.None? {
      return Ok(StackVersion(Some("1"), false));
    }
    var expected := Expected(files);
    var lines := history.value;
    var currentVersion: Option<string> := if |lines| == 0 then None else Some(lines[0]);
    var newestVersion := currentVersion;
    var currentPosition: nat := 0;
    var rest := if |lines| == 0 then [] else lines[1..];
    var i := 0;
    while i < |rest|
      invariant i <= |rest|
      invariant ScanAsWritten(rest[i..], expected, ScanState(currentVersion, currentPosition))
             == ScanAsWritten(rest, expected, ScanState(newestVersion, 0))
    {
      assert rest[i..][1..] == rest[i + 1..];
      var line := rest[i];
      if |line| == 0 {
        return Err(StringIndexOutOfBounds);
      }
      if line[0] != '\t' {
        if currentPosition == |expected| {
          return Ok(StackVersion(currentVersion, true));
        }
        currentVersion := Some(line);
        currentPosition := 0;
      } else if currentVersion.Some? {
        if currentPosition >= |expected| || !MatchesAsWritten(line, expected[currentPosition]) {
          currentVersion := None;
        } else {
          currentPosition := currentPosition + 1;
        }
      }
      i := i + 1;
    }
    var next := NextVersion(newestVersion);
    if next.Err? {
      return Err(next.error);
    }
    return Ok(StackVersion(Some(next.value), false));
  }

  // ---------------------------------------------------------------------------------------
  // What goes wrong as written

  const A: string := "a-1 1.15"
  const B: string := "b-2 1.15"

  /** A block that holds the whole stack and one more entry makes the next block's header return no version. */
  lemma LongerBlockGivesNull()
    ensures ReadAsWritten(Some(["2", "\t" + A, "\t" + B, "\tc-3 1.15", "1", "\t" + A]), [A, B]) == Ok(StackVersion(None, true))
  {
    var lines := ["2", "\t" + A, "\t" + B, "\tc-3 1.15", "1", "\t" + A];
    var e := [A, B];
    MatchesOwnEntry(A);
    MatchesOwnEntry(B);
    assert ScanAsWritten(lines[4..], e, ScanState(None, 2)) == Ok(Found(None));
    assert ScanAsWritten(lines[3..], e, ScanState(Some("2"), 2)) == Ok(Found(None)) by {
      assert lines[3..][1..] == lines[4..];
    }
    assert ScanAsWritten(lines[2..], e, ScanState(Some("2"), 1)) == Ok(Found(None)) by {
      assert lines[2..][1..] == lines[3..];
    }
    assert ScanAsWritten(lines[1..], e, ScanState(Some("2"), 0)) == Ok(Found(None)) by {
      assert lines[1..][1..] == lines[2..];
    }
  }

  /** A tab line matches any entry it is a prefix of; a bare tab matches any entry. */
  lemma PrefixEntryMatches()
    ensures ReadAsWritten(Some(["2", "\ta-1 1.1", "\t", "1"]), [A, B]) == Ok(StackVersion(Some("2"), true))
  {
    var lines := ["2", "\ta-1 1.1", "\t", "1"];
    var e := [A, B];
    assert MatchesAsWritten("\ta-1 1.1", A) by {
      MatchesAsWrittenIsPrefix("\ta-1 1.1", A);
    }
    assert MatchesAsWritten("\t", B);
    assert ScanAsWritten(lines[3..], e, ScanState(Some("2"), 2)) == Ok(Found(Some("2")));
    assert ScanAsWritten(lines[2..], e, ScanState(Some("2"), 1)) == Ok(Found(Some("2"))) by {
      assert lines[2..][1..] == lines[3..];
    }
    assert ScanAsWritten(lines[1..], e, ScanState(Some("2"), 0)) == Ok(Found(Some("2"))) by {
      assert lines[1..][1..] == lines[2..];
    }
  }

  /** The stack recorded in the last block is not found: it is given a new version. */
  lemma LastBlockMissed()
    ensures ReadAsWritten(Some(["1", "\t" + A, "\t" + B]), [A, B]) == Ok(StackVersion(Some("2"), false))
  {
    var lines := ["1", "\t" + A, "\t" + B];
    var e := [A, B];
    MatchesOwnEntry(A);
    MatchesOwnEntry(B);
    assert ScanAsWritten(lines[2..], e, ScanState(Some("1"), 1)) == Ok(Exhausted) by {
      assert lines[2..][1..] == [];
    }
    assert ScanAsWritten(lines[1..], e, ScanState(Some("1"), 0)) == Ok(Exhausted) by {
      assert lines[1..][1..] == lines[2..];
    }
    assert ParseUnsignedInt("1") == Ok(1) by {
      assert DigitsValue("1") == 1 by { assert "1"[..0] == ""; }
    }
    assert IntToString(2) == "2";
  }

  // ---------------------------------------------------------------------------------------
  // The reader as intended

  /**
   * The corrected loop: a tab line matches only the whole entry, a block stops being
   * followed once it fails to match, and a matching block is recognised at the next header
   * or at the end of the file.
   */
  function Scan(lines: seq<string>, expected: seq<string>, s: ScanState): (r: Result<ScanEnd>)
    ensures r.Ok? && r.value.Found? ==> r.value.version.Some?
  {
    if |lines| == 0 then
      if s.current.Some? && s.position == |expected| then Ok(Found(s.current)) else Ok(Exhausted)
    else
      var line := lines[0];
      if |line| == 0 then Err(StringIndexOutOfBounds)
      else if line[0] != '\t' then
        if s.current.Some? && s.position == |expected| then Ok(Found(s.current))
        else Scan(lines[1..], expected, ScanState(Some(line), 0))
      else if s.current.Some? then
        if s.position >= |expected| || line != "\t" + expected[s.position] then
          Scan(lines[1..], expected, ScanState(None, s.position))
        else Scan(lines[1..], expected, ScanState(s.current, s.position + 1))
      else Scan(lines[1..], expected, s)
  }

  /** The corrected `readStackHistory`. */
  function Read(history: Option<seq<string>>, expected: seq<string>): (r: Result<StackVersion>)
    ensures r.Ok? ==> r.value.version.Some?
    ensures history.None? ==> r == Ok(StackVersion(Some("1"), false))
  {
    if history.None? then Ok(StackVersion(Some("1"), false))
    else
      var lines := history.value;
      var newest := if |lines| == 0 then None else Some(lines[0]);
      var scan :- Scan(if |lines| == 0 then [] else lines[1..], expected, ScanState(newest, 0));
      match scan
      case Found(v) => Ok(StackVersion(v, true))
      case Exhausted =>
        var next :- NextVersion(newest);
        Ok(StackVersion(Some(next), false))
  }

  /** A block's entry lines record exactly the expected entries, in order. */
  predicate Records(entries: seq<string>, expected: seq<string>) {
    |entries| == |expected| && forall i :: 0 <= i < |entries| ==> entries[i] == "\t" + expected[i]
  }

  /** How many tab lines start `lines`. */
  function TabRun(lines: seq<string>): (n: nat)
    ensures n <= |lines|
    ensures forall i :: 0 <= i < n ==> IsTabLine(lines[i])
    ensures n < |lines| ==> !IsTabLine(lines[n])
  {
    if |lines| == 0 || !IsTabLine(lines[0]) then 0 else 1 + TabRun(lines[1..])
  }

  predicate NoEmptyLine(lines: seq<string>) {
    forall i :: 0 <= i < |lines| ==> |lines[i]| > 0
  }

  /**
   * The intended meaning, block by block: the version of the first block, from the one
   * headed `header` on, whose entries are exactly the expected ones.
   */
  function FirstRecording(header: string, lines: seq<string>, expected: seq<string>): (r: ScanEnd)
    ensures r.Found? ==> r.version.Some?
    decreases |lines|
  {
    var n := TabRun(lines);
    if Records(lines[..n], expected) then Found(Some(header))
    else if n == |lines| then Exhausted
    else FirstRecording(lines[n], lines[n + 1..], expected)
  }

  /** What follows a block that did not match: the next block, or the end of the file. */
  function AfterBlock(rest: seq<string>, expected: seq<string>): Result<ScanEnd> {
    if |rest| == 0 then Ok(Exhausted) else Scan(rest[1..], expected, ScanState(Some(rest[0]), 0))
  }

  /** Tab lines after a mismatch are skipped up to the next block. */
  lemma {:induction false} SkipBlock(tabs: seq<string>, rest: seq<string>, expected: seq<string>, k: nat)
    requires forall i :: 0 <= i < |tabs| ==> IsTabLine(tabs[i])
    requires |rest| > 0 ==> IsHeader(rest[0])
    ensures Scan(tabs + rest, expected, ScanState(None, k)) == AfterBlock(rest, expected)
  {
    if |tabs| > 0 {
      assert (tabs + rest)[1..] == tabs[1..] + rest;
      SkipBlock(tabs[1..], rest, expected, k);
    } else {
      assert tabs + rest == rest;
    }
  }

  /** A followed block is found exactly when its remaining tab lines are the remaining entries. */
  lemma {:induction false} FollowBlock(header: string, tabs: seq<string>, rest: seq<string>, expected: seq<string>, k: nat)
    requires k <= |expected|
    requires forall i :: 0 <= i < |tabs| ==> IsTabLine(tabs[i])
    requires |rest| > 0 ==> IsHeader(rest[0])
    ensures Scan(tabs + rest, expected, ScanState(Some(header), k)) ==
            if Records(tabs, expected[k..]) then Ok(Found(Some(header))) else AfterBlock(rest, expected)
  {
    if |tabs| == 0 {
      assert tabs + rest == rest;
      assert Records(tabs, expected[k..]) <==> k == |expected|;
    } else {
      assert (tabs + rest)[1..] == tabs[1..] + rest;
      if k < |expected| && tabs[0] == "\t" + expected[k] {
        FollowBlock(header, tabs[1..], rest, expected, k + 1);
        assert expected[k..][1..] == expected[k + 1..];
        assert Records(tabs, expected[k..]) <==> Records(tabs[1..], expected[k + 1..]) by {
          if Records(tabs[1..], expected[k + 1..]) {
            forall i | 0 <= i < |tabs|
              ensures tabs[i] == "\t" + expected[k..][i]
            {
              if i > 0 {
                assert tabs[i] == tabs[1..][i - 1];
              }
            }
          }
          if Records(tabs, expected[k..]) {
            forall i | 0 <= i < |tabs| - 1
              ensures tabs[1..][i] == "\t" + expected[k + 1..][i]
            {
              assert tabs[1..][i] == tabs[i + 1];
            }
          }
        }
      } else {
        SkipBlock(tabs[1..], rest, expected, k);
        if k < |expected| {
          assert expected[k..][0] == expected[k];
        } else {
          assert |expected[k..]| == 0;
        }
      }
    }
  }

  /** The corrected scan finds the first block that records exactly the expected entries. */
  lemma {:induction false} ScanFindsFirstRecording(header: string, lines: seq<string>, expected: seq<string>)
    requires NoEmptyLine(lines)
    ensures Scan(lines, expected, ScanState(Some(header), 0)) == Ok(FirstRecording(header, lines, expected))
    decreases |lines|
  {
    var n := TabRun(lines);
    if Records(lines[..n], expected) || n == |lines| {
      ScanInFirstBlock(header, lines, expected);
    } else {
      ScanPastFirstBlock(header, lines, expected);
      ScanFindsFirstRecording(lines[n], lines[n + 1..], expected);
    }
  }

  /** When the first block records the entries or is the last, the scan ends there. */
  lemma ScanInFirstBlock(header: string, lines: seq<string>, expected: seq<string>)
    requires NoEmptyLine(lines)
    requires Records(lines[..TabRun(lines)], expected) || TabRun(lines) == |lines|
    ensures Scan(lines, expected, ScanState(Some(header), 0)) == Ok(FirstRecording(header, lines, expected))
  {
    var n := TabRun(lines);
    FirstBlock(lines, n);
    assert expected[0..] == expected;
    FollowBlock(header, lines[..n], lines[n..], expected, 0);
  }

  /** Otherwise the scan, like the intended meaning, goes on with the next block. */
  lemma ScanPastFirstBlock(header: string, lines: seq<string>, expected: seq<string>)
    requires NoEmptyLine(lines)
    requires !Records(lines[..TabRun(lines)], expected) && TabRun(lines) < |lines|
    ensures var n := TabRun(lines);
            && Scan(lines, expected, ScanState(Some(header), 0)) == Scan(lines[n + 1..], expected, ScanState(Some(lines[n]), 0))
            && FirstRecording(header, lines, expected) == FirstRecording(lines[n], lines[n + 1..], expected)
            && NoEmptyLine(lines[n + 1..])
  {
    var n := TabRun(lines);
    FirstBlock(lines, n);
    assert expected[0..] == expected;
    FollowBlock(header, lines[..n], lines[n..], expected, 0);
    NoEmptyLineSuffix(lines, n + 1);
  }

  /** Lines without an empty one fall into the `n` tab lines of the first block and what follows them. */
  lemma FirstBlock(lines: seq<string>, n: nat)
    requires NoEmptyLine(lines) && n <= |lines|
    requires forall i :: 0 <= i < n ==> IsTabLine(lines[i])
    requires n < |lines| ==> !IsTabLine(lines[n])
    ensures lines == lines[..n] + lines[n..]
    ensures forall i :: 0 <= i < |lines[..n]| ==> IsTabLine(lines[..n][i])
    ensures n < |lines| ==> IsHeader(lines[n..][0]) && lines[n..][1..] == lines[n + 1..]
  {
    assert lines == lines[..n] + lines[n..];
    forall i | 0 <= i < |lines[..n]|
      ensures IsTabLine(lines[..n][i])
    {
      assert lines[..n][i] == lines[i];
    }
    if n < |lines| {
      assert lines[n..][1..] == lines[n + 1..];
      assert lines[n..][0] == lines[n];
    }
  }

  lemma NoEmptyLineSuffix(lines: seq<string>, m: nat)
    requires NoEmptyLine(lines) && m <= |lines|
    ensures NoEmptyLine(lines[m..])
  {
    forall i | 0 <= i < |lines| - m
      ensures |lines[m..][i]| > 0
    {
      assert lines[m..][i] == lines[m + i];
    }
  }

  /**
   * With no empty line, the corrected reader returns the version of the first block that
   * records exactly the current stack, and otherwise the newest version plus one.
   */
  lemma ReadFindsStack(lines: seq<string>, files: seq<MappingFile>)
    requires |lines| > 0 && NoEmptyLine(lines)
    ensures Read(Some(lines), Expected(files)) ==
            match FirstRecording(lines[0], lines[1..], Expected(files))
            case Found(v) => Ok(StackVersion(v, true))
            case Exhausted =>
              var next :- NextVersion(Some(lines[0]));
              Ok(StackVersion(Some(next), false))
  {
    ScanFindsFirstRecording(lines[0], lines[1..], Expected(files));
  }

  /** The corrected reader finds the stack in the last block, where the loop as written misses it. */
  lemma LastBlockFound()
    ensures Read(Some(["1", "\t" + A, "\t" + B]), [A, B]) == Ok(StackVersion(Some("1"), true))
  {
    var lines := ["1", "\t" + A, "\t" + B];
    var e := [A, B];
    MatchesOwnEntry(A);
    MatchesOwnEntry(B);
    assert Scan(lines[2..], e, ScanState(Some("1"), 1)) == Ok(Found(Some("1"))) by {
      assert lines[2..][1..] == [];
    }
    assert Scan(lines[1..], e, ScanState(Some("1"), 0)) == Ok(Found(Some("1"))) by {
      assert lines[1..][1..] == lines[2..];
    }
  }

  // ---------------------------------------------------------------------------------------
  // The block the writer prepends

  /** One entry line per source, each followed by "\n". */
  function EntryLines(files: seq<MappingFile>): string {
    if |files| == 0 then "" else "\t" + Entry(files[0]) + "\n" + EntryLines(files[1..])
  }

  /** The text `writeStackHistory` prepends: the version line, then an entry line per source. */
  function BlockText(version: string, files: seq<MappingFile>): string {
    version + "\n" + EntryLines(files)
  }

  predicate Recordable(files: seq<MappingFile>) {
    forall i :: 0 <= i < |files| ==> NoTerminator(Entry(files[i]))
  }

  lemma TabLineNoTerminator(entry: string)
    requires NoTerminator(entry)
    ensures NoTerminator("\t" + entry)
  {
    var line := "\t" + entry;
    forall i | 0 <= i < |line|
      ensures !IsTerminator(line[i])
    {
      if i > 0 {
        assert line[i] == entry[i - 1];
      }
    }
  }

  lemma TabLinesOfExpected(files: seq<MappingFile>)
    requires |files| > 0
    ensures TabLines(Expected(files)) == ["\t" + Entry(files[0])] + TabLines(Expected(files[1..]))
  {
    assert Expected(files)[1..] == Expected(files[1..]);
  }

  lemma {:induction false} ReadEntryLines(files: seq<MappingFile>, rest: string)
    requires Recordable(files)
    ensures ReadLines(EntryLines(files) + rest) == TabLines(Expected(files)) + ReadLines(rest)
  {
    if |files| == 0 {
      assert EntryLines(files) + rest == rest;
    } else {
      var line := "\t" + Entry(files[0]);
      var tail := EntryLines(files[1..]) + rest;
      EntryLinesCons(files, rest);
      TabLineNoTerminator(Entry(files[0]));
      ReadLinesOfLine(line, tail);
      ReadEntryLines(files[1..], rest);
      AppendAssociative([line], TabLines(Expected(files[1..])), ReadLines(rest));
      TabLinesOfExpected(files);
    }
  }

  lemma EntryLinesCons(files: seq<MappingFile>, rest: string)
    requires |files| > 0
    ensures EntryLines(files) + rest == "\t" + Entry(files[0]) + "\n" + (EntryLines(files[1..]) + rest)
  {
    AppendAssociative("\t" + Entry(files[0]) + "\n", EntryLines(files[1..]), rest);
  }

  function TabLines(entries: seq<string>): (r: seq<string>)
    ensures |r| == |entries|
    ensures forall i :: 0 <= i < |entries| ==> r[i] == "\t" + entries[i]
  {
    if |entries| == 0 then [] else ["\t" + entries[0]] + TabLines(entries[1..])
  }

  /** The lines of a block put in front of a history. */
  lemma ReadBlockLines(version: string, files: seq<MappingFile>, previous: string)
    requires NoTerminator(version) && Recordable(files)
    ensures ReadLines(BlockText(version, files) + previous) == [version] + (TabLines(Expected(files)) + ReadLines(previous))
  {
    calc {
      ReadLines(BlockText(version, files) + previous);
      { assert BlockText(version, files) + previous == version + "\n" + (EntryLines(files) + previous); }
      ReadLines(version + "\n" + (EntryLines(files) + previous));
      { ReadLinesOfLine(version, EntryLines(files) + previous); }
      [version] + ReadLines(EntryLines(files) + previous);
      { ReadEntryLines(files, previous); }
      [version] + (TabLines(Expected(files)) + ReadLines(previous));
    }
  }

  /** A history whose text starts with a version line is read as lines starting with a header. */
  lemma HistoryStartsWithHeader(previous: string)
    requires |previous| > 0 ==> !IsTerminator(previous[0]) && previous[0] != '\t'
    ensures var rest := ReadLines(previous); |rest| > 0 ==> IsHeader(rest[0])
  {
    if |previous| > 0 {
      var e := LineEnd(previous);
      assert e > 0;
      assert ReadLines(previous)[0] == previous[..e];
    }
  }

  lemma TabLinesRecord(entries: seq<string>)
    ensures forall i :: 0 <= i < |TabLines(entries)| ==> IsTabLine(TabLines(entries)[i])
    ensures Records(TabLines(entries), entries[0..])
  {
    var tabs := TabLines(entries);
    assert entries[0..] == entries;
    forall i | 0 <= i < |tabs|
      ensures IsTabLine(tabs[i])
    {
      assert tabs[i] == "\t" + entries[i];
    }
  }

  /**
   * Round trip: after the block for `version` is put in front of a history, the corrected
   * reader finds the current stack and returns `version`.
   */
  lemma ReadWrittenBlock(version: string, files: seq<MappingFile>, previous: string)
    requires IsHeader(version) && NoTerminator(version) && Recordable(files)
    requires |previous| > 0 ==> !IsTerminator(previous[0]) && previous[0] != '\t'
    ensures Read(Some(ReadLines(BlockText(version, files) + previous)), Expected(files)) == Ok(StackVersion(Some(version), true))
  {
    var expected := Expected(files);
    var tabs := TabLines(expected);
    var rest := ReadLines(previous);
    ReadBlockLines(version, files, previous);
    HistoryStartsWithHeader(previous);
    TabLinesRecord(expected);
    FollowBlock(version, tabs, rest, expected, 0);
    ReadFoundFirst(version, tabs + rest, expected);
  }

  /** A history whose first block, headed `header`, records the expected entries reads as `header`. */
  lemma ReadFoundFirst(header: string, body: seq<string>, expected: seq<string>)
    requires Scan(body, expected, ScanState(Some(header), 0)) == Ok(Found(Some(header)))
    ensures Read(Some([header] + body), expected) == Ok(StackVersion(Some(header), true))
  {
    assert ([header] + body)[1..] == body;
  }
}
