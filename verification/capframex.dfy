/** The CapFrameX / PresentMon CSV importer, over records already split
    into fields (the CSV tokenizer is not modelled). The importer looks for
    a header row naming a frame-time column, then accumulates frame times
    from the data rows, optionally only from rows of one process. */
module CapFrameX {
  import opened Wrappers
  import opened Text
  import opened Float
  import opened ProcessFocus
  import opened FrameStats

  /** The largest frame time the importer accepts, in milliseconds. */
  const MaxImportFrameTime: real := 10000.0

  /** The column indices found so far. */
  datatype Columns = Columns(frametime: Option<nat>, application: Option<nat>, processName: Option<nat>)

  /** The loop state: the columns, whether the header was seen, the frame
      times kept, the application, and the processes seen in data rows (in
      first-seen order, without repeats). */
  datatype ImportState = ImportState(
    cols: Columns, headerFound: bool, frames: seq<real>, application: Option<string>, seen: seq<string>)

  const Initial: ImportState := ImportState(Columns(None, None, None), false, [], None, [])

  datatype ImportError = NoFrameData | NoFrameDataForProcess(observed: seq<string>)

  /** Every field is blank. */
  predicate BlankRecord(record: seq<string>)
  {
    forall i :: 0 <= i < |record| ==> Trim(record[i]) == []
  }

  /** The trimmed, lower-cased header cell. */
  function HeaderKey(field: string): (k: string)
    ensures NoAsciiUpper(k)
  {
    AsciiLower(Trim(field))
  }

  predicate NamesFrametime(field: string)
  {
    var k := HeaderKey(field);
    Contains(k, "msbetweenpresents") || Contains(k, "frametime") || Contains(k, "msbetween")
  }

  predicate NamesApplication(field: string)
  {
    Contains(HeaderKey(field), "application")
  }

  predicate NamesProcess(field: string)
  {
    var k := HeaderKey(field);
    k == "processname" || Contains(k, "process_name") || k == "process"
  }

  /** The last column whose cell satisfies `p`, else `dflt`. */
  function LastWhere(record: seq<string>, p: string -> bool, dflt: Option<nat>): (r: Option<nat>)
    ensures r.Some? && r != dflt ==> r.value < |record|
  {
    if record == [] then dflt
    else if p(record[|record| - 1]) then Some(|record| - 1)
    else LastWhere(record[..|record| - 1], p, dflt)
  }

  /** `LastWhere` finds the last matching column, and keeps `dflt` when no
      cell matches. */
  lemma {:induction false} LastWhereIsLast(record: seq<string>, p: string -> bool, dflt: Option<nat>)
    ensures var r := LastWhere(record, p, dflt);
      (r.Some? && r != dflt ==> p(record[r.value]) && forall j :: r.value < j < |record| ==> !p(record[j])) &&
      ((forall j :: 0 <= j < |record| ==> !p(record[j])) ==> r == dflt)
  {
    if record != [] && !p(record[|record| - 1]) {
      var init := record[..|record| - 1];
      LastWhereIsLast(init, p, dflt);
      assert forall j :: 0 <= j < |init| ==> init[j] == record[j];
    }
  }

  /** Scanning a row for header cells: for each kind of column, the last
      cell naming it wins, and a row naming none keeps the earlier
      column. */
  function ScanFields(cols: Columns, record: seq<string>): Columns
  {
    Columns(LastWhere(record, NamesFrametime, cols.frametime),
            LastWhere(record, NamesApplication, cols.application),
            LastWhere(record, NamesProcess, cols.processName))
  }

  /** The effect of one header cell at column `i`. */
  function ScanField(cols: Columns, i: nat, field: string): Columns
  {
    Columns(
      if NamesFrametime(field) then Some(i) else cols.frametime,
      if NamesApplication(field) then Some(i) else cols.application,
      if NamesProcess(field) then Some(i) else cols.processName)
  }

  /** `record.get(col)`, trimmed, kept only when not blank. */
  function Cell(record: seq<string>, col: Option<nat>): (r: Option<string>)
    ensures r.Some? ==> r.value != [] && col.Some? && col.value < |record| && r.value == Trim(record[col.value])
  {
    if col.Some? && col.value < |record| && Trim(record[col.value]) != [] then Some(Trim(record[col.value])) else None
  }

  /** A row's process: its process-name cell, else its application cell. */
  function ProcessValue(record: seq<string>, cols: Columns): (r: Option<string>)
    ensures r == Cell(record, cols.processName) || (Cell(record, cols.processName).None? && r == Cell(record, cols.application))
  {
    Cell(record, cols.processName).Or(Cell(record, cols.application))
  }

  /** A row is included without a filter, or when its process normalises
      to the normalised filter. */
  predicate IncludeRow(process: Option<string>, normalizedFilter: Option<string>)
  {
    normalizedFilter.None? || (process.Some? && NormalizeProcessName(process.value) == normalizedFilter.value)
  }

  /** The frame time of a data row, if it parses into `(0, 10000]`. */
  function FrameValue(record: seq<string>, cols: Columns): (r: seq<real>)
    ensures |r| <= 1 && forall i :: 0 <= i < |r| ==> 0.0 < r[i] <= MaxImportFrameTime
  {
    if cols.frametime.Some? && cols.frametime.value < |record| then
      match ParseF64(Trim(record[cols.frametime.value]))
      case Some(Finite(ms)) => if 0.0 < ms <= MaxImportFrameTime then [ms] else []
      case _ => []
    else []
  }

  function Remember(seen: seq<string>, process: Option<string>): (r: seq<string>)
    ensures forall y :: y in r <==> y in seen || (process.Some? && y == process.value)
  {
    if process.Some? && process.value !in seen then seen + [process.value] else seen
  }

  /** A data row: its process is remembered; an included row contributes
      its frame time and, if none is known yet, the application. */
  function DataRow(st: ImportState, record: seq<string>, normalizedFilter: Option<string>): ImportState
  {
    var process := ProcessValue(record, st.cols);
    var seen := Remember(st.seen, process);
    if !IncludeRow(process, normalizedFilter) then st.(seen := seen)
    else
      st.(seen := seen, frames := st.frames + FrameValue(record, st.cols),
          application := if st.application.None? then process else st.application)
  }

  /** One pass of the record loop. */
  function Step(st: ImportState, record: seq<string>, normalizedFilter: Option<string>): ImportState
  {
    if BlankRecord(record) then st
    else if !st.headerFound then
      var cols := ScanFields(st.cols, record);
      if cols.frametime.Some? then st.(cols := cols, headerFound := true) else st.(cols := cols)
    else DataRow(st, record, normalizedFilter)
  }

  /** The state after the records `rows`. */
  function Run(rows: seq<seq<string>>, normalizedFilter: Option<string>): ImportState
  {
    if rows == [] then Initial else Step(Run(rows[..|rows| - 1], normalizedFilter), rows[|rows| - 1], normalizedFilter)
  }

  /** The outcome after the loop: no frame times is an error, which lists
      the processes seen, sorted, when a filter was given and some were
      seen; otherwise the frames, the application and their duration. */
  function Finish(st: ImportState, filterGiven: bool): (r: Result<FrameData, ImportError>)
    ensures r.Err? <==> st.frames == []
    ensures r.Err? ==>
      (r.error.NoFrameDataForProcess? <==> filterGiven && st.seen != []) &&
      (r.error.NoFrameDataForProcess? ==>
         StrictlySorted(r.error.observed) && forall p :: p in r.error.observed <==> p in st.seen)
    ensures r.Ok? ==>
      r.value.frameTimes == Finites(st.frames) && r.value.application == st.application &&
      r.value.durationSecs * 1000.0 == Sum(st.frames) && r.value.source == "CapFrameX"
  {
    if st.frames == [] then
      if filterGiven && st.seen != [] then Err(NoFrameDataForProcess(SortDistinct(st.seen))) else Err(NoFrameData)
    else Ok(FrameData(Finites(st.frames), st.application, Sum(st.frames) / 1000.0, "CapFrameX"))
  }

  /** Scanning one row for header cells, as the importer's inner loop. */
  method ScanHeaderRow(cols: Columns, record: seq<string>) returns (r: Columns)
    ensures r == ScanFields(cols, record)
  {
    r := cols;
    var i := 0;
    while i < |record|
      invariant 0 <= i <= |record|
      invariant r == ScanFields(cols, record[..i])
    {
      assert record[..i + 1][..i] == record[..i];
      r := ScanField(r, i, record[i]);
      i := i + 1;
    }
    assert record[..i] == record;
  }

  /** `parse_capframex_csv_for_process` over the records `rows`. */
  method ParseCapFrameX(rows: seq<seq<string>>, processFilter: Option<string>) returns (r: Result<FrameData, ImportError>)
    ensures var nf := if processFilter.Some? then Some(NormalizeProcessName(processFilter.value)) else None;
      r == Finish(Run(rows, nf), processFilter.Some?)
  {
    var nf := if processFilter.Some? then Some(NormalizeProcessName(processFilter.value)) else None;
    var cols := Columns(None, None, None);
    var headerFound := false;
    var frames: seq<real> := [];
    var application: Option<string> := None;
    var seen: seq<string> := [];
    var i := 0;
    while i < |rows|
      invariant 0 <= i <= |rows|
      invariant ImportState(cols, headerFound, frames, application, seen) == Run(rows[..i], nf)
    {
      assert rows[..i + 1][..i] == rows[..i];
      assert Run(rows[..i + 1], nf) == Step(Run(rows[..i], nf), rows[i], nf);
      var record := rows[i];
      i := i + 1;
      if BlankRecord(record) {
        continue;
      }
      if !headerFound {
        cols := ScanHeaderRow(cols, record);
        if cols.frametime.Some? {
          headerFound := true;
        }
        continue;
      }
      var process := ProcessValue(record, cols);
      seen := Remember(seen, process);
      if !IncludeRow(process, nf) {
        continue;
      }
      frames := frames + FrameValue(record, cols);
      if application.None? {
        application := process;
      }
    }
    assert rows[..i] == rows;
    r := Finish(ImportState(cols, headerFound, frames, application, seen), processFilter.Some?);
  }

  /* ------------------------------------------------------------ properties */

  /** Within a header row, the last cell naming a frame-time column gives
      the column; a row with none keeps the earlier column. */
  lemma ScanFieldsLastFrametime(cols: Columns, record: seq<string>)
    ensures var f := ScanFields(cols, record).frametime;
      (f.Some? && f != cols.frametime ==>
         (f.value < |record| && NamesFrametime(record[f.value]) &&
          forall j :: f.value < j < |record| ==> !NamesFrametime(record[j]))) &&
      ((forall j :: 0 <= j < |record| ==> !NamesFrametime(record[j])) ==> f == cols.frametime)
  {
    LastWhereIsLast(record, NamesFrametime, cols.frametime);
  }

  lemma StepKeepsApplication(st: ImportState, record: seq<string>, nf: Option<string>)
    requires st.application.Some?
    ensures Step(st, record, nf).application == st.application
  {
  }

  /** Every kept frame time lies in `(0, 10000]`. */
  lemma {:induction false} RunFramesInRange(rows: seq<seq<string>>, nf: Option<string>)
    ensures forall i :: 0 <= i < |Run(rows, nf).frames| ==> 0.0 < Run(rows, nf).frames[i] <= MaxImportFrameTime
  {
    if rows != [] {
      RunFramesInRange(rows[..|rows| - 1], nf);
    }
  }

  /** A header is recorded only with a frame-time column. */
  lemma {:induction false} RunHeaderHasFrametime(rows: seq<seq<string>>, nf: Option<string>)
    ensures Run(rows, nf).headerFound ==> Run(rows, nf).cols.frametime.Some?
  {
    if rows != [] {
      RunHeaderHasFrametime(rows[..|rows| - 1], nf);
    }
  }

  /** Blank records change nothing, and until the header no row adds a
      frame time or a process: rows before the header are ignored, and the
      header row itself is not a sample. */
  lemma StepBeforeHeader(st: ImportState, record: seq<string>, nf: Option<string>)
    requires !st.headerFound
    ensures Step(st, record, nf).frames == st.frames && Step(st, record, nf).seen == st.seen
    ensures Step(st, record, nf).application == st.application
    ensures BlankRecord(record) ==> Step(st, record, nf) == st
    ensures !BlankRecord(record) ==>
      (Step(st, record, nf).headerFound <==> ScanFields(st.cols, record).frametime.Some?)
  {
  }

  /** Once known, the application never changes, so it is the process of
      the first included row that names one. */
  lemma {:induction false} ApplicationIsFirst(rows: seq<seq<string>>, more: seq<seq<string>>, nf: Option<string>)
    requires Run(rows, nf).application.Some?
    ensures Run(rows + more, nf).application == Run(rows, nf).application
    decreases |more|
  {
    if more == [] {
      assert rows + more == rows;
    } else {
      var init := more[..|more| - 1];
      assert (rows + more)[..|rows + more| - 1] == rows + init;
      assert (rows + more)[|rows + more| - 1] == more[|more| - 1];
      ApplicationIsFirst(rows, init, nf);
      StepKeepsApplication(Run(rows + init, nf), more[|more| - 1], nf);
    }
  }

  /** With a filter, only rows of the filtered process contribute frames:
      a data row of any other process leaves the frames alone. */
  lemma OtherProcessIgnored(st: ImportState, record: seq<string>, filter: string)
    requires st.headerFound && !BlankRecord(record)
    requires var p := ProcessValue(record, st.cols);
      p.None? || NormalizeProcessName(p.value) != NormalizeProcessName(filter)
    ensures Step(st, record, Some(NormalizeProcessName(filter))).frames == st.frames
    ensures Step(st, record, Some(NormalizeProcessName(filter))).application == st.application
  {
  }

  /** The upper-case extension conflict: with the filter `game.exe`, a row
      whose process is `GAME.EXE` (any `b.EXE` against the lower-cased
      `b.exe`) is not included, since the extension is stripped
      case-sensitively before lower-casing. */
  lemma UpperCaseProcessNotIncluded(b: string)
    requires b != [] && IsTrimmed(b) && b[0] != '"' && b[|b| - 1] != '"'
    ensures !IncludeRow(Some(b + ".EXE"), Some(NormalizeProcessName(AsciiLower(b) + ".exe")))
  {
    UpperCaseExeDoesNotMatch(b);
  }
}
