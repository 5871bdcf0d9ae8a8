/** The MangoHud log importer: a comma-separated log whose frame-time
    column is named by a header line, or a bare list of frame times, and
    the game name guessed from the log's file name. */
module MangoHudLog {
  import opened Wrappers
  import opened Text
  import opened Float
  import opened FrameStats

  /** Frame times are accepted strictly inside `(0, 1000)` milliseconds. */
  const MaxLogFrameTime: real := 1000.0

  /** The loop state: the frame-time column, whether the header (or the
      first bare sample) was seen, and the frame times kept. */
  datatype LogState = LogState(col: Option<nat>, headerFound: bool, frames: seq<real>)

  const Start: LogState := LogState(None, false, [])

  datatype LogError = NoFrameData

  /** Blank lines and lines starting with `#` are skipped. */
  predicate Skipped(line: string)
  {
    Trim(line) == [] || (line != [] && line[0] == '#')
  }

  predicate NamesFrametime(field: string)
  {
    var k := AsciiLower(Trim(field));
    k == "frametime" || k == "frametime_ms"
  }

  /** The last field naming the frame-time column, else `dflt`. */
  function HeaderColumn(fields: seq<string>, dflt: Option<nat>): (r: Option<nat>)
    ensures r.Some? && r != dflt ==> r.value < |fields| && NamesFrametime(fields[r.value])
  {
    if fields == [] then dflt
    else if NamesFrametime(fields[|fields| - 1]) then Some(|fields| - 1)
    else HeaderColumn(fields[..|fields| - 1], dflt)
  }

  /** A field holding a frame time in `(0, 1000)`. */
  function Sample(field: string): (r: Option<real>)
    ensures r.Some? ==> 0.0 < r.value < MaxLogFrameTime
  {
    match ParseF64(Trim(field))
    case Some(Finite(ms)) => if 0.0 < ms < MaxLogFrameTime then Some(ms) else None
    case _ => None
  }

  /** A data line adds the sample in the frame-time column, if any. */
  function DataLine(st: LogState, fields: seq<string>): LogState
  {
    if st.col.Some? && st.col.value < |fields| && Sample(fields[st.col.value]).Some? then
      st.(frames := st.frames + [Sample(fields[st.col.value]).value])
    else st
  }

  /** One pass of the line loop. Before the header, a line naming the
      frame-time column becomes the header; failing that, a line whose first
      field is a sample is taken as the start of a bare list, fixing column
      0 and keeping that sample. */
  function Step(st: LogState, line: string): LogState
  {
    if Skipped(line) then st
    else
      var fields := Split(line, ',');
      if !st.headerFound then
        var col := HeaderColumn(fields, st.col);
        if col.Some? then LogState(col, true, st.frames)
        else if Sample(fields[0]).Some? then LogState(Some(0), true, st.frames + [Sample(fields[0]).value])
        else DataLine(st.(col := col), fields)
      else DataLine(st, fields)
  }

  function Run(lines: seq<string>): LogState
  {
    if lines == [] then Start else Step(Run(lines[..|lines| - 1]), lines[|lines| - 1])
  }

  /* ----------------------------------------------------- application name */

  /** A file-name part made only of digits and `-` (a date or a time); an
      empty part counts as one too. */
  predicate DateLike(part: string)
  {
    forall i :: 0 <= i < |part| ==> IsAsciiDigit(part[i]) || part[i] == '-'
  }

  /** The parts before the first date-like one. */
  function TakeNamed(parts: seq<string>): (r: seq<string>)
    ensures |r| <= |parts| && r == parts[..|r|]
    ensures forall i :: 0 <= i < |r| ==> !DateLike(r[i])
    ensures |r| < |parts| ==> DateLike(parts[|r|])
  {
    if parts == [] || DateLike(parts[0]) then [] else [parts[0]] + TakeNamed(parts[1..])
  }

  /** The application guessed from the log's file stem: its `_`-separated
      parts up to the first date-like one, joined again with `_`; nothing
      when that is empty. */
  function ApplicationName(stem: string): (r: Option<string>)
    ensures r.Some? ==> r.value != []
  {
    var name := Join(TakeNamed(Split(stem, '_')), "_");
    if name == [] then None else Some(name)
  }

  lemma {:induction false} TakeNamedBeforeDate(ps: seq<string>, date: string, rest: seq<string>)
    requires forall i :: 0 <= i < |ps| ==> !DateLike(ps[i])
    requires DateLike(date)
    ensures TakeNamed(ps + [date] + rest) == ps
  {
    if ps != [] {
      TakeNamedBeforeDate(ps[1..], date, rest);
      assert (ps + [date] + rest)[1..] == ps[1..] + [date] + rest;
    }
  }

  lemma JoinStartsWithFirst(ps: seq<string>, sep: string)
    requires ps != []
    ensures |Join(ps, sep)| >= |ps[0]|
  {
  }

  /** A log named `<name parts>_<date>_<more>` is attributed to the name
      parts joined by `_` (so `game_2024-01-15_12-30-00` gives `game`). */
  lemma ApplicationOfLogName(ps: seq<string>, date: string, rest: seq<string>)
    requires ps != [] && ps[0] != []
    requires forall i :: 0 <= i < |ps| ==> !DateLike(ps[i]) && '_' !in ps[i]
    requires DateLike(date) && '_' !in date
    requires forall i :: 0 <= i < |rest| ==> '_' !in rest[i]
    ensures ApplicationName(Join(ps + [date] + rest, "_")) == Some(Join(ps, "_"))
  {
    var all := ps + [date] + rest;
    assert forall i :: 0 <= i < |all| ==> '_' !in all[i];
    SplitJoin(all, '_');
    TakeNamedBeforeDate(ps, date, rest);
    JoinStartsWithFirst(ps, "_");
  }

  /* ---------------------------------------------------------------- parse */

  /** The outcome: no frame time is an error; otherwise the frames, the
      application from the file stem and the duration. */
  function Finish(st: LogState, stem: Option<string>): (r: Result<FrameData, LogError>)
    ensures r.Err? <==> st.frames == []
    ensures r.Ok? ==>
      r.value.frameTimes == Finites(st.frames) && r.value.durationSecs * 1000.0 == Sum(st.frames) &&
      r.value.application == (if stem.Some? then ApplicationName(stem.value) else None) &&
      r.value.source == "MangoHud"
  {
    if st.frames == [] then Err(NoFrameData)
    else
      Ok(FrameData(Finites(st.frames), if stem.Some? then ApplicationName(stem.value) else None,
                   Sum(st.frames) / 1000.0, "MangoHud"))
  }

  /** The header scan over one line's fields, as the importer's inner
      loop. */
  method ScanHeader(fields: seq<string>, col: Option<nat>) returns (r: Option<nat>)
    ensures r == HeaderColumn(fields, col)
  {
    r := col;
    var i := 0;
    while i < |fields|
      invariant 0 <= i <= |fields|
      invariant r == HeaderColumn(fields[..i], col)
    {
      assert fields[..i + 1][..i] == fields[..i];
      if NamesFrametime(fields[i]) {
        r := Some(i);
      }
      i := i + 1;
    }
    assert fields[..i] == fields;
  }

  /** `parse_mangohud_log` over the log's text and its file stem. */
  method ParseMangoHudLog(content: string, stem: Option<string>) returns (r: Result<FrameData, LogError>)
    ensures r == Finish(Run(Lines(content)), stem)
  {
    var lines := Lines(content);
    var col: Option<nat> := None;
    var headerFound := false;
    var frames: seq<real> := [];
    var i := 0;
    while i < |lines|
      invariant 0 <= i <= |lines|
      invariant LogState(col, headerFound, frames) == Run(lines[..i])
    {
      assert lines[..i + 1][..i] == lines[..i];
      assert Run(lines[..i + 1]) == Step(Run(lines[..i]), lines[i]);
      var line := lines[i];
      i := i + 1;
      if Skipped(line) {
        continue;
      }
      var fields := Split(line, ',');
      if !headerFound {
        col := ScanHeader(fields, col);
        if col.Some? {
          headerFound := true;
          continue;
        }
        var first := Sample(fields[0]);
        if first.Some? {
          frames := frames + [first.value];
          col := Some(0);
          headerFound := true;
          continue;
        }
      }
      if col.Some? && col.value < |fields| {
        var ms := Sample(fields[col.value]);
        if ms.Some? {
          frames := frames + [ms.value];
        }
      }
    }
    assert lines[..i] == lines;
    r := Finish(LogState(col, headerFound, frames), stem);
  }

  /* ------------------------------------------------------------ properties */

  /** Every kept frame time lies strictly inside `(0, 1000)`. */
  lemma {:induction false} RunFramesInRange(lines: seq<string>)
    ensures forall i :: 0 <= i < |Run(lines).frames| ==> 0.0 < Run(lines).frames[i] < MaxLogFrameTime
  {
    if lines != [] {
      RunFramesInRange(lines[..|lines| - 1]);
    }
  }

  /** Before the header, a line naming the frame-time column fixes it and
      is not a sample. */
  lemma HeaderLineIsNotSample(st: LogState, line: string, i: nat)
    requires !st.headerFound && !Skipped(line)
    requires i < |Split(line, ',')| && NamesFrametime(Split(line, ',')[i])
    ensures Step(st, line).headerFound && Step(st, line).frames == st.frames
    ensures var c := Step(st, line).col; c.Some? && c.value < |Split(line, ',')| && NamesFrametime(Split(line, ',')[c.value])
  {
    HeaderColumnFindsAny(Split(line, ','), st.col, i);
  }

  lemma {:induction false} HeaderColumnFindsAny(fields: seq<string>, dflt: Option<nat>, i: nat)
    requires i < |fields| && NamesFrametime(fields[i])
    ensures var r := HeaderColumn(fields, dflt); r.Some? && i <= r.value < |fields| && NamesFrametime(fields[r.value])
  {
    if !NamesFrametime(fields[|fields| - 1]) {
      HeaderColumnFindsAny(fields[..|fields| - 1], dflt, i);
    }
  }

  lemma {:induction false} HeaderColumnNone(fields: seq<string>)
    requires forall j :: 0 <= j < |fields| ==> !NamesFrametime(fields[j])
    ensures HeaderColumn(fields, None) == None
  {
    if fields != [] {
      HeaderColumnNone(fields[..|fields| - 1]);
    }
  }

  /** Without a header, the first line whose first field is a sample is
      itself kept and fixes column 0. */
  lemma BareSampleStartsLog(st: LogState, line: string)
    requires !st.headerFound && st.col.None? && !Skipped(line)
    requires forall j :: 0 <= j < |Split(line, ',')| ==> !NamesFrametime(Split(line, ',')[j])
    requires Sample(Split(line, ',')[0]).Some?
    ensures Step(st, line) == LogState(Some(0), true, st.frames + [Sample(Split(line, ',')[0]).value])
  {
    HeaderColumnNone(Split(line, ','));
  }

  /** Skipped lines change nothing. */
  lemma SkippedLineIgnored(st: LogState, line: string)
    requires Skipped(line)
    ensures Step(st, line) == st
  {
  }
}
