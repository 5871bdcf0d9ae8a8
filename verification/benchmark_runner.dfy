/** The synthetic benchmark runner's deterministic parts: the profile
    tables, the parsers for the output of glmark2, 7-Zip and DiskSpd, the
    Windows stage detector, progress reporting, score calibration and the
    Windows fallback that fills missing component scores. */
module BenchmarkRunner {
  import opened Wrappers
  import opened Text
  import opened Float

  /* ----------------------------------------------------------- profiles */

  datatype BenchmarkType = Quick | Standard | Extended

  /** `BenchmarkType::duration`, in seconds. */
  function DurationSecs(t: BenchmarkType): nat
  {
    match t
    case Quick => 30
    case Standard => 120
    case Extended => 300
  }

  /** `BenchmarkType::description`. */
  function Description(t: BenchmarkType): string
  {
    match t
    case Quick => "30 seconds - Quick check"
    case Standard => "2 minutes - Recommended"
    case Extended => "5 minutes - Most accurate"
  }

  /** `BenchmarkType::profile_key`. */
  function ProfileKey(t: BenchmarkType): string
  {
    match t
    case Quick => "quick"
    case Standard => "standard"
    case Extended => "extended"
  }

  /** `format_duration`: seconds below a minute, whole minutes otherwise. */
  function FormatDuration(secs: nat): (s: string)
  {
    if secs < 60 then NatToString(secs) + " seconds" else NatToString(secs / 60) + " minutes"
  }

  /** The number `format_duration` prints reads back as the seconds, or as
      the whole minutes the duration spans. */
  lemma FormatDurationReadsBack(secs: nat)
    requires secs <= U64Max
    ensures secs < 60 ==> exists n :: FormatDuration(secs) == n + " seconds" && ParseUnsigned(n, U64Max) == Some(secs)
    ensures secs >= 60 ==> exists n, m: nat :: FormatDuration(secs) == n + " minutes" && ParseUnsigned(n, U64Max) == Some(m) &&
                                              m * 60 <= secs < (m + 1) * 60
  {
    if secs < 60 {
      ParseNatToString(secs, U64Max);
    } else {
      ParseNatToString(secs / 60, U64Max);
      assert FormatDuration(secs) == NatToString(secs / 60) + " minutes";
    }
  }

  /** The profiles run longer in the order quick, standard, extended, and
      their keys differ. */
  lemma ProfileOrder()
    ensures DurationSecs(Quick) < DurationSecs(Standard) < DurationSecs(Extended)
    ensures ProfileKey(Quick) != ProfileKey(Standard) && ProfileKey(Standard) != ProfileKey(Extended) && ProfileKey(Extended) != ProfileKey(Quick)
  {
    assert ProfileKey(Quick)[0] != ProfileKey(Standard)[0];
    assert ProfileKey(Standard)[0] != ProfileKey(Extended)[0];
    assert ProfileKey(Extended)[0] != ProfileKey(Quick)[0];
  }

  /** Each description starts with its formatted duration. */
  lemma ProfileTables(t: BenchmarkType)
    ensures StartsWith(Description(t), FormatDuration(DurationSecs(t)))
  {
    match t
    case Quick => DescribesQuick();
    case Standard => DescribesStandard();
    case Extended => DescribesExtended();
  }

  lemma DescribesQuick()
    ensures StartsWith(Description(Quick), FormatDuration(DurationSecs(Quick)))
  {
    QuickDescription();
  }

  lemma DescribesStandard()
    ensures StartsWith(Description(Standard), FormatDuration(DurationSecs(Standard)))
  {
    MinutesDescription(2);
  }

  lemma DescribesExtended()
    ensures StartsWith(Description(Extended), FormatDuration(DurationSecs(Extended)))
  {
    MinutesDescription(5);
  }

  lemma QuickDescription()
    ensures Description(Quick) == FormatDuration(30) + " - Quick check"
  {
    assert NatToString(30) == "30" by {
      assert NatToString(3) == "3";
      assert NatToString(30) == NatToString(3) + [DigitChar(0)];
    }
  }

  lemma MinutesDescription(m: nat)
    requires 1 <= m <= 9
    ensures FormatDuration(m * 60) == [DigitChar(m)] + " minutes"
  {
  }

  /* ----------------------------------------------------------- progress */

  datatype ProgressUpdate = ProgressUpdate(completedSteps: nat, totalSteps: nat, status: string)

  /** The events `render_progress` hands to the progress callback (none
      without one); printing is not modelled. */
  function ProgressEvents(completed: nat, total: nat, status: string, hasCallback: bool, quiet: bool): (r: seq<ProgressUpdate>)
    ensures |r| == (if hasCallback then 1 else 0)
    ensures forall e :: e in r ==> e.totalSteps == total && e.status == status && e.completedSteps <= total
    ensures forall e :: e in r ==> (e.completedSteps == completed <==> completed <= total)
  {
    if hasCallback then [ProgressUpdate(MinInt(completed, total), total, status)] else []
  }

  /** Quiet mode silences the console, not the callback. */
  lemma QuietStillReports(completed: nat, total: nat, status: string, hasCallback: bool)
    ensures ProgressEvents(completed, total, status, hasCallback, true) == ProgressEvents(completed, total, status, hasCallback, false)
  {
  }

  /* --------------------------------------------------- first and last */

  /** The first present value. */
  function FirstSome(xs: seq<Option<nat>>): (r: Option<nat>)
  {
    if xs == [] then None else if xs[0].Some? then xs[0] else FirstSome(xs[1..])
  }

  /** The last present value. */
  function LastSome(xs: seq<Option<nat>>): (r: Option<nat>)
  {
    if xs == [] then None
    else if xs[|xs| - 1].Some? then xs[|xs| - 1]
    else LastSome(xs[..|xs| - 1])
  }

  lemma {:induction false} FirstSomeIsFirst(xs: seq<Option<nat>>)
    ensures FirstSome(xs).None? <==> forall j :: 0 <= j < |xs| ==> xs[j].None?
    ensures FirstSome(xs).Some? ==> exists k :: 0 <= k < |xs| && xs[k] == FirstSome(xs) && forall j :: 0 <= j < k ==> xs[j].None?
  {
    if xs != [] && xs[0].None? {
      FirstSomeIsFirst(xs[1..]);
      if FirstSome(xs).Some? {
        var k :| 0 <= k < |xs[1..]| && xs[1..][k] == FirstSome(xs[1..]) && forall j :: 0 <= j < k ==> xs[1..][j].None?;
        assert xs[k + 1] == FirstSome(xs);
      }
    }
  }

  lemma {:induction false} LastSomeIsLast(xs: seq<Option<nat>>)
    ensures LastSome(xs).None? <==> forall j :: 0 <= j < |xs| ==> xs[j].None?
    ensures LastSome(xs).Some? ==> exists k :: 0 <= k < |xs| && xs[k] == LastSome(xs) && forall j :: k < j < |xs| ==> xs[j].None?
  {
    if xs != [] && xs[|xs| - 1].None? {
      var init := xs[..|xs| - 1];
      LastSomeIsLast(init);
      if LastSome(xs).Some? {
        var k :| 0 <= k < |init| && init[k] == LastSome(init) && forall j :: k < j < |init| ==> init[j].None?;
        assert xs[k] == LastSome(xs);
      }
    }
  }

  /* ------------------------------------------------------------ glmark2 */

  const GlmarkPrefix := "glmark2 Score:"

  /** The score one line of glmark2's output announces, if any. */
  function GlmarkLineScore(line: string): (r: Option<nat>)
    ensures r.Some? ==> 0 < r.value <= U64Max
  {
    match StripPrefix(Trim(line), GlmarkPrefix)
    case None => None
    case Some(rest) =>
      match ParseUnsigned(Trim(rest), U64Max)
      case Some(v) => if v > 0 then Some(v) else None
      case None => None
  }

  function LineScores(lines: seq<string>): (r: seq<Option<nat>>)
    ensures |r| == |lines| && forall i :: 0 <= i < |lines| ==> r[i] == GlmarkLineScore(lines[i])
  {
    seq(|lines|, i requires 0 <= i < |lines| => GlmarkLineScore(lines[i]))
  }

  /** `parse_glmark2_score`: the first positive score after the prefix. */
  function ParseGlmark2Score(stdout: string): (r: Option<nat>)
  {
    FirstSome(LineScores(Lines(stdout)))
  }

  /** The score found is the one on the first line that announces a
      positive score; there is none exactly when no line does. */
  lemma Glmark2FirstScoreWins(stdout: string)
    ensures ParseGlmark2Score(stdout).None? <==> forall j :: 0 <= j < |Lines(stdout)| ==> GlmarkLineScore(Lines(stdout)[j]).None?
    ensures ParseGlmark2Score(stdout).Some? ==>
      0 < ParseGlmark2Score(stdout).value &&
      exists k :: 0 <= k < |Lines(stdout)| && GlmarkLineScore(Lines(stdout)[k]) == ParseGlmark2Score(stdout) &&
        forall j :: 0 <= j < k ==> GlmarkLineScore(Lines(stdout)[j]).None?
  {
    FirstScoreOfLines(Lines(stdout));
  }

  lemma FirstScoreOfLines(lines: seq<string>)
    ensures FirstSome(LineScores(lines)).None? <==> forall j :: 0 <= j < |lines| ==> GlmarkLineScore(lines[j]).None?
    ensures FirstSome(LineScores(lines)).Some? ==>
      exists k :: 0 <= k < |lines| && GlmarkLineScore(lines[k]) == FirstSome(LineScores(lines)) &&
        forall j :: 0 <= j < k ==> GlmarkLineScore(lines[j]).None?
  {
    var xs := LineScores(lines);
    FirstSomeIsFirst(xs);
    if FirstSome(xs).Some? {
      var k :| 0 <= k < |xs| && xs[k] == FirstSome(xs) && forall j :: 0 <= j < k ==> xs[j].None?;
      assert GlmarkLineScore(lines[k]) == FirstSome(xs);
    }
  }

  /** A line that prints a positive score after the prefix is read back as
      that score. */
  lemma GlmarkLineReadsBack(n: nat)
    requires 0 < n <= U64Max
    ensures GlmarkLineScore(GlmarkPrefix + " " + NatToString(n)) == Some(n)
  {
    var digits := NatToString(n);
    DigitsAreWord(digits);
    assert !IsWhitespace(GlmarkPrefix[0]);
    PrefixedWord(GlmarkPrefix, digits);
    ParseNatToString(n, U64Max);
  }

  /** A prefix, a space and a word: trimming keeps it whole, and what
      follows the prefix trims to the word. */
  lemma PrefixedWord(p: string, w: string)
    requires p != [] && !IsWhitespace(p[0])
    requires w != [] && !IsWhitespace(w[0]) && !IsWhitespace(w[|w| - 1])
    ensures Trim(p + " " + w) == p + " " + w
    ensures StripPrefix(p + " " + w, p) == Some(" " + w)
    ensures Trim(" " + w) == w
  {
    var line := p + " " + w;
    assert line[0] == p[0] && line[|line| - 1] == w[|w| - 1];
    TrimOfTrimmed(line);
    assert line[..|p|] == p && line[|p|..] == " " + w;
    SpaceThenTrimmed(w);
  }

  /** A single space before a trimmed non-empty word is trimmed away. */
  lemma SpaceThenTrimmed(w: string)
    requires w != [] && !IsWhitespace(w[0]) && !IsWhitespace(w[|w| - 1])
    ensures Trim(" " + w) == w
  {
    var s := " " + w;
    TrimIsSlice(s);
    assert LeadingWhitespace(s) == 1 by {
      assert s[1..] == w;
    }
    assert s[1..] == w;
    TrimOfTrimmed(w);
  }

  /** `run_glmark2`'s result: the parsed score limited to [1, 1000000]. */
  function GpuScoreFromGlmark(raw: nat): (r: nat)
    ensures 1 <= r <= 1000000
    ensures raw <= 1000000 ==> r == (if raw == 0 then 1 else raw)
  {
    ClampInt(raw, 1, 1000000)
  }

  /* -------------------------------------------------------------- 7-Zip */

  /** The tokens that parse as `u64`, in order (`filter_map(parse)`). */
  function ParsedNumbers(tokens: seq<string>): (r: seq<nat>)
    ensures |r| <= |tokens|
    ensures forall x :: x in r ==> x <= U64Max
  {
    if tokens == [] then []
    else
      match ParseUnsigned(tokens[0], U64Max)
      case Some(v) => [v] + ParsedNumbers(tokens[1..])
      case None => ParsedNumbers(tokens[1..])
  }

  /** The length of the run of ASCII digits `s` starts with. */
  function DigitPrefix(s: string): (k: nat)
    ensures k <= |s| && AllDigits(s[..k])
    ensures k < |s| ==> !IsAsciiDigit(s[k])
  {
    if s == [] || !IsAsciiDigit(s[0]) then 0
    else
      var k := 1 + DigitPrefix(s[1..]);
      assert s[..k] == [s[0]] + s[1..][..k - 1];
      k
  }

  /** The maximal runs of ASCII digits, in order (`split` on every
      non-digit, keeping the non-empty pieces). */
  function DigitRuns(s: string): (r: seq<string>)
    ensures forall i :: 0 <= i < |r| ==> r[i] != [] && AllDigits(r[i])
    decreases |s|
  {
    if s == [] then []
    else
      var k := DigitPrefix(s);
      if k == 0 then DigitRuns(s[1..]) else [s[..k]] + DigitRuns(s[k..])
  }

  /** The number a "Tot:" line offers: the third number when there are
      three, else the last one. */
  function TotRating(rest: string): (r: Option<nat>)
    ensures r.Some? ==> r.value <= U64Max
  {
    var nums := ParsedNumbers(SplitWhitespace(Trim(rest)));
    if |nums| >= 3 then assert nums[2] in nums; Some(nums[2])
    else if nums != [] then assert nums[|nums| - 1] in nums; Some(nums[|nums| - 1])
    else None
  }

  /** The last digit run that parses as `u64`. */
  function LastNumber(s: string): (r: Option<nat>)
    ensures r.Some? ==> r.value <= U64Max
  {
    var nums := ParsedNumbers(DigitRuns(s));
    if nums == [] then None else assert nums[|nums| - 1] in nums; Some(nums[|nums| - 1])
  }

  /** What one line of 7-Zip's output contributes. */
  function LineRating(line: string): (r: Option<nat>)
    ensures r.Some? ==> r.value <= U64Max
  {
    var t := Trim(line);
    if t == [] then None
    else
      var lower := AsciiLower(t);
      var tot := if StartsWith(lower, "tot:") then TotRating(t[4..]) else None;
      if tot.Some? then tot
      else if Contains(lower, "total") && Contains(lower, "rating") then LastNumber(t)
      else None
  }

  function LineRatings(lines: seq<string>): (r: seq<Option<nat>>)
    ensures |r| == |lines| && forall i :: 0 <= i < |lines| ==> r[i] == LineRating(lines[i])
  {
    seq(|lines|, i requires 0 <= i < |lines| => LineRating(lines[i]))
  }

  /** `parse_7z_total_mips`: walks the lines and keeps the latest rating. */
  method Parse7zTotalMips(output: string) returns (best: Option<nat>)
    ensures best == LastSome(LineRatings(Lines(output)))
  {
    var lines := Lines(output);
    best := None;
    var i := 0;
    while i < |lines|
      invariant 0 <= i <= |lines|
      invariant best == LastSome(LineRatings(lines[..i]))
    {
      var r := LineRating(lines[i]);
      assert LineRatings(lines[..i + 1])[..i] == LineRatings(lines[..i]);
      if r.Some? {
        best := r;
      }
      i := i + 1;
    }
    assert lines[..i] == lines;
  }

  /** The rating reported is the one of the last line that gives one, and
      there is none exactly when no line gives one. */
  lemma LastRatingWins(lines: seq<string>)
    ensures LastSome(LineRatings(lines)).None? <==> forall j :: 0 <= j < |lines| ==> LineRating(lines[j]).None?
    ensures LastSome(LineRatings(lines)).Some? ==>
      exists k :: 0 <= k < |lines| && LineRating(lines[k]) == LastSome(LineRatings(lines)) &&
        forall j :: k < j < |lines| ==> LineRating(lines[j]).None?
  {
    var xs := LineRatings(lines);
    LastSomeIsLast(xs);
    if LastSome(xs).Some? {
      var k :| 0 <= k < |xs| && xs[k] == LastSome(xs) && forall j :: k < j < |xs| ==> xs[j].None?;
      assert LineRating(lines[k]) == LastSome(xs);
    }
  }

  /** A "Tot:" line with three numbers or more yields the third. */
  lemma TotLineThirdNumber(a: nat, b: nat, c: nat)
    requires a <= U64Max && b <= U64Max && c <= U64Max
    ensures TotRating(" " + NatToString(a) + " " + NatToString(b) + " " + NatToString(c)) == Some(c)
  {
    var x, y, z := NatToString(a), NatToString(b), NatToString(c);
    DigitsAreWord(x);
    DigitsAreWord(y);
    DigitsAreWord(z);
    var t := x + " " + y + " " + z;
    assert " " + x + " " + y + " " + z == " " + t;
    assert t[0] == x[0] && t[|t| - 1] == z[|z| - 1];
    SpaceThenTrimmed(t);
    ThreeWords(x, y, z);
    ThreeNumbers(a, b, c);
  }

  /** Three words joined by single spaces split back into the three. */
  lemma ThreeWords(x: string, y: string, z: string)
    requires x != [] && NoWhitespace(x)
    requires y != [] && NoWhitespace(y)
    requires z != [] && NoWhitespace(z)
    ensures SplitWhitespace(x + " " + y + " " + z) == [x, y, z]
  {
    FirstWord(x, ' ', y + " " + z);
    assert x + " " + y + " " + z == x + [' '] + (y + " " + z);
    FirstWord(y, ' ', z);
    assert y + " " + z == y + [' '] + z;
    OnlyWord(z);
  }

  /** Three written numbers parse back in order. */
  lemma ThreeNumbers(a: nat, b: nat, c: nat)
    requires a <= U64Max && b <= U64Max && c <= U64Max
    ensures ParsedNumbers([NatToString(a), NatToString(b), NatToString(c)]) == [a, b, c]
  {
    var x, y, z := NatToString(a), NatToString(b), NatToString(c);
    ParseNatToString(a, U64Max);
    ParseNatToString(b, U64Max);
    ParseNatToString(c, U64Max);
    assert ParsedNumbers([z]) == [c];
    assert ParsedNumbers([y, z]) == [b, c] by { assert [y, z][1..] == [z]; }
    assert ParsedNumbers([x, y, z]) == [a, b, c] by { assert [x, y, z][1..] == [y, z]; }
  }

  lemma DigitsAreWord(s: string)
    requires s != [] && AllDigits(s)
    ensures NoWhitespace(s) && !IsWhitespace(s[0]) && !IsWhitespace(s[|s| - 1])
  {
    assert AsciiGraphic(s);
    GraphicHasNoWhitespace(s);
  }

  /** A word with no whitespace is the only word. */
  lemma OnlyWord(w: string)
    requires w != [] && NoWhitespace(w)
    ensures SplitWhitespace(w) == [w]
  {
    assert forall j :: 0 <= j < |w| ==> w[j] !in WhitespaceChars;
    assert IndexOfAny(w, WhitespaceChars).None?;
    assert SplitAny(w, WhitespaceChars) == [w];
    assert NonEmpty([w]) == [w];
  }

  /* ------------------------------------------------------------ DiskSpd */

  /** The value one row of DiskSpd's output offers: on a "total:" row with
      at least three '|'-separated columns, the first word of the third
      column, read as a positive finite double and rounded. */
  function DiskspdRowValue(line: string): (r: Option<nat>)
    ensures r.Some? ==> r.value <= U64Max
  {
    var t := Trim(line);
    if !StartsWith(AsciiLower(t), "total:") then None
    else
      var cols := Split(t, '|');
      if |cols| < 3 then None
      else
        var words := SplitWhitespace(Trim(cols[2]));
        var numberText := if words == [] then "" else Trim(words[0]);
        match ParseF64(numberText)
        case Some(Finite(v)) => if v > 0.0 then Some(RealToU64(Round(v) as real)) else None
        case _ => None
  }

  function RowValues(lines: seq<string>): (r: seq<Option<nat>>)
    ensures |r| == |lines| && forall i :: 0 <= i < |lines| ==> r[i] == DiskspdRowValue(lines[i])
  {
    seq(|lines|, i requires 0 <= i < |lines| => DiskspdRowValue(lines[i]))
  }

  /** `parse_diskspd_total_mb_s`: the first total row that gives a value. */
  function ParseDiskspdTotalMbS(output: string): Option<nat>
  {
    FirstSome(RowValues(Lines(output)))
  }

  /** The throughput reported is the one of the first total row that gives
      one; rows that do not start with "total:" never count. */
  lemma DiskspdFirstTotalWins(output: string)
    ensures ParseDiskspdTotalMbS(output).None? <==> forall j :: 0 <= j < |Lines(output)| ==> DiskspdRowValue(Lines(output)[j]).None?
    ensures ParseDiskspdTotalMbS(output).Some? ==>
      exists k :: 0 <= k < |Lines(output)| && DiskspdRowValue(Lines(output)[k]) == ParseDiskspdTotalMbS(output) &&
        StartsWith(AsciiLower(Trim(Lines(output)[k])), "total:") &&
        forall j :: 0 <= j < k ==> DiskspdRowValue(Lines(output)[j]).None?
  {
    var lines := Lines(output);
    var xs := RowValues(lines);
    FirstSomeIsFirst(xs);
    if ParseDiskspdTotalMbS(output).Some? {
      var k :| 0 <= k < |xs| && xs[k] == FirstSome(xs) && forall j :: 0 <= j < k ==> xs[j].None?;
      TotalRowsOnly(lines[k]);
    }
  }

  /** Only a row that starts with "total:" gives a value. */
  lemma TotalRowsOnly(line: string)
    requires DiskspdRowValue(line).Some?
    ensures StartsWith(AsciiLower(Trim(line)), "total:")
  {
  }

  /** A positive value in the third column is rounded half away from zero. */
  lemma DiskspdRounds(v: real)
    requires 0.0 < v < U64Max as real
    ensures RealToU64(Round(v) as real) == Round(v)
    ensures v - 0.5 <= Round(v) as real < v + 0.5 || Round(v) as real == v + 0.5
  {
  }

  /* ------------------------------------------------------------ WinSAT */

  /** `detect_windows_stage_index`: which WinSAT stage a line announces,
      checked in the order CPU, memory, disk, graphics. */
  function DetectWindowsStageIndex(line: string): (r: Option<nat>)
    ensures r.Some? ==> r.value <= 3
    ensures r == Some(0) <==> Contains(AsciiLower(line), "cpu")
  {
    var lower := AsciiLower(line);
    if Contains(lower, "cpu") then Some(0)
    else if Contains(lower, "memory") || Contains(lower, " mem") || StartsWith(lower, "mem") then Some(1)
    else if Contains(lower, "disk") || Contains(lower, "drive") || Contains(lower, "storage") then Some(2)
    else if Contains(lower, "d3d") || Contains(lower, "graphics") || Contains(lower, "direct3d") || Contains(lower, "video") then Some(3)
    else None
  }

  /** Detection ignores ASCII case. */
  lemma StageIgnoresCase(line: string)
    ensures DetectWindowsStageIndex(AsciiLower(line)) == DetectWindowsStageIndex(line)
  {
    AsciiLowerIdempotent(line);
  }

  /** A line mentioning the CPU in any case is the CPU stage, whatever else
      it mentions. */
  lemma CpuStageFirst(a: string, b: string)
    ensures DetectWindowsStageIndex(a + "CPU" + b) == Some(0)
  {
    var s := a + "CPU" + b;
    var lower := AsciiLower(s);
    assert lower[|a|..|a| + 3] == "cpu";
    ContainsWitness(lower, "cpu", |a|);
  }

  /* -------------------------------------------------------- calibration */

  /** A calibrated component score: the measurement divided by the
      calibration divisor, rounded, cast to `u64` and limited to
      [1, 10000]. */
  function CalibratedScore(measure: real, divisor: real): (r: nat)
    requires divisor > 0.0
    ensures 1 <= r <= 10000
  {
    ClampInt(RealToU64(Round(measure / divisor) as real), 1, 10000)
  }

  /** A larger measurement never gives a lower score, and a measurement in
      calibrated range gives its rounded quotient. */
  lemma CalibrationMonotone(m1: real, m2: real, divisor: real)
    requires divisor > 0.0 && m1 <= m2
    ensures CalibratedScore(m1, divisor) <= CalibratedScore(m2, divisor)
    ensures 1 <= Round(m1 / divisor) <= 10000 ==> CalibratedScore(m1, divisor) == Round(m1 / divisor)
  {
    assert m1 / divisor <= m2 / divisor by {
      assert m2 / divisor - m1 / divisor == (m2 - m1) / divisor;
    }
    RoundMonotone(m1 / divisor, m2 / divisor);
  }

  lemma RoundMonotone(x: real, y: real)
    requires x <= y
    ensures Round(x) <= Round(y)
  {
    if x >= 0.0 {
      FloorMonotone(x + 0.5, y + 0.5);
    } else if y < 0.0 {
      FloorMonotone(-y + 0.5, -x + 0.5);
    }
  }

  lemma FloorMonotone(x: real, y: real)
    requires x <= y
    ensures Floor(x) <= Floor(y)
  {
  }

  /* ------------------------------------------------------ fallback fill */

  /** The component scores and their sources, with the 7-Zip and DiskSpd
      measurements the Windows fallback reads. */
  datatype Scores = Scores(
    cpu: Option<nat>, cpuSource: Option<string>, ram: Option<nat>, ramSource: Option<string>,
    disk: Option<nat>, diskSource: Option<string>,
    sevenZipMulti: Option<nat>, sevenZipSingle: Option<nat>, diskspdRead: Option<nat>)

  /** What the fallback at the end of `run_windows_benchmarks` leaves:
      each missing score is filled from the preferred source that has a
      value; the internal scores are the internal benchmarks' results
      (None when they fail). */
  function FillMissing(s: Scores, internalCpu: Option<nat>, internalRam: Option<nat>, internalDisk: Option<nat>): (r: Scores)
  {
    var cpu :=
      if s.cpu.Some? then (s.cpu, s.cpuSource)
      else if s.sevenZipMulti.Or(s.sevenZipSingle).Some? then (s.sevenZipMulti.Or(s.sevenZipSingle), Some("7z_mips"))
      else if internalCpu.Some? then (internalCpu, Some("internal"))
      else (s.cpu, s.cpuSource);
    var ram :=
      if s.ram.Some? then (s.ram, s.ramSource)
      else if internalRam.Some? then (internalRam, Some("internal"))
      else (s.ram, s.ramSource);
    var disk :=
      if s.disk.Some? then (s.disk, s.diskSource)
      else if s.diskspdRead.Some? then (s.diskspdRead, Some("diskspd_read_mib_s"))
      else if internalDisk.Some? then (internalDisk, Some("internal"))
      else (s.disk, s.diskSource);
    s.(cpu := cpu.0, cpuSource := cpu.1, ram := ram.0, ramSource := ram.1, disk := disk.0, diskSource := disk.1)
  }

  /** The fill never overwrites a score that is present, never invents one
      when no source has a value, leaves the measurements alone, and
      labels every score it fills with its source. */
  lemma FillKeepsExisting(s: Scores, ic: Option<nat>, ir: Option<nat>, id: Option<nat>)
    ensures s.cpu.Some? ==> FillMissing(s, ic, ir, id).cpu == s.cpu && FillMissing(s, ic, ir, id).cpuSource == s.cpuSource
    ensures s.ram.Some? ==> FillMissing(s, ic, ir, id).ram == s.ram && FillMissing(s, ic, ir, id).ramSource == s.ramSource
    ensures s.disk.Some? ==> FillMissing(s, ic, ir, id).disk == s.disk && FillMissing(s, ic, ir, id).diskSource == s.diskSource
    ensures FillMissing(s, ic, ir, id).cpu.Some? <==> s.cpu.Some? || s.sevenZipMulti.Some? || s.sevenZipSingle.Some? || ic.Some?
    ensures FillMissing(s, ic, ir, id).ram.Some? <==> s.ram.Some? || ir.Some?
    ensures FillMissing(s, ic, ir, id).disk.Some? <==> s.disk.Some? || s.diskspdRead.Some? || id.Some?
    ensures FillMissing(s, ic, ir, id).sevenZipMulti == s.sevenZipMulti && FillMissing(s, ic, ir, id).sevenZipSingle == s.sevenZipSingle
    ensures FillMissing(s, ic, ir, id).diskspdRead == s.diskspdRead
  {
  }

  /** A missing CPU score prefers the multi-thread 7-Zip rating, then the
      single-thread one, then the internal score; a missing disk score
      prefers DiskSpd's read throughput, then the internal score. */
  lemma FillPreference(s: Scores, ic: Option<nat>, ir: Option<nat>, id: Option<nat>)
    requires s.cpu.None? && s.disk.None?
    ensures s.sevenZipMulti.Some? ==> FillMissing(s, ic, ir, id).cpu == s.sevenZipMulti && FillMissing(s, ic, ir, id).cpuSource == Some("7z_mips")
    ensures s.sevenZipMulti.None? && s.sevenZipSingle.Some? ==> FillMissing(s, ic, ir, id).cpu == s.sevenZipSingle
    ensures s.sevenZipMulti.None? && s.sevenZipSingle.None? && ic.Some? ==>
      FillMissing(s, ic, ir, id).cpu == ic && FillMissing(s, ic, ir, id).cpuSource == Some("internal")
    ensures s.diskspdRead.Some? ==>
      FillMissing(s, ic, ir, id).disk == s.diskspdRead && FillMissing(s, ic, ir, id).diskSource == Some("diskspd_read_mib_s")
    ensures s.diskspdRead.None? && id.Some? ==> FillMissing(s, ic, ir, id).disk == id && FillMissing(s, ic, ir, id).diskSource == Some("internal")
  {
  }

  /** Filling twice fills nothing more. */
  lemma FillIdempotent(s: Scores, ic: Option<nat>, ir: Option<nat>, id: Option<nat>)
    ensures FillMissing(FillMissing(s, ic, ir, id), ic, ir, id) == FillMissing(s, ic, ir, id)
  {
  }

  /** `BenchmarkResults`, the record the Windows run fills in place. Only
      the fields the fallback reads or writes are modelled. */
  class BenchmarkResults {
    var cpuScore: Option<nat>
    var cpuScoreSource: Option<string>
    var ramScore: Option<nat>
    var ramScoreSource: Option<string>
    var diskScore: Option<nat>
    var diskScoreSource: Option<string>
    var cpu7zMultiMips: Option<nat>
    var cpu7zSingleMips: Option<nat>
    var diskspdReadMbS: Option<nat>

    /** An empty record, as `BenchmarkResults` starts out. */
    constructor ()
      ensures Snapshot() == Scores(None, None, None, None, None, None, None, None, None)
    {
      cpuScore, cpuScoreSource, ramScore, ramScoreSource := None, None, None, None;
      diskScore, diskScoreSource := None, None;
      cpu7zMultiMips, cpu7zSingleMips, diskspdReadMbS := None, None, None;
    }

    function Snapshot(): Scores
      reads this
    {
      Scores(cpuScore, cpuScoreSource, ramScore, ramScoreSource, diskScore, diskScoreSource,
             cpu7zMultiMips, cpu7zSingleMips, diskspdReadMbS)
    }

    /** The fallback fill of `run_windows_benchmarks`. */
    method FillMissingScores(internalCpu: Option<nat>, internalRam: Option<nat>, internalDisk: Option<nat>)
      modifies this
      ensures Snapshot() == FillMissing(old(Snapshot()), internalCpu, internalRam, internalDisk)
    {
      if cpuScore.None? {
        var mips := cpu7zMultiMips.Or(cpu7zSingleMips);
        if mips.Some? {
          cpuScore := mips;
          cpuScoreSource := Some("7z_mips");
        } else if internalCpu.Some? {
          cpuScore := internalCpu;
          cpuScoreSource := Some("internal");
        }
      }
      if ramScore.None? {
        if internalRam.Some? {
          ramScore := internalRam;
          ramScoreSource := Some("internal");
        }
      }
      if diskScore.None? {
        if diskspdReadMbS.Some? {
          diskScore := diskspdReadMbS;
          diskScoreSource := Some("diskspd_read_mib_s");
        } else if internalDisk.Some? {
          diskScore := internalDisk;
          diskScoreSource := Some("internal");
        }
      }
    }
  }
}
