/** A benchmark submission: resolution normalisation, the constructor
    used for manual entries, the field checks run before upload, and the
    helpers that read the server's answer. */
module Submission {
  import opened Wrappers
  import opened Text
  import opened Float
  import opened Hardware

  /* ----------------------------------------------------------- resolution */

  /** The lookup key: trimmed, ASCII lower-cased, spaces removed. */
  function ResolutionKey(s: string): (k: string)
    ensures ' ' !in k
  {
    RemoveChar(AsciiLower(Trim(s)), ' ')
  }

  /** The names the alias `match` answers with. */
  predicate AliasTarget(r: string)
  {
    r == "720p" || r == "900p" || r == "1080p" || r == "1440p" ||
    r == "4K" || r == "3440x1440" || r == "5K" || r == "8K"
  }

  /** The alias `match` of `normalize_resolution`, arm by arm. */
  function Alias(k: string): (r: Option<string>)
    ensures r.Some? ==> AliasTarget(r.value)
  {
    if k == "720p" || k == "1280x720" then Some("720p")
    else if k == "900p" || k == "1600x900" then Some("900p")
    else if k == "1080p" || k == "1920x1080" || k == "fullhd" || k == "fhd" then Some("1080p")
    else if k == "1440p" || k == "2560x1440" || k == "qhd" || k == "2k" || k == "wqhd" then Some("1440p")
    else if k == "2160p" || k == "4k" || k == "3840x2160" || k == "uhd" then Some("4K")
    else if k == "3440x1440" || k == "uwqhd" then Some("3440x1440")
    else if k == "5k" || k == "5120x2880" then Some("5K")
    else if k == "8k" || k == "7680x4320" then Some("8K")
    else None
  }

  /** The heights accepted as `<n>p`. */
  predicate ListedHeight(v: nat) { v in {720, 900, 1080, 1200, 1440, 1600, 1800, 2160, 4320} }

  /** The heights accepted as a bare number and written `<n>p`. */
  predicate ShorthandHeight(v: nat) { v in {720, 900, 1080, 1200, 1440, 1600, 1800} }

  function HeightLabel(v: nat): (s: string)
    ensures s != [] && s[|s| - 1] == 'p'
  {
    NatToString(v) + "p"
  }

  /** The `u16` before the trailing `p`s of a key that ends in `p`. */
  function PHeight(k: string): (r: Option<nat>)
    ensures r.Some? ==> r.value <= U16Max && k != [] && k[|k| - 1] == 'p'
  {
    if k != [] && k[|k| - 1] == 'p' then ParseUnsigned(TrimEndChars(k, {'p'}), U16Max) else None
  }

  /** A bare number: the shorthand heights, 2160 as `4K` and 4320 as `8K`. */
  function Shorthand(v: nat): (r: Option<string>)
    ensures r.Some? <==> ShorthandHeight(v) || v == 2160 || v == 4320
  {
    if ShorthandHeight(v) then Some(HeightLabel(v))
    else if v == 2160 then Some("4K")
    else if v == 4320 then Some("8K")
    else None
  }

  /** `normalize_resolution` as written: the `<n>p` branch writes every
      listed height back as `<n>p`, 2160 included. */
  function NormalizeResolutionAsWritten(s: string): (r: Option<string>)
  {
    var k := ResolutionKey(s);
    if k == [] then None
    else if Alias(k).Some? then Alias(k)
    else if PHeight(k).Some? then
      (if ListedHeight(PHeight(k).value) then Some(HeightLabel(PHeight(k).value)) else None)
    else match ParseUnsigned(k, U16Max)
      case Some(v) => Shorthand(v)
      case None => None
  }

  /** The `<n>p` branch of the corrected normaliser: 2160 is written `4K`,
      as the alias `match` writes `2160p`. */
  function PLabel(v: nat): (s: string)
  {
    if v == 2160 then "4K" else HeightLabel(v)
  }

  /** `normalize_resolution`, with the `<n>p` branch writing 2160 as `4K`
      so that every result is recognised as itself. */
  function NormalizeResolution(s: string): (r: Option<string>)
  {
    var k := ResolutionKey(s);
    if k == [] then None
    else if Alias(k).Some? then Alias(k)
    else if PHeight(k).Some? then
      (if ListedHeight(PHeight(k).value) then Some(PLabel(PHeight(k).value)) else None)
    else match ParseUnsigned(k, U16Max)
      case Some(v) => Shorthand(v)
      case None => None
  }

  /** The two versions differ only where the written one answers `2160p`
      and the corrected one `4K`. */
  lemma CorrectionOnlyAt2160(s: string)
    ensures NormalizeResolution(s) != NormalizeResolutionAsWritten(s) ==>
      NormalizeResolutionAsWritten(s) == Some(HeightLabel(2160)) && NormalizeResolution(s) == Some("4K")
  {
    var k := ResolutionKey(s);
    if k != [] && Alias(k).None? && PHeight(k).Some? {
      var v := PHeight(k).value;
      assert v != 2160 ==> PLabel(v) == HeightLabel(v);
    }
  }

  /** The names the normaliser answers with: an alias target, or `<n>p`
      for a listed height other than 2160. */
  ghost predicate Canonical(r: string)
  {
    AliasTarget(r) || exists v :: ListedHeight(v) && v != 2160 && r == HeightLabel(v)
  }

  /** Every answer of the normaliser is a canonical name. */
  lemma NormalizedIsCanonical(s: string)
    requires NormalizeResolution(s).Some?
    ensures Canonical(NormalizeResolution(s).value)
  {
    var k := ResolutionKey(s);
    var r := NormalizeResolution(s).value;
    if Alias(k).None? {
      if PHeight(k).Some? {
        var v := PHeight(k).value;
        if v != 2160 {
          assert ListedHeight(v) && r == HeightLabel(v);
        }
      } else {
        var v := ParseUnsigned(k, U16Max).value;
        if ShorthandHeight(v) {
          assert ListedHeight(v) && v != 2160 && r == HeightLabel(v);
        }
      }
    }
  }

  /** A key made of visible ASCII characters only is its own key once
      lower-cased. */
  lemma KeyOfGraphic(r: string)
    requires AsciiGraphic(r)
    ensures ResolutionKey(r) == AsciiLower(r)
  {
    GraphicHasNoWhitespace(r);
    TrimNoWhitespace(r);
  }

  /** The lower-cased form of `r` is an alias key naming `r`. */
  predicate NamesItself(r: string)
  {
    AsciiGraphic(r) && Alias(AsciiLower(r)) == Some(r)
  }

  lemma HeightTargetsNameThemselves()
    ensures NamesItself("720p") && NamesItself("900p") && NamesItself("1080p") && NamesItself("1440p")
  {
    AsciiLowerFixed("720p");
    AsciiLowerFixed("900p");
    AsciiLowerFixed("1080p");
    AsciiLowerFixed("1440p");
  }

  lemma NamedTargetsNameThemselves()
    ensures NamesItself("4K") && NamesItself("3440x1440")
  {
    assert AsciiLower("4K") == "4k";
    AsciiLowerFixed("3440x1440");
  }

  lemma FiveKNamesItself()
    ensures NamesItself("5K")
  {
    assert AsciiLower("5K") == "5k";
  }

  lemma EightKNamesItself()
    ensures NamesItself("8K")
  {
    assert AsciiLower("8K") == "8k";
  }

  /** An alias target is visible ASCII and its lower-cased form is an alias
      key naming it. */
  lemma TargetShape(r: string)
    requires AliasTarget(r)
    ensures NamesItself(r)
  {
    HeightTargetsNameThemselves();
    NamedTargetsNameThemselves();
    FiveKNamesItself();
    EightKNamesItself();
  }

  /** A name whose lower-cased form is an alias key naming it is recognised
      as itself. */
  lemma AliasKeyFixed(r: string)
    requires NamesItself(r)
    ensures NormalizeResolution(r) == Some(r)
  {
    KeyOfGraphic(r);
  }

  /** `NatToString(2160)`, digit by digit. */
  lemma Label2160()
    ensures HeightLabel(2160) == "2160p"
  {
    assert NatToString(2) == "2";
    assert NatToString(21) == "21";
    assert NatToString(216) == "216";
    assert NatToString(2160) == "2160";
  }

  lemma HeightLabelInjective(v: nat, w: nat)
    requires HeightLabel(v) == HeightLabel(w)
    ensures v == w
  {
    var a, b := HeightLabel(v), HeightLabel(w);
    assert a[..|a| - 1] == NatToString(v);
    assert b[..|b| - 1] == NatToString(w);
  }

  /** No height but 2160 is written `2160p`. */
  lemma LabelNot2160(v: nat)
    requires v != 2160
    ensures HeightLabel(v) != "2160p"
  {
    Label2160();
    if HeightLabel(v) == "2160p" {
      HeightLabelInjective(v, 2160);
    }
  }

  /** The only alias key of the form `<digits>p` that names something other
      than itself is `2160p`. */
  lemma AliasOfPKey(k: string)
    requires Alias(k).Some? && k != [] && k[|k| - 1] == 'p'
    ensures Alias(k) == Some(k) || k == "2160p"
  {
  }

  /** Dropping the trailing `p` of `<digits>p` leaves the digits. */
  lemma TrimLabel(d: string)
    requires d != [] && AllDigits(d)
    ensures TrimEndChars(d + "p", {'p'}) == d
  {
    var s := d + "p";
    var r := TrimEndChars(s, {'p'});
    assert r == s[..|r|];
    assert s[..|d|] == d;
  }

  /** Digits followed by `p`s are visible ASCII with no upper case. */
  lemma DigitsThenPs(d: string, ps: string)
    requires AllDigits(d) && forall i :: 0 <= i < |ps| ==> ps[i] == 'p'
    ensures AsciiGraphic(d + ps) && NoAsciiUpper(d + ps)
  {
    var s := d + ps;
    assert forall i :: 0 <= i < |s| ==> s[i] == 'p' || IsAsciiDigit(s[i]);
  }

  /** `<n>p` is its own key, and when it is no alias its height is read
      back. */
  lemma LabelKey(v: nat)
    requires v <= U16Max
    ensures ResolutionKey(HeightLabel(v)) == HeightLabel(v)
    ensures Alias(HeightLabel(v)).None? ==> PHeight(HeightLabel(v)) == Some(v)
  {
    var r := HeightLabel(v);
    var d := NatToString(v);
    assert r == d + "p";
    DigitsThenPs(d, "p");
    KeyOfGraphic(r);
    AsciiLowerFixed(r);
    TrimLabel(d);
    ParseNatToString(v, U16Max);
  }

  /** `<n>p` for a listed height other than 2160 is recognised as itself. */
  lemma LabelFixed(v: nat)
    requires ListedHeight(v) && v != 2160
    ensures NormalizeResolution(HeightLabel(v)) == Some(HeightLabel(v))
  {
    var r := HeightLabel(v);
    LabelKey(v);
    if Alias(r).Some? {
      AliasOfPKey(r);
      LabelNot2160(v);
    }
  }

  /** Every canonical name is recognised as itself. */
  lemma CanonicalIsFixed(r: string)
    requires Canonical(r)
    ensures NormalizeResolution(r) == Some(r)
  {
    if AliasTarget(r) {
      TargetShape(r);
      AliasKeyFixed(r);
    } else {
      var v: nat :| ListedHeight(v) && v != 2160 && r == HeightLabel(v);
      LabelFixed(v);
    }
  }

  /** Every answer of the corrected normaliser is recognised as itself. */
  lemma NormalizeIsFixedPoint(s: string)
    requires NormalizeResolution(s).Some?
    ensures NormalizeResolution(NormalizeResolution(s).value) == NormalizeResolution(s)
  {
    NormalizedIsCanonical(s);
    CanonicalIsFixed(NormalizeResolution(s).value);
  }

  /** No alias key ends in `pp`. */
  lemma AliasOfDoubleP(k: string)
    requires |k| >= 2 && k[|k| - 1] == 'p' && k[|k| - 2] == 'p'
    ensures Alias(k).None?
  {
  }

  /** `<n>pp` is its own key, no alias, and its height is read back. */
  lemma DoublePKey(v: nat)
    requires v <= U16Max
    ensures var s := HeightLabel(v) + "p";
      ResolutionKey(s) == s && Alias(s).None? && PHeight(s) == Some(v)
  {
    var d := NatToString(v);
    var s := HeightLabel(v) + "p";
    assert s == d + "pp";
    DigitsThenPs(d, "pp");
    KeyOfGraphic(s);
    AsciiLowerFixed(s);
    AliasOfDoubleP(s);
    TrimDoubleP(d);
    ParseNatToString(v, U16Max);
  }

  /** Dropping the trailing `p`s of `<digits>pp` leaves the digits. */
  lemma TrimDoubleP(d: string)
    requires d != [] && AllDigits(d)
    ensures TrimEndChars(d + "pp", {'p'}) == d
  {
    TrimLabel(d);
    assert (d + "pp")[..|d| + 1] == d + "p";
  }

  /** `<n>pp` for a listed height comes back, as written, as `<n>p`. */
  lemma AsWrittenDoubleP(v: nat)
    requires ListedHeight(v)
    ensures NormalizeResolutionAsWritten(HeightLabel(v) + "p") == Some(HeightLabel(v))
  {
    DoublePKey(v);
  }

  /** `2160p` is an alias of `4K`. */
  lemma AliasOfLabel2160()
    ensures Alias(HeightLabel(2160)) == Some("4K")
  {
    Label2160();
  }

  /** As written, `2160p` comes back as `4K`. */
  lemma AsWrittenLabel2160()
    ensures NormalizeResolutionAsWritten(HeightLabel(2160)) == Some("4K")
  {
    var t := HeightLabel(2160);
    assert AsciiGraphic(t) && NoAsciiUpper(t) by {
      assert forall i :: 0 <= i < |t| ==> t[i] == 'p' || IsAsciiDigit(t[i]);
    }
    KeyOfGraphic(t);
    AsciiLowerFixed(t);
    AliasOfLabel2160();
  }

  /** As written, `2160pp` (or `02160p`, `+2160p`) comes back as `2160p`,
      which the alias `match` then turns into `4K`: the answer is not
      recognised as itself. */
  lemma AsWrittenNotFixedAt2160()
    ensures var s := HeightLabel(2160) + "p";
      NormalizeResolutionAsWritten(s) == Some(HeightLabel(2160)) &&
      NormalizeResolutionAsWritten(NormalizeResolutionAsWritten(s).value) == Some("4K")
  {
    AsWrittenDoubleP(2160);
    AsWrittenLabel2160();
  }

  /** Even as written, anything recognised is recognised again. */
  lemma AsWrittenStaysRecognised(s: string)
    requires NormalizeResolutionAsWritten(s).Some?
    ensures NormalizeResolutionAsWritten(NormalizeResolutionAsWritten(s).value).Some?
  {
    CorrectionOnlyAt2160(s);
    if NormalizeResolutionAsWritten(s) == NormalizeResolution(s) {
      NormalizeIsFixedPoint(s);
      CorrectionOnlyAt2160(NormalizeResolution(s).value);
    } else {
      AsWrittenLabel2160();
    }
  }

  /* ----------------------------------------------------------- submission */

  /** A submission. The id and timestamp are supplied by the caller. */
  datatype BenchmarkSubmission = BenchmarkSubmission(
    id: string, timestamp: int, systemInfo: SystemInfo, game: string, resolution: string, preset: string,
    avgFps: F64, fps1Low: Option<F64>, fps01Low: Option<F64>, rayTracing: bool, upscaling: Option<string>,
    frameGen: Option<bool>, sampleCount: Option<nat>, durationSecs: Option<real>, notes: Option<string>)

  /** `BenchmarkSubmission::new`: the resolution is normalised (by the
      normaliser as written) when it is recognised and kept trimmed
      otherwise; the 0.1% low and the session fields start empty. */
  function NewSubmission(
    id: string, timestamp: int, systemInfo: SystemInfo, game: string, resolution: string, preset: string,
    avgFps: F64, fps1Low: Option<F64>, rayTracing: bool, upscaling: Option<string>): (s: BenchmarkSubmission)
    ensures s.resolution == NormalizeResolutionAsWritten(resolution).GetOr(Trim(resolution))
    ensures s.fps01Low.None? && s.frameGen.None? && s.sampleCount.None? && s.durationSecs.None? && s.notes.None?
    ensures s.game == game && s.preset == preset && s.avgFps == avgFps && s.fps1Low == fps1Low
    ensures s.rayTracing == rayTracing && s.upscaling == upscaling && s.systemInfo == systemInfo
  {
    BenchmarkSubmission(id, timestamp, systemInfo, game, NormalizeResolutionAsWritten(resolution).GetOr(Trim(resolution)),
                        preset, avgFps, fps1Low, None, rayTracing, upscaling, None, None, None, None)
  }

  /** `4K` is an alias key naming itself, for the normaliser as written. */
  lemma AsWrittenFourK()
    ensures NormalizeResolutionAsWritten("4K") == Some("4K")
  {
    NamedTargetsNameThemselves();
    KeyOfGraphic("4K");
  }

  /** A submission made from a recognised resolution passes the resolution
      check, and its stored resolution normalises to itself unless it is
      `2160p` (which the normaliser as written turns into `4K`). */
  lemma NewKeepsResolutionRecognised(
    id: string, timestamp: int, systemInfo: SystemInfo, game: string, resolution: string, preset: string,
    avgFps: F64, fps1Low: Option<F64>, rayTracing: bool, upscaling: Option<string>)
    requires Recognised(resolution)
    ensures var s := NewSubmission(id, timestamp, systemInfo, game, resolution, preset, avgFps, fps1Low, rayTracing, upscaling);
      Recognised(s.resolution) &&
      (NormalizeResolutionAsWritten(s.resolution) == Some(s.resolution) || s.resolution == "2160p")
  {
    AsWrittenStaysRecognised(resolution);
    CorrectionOnlyAt2160(resolution);
    Label2160();
    if NormalizeResolutionAsWritten(resolution) == NormalizeResolution(resolution) {
      var v := NormalizeResolution(resolution).value;
      NormalizeIsFixedPoint(resolution);
      CorrectionOnlyAt2160(v);
      AsWrittenFourK();
    }
  }

  /** The resolution check of `validate`: the normaliser as written
      recognises it (the corrected one recognises the same names, see
      `CorrectionOnlyAt2160`). */
  predicate Recognised(resolution: string) { NormalizeResolutionAsWritten(resolution).Some? }

  /** The problems `validate` reports, in the order it checks them. */
  datatype Issue =
    | AvgNotFinite | AvgTooLow | AvgTooHigh
    | Low1AboveAvg | Low1TooLow | Low1TooHigh | Low1NotFinite
    | Low01TooLow | Low01TooHigh | Low01AboveAvg | Low01AboveLow1
    | ResolutionUnrecognised | GameEmpty | GameTooLong | PresetEmpty | UpscalingTooLong

  function IssueRank(e: Issue): (n: nat)
    ensures n < IssueCount
  {
    match e
    case AvgNotFinite => 0 case AvgTooLow => 1 case AvgTooHigh => 2
    case Low1AboveAvg => 3 case Low1TooLow => 4 case Low1TooHigh => 5 case Low1NotFinite => 6
    case Low01TooLow => 7 case Low01TooHigh => 8 case Low01AboveAvg => 9 case Low01AboveLow1 => 10
    case ResolutionUnrecognised => 11 case GameEmpty => 12 case GameTooLong => 13 case PresetEmpty => 14
    case UpscalingTooLong => 15
  }

  /** The condition under which each problem is reported, with `f64`
      comparisons (false whenever NaN is involved); `known` is the verdict
      of the resolution check. */
  predicate Violates(s: BenchmarkSubmission, known: bool, e: Issue)
  {
    match e
    case AvgNotFinite => !IsFinite(s.avgFps)
    case AvgTooLow => Below(s.avgFps, 1.0)
    case AvgTooHigh => Above(s.avgFps, 500.0)
    case Low1AboveAvg => s.fps1Low.Some? && Greater(s.fps1Low.value, s.avgFps)
    case Low1TooLow => s.fps1Low.Some? && Below(s.fps1Low.value, 1.0)
    case Low1TooHigh => s.fps1Low.Some? && Above(s.fps1Low.value, 500.0)
    case Low1NotFinite => s.fps1Low.Some? && !IsFinite(s.fps1Low.value)
    case Low01TooLow => s.fps01Low.Some? && Below(s.fps01Low.value, 1.0)
    case Low01TooHigh => s.fps01Low.Some? && Above(s.fps01Low.value, 500.0)
    case Low01AboveAvg => s.fps01Low.Some? && Greater(s.fps01Low.value, s.avgFps)
    case Low01AboveLow1 => s.fps01Low.Some? && s.fps1Low.Some? && Greater(s.fps01Low.value, s.fps1Low.value)
    case ResolutionUnrecognised => !known
    case GameEmpty => Trim(s.game) == []
    case GameTooLong => Utf8Len(Trim(s.game)) > 120
    case PresetEmpty => Trim(s.preset) == []
    case UpscalingTooLong => s.upscaling.Some? && Utf8Len(Trim(s.upscaling.value)) > 64
  }

  /** A frame rate between 1 and 500. */
  predicate FpsInRange(x: F64) { x.Finite? && 1.0 <= x.value <= 500.0 }

  /** The average is a number between 1 and 500. */
  predicate AvgAcceptable(s: BenchmarkSubmission) { FpsInRange(s.avgFps) }

  /** A 1% low, when given, is between 1 and 500 and not above the
      average. */
  predicate Low1Acceptable(s: BenchmarkSubmission)
  {
    s.fps1Low.Some? ==>
      FpsInRange(s.fps1Low.value) && s.avgFps.Finite? && s.fps1Low.value.value <= s.avgFps.value
  }

  /** A 0.1% low, when given and not NaN, is between 1 and 500 and not above
      the average nor the 1% low (a NaN slips through every one of these
      comparisons, and this field has no finiteness check). */
  predicate Low01Acceptable(s: BenchmarkSubmission)
  {
    s.fps01Low.Some? && !s.fps01Low.value.NaN? ==>
      FpsInRange(s.fps01Low.value) && s.avgFps.Finite? && s.fps01Low.value.value <= s.avgFps.value &&
      (s.fps1Low.Some? ==> s.fps1Low.value.Finite? && s.fps01Low.value.value <= s.fps1Low.value.value)
  }

  /** A recognised resolution; a game name of 1 to 120 bytes and a preset,
      both non-blank after trimming; an upscaling mode of at most 64
      bytes. */
  predicate TextAcceptable(s: BenchmarkSubmission, known: bool)
  {
    known &&
    Trim(s.game) != [] && Utf8Len(Trim(s.game)) <= 120 && Trim(s.preset) != [] &&
    (s.upscaling.Some? ==> Utf8Len(Trim(s.upscaling.value)) <= 64)
  }

  /** What an acceptable submission looks like. */
  predicate Acceptable(s: BenchmarkSubmission, known: bool)
  {
    AvgAcceptable(s) && Low1Acceptable(s) && Low01Acceptable(s) && TextAcceptable(s, known)
  }

  /** The number of checks `validate` runs. */
  const IssueCount: nat := 16

  /** The problem checked in position `i`. */
  function IssueAt(i: nat): (e: Issue)
    requires i < IssueCount
    ensures IssueRank(e) == i
  {
    if i == 0 then AvgNotFinite
    else if i == 1 then AvgTooLow
    else if i == 2 then AvgTooHigh
    else if i == 3 then Low1AboveAvg
    else if i == 4 then Low1TooLow
    else if i == 5 then Low1TooHigh
    else if i == 6 then Low1NotFinite
    else if i == 7 then Low01TooLow
    else if i == 8 then Low01TooHigh
    else if i == 9 then Low01AboveAvg
    else if i == 10 then Low01AboveLow1
    else if i == 11 then ResolutionUnrecognised
    else if i == 12 then GameEmpty
    else if i == 13 then GameTooLong
    else if i == 14 then PresetEmpty
    else UpscalingTooLong
  }

  lemma IssueAtRank(e: Issue)
    ensures IssueAt(IssueRank(e)) == e
  {
  }

  /** Which checks a submission fails, as a function of the problem. */
  function ChecksOf(s: BenchmarkSubmission, known: bool): Issue -> bool
  {
    e => Violates(s, known, e)
  }

  /** The problems among the first `n` checks that `fails` picks, in
      checking order. */
  function Failing(fails: Issue -> bool, n: nat): (r: seq<Issue>)
    requires n <= IssueCount
    ensures |r| <= n
  {
    if n == 0 then []
    else
      var e := IssueAt(n - 1);
      Failing(fails, n - 1) + (if fails(e) then [e] else [])
  }

  /** The first `n` checks report exactly the failing problems of rank
      below `n`. */
  lemma {:induction false} FailingMembers(fails: Issue -> bool, n: nat)
    requires n <= IssueCount
    ensures forall e :: e in Failing(fails, n) <==> IssueRank(e) < n && fails(e)
  {
    if n > 0 {
      FailingMembers(fails, n - 1);
      forall x | IssueRank(x) == n - 1
        ensures x == IssueAt(n - 1)
      {
        IssueAtRank(x);
      }
    }
  }

  /** Problems listed once each, in checking order. */
  predicate InCheckOrder(es: seq<Issue>)
  {
    forall i, j :: 0 <= i < j < |es| ==> IssueRank(es[i]) < IssueRank(es[j])
  }

  /** Appending a problem ranked after every listed one keeps the order. */
  lemma InOrderSnoc(es: seq<Issue>, e: Issue)
    requires InCheckOrder(es)
    requires forall i :: 0 <= i < |es| ==> IssueRank(es[i]) < IssueRank(e)
    ensures InCheckOrder(es + [e])
  {
  }

  /** Reporting keeps the order of the checks. */
  lemma {:induction false} FailingInOrder(fails: Issue -> bool, n: nat)
    requires n <= IssueCount
    ensures InCheckOrder(Failing(fails, n))
  {
    if n > 0 {
      FailingInOrder(fails, n - 1);
      FailingMembers(fails, n - 1);
      var f := Failing(fails, n - 1);
      var e := IssueAt(n - 1);
      forall i | 0 <= i < |f|
        ensures IssueRank(f[i]) < IssueRank(e)
      {
        assert f[i] in f;
      }
      if fails(e) {
        InOrderSnoc(f, e);
      } else {
        assert Failing(fails, n) == f;
      }
    }
  }

  /** Nothing is reported exactly when no check fails. */
  lemma NothingFailsIff(fails: Issue -> bool)
    ensures Failing(fails, IssueCount) == [] <==> forall e :: !fails(e)
  {
    var f := Failing(fails, IssueCount);
    FailingMembers(fails, IssueCount);
    if f != [] {
      assert f[0] in f;
    } else {
      forall e
        ensures !fails(e)
      {
        assert e !in f;
      }
    }
  }

  /** One check of `validate`: its problem is added when it fails. */
  method Report(fails: Issue -> bool, es: seq<Issue>, e: Issue) returns (r: seq<Issue>)
    requires es == Failing(fails, IssueRank(e))
    ensures r == Failing(fails, IssueRank(e) + 1)
  {
    IssueAtRank(e);
    r := es;
    if fails(e) {
      r := r + [e];
    }
  }

  /** `validate`: the checks run one after another, in the order `IssueAt`
      lists them, and each failure adds its problem; the submission is
      accepted exactly when none was added, and otherwise the problems found
      are reported in checking order. */
  method Validate(s: BenchmarkSubmission) returns (r: Result<(), seq<Issue>>)
    ensures r.Ok? <==> Acceptable(s, Recognised(s.resolution))
    ensures r.Err? ==> r.error == Failing(ChecksOf(s, Recognised(s.resolution)), IssueCount) && r.error != []
  {
    var known := Recognised(s.resolution);
    var fails := ChecksOf(s, known);
    var es := [];
    var i := 0;
    while i < IssueCount
      invariant i <= IssueCount && es == Failing(fails, i)
    {
      es := Report(fails, es, IssueAt(i));
      i := i + 1;
    }
    AcceptableIffNothingFails(s, known);
    if es == [] {
      r := Ok(());
    } else {
      r := Err(es);
    }
  }

  lemma AverageVerdict(s: BenchmarkSubmission, known: bool)
    ensures AvgAcceptable(s) <==>
      !Violates(s, known, AvgNotFinite) && !Violates(s, known, AvgTooLow) && !Violates(s, known, AvgTooHigh)
  {
  }

  lemma Low1Verdict(s: BenchmarkSubmission, known: bool)
    requires AvgAcceptable(s)
    ensures Low1Acceptable(s) <==>
      !Violates(s, known, Low1AboveAvg) && !Violates(s, known, Low1TooLow) && !Violates(s, known, Low1TooHigh) && !Violates(s, known, Low1NotFinite)
  {
  }

  lemma Low01Verdict(s: BenchmarkSubmission, known: bool)
    requires AvgAcceptable(s) && Low1Acceptable(s)
    ensures Low01Acceptable(s) <==>
      !Violates(s, known, Low01TooLow) && !Violates(s, known, Low01TooHigh) && !Violates(s, known, Low01AboveAvg) && !Violates(s, known, Low01AboveLow1)
  {
  }

  lemma GameChecks(s: BenchmarkSubmission, known: bool)
    ensures Violates(s, known, GameEmpty) <==> Trim(s.game) == []
    ensures Violates(s, known, GameTooLong) <==> Utf8Len(Trim(s.game)) > 120
  {
  }

  lemma PresetChecks(s: BenchmarkSubmission, known: bool)
    ensures Violates(s, known, ResolutionUnrecognised) <==> !known
    ensures Violates(s, known, PresetEmpty) <==> Trim(s.preset) == []
  {
  }

  lemma UpscalingCheck(s: BenchmarkSubmission, known: bool)
    ensures Violates(s, known, UpscalingTooLong) <==> s.upscaling.Some? && Utf8Len(Trim(s.upscaling.value)) > 64
  {
  }

  lemma TextVerdict(s: BenchmarkSubmission, known: bool)
    ensures TextAcceptable(s, known) <==>
      !Violates(s, known, ResolutionUnrecognised) && !Violates(s, known, GameEmpty) && !Violates(s, known, GameTooLong) &&
      !Violates(s, known, PresetEmpty) && !Violates(s, known, UpscalingTooLong)
  {
    GameChecks(s, known);
    PresetChecks(s, known);
    UpscalingCheck(s, known);
  }

  /** Acceptable exactly when no check fails. */
  lemma AcceptableIffNoViolation(s: BenchmarkSubmission, known: bool)
    ensures Acceptable(s, known) <==> forall e :: !Violates(s, known, e)
  {
    AverageVerdict(s, known);
    TextVerdict(s, known);
    if AvgAcceptable(s) {
      Low1Verdict(s, known);
      if Low1Acceptable(s) {
        Low01Verdict(s, known);
      }
    }
    if forall e :: !Violates(s, known, e) {
      assert !Violates(s, known, AvgNotFinite) && !Violates(s, known, AvgTooLow) && !Violates(s, known, AvgTooHigh);
      assert !Violates(s, known, Low1AboveAvg) && !Violates(s, known, Low1TooLow) && !Violates(s, known, Low1TooHigh) && !Violates(s, known, Low1NotFinite);
      assert !Violates(s, known, Low01TooLow) && !Violates(s, known, Low01TooHigh) && !Violates(s, known, Low01AboveAvg) && !Violates(s, known, Low01AboveLow1);
      assert !Violates(s, known, ResolutionUnrecognised) && !Violates(s, known, GameEmpty) && !Violates(s, known, GameTooLong);
      assert !Violates(s, known, PresetEmpty) && !Violates(s, known, UpscalingTooLong);
    } else {
      var e :| Violates(s, known, e);
      assert IssueRank(e) < 16;
    }
  }

  /** Nothing is reported exactly for an acceptable submission. */
  lemma AcceptableIffNothingFails(s: BenchmarkSubmission, known: bool)
    ensures Acceptable(s, known) <==> Failing(ChecksOf(s, known), IssueCount) == []
  {
    var fails := ChecksOf(s, known);
    AcceptableIffNoViolation(s, known);
    NothingFailsIff(fails);
    forall e
      ensures fails(e) == Violates(s, known, e)
    {
    }
  }

  /** The problems reported are exactly those the submission has, each once,
      in checking order. */
  lemma ReportedExactly(s: BenchmarkSubmission, known: bool)
    ensures InCheckOrder(Failing(ChecksOf(s, known), IssueCount))
    ensures forall e :: e in Failing(ChecksOf(s, known), IssueCount) <==> Violates(s, known, e)
  {
    FailingInOrder(ChecksOf(s, known), IssueCount);
    FailingMembers(ChecksOf(s, known), IssueCount);
  }

  /** A NaN 0.1% low never fails a check: every comparison with NaN is
      false and that field has no finiteness check. */
  lemma NaNLow01NeverFails(s: BenchmarkSubmission, known: bool, e: Issue)
    requires s.fps01Low == Some(NaN)
    ensures e in {Low01TooLow, Low01TooHigh, Low01AboveAvg, Low01AboveLow1} ==> !Violates(s, known, e)
  {
  }

  /* ------------------------------------------------------------- response */

  /** The server's answer to a submission; counters are left out. */
  datatype SubmissionResponse = SubmissionResponse(
    id: string, message: string, status: Option<string>, rejectionReasons: seq<string>, deleteToken: Option<string>)

  /** `effective_id`: the trimmed id, or nothing when blank. */
  function EffectiveId(r: SubmissionResponse): (id: Option<string>)
    ensures id.None? <==> Trim(r.id) == []
    ensures id.Some? ==> id.value == Trim(r.id) && IsTrimmed(id.value)
  {
    var t := Trim(r.id);
    if t == [] then None else Some(t)
  }

  /** `is_rejected`: the status reads `rejected` in any ASCII case. */
  predicate IsRejected(r: SubmissionResponse)
  {
    r.status.Some? && EqIgnoreAsciiCase(r.status.value, "rejected")
  }

  /** Whether a response is rejected does not depend on the case of its
      status. */
  lemma RejectionIgnoresCase(r: SubmissionResponse, status: string)
    requires r.status.Some? && AsciiLower(status) == AsciiLower(r.status.value)
    ensures IsRejected(r.(status := Some(status))) == IsRejected(r)
  {
  }

  const DefaultRejection: string := "Submission rejected by server"

  /** `rejection_summary`: the reasons joined with `, `, else the message
      when it is not blank, else a fixed text. */
  function RejectionSummary(r: SubmissionResponse): (t: string)
    ensures r.rejectionReasons != [] ==> t == Join(r.rejectionReasons, ", ")
    ensures r.rejectionReasons == [] && Trim(r.message) != [] ==> t == r.message
    ensures r.rejectionReasons == [] && Trim(r.message) == [] ==> t == DefaultRejection
  {
    if r.rejectionReasons != [] then Join(r.rejectionReasons, ", ")
    else if Trim(r.message) == [] then DefaultRejection
    else r.message
  }

  /** The summary is empty only when the reasons are a single empty
      string. */
  lemma SummaryEmptyOnlyForOneEmptyReason(r: SubmissionResponse)
    ensures RejectionSummary(r) == [] <==> r.rejectionReasons == [""]
  {
    if r.rejectionReasons == [] && Trim(r.message) != [] {
      assert |Trim(r.message)| <= |r.message|;
    }
  }
}
