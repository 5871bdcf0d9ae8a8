/** Live capture around the stream reader: the option checks made before
    any capture, the choice of source, the adaptive poll interval, the
    focus tracker, and the quality summary built from the collected frame
    times. Clocks and the foreground-process probe are inputs: a time is
    a number of milliseconds on a monotonic clock. */
module LiveCapture {
  import opened Wrappers
  import opened Text
  import opened Float
  import opened ProcessFocus
  import opened FrameStats

  datatype CaptureSource = Auto | MangoHud | PresentMon

  datatype FocusPolicy = Strict | Lenient

  /** `LiveCaptureOptions`; the capture file is reduced to whether one was
      given. */
  datatype LiveCaptureOptions = LiveCaptureOptions(
    source: CaptureSource, durationSecs: nat, file: Option<string>, gameHint: Option<string>,
    processName: Option<string>, focusPolicy: FocusPolicy, pauseOnUnfocus: bool, pollMs: nat,
    processValidation: bool, maxFrameTimeMs: F64, strictUnfocusGraceMs: nat)

  /* ------------------------------------------------------- option checks */

  /** Why `run_live_capture` refuses its options. */
  datatype OptionsError = DurationTooShort | DurationTooLong | PollOutOfRange | GraceOutOfRange | BadMaxFrameTime

  /** The ranges a capture accepts. */
  predicate OptionsInRange(o: LiveCaptureOptions)
  {
    10 <= o.durationSecs <= 900 && 50 <= o.pollMs <= 500 &&
    100 <= o.strictUnfocusGraceMs <= 10000 &&
    o.maxFrameTimeMs.Finite? && o.maxFrameTimeMs.value > 0.0
  }

  /** The checks at the top of `run_live_capture`, in their order: the
      first failing one is reported. */
  function ValidateOptions(o: LiveCaptureOptions): (r: Option<OptionsError>)
    ensures r.None? <==> OptionsInRange(o)
    ensures r == Some(DurationTooShort) <==> o.durationSecs < 10
    ensures r == Some(DurationTooLong) <==> o.durationSecs > 900
    ensures r == Some(PollOutOfRange) <==> 10 <= o.durationSecs <= 900 && !(50 <= o.pollMs <= 500)
    ensures r == Some(GraceOutOfRange) <==>
      10 <= o.durationSecs <= 900 && 50 <= o.pollMs <= 500 && !(100 <= o.strictUnfocusGraceMs <= 10000)
    ensures r == Some(BadMaxFrameTime) <==>
      10 <= o.durationSecs <= 900 && 50 <= o.pollMs <= 500 && 100 <= o.strictUnfocusGraceMs <= 10000 &&
      !(o.maxFrameTimeMs.Finite? && o.maxFrameTimeMs.value > 0.0)
  {
    if o.durationSecs < 10 then Some(DurationTooShort)
    else if o.durationSecs > 900 then Some(DurationTooLong)
    else if !(50 <= o.pollMs <= 500) then Some(PollOutOfRange)
    else if !(100 <= o.strictUnfocusGraceMs <= 10000) then Some(GraceOutOfRange)
    else if !IsFinite(o.maxFrameTimeMs) || !Positive(o.maxFrameTimeMs) then Some(BadMaxFrameTime)
    else None
  }

  /** Why no source could be chosen. */
  datatype SourceError = NotAMangoHudFile | NoSourceFound

  /** `resolve_source`. An explicit source is kept. With `auto`, a given
      file is MangoHud when it looks like a MangoHud log, else PresentMon on
      Windows and an error elsewhere; without a file, PresentMon when it is
      installed (Windows only), else MangoHud when a log exists. The file
      test and the probes are inputs. */
  function ResolveSource(o: LiveCaptureOptions, fileLooksLikeMangoHud: bool, windows: bool,
                         presentMonInstalled: bool, mangoHudLogExists: bool): (r: Result<CaptureSource, SourceError>)
    ensures r.Ok? ==> r.value != Auto
    ensures o.source != Auto ==> r == Ok(o.source)
    ensures o.source == Auto && o.file.Some? && fileLooksLikeMangoHud ==> r == Ok(MangoHud)
    ensures r.Ok? && r.value == PresentMon && o.source == Auto ==> windows
  {
    if o.source != Auto then Ok(o.source)
    else if o.file.Some? then
      if fileLooksLikeMangoHud then Ok(MangoHud)
      else if windows then Ok(PresentMon)
      else Err(NotAMangoHudFile)
    else if windows && presentMonInstalled then Ok(PresentMon)
    else if mangoHudLogExists then Ok(MangoHud)
    else Err(NoSourceFound)
  }

  /* ------------------------------------------------------ adaptive polling */

  const MinPollMs: nat := 50
  const MaxPollMs: nat := 500

  /** `adjust_poll_interval`: both inputs are first clamped to 50..500 ms.
      No new samples backs off by 25 ms; a flood of samples polls as fast
      as possible; otherwise the interval follows the base. */
  function AdjustPollInterval(current: nat, base: nat, newSamples: nat): (r: nat)
    ensures MinPollMs <= r <= MaxPollMs
    ensures newSamples == 0 ==> r == MinInt(ClampInt(current, 50, 500) + 25, 500)
    ensures newSamples >= 350 ==> r == 50
    ensures 180 <= newSamples < 350 ==> r == MinInt(ClampInt(base, 50, 500), 75)
    ensures 1 <= newSamples <= 10 ==> r == MinInt(ClampInt(base, 50, 500) + 25, 250)
    ensures 10 < newSamples < 180 ==> r == ClampInt(base, 50, 500)
  {
    var b := ClampInt(base, 50, 500);
    var c := ClampInt(current, 50, 500);
    if newSamples == 0 then MinInt(c + 25, 500)
    else if newSamples >= 350 then 50
    else if newSamples >= 180 then MinInt(b, 75)
    else if newSamples <= 10 then MinInt(b + 25, 250)
    else b
  }

  /** With a base of at most 250 ms, more new samples never make the next
      poll slower. */
  lemma PollAntitoneForModerateBase(current: nat, base: nat, m: nat, n: nat)
    requires ClampInt(base, 50, 500) <= 250
    requires 1 <= m <= n
    ensures AdjustPollInterval(current, base, n) <= AdjustPollInterval(current, base, m)
  {
  }

  /** Above a base of 250 ms the rule is not monotone: a handful of new
      samples polls sooner (at most 250 ms) than a moderate batch (the
      base). */
  lemma PollNotAntitoneForSlowBase(current: nat, base: nat)
    requires 250 < base <= 500
    ensures AdjustPollInterval(current, base, 5) < AdjustPollInterval(current, base, 50)
  {
  }

  /** The interval after `k` polls that found nothing. */
  function IdlePolls(current: nat, base: nat, k: nat): (r: nat)
    ensures MinPollMs <= r <= MaxPollMs
  {
    if k == 0 then ClampInt(current, 50, 500) else AdjustPollInterval(IdlePolls(current, base, k - 1), base, 0)
  }

  /** Idle polling backs off linearly, 25 ms per empty poll, up to 500 ms. */
  lemma {:induction false} IdlePollsBackOff(current: nat, base: nat, k: nat)
    ensures IdlePolls(current, base, k) == MinInt(ClampInt(current, 50, 500) + 25 * k, 500)
  {
    if k > 0 {
      IdlePollsBackOff(current, base, k - 1);
    }
  }

  /* -------------------------------------------------------- quality score */

  const I32Min: int := -0x8000_0000
  const I32Max: int := 0x7FFF_FFFF

  /** Two's-complement reduction to 32 bits: the `as i32` cast of an
      integer, and the result of an `i32` operation that overflows in a
      release build. */
  function WrapI32(x: int): (r: int)
    ensures I32Min <= r <= I32Max
    ensures I32Min <= x <= I32Max ==> r == x
    ensures (r - x) % 0x1_0000_0000 == 0
  {
    (x - I32Min) % 0x1_0000_0000 + I32Min
  }

  /** `f64 as i32`: saturating. */
  function SatI32(x: int): (r: int)
    ensures I32Min <= r <= I32Max
    ensures I32Min <= x <= I32Max ==> r == x
  {
    ClampInt(x, I32Min, I32Max)
  }

  /** `compute_capture_quality_score` as written: an `i32` score from 100,
      with every count cast to `i32` first. A count of 2^31 or more wraps to
      a negative number, and its penalty then raises the score. */
  function QualityScoreAsWritten(frameCount: nat, focusPauses: nat, dropped: nat, mismatch: bool,
                                 longestUnfocusedMs: nat, spikeRatio: real): (r: nat)
    ensures r <= 100
  {
    var s1 := if frameCount < 120 then 90 else 100;
    var s2 := WrapI32(s1 - MinInt(WrapI32(WrapI32(focusPauses) * 5), 35));
    var s3 := if dropped > 0 then WrapI32(s2 - MinInt(WrapI32(TruncDiv(WrapI32(dropped), 50) + 5), 30)) else s2;
    var s4 := if mismatch then WrapI32(s3 - 40) else s3;
    var s5 := if longestUnfocusedMs > 0 then WrapI32(s4 - MinInt(WrapI32(TruncDiv(WrapI32(longestUnfocusedMs), 1000) * 5), 20)) else s4;
    var s6 := if spikeRatio > 0.0 then WrapI32(s5 - SatI32(Round(spikeRatio * 100.0))) else s5;
    ClampInt(s6, 0, 100)
  }

  /** The penalties of the score, each capped, over unbounded integers. */
  function PausePenalty(focusPauses: nat): nat { MinInt(focusPauses * 5, 35) }

  function DropPenalty(dropped: nat): nat { if dropped > 0 then MinInt(dropped / 50 + 5, 30) else 0 }

  function UnfocusPenalty(longestUnfocusedMs: nat): nat
  {
    if longestUnfocusedMs > 0 then MinInt(longestUnfocusedMs / 1000 * 5, 20) else 0
  }

  function SpikePenalty(spikeRatio: real): nat { if spikeRatio > 0.0 then Round(spikeRatio * 100.0) else 0 }

  function QualityPenalty(frameCount: nat, focusPauses: nat, dropped: nat, mismatch: bool,
                          longestUnfocusedMs: nat, spikeRatio: real): (p: nat)
  {
    (if frameCount < 120 then 10 else 0) + PausePenalty(focusPauses) + DropPenalty(dropped) +
    (if mismatch then 40 else 0) + UnfocusPenalty(longestUnfocusedMs) + SpikePenalty(spikeRatio)
  }

  /** The capture quality score with the penalties the code evidently
      intends: 100 minus the capped penalties, floored at 0. */
  function QualityScore(frameCount: nat, focusPauses: nat, dropped: nat, mismatch: bool,
                        longestUnfocusedMs: nat, spikeRatio: real): (r: nat)
    ensures r <= 100
    ensures r == 100 <==> QualityPenalty(frameCount, focusPauses, dropped, mismatch, longestUnfocusedMs, spikeRatio) == 0
  {
    MaxInt(100 - QualityPenalty(frameCount, focusPauses, dropped, mismatch, longestUnfocusedMs, spikeRatio), 0)
  }

  /** A clean capture (at least 120 frames and no pause, drop, mismatch,
      unfocused time or spike) scores 100. */
  lemma CleanCaptureScoresFull(frameCount: nat)
    requires frameCount >= 120
    ensures QualityScore(frameCount, 0, 0, false, 0, 0.0) == 100
  {
  }

  lemma RoundMonotone(x: real, y: real)
    requires x <= y
    ensures Round(x) <= Round(y)
  {
  }

  /** Each capped penalty grows with its input. */
  lemma PenaltiesMonotone(p1: nat, d1: nat, l1: nat, s1: real, p2: nat, d2: nat, l2: nat, s2: real)
    requires p1 <= p2 && d1 <= d2 && l1 <= l2 && s1 <= s2
    ensures PausePenalty(p1) <= PausePenalty(p2)
    ensures DropPenalty(d1) <= DropPenalty(d2)
    ensures UnfocusPenalty(l1) <= UnfocusPenalty(l2)
    ensures SpikePenalty(s1) <= SpikePenalty(s2)
  {
    assert d1 / 50 <= d2 / 50 && l1 / 1000 <= l2 / 1000;
    if s1 > 0.0 {
      RoundMonotone(s1 * 100.0, s2 * 100.0);
    }
  }

  /** Every penalty input can only lower the score: fewer frames, more
      pauses, more drops, a mismatch, a longer unfocused spell or more
      spikes never raise it. */
  lemma QualityScoreAntitone(f1: nat, p1: nat, d1: nat, m1: bool, l1: nat, s1: real,
                             f2: nat, p2: nat, d2: nat, m2: bool, l2: nat, s2: real)
    requires f2 <= f1 && p1 <= p2 && d1 <= d2 && (m1 ==> m2) && l1 <= l2 && s1 <= s2
    ensures QualityScore(f2, p2, d2, m2, l2, s2) <= QualityScore(f1, p1, d1, m1, l1, s1)
  {
    PenaltiesMonotone(p1, d1, l1, s1, p2, d2, l2, s2);
  }

  /** On counts below 2^31 (pauses below 2^31 / 5) each wrapped penalty of
      the code as written is the intended one. */
  lemma WrappedPenaltiesAgree(focusPauses: nat, dropped: nat, longestUnfocusedMs: nat, spikeRatio: real)
    requires focusPauses * 5 <= I32Max && dropped <= I32Max && longestUnfocusedMs <= I32Max
    requires 0.0 <= spikeRatio <= 1.0
    ensures MinInt(WrapI32(WrapI32(focusPauses) * 5), 35) == PausePenalty(focusPauses)
    ensures dropped > 0 ==> MinInt(WrapI32(TruncDiv(WrapI32(dropped), 50) + 5), 30) == DropPenalty(dropped)
    ensures longestUnfocusedMs > 0 ==>
      MinInt(WrapI32(TruncDiv(WrapI32(longestUnfocusedMs), 1000) * 5), 20) == UnfocusPenalty(longestUnfocusedMs)
    ensures spikeRatio > 0.0 ==> SatI32(Round(spikeRatio * 100.0)) == SpikePenalty(spikeRatio) <= 100
  {
    if spikeRatio > 0.0 {
      RoundMonotone(spikeRatio * 100.0, 100.0);
    }
  }

  /** On the counts a capture can produce (each below 2^31, pauses below
      2^31 / 5) and a spike ratio in [0, 1], the code as written computes
      the intended score. */
  lemma QualityScoreAgrees(frameCount: nat, focusPauses: nat, dropped: nat, mismatch: bool,
                           longestUnfocusedMs: nat, spikeRatio: real)
    requires focusPauses * 5 <= I32Max && dropped <= I32Max && longestUnfocusedMs <= I32Max
    requires 0.0 <= spikeRatio <= 1.0
    ensures QualityScoreAsWritten(frameCount, focusPauses, dropped, mismatch, longestUnfocusedMs, spikeRatio)
         == QualityScore(frameCount, focusPauses, dropped, mismatch, longestUnfocusedMs, spikeRatio)
  {
    WrappedPenaltiesAgree(focusPauses, dropped, longestUnfocusedMs, spikeRatio);
  }

  /** `QualityScoreAgrees` as an implication, for use inside a function. */
  lemma QualityScoreAgreesBelowWrap(frameCount: nat, focusPauses: nat, dropped: nat, mismatch: bool,
                                    longestUnfocusedMs: nat, spikeRatio: real)
    requires 0.0 <= spikeRatio <= 1.0
    ensures focusPauses * 5 <= I32Max && dropped <= I32Max && longestUnfocusedMs <= I32Max ==>
      QualityScoreAsWritten(frameCount, focusPauses, dropped, mismatch, longestUnfocusedMs, spikeRatio)
      == QualityScore(frameCount, focusPauses, dropped, mismatch, longestUnfocusedMs, spikeRatio)
  {
    if focusPauses * 5 <= I32Max && dropped <= I32Max && longestUnfocusedMs <= I32Max {
      QualityScoreAgrees(frameCount, focusPauses, dropped, mismatch, longestUnfocusedMs, spikeRatio);
    }
  }

  /** The wrap-around in the code as written: 2^31 dropped samples score
      100 while a single dropped sample scores 95. */
  lemma QualityScoreWrapsOnHugeDropCount()
    ensures QualityScoreAsWritten(120, 0, 0x8000_0000, false, 0, 0.0) == 100
    ensures QualityScoreAsWritten(120, 0, 1, false, 0, 0.0) == 95
    ensures QualityScore(120, 0, 0x8000_0000, false, 0, 0.0) == 70
  {
    assert WrapI32(0x8000_0000) == I32Min;
    assert TruncDiv(I32Min, 50) == -42949672;
  }

  /** `compute_dropped_sample_ratio`: dropped over kept plus dropped, with
      the `usize` sum saturating; 0 when both are 0. */
  function DroppedRatio(frameCount: nat, dropped: nat): (r: real)
    requires dropped <= U64Max
    ensures 0.0 <= r <= 1.0
    ensures frameCount + dropped == 0 ==> r == 0.0
    ensures 0 < frameCount + dropped <= U64Max ==> r * (frameCount + dropped) as real == dropped as real
    ensures r > 0.0 <==> dropped > 0
  {
    Ratio(dropped, MinInt(frameCount + dropped, U64Max))
  }

  /* ---------------------------------------------------------- the result */

  /** What the capture loop gathered besides the samples. */
  datatype CaptureDiagnostics = CaptureDiagnostics(
    targetProcess: Option<string>, focusPauses: nat, samplesDroppedUnfocused: nat,
    processValidationEnabled: bool, processMismatchDetected: bool,
    longestUnfocusedMs: nat, totalUnfocusedMs: nat)

  /** `init_capture_diagnostics`: nothing counted yet; process validation
      is on only when requested and a process name is given. */
  function InitDiagnostics(o: LiveCaptureOptions): (d: CaptureDiagnostics)
    ensures d.processValidationEnabled <==> o.processValidation && o.processName.Some?
    ensures d.targetProcess == o.processName
    ensures d.focusPauses == 0 && d.samplesDroppedUnfocused == 0 && !d.processMismatchDetected
    ensures d.longestUnfocusedMs == 0 && d.totalUnfocusedMs == 0
  {
    CaptureDiagnostics(o.processName, 0, 0, o.processValidation && o.processName.Some?, false, 0, 0)
  }

  /** `monitor_focus_enabled`. */
  predicate MonitorFocusEnabled(o: LiveCaptureOptions, d: CaptureDiagnostics)
  {
    o.pauseOnUnfocus || d.processValidationEnabled || o.focusPolicy == Strict
  }

  /** Process validation always comes with focus monitoring, so a
      mismatch can be observed whenever it would fail the capture. */
  lemma ValidationMonitorsFocus(o: LiveCaptureOptions)
    requires InitDiagnostics(o).processValidationEnabled
    ensures MonitorFocusEnabled(o, InitDiagnostics(o))
  {
  }

  /** `LiveCaptureResult` without the capture timestamps' formatting. */
  datatype LiveCaptureResult = LiveCaptureResult(
    source: string, capturePath: Option<string>, gameHint: Option<string>, startedAt: int, endedAt: int,
    durationSecs: real, frameCount: nat, avgFps: real, fps1Low: real, fps01Low: Option<real>,
    minFps: real, maxFps: real, targetProcess: Option<string>, focusPauses: nat,
    samplesDroppedUnfocused: nat, captureQualityScore: nat, longestUnfocusedMs: nat,
    totalUnfocusedMs: nat, droppedSampleRatio: real, stutterSpikeCount: nat,
    stutterSpikeRatio: real, unstableCapture: bool)

  /** A live capture needs this many valid samples. */
  const MinLiveSamples: nat := 60

  /** A frame time `build_result` keeps: finite, positive and at most the
      maximum (a comparison with a NaN maximum fails). */
  predicate LiveFrame(x: F64, maxFrameTime: F64)
  {
    x.Finite? && x.value > 0.0 && (maxFrameTime.PosInf? || (maxFrameTime.Finite? && x.value <= maxFrameTime.value))
  }

  function ValidFrames(ts: seq<F64>, maxFrameTime: F64): (r: seq<real>)
    ensures |r| <= |ts|
    ensures forall i :: 0 <= i < |r| ==> r[i] > 0.0
    ensures maxFrameTime.Finite? ==> forall i :: 0 <= i < |r| ==> r[i] <= maxFrameTime.value
  {
    if ts == [] then []
    else ValidFrames(ts[..|ts| - 1], maxFrameTime) + (if LiveFrame(ts[|ts| - 1], maxFrameTime) then [ts[|ts| - 1].value] else [])
  }

  /** With a finite maximum the filter is the one of the statistics. */
  lemma {:induction false} ValidFramesAreKept(ts: seq<F64>, c: real)
    ensures ValidFrames(ts, Finite(c)) == KeepFrames(ts, c)
    decreases |ts|
  {
    if ts != [] {
      ValidFramesAreKept(ts[..|ts| - 1], c);
    }
  }

  /** `unstable_capture`. */
  predicate Unstable(score: nat, droppedRatio: real, spikeRatio: real, longestUnfocusedMs: nat)
  {
    score < 70 || droppedRatio > 0.10 || spikeRatio > 0.08 || longestUnfocusedMs > 5000
  }

  /** The summary of at least one valid sample: the statistics, the spike
      metrics on the kept samples, the dropped ratio and the quality score
      as written, which is the intended one on every count below 2^31. */
  function Summarize(valid: seq<real>, source: string, capturePath: Option<string>, gameHint: Option<string>,
                     startedAt: int, endedAt: int, durationSecs: real, maxFrameTime: F64,
                     diag: CaptureDiagnostics): (res: LiveCaptureResult)
    requires valid != [] && forall i :: 0 <= i < |valid| ==> valid[i] > 0.0
    requires diag.samplesDroppedUnfocused <= U64Max
    ensures res.frameCount == |valid|
    ensures res.fps01Low.Some? <==> res.frameCount >= 1000
    ensures res.minFps <= res.fps1Low <= res.maxFps && res.minFps <= res.avgFps <= res.maxFps
    ensures res.fps01Low.Some? ==> res.minFps <= res.fps01Low.value <= res.maxFps
    ensures res.droppedSampleRatio == DroppedRatio(|valid|, diag.samplesDroppedUnfocused)
    ensures res.stutterSpikeRatio == SpikeRatio(FrameData(Finites(valid), gameHint, durationSecs, source), maxFrameTime)
    ensures res.captureQualityScore == QualityScoreAsWritten(|valid|, diag.focusPauses, diag.samplesDroppedUnfocused,
                                                    diag.processMismatchDetected, diag.longestUnfocusedMs, res.stutterSpikeRatio)
    ensures diag.focusPauses * 5 <= I32Max && diag.samplesDroppedUnfocused <= I32Max && diag.longestUnfocusedMs <= I32Max ==>
      res.captureQualityScore == QualityScore(|valid|, diag.focusPauses, diag.samplesDroppedUnfocused,
                                              diag.processMismatchDetected, diag.longestUnfocusedMs, res.stutterSpikeRatio)
    ensures res.unstableCapture <==> Unstable(res.captureQualityScore, res.droppedSampleRatio, res.stutterSpikeRatio, diag.longestUnfocusedMs)
    ensures res.focusPauses == diag.focusPauses && res.samplesDroppedUnfocused == diag.samplesDroppedUnfocused
    ensures res.longestUnfocusedMs == diag.longestUnfocusedMs && res.totalUnfocusedMs == diag.totalUnfocusedMs
    ensures res.targetProcess == diag.targetProcess && res.gameHint == gameHint && res.durationSecs == durationSecs
  {
    var n := |valid|;
    var avgFt := Sum(valid) / n as real;
    StatsOrdered(valid, avgFt);
    var sorted := SortReals(valid);
    var low01 := if n >= 1000 then Some(1000.0 / sorted[PercentileIndex(n, 0.999)]) else None;
    var rates := Rates(valid);
    var quality := FrameData(Finites(valid), gameHint, durationSecs, source);
    var spikeRatio := SpikeRatio(quality, maxFrameTime);
    var dropped := DroppedRatio(n, diag.samplesDroppedUnfocused);
    var score := QualityScoreAsWritten(n, diag.focusPauses, diag.samplesDroppedUnfocused,
                                       diag.processMismatchDetected, diag.longestUnfocusedMs, spikeRatio);
    QualityScoreAgreesBelowWrap(n, diag.focusPauses, diag.samplesDroppedUnfocused,
                                diag.processMismatchDetected, diag.longestUnfocusedMs, spikeRatio);
    LiveCaptureResult(source, capturePath, gameHint, startedAt, endedAt, durationSecs, n,
                      1000.0 / avgFt, 1000.0 / sorted[PercentileIndex(n, 0.99)], low01,
                      MinOf(rates), MaxOf(rates), diag.targetProcess, diag.focusPauses,
                      diag.samplesDroppedUnfocused, score, diag.longestUnfocusedMs, diag.totalUnfocusedMs,
                      dropped, SpikeCount(quality, maxFrameTime), spikeRatio,
                      Unstable(score, dropped, spikeRatio, diag.longestUnfocusedMs))
  }

  /** `build_result`: filter the samples, refuse fewer than 60 (reporting
      the count), then summarise them. */
  function BuildResult(frameTimes: seq<F64>, source: string, capturePath: Option<string>, gameHint: Option<string>,
                       startedAt: int, endedAt: int, durationSecs: real, maxFrameTime: F64,
                       diag: CaptureDiagnostics): (r: Result<LiveCaptureResult, nat>)
    requires diag.samplesDroppedUnfocused <= U64Max
    ensures var valid := ValidFrames(frameTimes, maxFrameTime);
      (r.Err? <==> |valid| < MinLiveSamples) &&
      (r.Err? ==> r.error == |valid|) &&
      (r.Ok? ==> r.value == Summarize(valid, source, capturePath, gameHint, startedAt, endedAt, durationSecs, maxFrameTime, diag) &&
                 0.0 <= r.value.droppedSampleRatio <= 1.0 && 0.0 <= r.value.stutterSpikeRatio <= 1.0)
  {
    var valid := ValidFrames(frameTimes, maxFrameTime);
    if |valid| < MinLiveSamples then Err(|valid|)
    else Ok(Summarize(valid, source, capturePath, gameHint, startedAt, endedAt, durationSecs, maxFrameTime, diag))
  }

  /** More than one dropped sample per nine kept ones pushes the dropped
      ratio over 10 %, which alone marks a built result unstable. */
  lemma HeavyDropsAreUnstable(n: nat, d: nat)
    requires 0 < n + d <= U64Max && 9 * d > n
    ensures DroppedRatio(n, d) > 0.10
  {
    var q := DroppedRatio(n, d);
    var t := (n + d) as real;
    assert q * t == d as real;
    assert (q - 0.10) * t == q * t - 0.10 * t;
    assert d as real - 0.10 * t > 0.0;
    PositiveFactor(q - 0.10, t);
  }

  lemma PositiveFactor(a: real, t: real)
    requires t > 0.0 && a * t > 0.0
    ensures a > 0.0
  {
  }

  /** A steady sample set (every frame within 1.75 times the shortest),
      below a finite maximum, has no stutter spikes; with at least 120
      frames and no focus trouble the result scores 100 and is stable. */
  lemma SteadyCleanCaptureIsStable(vs: seq<real>, c: real, gameHint: Option<string>, durationSecs: real, source: string)
    requires vs != [] && forall i :: 0 <= i < |vs| ==> 0.0 < vs[i] <= c
    requires forall i :: 0 <= i < |vs| ==> vs[i] < MinOf(vs) * 1.75
    ensures SpikeRatio(FrameData(Finites(vs), gameHint, durationSecs, source), Finite(c)) == 0.0
    ensures |vs| >= 120 ==> !Unstable(QualityScoreAsWritten(|vs|, 0, 0, false, 0, 0.0), DroppedRatio(|vs|, 0), 0.0, 0)
  {
    var quality := FrameData(Finites(vs), gameHint, durationSecs, source);
    KeepFramesOfKept(vs, c);
    assert Sanitized(quality, Finite(c)) == vs;
    SteadyCaptureHasNoSpikes(quality, Finite(c));
  }

  /* --------------------------------------------------------- focus tracking */

  /** `should_collect_for_target_process`: without a target, or when the
      foreground process is unknown, samples are collected; otherwise only
      while the foreground process matches the target. */
  predicate ShouldCollectForTarget(targetNormalized: Option<string>, active: Option<string>)
  {
    match targetNormalized
    case None => true
    case Some(target) =>
      match active
      case None => true
      case Some(a) => ProcessNameMatches(a, target)
  }

  /** The tracker keeps its target normalised and the match normalises it
      once more. Since normalising is not idempotent, a target spelled with
      an upper-case `.EXE` never matches a foreground process of exactly
      that name. */
  lemma UpperExeTargetMissesItself(b: string)
    requires b != [] && IsTrimmed(b) && b[0] != '"' && b[|b| - 1] != '"'
    ensures !ShouldCollectForTarget(Some(NormalizeProcessName(b + ".EXE")), Some(b + ".EXE"))
  {
    NormalizeNotIdempotent(b);
  }

  /** Milliseconds from `since` to `now`; zero when the clock reads an
      earlier time. */
  function Elapsed(since: int, now: int): (d: nat)
    ensures now >= since ==> d == now - since
  {
    if now >= since then now - since else 0
  }

  /** How often the collecting state fell from collecting to not
      collecting along `states`. */
  function Falls(states: seq<bool>): nat
  {
    if |states| < 2 then 0
    else Falls(states[..|states| - 1]) + (if states[|states| - 2] && !states[|states| - 1] then 1 else 0)
  }

  function SumNat(xs: seq<nat>): nat
  {
    if xs == [] then 0 else SumNat(xs[..|xs| - 1]) + xs[|xs| - 1]
  }

  lemma FallsSnoc(states: seq<bool>, b: bool)
    requires states != []
    ensures Falls(states + [b]) == Falls(states) + (if states[|states| - 1] && !b then 1 else 0)
  {
    assert (states + [b])[..|states|] == states;
  }

  /** `longest` is at least every finished spell. */
  ghost predicate Bounds(closed: seq<nat>, longest: nat)
  {
    forall i :: 0 <= i < |closed| ==> closed[i] <= longest
  }

  lemma BoundsSnoc(closed: seq<nat>, longest: nat, d: nat)
    requires Bounds(closed, longest)
    ensures Bounds(closed + [d], MaxInt(longest, d))
  {
  }

  lemma BoundsGrow(closed: seq<nat>, longest: nat, d: nat)
    requires Bounds(closed, longest)
    ensures Bounds(closed, MaxInt(longest, d))
  {
  }

  /** The probe found a foreground process other than the target. */
  predicate Mismatch(targetNormalized: Option<string>, active: Option<string>)
  {
    targetNormalized.Some? && active.Some? && !ProcessNameMatches(active.value, targetNormalized.value)
  }

  lemma SumNatSnoc(xs: seq<nat>, d: nat)
    ensures SumNat(xs + [d]) == SumNat(xs) + d
  {
    assert (xs + [d])[..|xs|] == xs;
  }

  /** The minimum interval between two foreground probes. */
  const ProbeIntervalMs: nat := 400

  /** `FocusTracker`: decides on each poll whether samples are collected,
      counts focus pauses and measures unfocused spells. */
  class FocusTracker {
    const targetProcessNormalized: Option<string>
    const focusPolicy: FocusPolicy
    const monitorEnabled: bool
    const pauseCollection: bool
    const strictUnfocusGraceMs: nat
    var cachedCollect: bool
    var focusPauses: nat
    var mismatchDetected: bool
    var lastProbe: int
    var unfocusedSince: Option<int>
    var totalUnfocusedMs: nat
    var longestUnfocusedMs: nat
    var strictFocusViolation: bool
    /** Every collecting state applied so far, from the initial `true`. */
    ghost var states: seq<bool>
    /** The lengths of the finished unfocused spells. */
    ghost var closed: seq<nat>

    /** The spell bookkeeping: the total is the saturated sum of the
        finished spells, the longest is at least each of them, and a strict
        violation is recorded exactly when the policy is strict and the
        longest spell exceeds the grace. */
    ghost predicate SpellsValid()
      reads this
    {
      totalUnfocusedMs == MinInt(SumNat(closed), U64Max) &&
      Bounds(closed, longestUnfocusedMs) &&
      (strictFocusViolation <==> focusPolicy == Strict && longestUnfocusedMs > strictUnfocusGraceMs)
    }

    /** Pauses count the falls of the collecting state (saturating at
        `u32::MAX`), and while the monitor runs an open spell only exists
        while not collecting. */
    ghost predicate Valid()
      reads this
    {
      states != [] && states[0] && cachedCollect == states[|states| - 1] &&
      focusPauses == MinInt(Falls(states), U32Max) &&
      (monitorEnabled && unfocusedSince.Some? ==> !cachedCollect) &&
      SpellsValid()
    }

    /** `FocusTracker::new` at time `now`: collecting, nothing counted, and
        the first probe due at once. */
    constructor (targetProcess: Option<string>, focusPolicy: FocusPolicy, monitorEnabled: bool,
                 pauseCollection: bool, strictUnfocusGraceMs: nat, now: int)
      ensures Valid()
      ensures targetProcessNormalized == (if targetProcess.Some? then Some(NormalizeProcessName(targetProcess.value)) else None)
      ensures this.focusPolicy == focusPolicy && this.monitorEnabled == monitorEnabled
      ensures this.pauseCollection == pauseCollection && this.strictUnfocusGraceMs == strictUnfocusGraceMs
      ensures cachedCollect && focusPauses == 0 && !mismatchDetected && lastProbe == now - 1000
      ensures unfocusedSince == None && totalUnfocusedMs == 0 && longestUnfocusedMs == 0 && !strictFocusViolation
    {
      targetProcessNormalized := if targetProcess.Some? then Some(NormalizeProcessName(targetProcess.value)) else None;
      this.focusPolicy := focusPolicy;
      this.monitorEnabled := monitorEnabled;
      this.pauseCollection := pauseCollection;
      this.strictUnfocusGraceMs := strictUnfocusGraceMs;
      cachedCollect := true;
      focusPauses := 0;
      mismatchDetected := false;
      lastProbe := now - 1000;
      unfocusedSince := None;
      totalUnfocusedMs := 0;
      longestUnfocusedMs := 0;
      strictFocusViolation := false;
      states := [true];
      closed := [];
    }

    /** `effective_collect`: the probe decides only when collection pauses
        on focus loss. */
    predicate EffectiveCollect(collectNow: bool)
    {
      !pauseCollection || collectNow
    }

    /** The open spell, the finished spells and the totals are as they were. */
    twostate predicate SpellsUnchanged()
      reads this
    {
      unfocusedSince == old(unfocusedSince) && closed == old(closed) &&
      totalUnfocusedMs == old(totalUnfocusedMs) && longestUnfocusedMs == old(longestUnfocusedMs) &&
      strictFocusViolation == old(strictFocusViolation)
    }

    /** The whole effect of `apply_collect_state(collectNow)` at `now`: the
        state is recorded, a fall counts a pause (saturating) and opens a
        spell at `now`; collecting closes the open spell, adding its length
        to the finished spells, the total (saturating) and the longest;
        not collecting measures the open spell against the longest; a
        strict violation is added when a measured spell exceeds the
        grace. */
    twostate predicate CollectApplied(collectNow: bool, now: int)
      reads this
    {
      var open := if old(cachedCollect) && !collectNow then Some(now) else old(unfocusedSince);
      cachedCollect == collectNow && states == old(states) + [collectNow] &&
      focusPauses == (if old(cachedCollect) && !collectNow then MinInt(old(focusPauses) + 1, U32Max) else old(focusPauses)) &&
      unfocusedSince == (if collectNow then None else open) &&
      (open.None? ==>
        closed == old(closed) && totalUnfocusedMs == old(totalUnfocusedMs) &&
        longestUnfocusedMs == old(longestUnfocusedMs) && strictFocusViolation == old(strictFocusViolation)) &&
      (open.Some? ==>
        var d := Elapsed(open.value, now);
        closed == (if collectNow then old(closed) + [d] else old(closed)) &&
        totalUnfocusedMs == (if collectNow then MinInt(old(totalUnfocusedMs) + d, U64Max) else old(totalUnfocusedMs)) &&
        longestUnfocusedMs == MaxInt(old(longestUnfocusedMs), d) &&
        (strictFocusViolation <==> old(strictFocusViolation) || (focusPolicy == Strict && d > strictUnfocusGraceMs)))
    }

    /** `finalize_unfocused_segment`: closes an open spell at `now`, adding
        its length to the total (saturating) and to the longest; nothing
        happens without an open spell. */
    method FinalizeUnfocusedSegment(now: int)
      requires SpellsValid()
      modifies this
      ensures SpellsValid() && unfocusedSince == None
      ensures cachedCollect == old(cachedCollect) && focusPauses == old(focusPauses)
      ensures mismatchDetected == old(mismatchDetected) && lastProbe == old(lastProbe) && states == old(states)
      ensures totalUnfocusedMs >= old(totalUnfocusedMs) && longestUnfocusedMs >= old(longestUnfocusedMs)
      ensures old(unfocusedSince).None? ==>
        totalUnfocusedMs == old(totalUnfocusedMs) && longestUnfocusedMs == old(longestUnfocusedMs) &&
        strictFocusViolation == old(strictFocusViolation) && closed == old(closed)
      ensures old(unfocusedSince).Some? ==>
        var d := Elapsed(old(unfocusedSince).value, now);
        totalUnfocusedMs == MinInt(old(totalUnfocusedMs) + d, U64Max) &&
        longestUnfocusedMs == MaxInt(old(longestUnfocusedMs), d) &&
        closed == old(closed) + [d] &&
        (strictFocusViolation <==> old(strictFocusViolation) || (focusPolicy == Strict && d > strictUnfocusGraceMs))
    {
      if unfocusedSince.None? {
        return;
      }
      var d := Elapsed(unfocusedSince.value, now);
      unfocusedSince := None;
      totalUnfocusedMs := MinInt(totalUnfocusedMs + d, U64Max);
      longestUnfocusedMs := MaxInt(longestUnfocusedMs, d);
      if focusPolicy == Strict && d > strictUnfocusGraceMs {
        strictFocusViolation := true;
      }
      SumNatSnoc(closed, d);
      BoundsSnoc(closed, old(longestUnfocusedMs), d);
      closed := closed + [d];
    }

    /** Measuring a spell that stays open at `now`: the longest spell
        grows to its length so far, and a strict violation is recorded
        once it exceeds the grace. */
    method MeasureOpenSpell(now: int)
      requires SpellsValid() && unfocusedSince.Some?
      modifies this
      ensures SpellsValid()
      ensures unfocusedSince == old(unfocusedSince) && totalUnfocusedMs == old(totalUnfocusedMs) && closed == old(closed)
      ensures longestUnfocusedMs == MaxInt(old(longestUnfocusedMs), Elapsed(unfocusedSince.value, now))
      ensures strictFocusViolation <==>
        old(strictFocusViolation) || (focusPolicy == Strict && Elapsed(unfocusedSince.value, now) > strictUnfocusGraceMs)
      ensures cachedCollect == old(cachedCollect) && focusPauses == old(focusPauses) && states == old(states)
      ensures mismatchDetected == old(mismatchDetected) && lastProbe == old(lastProbe)
    {
      var d := Elapsed(unfocusedSince.value, now);
      BoundsGrow(closed, longestUnfocusedMs, d);
      longestUnfocusedMs := MaxInt(longestUnfocusedMs, d);
      if focusPolicy == Strict && d > strictUnfocusGraceMs {
        strictFocusViolation := true;
      }
    }

    /** `apply_collect_state`: a fall from collecting counts a pause and
        opens a spell at `now`; collecting again closes the open spell;
        staying unfocused measures the open spell against the longest and
        the grace. */
    method ApplyCollectState(collectNow: bool, now: int)
      requires Valid()
      modifies this
      ensures Valid()
      ensures cachedCollect == collectNow && states == old(states) + [collectNow]
      ensures mismatchDetected == old(mismatchDetected) && lastProbe == old(lastProbe)
      ensures longestUnfocusedMs >= old(longestUnfocusedMs) && totalUnfocusedMs >= old(totalUnfocusedMs)
      ensures old(strictFocusViolation) ==> strictFocusViolation
      ensures collectNow ==> unfocusedSince == None
      ensures old(cachedCollect) && !collectNow ==> unfocusedSince == Some(now)
      ensures !old(cachedCollect) && !collectNow && old(unfocusedSince).Some? ==>
        unfocusedSince == old(unfocusedSince) && totalUnfocusedMs == old(totalUnfocusedMs) &&
        longestUnfocusedMs == MaxInt(old(longestUnfocusedMs), Elapsed(old(unfocusedSince).value, now))
      ensures CollectApplied(collectNow, now)
    {
      if collectNow {
        FinalizeUnfocusedSegment(now);
      } else {
        if cachedCollect {
          focusPauses := MinInt(focusPauses + 1, U32Max);
          unfocusedSince := Some(now);
        }
        if unfocusedSince.Some? {
          MeasureOpenSpell(now);
        }
      }
      FallsSnoc(states, collectNow);
      cachedCollect := collectNow;
      states := states + [collectNow];
    }

    /** Records a probe at `now` whose outcome is `collectNow`, noting a
        mismatch with the target when `mismatch` holds. */
    method RecordProbe(now: int, collectNow: bool, mismatch: bool)
      requires Valid()
      modifies this
      ensures Valid()
      ensures lastProbe == now && cachedCollect == collectNow && states == old(states) + [collectNow]
      ensures mismatchDetected == (old(mismatchDetected) || mismatch)
      ensures CollectApplied(collectNow, now)
    {
      lastProbe := now;
      mismatchDetected := mismatchDetected || mismatch;
      ApplyCollectState(collectNow, now);
    }

    /** The probing half of `should_collect`: the foreground process
        `active` decides whether to collect, and a process other than the
        target is noted as a mismatch. */
    method Probe(now: int, active: Option<string>)
      requires Valid()
      modifies this
      ensures Valid()
      ensures lastProbe == now && cachedCollect == ShouldCollectForTarget(targetProcessNormalized, active)
      ensures mismatchDetected <==> old(mismatchDetected) || Mismatch(targetProcessNormalized, active)
      ensures states == old(states) + [cachedCollect]
      ensures CollectApplied(ShouldCollectForTarget(targetProcessNormalized, active), now)
    {
      var collectNow := ShouldCollectForTarget(targetProcessNormalized, active);
      var mismatch := Mismatch(targetProcessNormalized, active);
      RecordProbe(now, collectNow, mismatch);
    }

    /** `should_collect` at time `now`, where `active` is what a probe of the
        foreground process would report. Without monitoring it always
        collects. Within 400 ms of the last probe it repeats the cached
        decision; otherwise it probes. */
    method ShouldCollect(now: int, active: Option<string>) returns (collect: bool)
      requires Valid()
      modifies this
      ensures Valid()
      ensures collect == EffectiveCollect(cachedCollect)
      ensures !monitorEnabled ==> collect && cachedCollect && focusPauses == old(focusPauses)
      ensures !monitorEnabled ==>
        states == (if old(cachedCollect) then old(states) else old(states) + [true]) &&
        lastProbe == old(lastProbe) && mismatchDetected == old(mismatchDetected) && SpellsUnchanged()
      ensures monitorEnabled && Elapsed(old(lastProbe), now) < ProbeIntervalMs ==>
        cachedCollect == old(cachedCollect) && states == old(states) && mismatchDetected == old(mismatchDetected)
      ensures monitorEnabled && Elapsed(old(lastProbe), now) < ProbeIntervalMs ==>
        lastProbe == old(lastProbe) && focusPauses == old(focusPauses) && SpellsUnchanged()
      ensures monitorEnabled && Elapsed(old(lastProbe), now) >= ProbeIntervalMs ==>
        lastProbe == now && cachedCollect == ShouldCollectForTarget(targetProcessNormalized, active)
      ensures monitorEnabled && Elapsed(old(lastProbe), now) >= ProbeIntervalMs ==>
        (mismatchDetected <==> old(mismatchDetected) || Mismatch(targetProcessNormalized, active)) &&
        CollectApplied(ShouldCollectForTarget(targetProcessNormalized, active), now)
      ensures old(mismatchDetected) ==> mismatchDetected
    {
      if !monitorEnabled {
        if !cachedCollect {
          FallsSnoc(states, true);
          states := states + [true];
          cachedCollect := true;
        }
        return true;
      }
      if Elapsed(lastProbe, now) < ProbeIntervalMs {
        return EffectiveCollect(cachedCollect);
      }
      Probe(now, active);
      collect := EffectiveCollect(cachedCollect);
    }

    /** `finalize_unfocused_tracking`: closes the open spell at the end of
        a capture. */
    method FinalizeUnfocusedTracking(now: int)
      requires Valid()
      modifies this
      ensures Valid() && unfocusedSince == None && states == old(states)
      ensures old(unfocusedSince).Some? ==> closed == old(closed) + [Elapsed(old(unfocusedSince).value, now)]
      ensures old(unfocusedSince).None? ==> closed == old(closed) && totalUnfocusedMs == old(totalUnfocusedMs)
    {
      FinalizeUnfocusedSegment(now);
    }
  }

  /** `update_diagnostics_from_focus_tracker`: copies the tracker's counts;
      a mismatch, once recorded, stays recorded. */
  function UpdateDiagnostics(d: CaptureDiagnostics, tracker: FocusTracker): (r: CaptureDiagnostics)
    reads tracker
    ensures r.focusPauses == tracker.focusPauses && r.longestUnfocusedMs == tracker.longestUnfocusedMs
    ensures r.totalUnfocusedMs == tracker.totalUnfocusedMs
    ensures r.processMismatchDetected <==> d.processMismatchDetected || tracker.mismatchDetected
    ensures r.targetProcess == d.targetProcess && r.samplesDroppedUnfocused == d.samplesDroppedUnfocused
    ensures r.processValidationEnabled == d.processValidationEnabled
  {
    d.(focusPauses := tracker.focusPauses, longestUnfocusedMs := tracker.longestUnfocusedMs,
       totalUnfocusedMs := tracker.totalUnfocusedMs,
       processMismatchDetected := d.processMismatchDetected || tracker.mismatchDetected)
  }
}
