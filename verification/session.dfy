/** A manual benchmark session: FPS samples collected while a game runs,
    with the average and percentile lows computed from them. Clock values
    are milliseconds since the epoch, passed in by the caller. */
module Session {
  import opened Wrappers
  import opened Float
  import opened FrameStats

  /** One FPS reading and its frame time. */
  datatype FpsSample = FpsSample(timestamp: int, fps: real, frameTimeMs: real)

  /** Reading the frame time back as FPS gives the reading. */
  lemma RateOfRate(f: real)
    requires f > 0.0
    ensures 1000.0 / f > 0.0 && 1000.0 / (1000.0 / f) == f
  {
    var t := 1000.0 / f;
    assert t * f == 1000.0;
  }

  /** Every sample has a positive FPS and the matching frame time. */
  ghost predicate WellFormed(ss: seq<FpsSample>)
  {
    forall i :: 0 <= i < |ss| ==> ss[i].fps > 0.0 && ss[i].frameTimeMs == 1000.0 / ss[i].fps
  }

  /** Any entry of the sorted frame times is the frame time of some
      reading, so its rate is that reading's FPS. */
  lemma SortedFrameTimeIsReading(ss: seq<FpsSample>, ft: seq<real>, idx: int)
    requires WellFormed(ss) && |ft| == |ss|
    requires forall i :: 0 <= i < |ft| ==> ft[i] == ss[i].frameTimeMs
    requires 0 <= idx < |ft|
    ensures |SortReals(ft)| == |ft|
    ensures SortReals(ft)[idx] > 0.0
    ensures exists j :: 0 <= j < |ss| && 1000.0 / SortReals(ft)[idx] == ss[j].fps
  {
    var sorted := SortReals(ft);
    ElementOfPermutation(ft, sorted, idx);
    var j :| 0 <= j < |ft| && ft[j] == sorted[idx];
    RateOfRate(ss[j].fps);
  }

  /** `floor(n * q)` is a valid index for a quantile below one. */
  lemma QuantileIndexInRange(n: nat, q: real)
    requires n > 0 && 0.0 <= q < 1.0
    ensures 0 <= Floor(n as real * q) < n
  {
    assert n as real * q < n as real;
  }

  function FrameTimesOf(ss: seq<FpsSample>): (r: seq<real>)
    ensures |r| == |ss| && forall i :: 0 <= i < |r| ==> r[i] == ss[i].frameTimeMs
  {
    seq(|ss|, i requires 0 <= i < |ss| => ss[i].frameTimeMs)
  }

  /** The FPS of the frame time at quantile `q` of the sorted frame times:
      always one of the readings. */
  function LowOf(ss: seq<FpsSample>, q: real): (r: Option<real>)
    requires WellFormed(ss) && ss != [] && 0.0 <= q < 1.0
    ensures r.Some? && exists j :: 0 <= j < |ss| && r.value == ss[j].fps
  {
    var ft := FrameTimesOf(ss);
    QuantileIndexInRange(|ss|, q);
    var idx := Floor(|ss| as real * q);
    SortedFrameTimeIsReading(ss, ft, idx);
    Some(1000.0 / SortReals(ft)[idx])
  }

  class BenchmarkSession {
    const game: string
    const resolution: string
    const preset: string
    const rayTracing: bool
    const upscaling: Option<string>
    const startedAt: int
    var endedAt: Option<int>
    var samples: seq<FpsSample>

    /** Every stored sample has a positive FPS and the matching frame time. */
    ghost predicate Valid()
      reads this
    {
      WellFormed(samples)
    }

    /** `BenchmarkSession::start`: no samples and not ended. */
    constructor Start(game: string, resolution: string, preset: string, rayTracing: bool, upscaling: Option<string>, now: int)
      ensures Valid()
      ensures this.game == game && this.resolution == resolution && this.preset == preset
      ensures this.rayTracing == rayTracing && this.upscaling == upscaling
      ensures startedAt == now && endedAt == None && samples == []
    {
      this.game := game;
      this.resolution := resolution;
      this.preset := preset;
      this.rayTracing := rayTracing;
      this.upscaling := upscaling;
      startedAt := now;
      endedAt := None;
      samples := [];
    }

    /** `add_sample`: a non-finite or non-positive FPS is ignored; any other
        reading is appended once with its frame time. */
    method AddSample(fps: F64, now: int)
      requires Valid()
      modifies this
      ensures Valid()
      ensures endedAt == old(endedAt)
      ensures !Positive(fps) || !IsFinite(fps) ==> samples == old(samples)
      ensures Positive(fps) && IsFinite(fps) ==>
        samples == old(samples) + [FpsSample(now, fps.value, 1000.0 / fps.value)]
    {
      if !IsFinite(fps) || !Positive(fps) {
        return;
      }
      samples := samples + [FpsSample(now, fps.value, 1000.0 / fps.value)];
    }

    /** `end`: records the end time and leaves the samples alone. */
    method End(now: int)
      modifies this
      ensures endedAt == Some(now) && samples == old(samples)
    {
      endedAt := Some(now);
    }

    function FpsValues(): (r: seq<real>)
      reads this
      ensures |r| == |samples| && forall i :: 0 <= i < |r| ==> r[i] == samples[i].fps
    {
      seq(|samples|, i reads this requires 0 <= i < |samples| => samples[i].fps)
    }

    /** `average_fps`: the mean reading, absent without samples. */
    function AverageFps(): (r: Option<real>)
      reads this
      ensures r.None? <==> samples == []
      ensures r.Some? ==> MinOf(FpsValues()) <= r.value <= MaxOf(FpsValues())
    {
      if samples == [] then None
      else
        var vs := FpsValues();
        AverageBetween(vs, Sum(vs) / |vs| as real);
        Some(Sum(vs) / |vs| as real)
    }

    /** `fps_1_low`: present from 100 samples on, and then the FPS of one
        of the readings (the 99th-percentile frame time). */
    function Fps1Low(): (r: Option<real>)
      requires Valid()
      reads this
      ensures r.Some? <==> |samples| >= 100
      ensures r.Some? ==> exists j :: 0 <= j < |samples| && r.value == samples[j].fps
    {
      if |samples| < 100 then None else LowOf(samples, 0.99)
    }

    /** `fps_01_low`: present from 1000 samples on. */
    function Fps01Low(): (r: Option<real>)
      requires Valid()
      reads this
      ensures r.Some? <==> |samples| >= 1000
      ensures r.Some? ==> exists j :: 0 <= j < |samples| && r.value == samples[j].fps
    {
      if |samples| < 1000 then None else LowOf(samples, 0.999)
    }

    /** `duration_secs`: from the start to the end, or to `now` while the
        session is still running. */
    function DurationSecs(now: int): (d: real)
      reads this
      ensures d * 1000.0 == (endedAt.GetOr(now) - startedAt) as real
    {
      (endedAt.GetOr(now) - startedAt) as real / 1000.0
    }

    /** `is_valid`: at least 30 samples over at least 30 seconds. */
    predicate IsValid(now: int)
      reads this
    {
      |samples| >= 30 && DurationSecs(now) >= 30.0
    }
  }

  /** A session is valid for submission exactly when it holds 30 samples
      and has run for 30 000 ms. */
  lemma IsValidByMillis(s: BenchmarkSession, now: int)
    ensures s.IsValid(now) <==> |s.samples| >= 30 && s.endedAt.GetOr(now) - s.startedAt >= 30000
  {
    var d := s.DurationSecs(now);
    assert d * 1000.0 == (s.endedAt.GetOr(now) - s.startedAt) as real;
  }
}
