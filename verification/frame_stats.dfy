/** Frame-time statistics shared by the importers and live capture:
    sanitising samples, the average, percentile lows, minimum and maximum
    FPS, the median and stutter spikes. Frame times are doubles on input
    (so NaN and infinities can be filtered) and exact reals after
    sanitising. */
module FrameStats {
  import opened Wrappers
  import opened Float

  /** Parsed capture data from any source. */
  datatype FrameData = FrameData(frameTimes: seq<F64>, application: Option<string>, durationSecs: real, source: string)

  /** Summary statistics of a capture. */
  datatype BenchmarkResult = BenchmarkResult(
    avgFps: real, fps1Low: real, fps01Low: Option<real>, minFps: real, maxFps: real,
    frameCount: nat, durationSecs: real, avgFrameTimeMs: real,
    application: Option<string>, source: string)

  /** The ceiling used when the caller gives none. */
  const DefaultMaxFrameTime: real := 1000.0

  /* --------------------------------------------------- sequences of reals */

  function Sum(s: seq<real>): real
  {
    if s == [] then 0.0 else Sum(s[..|s| - 1]) + s[|s| - 1]
  }

  lemma {:induction false} SumBounds(s: seq<real>, lo: real, hi: real)
    requires forall i :: 0 <= i < |s| ==> lo <= s[i] <= hi
    ensures |s| as real * lo <= Sum(s) <= |s| as real * hi
    decreases |s|
  {
    if s != [] {
      SumBounds(s[..|s| - 1], lo, hi);
    }
  }

  function MinOf(s: seq<real>): (r: real)
    requires s != []
    ensures r in s && forall i :: 0 <= i < |s| ==> r <= s[i]
  {
    if |s| == 1 then s[0] else MinReal(MinOf(s[..|s| - 1]), s[|s| - 1])
  }

  function MaxOf(s: seq<real>): (r: real)
    requires s != []
    ensures r in s && forall i :: 0 <= i < |s| ==> s[i] <= r
  {
    if |s| == 1 then s[0] else MaxReal(MaxOf(s[..|s| - 1]), s[|s| - 1])
  }

  /** The FPS of each frame time. */
  function Rates(s: seq<real>): (r: seq<real>)
    requires forall i :: 0 <= i < |s| ==> s[i] > 0.0
    ensures |r| == |s| && forall i :: 0 <= i < |s| ==> r[i] == 1000.0 / s[i]
  {
    seq(|s|, i requires 0 <= i < |s| => 1000.0 / s[i])
  }

  /** Taking the FPS reverses the order of positive frame times. */
  lemma RateAntitone(a: real, b: real)
    requires 0.0 < a <= b
    ensures 1000.0 / b <= 1000.0 / a
  {
    assert 1000.0 / a - 1000.0 / b == 1000.0 * (b - a) / (a * b);
  }

  /** Dividing bounds on a total by a positive count bounds the mean. */
  lemma MeanBounds(total: real, n: real, lo: real, hi: real)
    requires n > 0.0 && n * lo <= total <= n * hi
    ensures lo <= total / n <= hi
  {
    var m := total / n;
    assert m * n == total;
  }

  predicate SortedReals(s: seq<real>)
  {
    forall i, j :: 0 <= i < j < |s| ==> s[i] <= s[j]
  }

  function InsertReal(x: real, s: seq<real>): (r: seq<real>)
    requires SortedReals(s)
    ensures multiset(r) == multiset(s) + multiset{x}
    ensures SortedReals(r)
  {
    if s == [] then [x]
    else if x <= s[0] then
      SortedCons(x, s);
      [x] + s
    else
      var tail := s[1..];
      var rest := InsertReal(x, tail);
      assert s == [s[0]] + tail;
      assert forall k :: 0 <= k < |tail| ==> tail[k] == s[k + 1];
      BoundedPermutation(s[0], tail, x, rest);
      SortedCons(s[0], rest);
      [s[0]] + rest
  }

  /** A lower bound of every element is a sorted sequence's new head. */
  lemma SortedCons(h: real, s: seq<real>)
    requires SortedReals(s) && forall k :: 0 <= k < |s| ==> h <= s[k]
    ensures SortedReals([h] + s)
  {
    var r := [h] + s;
    assert forall k :: 1 <= k < |r| ==> r[k] == s[k - 1];
  }

  /** A lower bound of a sequence and of one more value bounds every
      arrangement of them. */
  lemma BoundedPermutation(lo: real, a: seq<real>, x: real, b: seq<real>)
    requires multiset(b) == multiset(a) + multiset{x}
    requires lo <= x && forall k :: 0 <= k < |a| ==> lo <= a[k]
    ensures forall j :: 0 <= j < |b| ==> lo <= b[j]
  {
    forall j | 0 <= j < |b|
      ensures lo <= b[j]
    {
      assert b[j] in multiset(b);
      if b[j] != x {
        assert b[j] in multiset(a);
        assert b[j] in a;
      }
    }
  }

  /** `sort_by(partial_cmp)` on samples without NaN: ascending order. */
  function SortReals(s: seq<real>): (r: seq<real>)
    ensures multiset(r) == multiset(s)
    ensures SortedReals(r)
    ensures |r| == |s|
  {
    if s == [] then []
    else
      assert s == s[..|s| - 1] + [s[|s| - 1]];
      var r := InsertReal(s[|s| - 1], SortReals(s[..|s| - 1]));
      assert |r| == |multiset(r)|;
      r
  }

  /** An element of a permutation is an element of the original. */
  lemma ElementOfPermutation(a: seq<real>, b: seq<real>, i: nat)
    requires multiset(a) == multiset(b) && i < |b|
    ensures exists j :: 0 <= j < |a| && a[j] == b[i]
  {
    assert b[i] in multiset(b);
    assert b[i] in a;
  }

  /** The smallest element of a non-empty multiset heads every sorted
      arrangement of it. */
  lemma {:induction false} SortedUnique(a: seq<real>, b: seq<real>)
    requires SortedReals(a) && SortedReals(b) && multiset(a) == multiset(b)
    ensures a == b
    decreases |a|
  {
    assert |a| == |multiset(a)| == |multiset(b)| == |b|;
    if a != [] {
      SortedHeadIsLeast(a, b);
      SortedHeadIsLeast(b, a);
      assert a == [a[0]] + a[1..] && b == [b[0]] + b[1..];
      assert multiset(a[1..]) == multiset(a) - multiset{a[0]};
      assert multiset(b[1..]) == multiset(b) - multiset{b[0]};
      SortedTail(a);
      SortedTail(b);
      SortedUnique(a[1..], b[1..]);
    }
  }

  /** The head of a sorted arrangement is at most any element of another
      arrangement of the same values. */
  lemma SortedHeadIsLeast(a: seq<real>, b: seq<real>)
    requires SortedReals(b) && multiset(a) == multiset(b) && a != []
    ensures b != [] && b[0] <= a[0]
  {
    ElementOfPermutation(b, a, 0);
  }

  lemma SortedTail(a: seq<real>)
    requires SortedReals(a) && a != []
    ensures SortedReals(a[1..])
  {
    assert forall k :: 0 <= k < |a| - 1 ==> a[1..][k] == a[k + 1];
  }

  /** Sorting depends only on the multiset of values. */
  lemma SortPermutationInvariant(a: seq<real>, b: seq<real>)
    requires multiset(a) == multiset(b)
    ensures SortReals(a) == SortReals(b)
  {
    SortedUnique(SortReals(a), SortReals(b));
  }

  /** Sorting a sorted sequence changes nothing. */
  lemma SortSorted(s: seq<real>)
    requires SortedReals(s)
    ensures SortReals(s) == s
  {
    SortedUnique(SortReals(s), s);
  }

  /** Every element of the sorted copy lies between the minimum and the
      maximum of the original. */
  lemma SortedElementBounds(s: seq<real>, i: nat)
    requires s != [] && i < |s|
    ensures MinOf(s) <= SortReals(s)[i] <= MaxOf(s)
  {
    ElementOfPermutation(s, SortReals(s), i);
  }

  /* ----------------------------------------------------------- sanitising */

  /** The effective ceiling: the given maximum if finite and positive, else
      1000 ms. */
  function Ceiling(maxFrameTime: F64): (c: real)
    ensures c > 0.0
  {
    if maxFrameTime.Finite? && maxFrameTime.value > 0.0 then maxFrameTime.value else DefaultMaxFrameTime
  }

  predicate KeepFrame(x: F64, ceiling: real)
  {
    x.Finite? && 0.0 < x.value <= ceiling
  }

  /** The finite frame times in `(0, ceiling]`, in input order. */
  function KeepFrames(ts: seq<F64>, ceiling: real): (r: seq<real>)
    ensures |r| <= |ts|
    ensures forall i :: 0 <= i < |r| ==> 0.0 < r[i] <= ceiling
  {
    if ts == [] then []
    else KeepFrames(ts[..|ts| - 1], ceiling) + (if KeepFrame(ts[|ts| - 1], ceiling) then [ts[|ts| - 1].value] else [])
  }

  /** Filtering distributes over concatenation, so it keeps exactly the
      kept samples and in their order. */
  lemma {:induction false} KeepFramesAppend(a: seq<F64>, b: seq<F64>, ceiling: real)
    ensures KeepFrames(a + b, ceiling) == KeepFrames(a, ceiling) + KeepFrames(b, ceiling)
    decreases |b|
  {
    if b == [] {
      assert a + b == a;
    } else {
      KeepFramesAppend(a, b[..|b| - 1], ceiling);
      assert (a + b)[..|a + b| - 1] == a + b[..|b| - 1];
    }
  }

  /** A single sample survives exactly when it is finite and in range. */
  lemma KeepFramesOne(x: F64, ceiling: real)
    ensures KeepFrames([x], ceiling) == if KeepFrame(x, ceiling) then [x.value] else []
  {
    assert [x][..0] == [];
  }

  /** A sample value survives iff some input sample carrying it is kept. */
  lemma {:induction false} KeepFramesMembers(ts: seq<F64>, ceiling: real, v: real)
    ensures v in KeepFrames(ts, ceiling) <==> exists i :: 0 <= i < |ts| && KeepFrame(ts[i], ceiling) && ts[i].value == v
    decreases |ts|
  {
    if ts != [] {
      var init := ts[..|ts| - 1];
      KeepFramesMembers(init, ceiling, v);
      assert forall i :: 0 <= i < |init| ==> init[i] == ts[i];
    }
  }

  /** The reals as doubles again. */
  function Finites(vs: seq<real>): (r: seq<F64>)
    ensures |r| == |vs| && forall i :: 0 <= i < |vs| ==> r[i] == Finite(vs[i])
  {
    seq(|vs|, i requires 0 <= i < |vs| => Finite(vs[i]))
  }

  /** Sanitising values already in `(0, c]` keeps them all. */
  lemma {:induction false} KeepFramesOfKept(vs: seq<real>, c: real)
    requires forall i :: 0 <= i < |vs| ==> 0.0 < vs[i] <= c
    ensures KeepFrames(Finites(vs), c) == vs
    decreases |vs|
  {
    if vs != [] {
      var init := vs[..|vs| - 1];
      KeepFramesOfKept(init, c);
      assert Finites(vs)[..|vs| - 1] == Finites(init);
    }
  }

  /** `sanitized_frame_times`. */
  function Sanitized(data: FrameData, maxFrameTime: F64): (r: seq<real>)
    ensures |r| <= |data.frameTimes|
    ensures forall i :: 0 <= i < |r| ==> 0.0 < r[i] <= Ceiling(maxFrameTime)
  {
    KeepFrames(data.frameTimes, Ceiling(maxFrameTime))
  }

  /* --------------------------------------------------------- statistics */

  /** `(n as f64 * q) as usize`, capped at the last index. */
  function PercentileIndex(n: nat, q: real): (i: nat)
    requires n > 0 && 0.0 <= q < 1.0
    ensures i < n
    ensures i as real <= n as real * q
  {
    MinInt(Floor(n as real * q), n - 1)
  }

  /** `calculate_stats_with_max_frame_time`. */
  function CalculateStats(data: FrameData, maxFrameTime: F64): (r: Option<BenchmarkResult>)
    ensures r.None? <==> Sanitized(data, maxFrameTime) == []
    ensures r.Some? ==>
      var st := r.value;
      st.frameCount == |Sanitized(data, maxFrameTime)| &&
      (st.fps01Low.Some? <==> st.frameCount >= 1000) &&
      st.minFps <= st.fps1Low <= st.maxFps &&
      st.minFps <= st.avgFps <= st.maxFps &&
      (st.fps01Low.Some? ==> st.minFps <= st.fps01Low.value <= st.maxFps) &&
      st.durationSecs == data.durationSecs && st.application == data.application && st.source == data.source
  {
    var vs := Sanitized(data, maxFrameTime);
    if vs == [] then None
    else
      var n := |vs|;
      var avgFt := Sum(vs) / n as real;
      StatsOrdered(vs, avgFt);
      var sorted := SortReals(vs);
      var p99 := sorted[PercentileIndex(n, 0.99)];
      var low01 := if n >= 1000 then Some(1000.0 / sorted[PercentileIndex(n, 0.999)]) else None;
      var rates := Rates(vs);
      var st := BenchmarkResult(1000.0 / avgFt, 1000.0 / p99, low01, MinOf(rates), MaxOf(rates),
                                n, data.durationSecs, avgFt, data.application, data.source);
      Some(st)
  }

  /** The FPS of the average and of any sorted sample lie between the
      minimum and maximum FPS. */
  lemma StatsOrdered(vs: seq<real>, avgFt: real)
    requires vs != [] && forall i :: 0 <= i < |vs| ==> vs[i] > 0.0
    requires avgFt == Sum(vs) / |vs| as real
    ensures avgFt > 0.0 && MinOf(Rates(vs)) <= 1000.0 / avgFt <= MaxOf(Rates(vs))
    ensures forall idx :: 0 <= idx < |vs| ==>
      SortReals(vs)[idx] > 0.0 && MinOf(Rates(vs)) <= 1000.0 / SortReals(vs)[idx] <= MaxOf(Rates(vs))
  {
    AverageBetween(vs, avgFt);
    RateBetween(vs, avgFt);
    forall idx | 0 <= idx < |vs|
      ensures SortReals(vs)[idx] > 0.0 && MinOf(Rates(vs)) <= 1000.0 / SortReals(vs)[idx] <= MaxOf(Rates(vs))
    {
      SortedRateBetween(vs, idx);
    }
  }

  lemma AverageBetween(vs: seq<real>, avgFt: real)
    requires vs != [] && avgFt == Sum(vs) / |vs| as real
    ensures MinOf(vs) <= avgFt <= MaxOf(vs)
  {
    var lo, hi := MinOf(vs), MaxOf(vs);
    SumBounds(vs, lo, hi);
    assert |vs| as real * lo <= Sum(vs) <= |vs| as real * hi;
    MeanBounds(Sum(vs), |vs| as real, lo, hi);
    assert lo <= Sum(vs) / |vs| as real <= hi;
  }

  lemma SortedRateBetween(vs: seq<real>, idx: nat)
    requires vs != [] && forall i :: 0 <= i < |vs| ==> vs[i] > 0.0
    requires idx < |vs|
    ensures |SortReals(vs)| == |vs|
    ensures SortReals(vs)[idx] > 0.0 && MinOf(Rates(vs)) <= 1000.0 / SortReals(vs)[idx] <= MaxOf(Rates(vs))
  {
    SortedElementBounds(vs, idx);
    RateBetween(vs, SortReals(vs)[idx]);
  }

  /** A frame time between the shortest and the longest has an FPS between
      the lowest and the highest. */
  lemma RateBetween(vs: seq<real>, x: real)
    requires vs != [] && forall i :: 0 <= i < |vs| ==> vs[i] > 0.0
    requires MinOf(vs) <= x <= MaxOf(vs)
    ensures x > 0.0 && MinOf(Rates(vs)) <= 1000.0 / x <= MaxOf(Rates(vs))
  {
    var rates := Rates(vs);
    var ilo :| 0 <= ilo < |vs| && vs[ilo] == MinOf(vs);
    var ihi :| 0 <= ihi < |vs| && vs[ihi] == MaxOf(vs);
    RateAntitone(vs[ilo], x);
    RateAntitone(x, vs[ihi]);
    assert MinOf(rates) <= rates[ihi] && rates[ilo] <= MaxOf(rates);
  }

  /** `median_frame_time_ms` of sanitised values. */
  function Median(vs: seq<real>): (r: Option<real>)
    ensures r.None? <==> vs == []
    ensures r.Some? ==> MinOf(vs) <= r.value <= MaxOf(vs)
    ensures r.Some? && |vs| % 2 == 1 ==> r.value in vs
  {
    if vs == [] then None
    else
      var mid := |vs| / 2;
      SortedElementBounds(vs, mid);
      SortedElementBounds(vs, if mid > 0 then mid - 1 else 0);
      ElementOfPermutation(vs, SortReals(vs), mid);
      Some(Middle(SortReals(vs)))
  }

  /** The middle value of a sorted sequence, or the mean of the two middle
      values when the count is even. */
  function Middle(sorted: seq<real>): (m: real)
    requires sorted != []
    ensures |sorted| % 2 == 1 ==> m == sorted[|sorted| / 2]
    ensures |sorted| % 2 == 0 ==> m == (sorted[|sorted| / 2 - 1] + sorted[|sorted| / 2]) / 2.0
  {
    var mid := |sorted| / 2;
    if |sorted| % 2 == 0 then (sorted[mid - 1] + sorted[mid]) / 2.0 else sorted[mid]
  }

  /** The median does not depend on the order of the samples. */
  lemma MedianPermutationInvariant(a: seq<real>, b: seq<real>)
    requires multiset(a) == multiset(b)
    ensures Median(a) == Median(b)
  {
    SortPermutationInvariant(a, b);
    assert |a| == |multiset(a)| == |multiset(b)| == |b|;
  }

  /** Values at or above `t`. */
  function CountAtLeast(vs: seq<real>, t: real): (n: nat)
    ensures n <= |vs|
    ensures (forall i :: 0 <= i < |vs| ==> vs[i] < t) ==> n == 0
  {
    if vs == [] then 0 else CountAtLeast(vs[..|vs| - 1], t) + (if vs[|vs| - 1] >= t then 1 else 0)
  }

  /** A frame is a spike when it takes at least 1.75 times the median, and
      never below 33.3 ms. */
  function SpikeThreshold(median: real): (t: real)
    ensures t >= 33.3 && t >= median * 1.75
  {
    MaxReal(median * 1.75, 33.3)
  }

  /** `stutter_spike_count`. */
  function SpikeCount(data: FrameData, maxFrameTime: F64): (n: nat)
    ensures n <= |Sanitized(data, maxFrameTime)|
  {
    var vs := Sanitized(data, maxFrameTime);
    match Median(vs)
    case None => 0
    case Some(m) => CountAtLeast(vs, SpikeThreshold(m))
  }

  /** `stutter_spike_ratio`. */
  function SpikeRatio(data: FrameData, maxFrameTime: F64): (r: real)
    ensures 0.0 <= r <= 1.0
    ensures |Sanitized(data, maxFrameTime)| == 0 ==> r == 0.0
    ensures r > 0.0 <==> SpikeCount(data, maxFrameTime) > 0
  {
    Ratio(SpikeCount(data, maxFrameTime), |Sanitized(data, maxFrameTime)|)
  }

  /** `part as f64 / total as f64`, or 0 for an empty total. */
  function Ratio(part: nat, total: nat): (r: real)
    requires part <= total
    ensures 0.0 <= r <= 1.0
    ensures total == 0 ==> r == 0.0
    ensures total > 0 ==> r * total as real == part as real
    ensures r > 0.0 <==> part > 0
  {
    if total == 0 then 0.0
    else
      MeanBounds(part as real, total as real, 0.0, 1.0);
      part as real / total as real
  }

  /** A steady capture, every frame within 1.75 times the shortest, has no
      spikes. */
  lemma SteadyCaptureHasNoSpikes(data: FrameData, maxFrameTime: F64)
    requires var vs := Sanitized(data, maxFrameTime);
      vs != [] && forall i :: 0 <= i < |vs| ==> vs[i] < MinOf(vs) * 1.75
    ensures SpikeCount(data, maxFrameTime) == 0
  {
    var vs := Sanitized(data, maxFrameTime);
    var m := Median(vs).value;
    assert forall i :: 0 <= i < |vs| ==> vs[i] < SpikeThreshold(m);
  }
}
