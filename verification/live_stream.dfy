/** The streaming MangoHud reader of the live capture: a line parser that
    learns the frame-time column from a header, and a chunk reader that
    keeps the unterminated tail of the text between reads. */
module LiveStream {
  import opened Wrappers
  import opened Text
  import opened Float

  /* ------------------------------------------------------- single values */

  /** `parse_frametime`: a trimmed `f64` in (0, 10000]. */
  function ParseFrametime(value: string): (r: Option<real>)
    ensures r.Some? ==> 0.0 < r.value <= 10000.0 && ParseF64(Trim(value)) == Some(Finite(r.value))
    ensures var p := ParseF64(Trim(value));
      r.Some? <==> p.Some? && p.value.Finite? && 0.0 < p.value.value <= 10000.0
  {
    match ParseF64(Trim(value))
    case Some(Finite(v)) => if 0.0 < v <= 10000.0 then Some(v) else None
    case _ => None
  }

  /** Whole milliseconds from 1 to 10000 are accepted as written. */
  lemma ParseFrametimeOfNat(n: nat)
    requires 1 <= n <= 10000
    ensures ParseFrametime(NatToString(n)) == Some(n as real)
  {
    var s := NatToString(n);
    assert IsTrimmed(s) by {
      assert IsAsciiDigit(s[0]) && IsAsciiDigit(s[|s| - 1]);
    }
    TrimOfTrimmed(s);
    ParseF64OfNat(n);
    assert ParseF64(Trim(s)) == Some(Finite(n as real));
  }

  /** A header field naming the frame-time column, in any case and with
      surrounding whitespace. */
  predicate IsFrametimeName(field: string)
  {
    var k := AsciiLower(Trim(field));
    k == "frametime" || k == "frametime_ms"
  }

  /** `find_frametime_column`: the first field naming the frame time. */
  function FindFrametimeColumn(fields: seq<string>): (r: Option<nat>)
    ensures r.Some? ==> r.value < |fields| && IsFrametimeName(fields[r.value])
    ensures forall j :: 0 <= j < (if r.Some? then r.value else |fields|) ==> !IsFrametimeName(fields[j])
  {
    if fields == [] then None
    else if IsFrametimeName(fields[0]) then Some(0)
    else
      assert forall j :: 1 <= j < |fields| ==> fields[j] == fields[1..][j - 1];
      match FindFrametimeColumn(fields[1..])
      case None => None
      case Some(k) => Some(k + 1)
  }

  /* ------------------------------------------------------- the line parser */

  /** What the parser has learnt: the frame-time column, and whether the
      first content line has been looked at as a possible header. */
  datatype ParserState = ParserState(frametimeCol: Option<nat>, headerSeen: bool)

  const InitialParser := ParserState(None, false)

  /** A line that carries neither data nor header: blank or a comment. */
  predicate IsSkipped(line: string)
  {
    var t := Trim(line);
    t == [] || t[0] == '#'
  }

  /** The sample of a data line once the header question is settled: the
      known column; otherwise the only field, else the second field when it
      parses, else the first. */
  function SampleOf(col: Option<nat>, fields: seq<string>): (r: Option<real>)
    requires |fields| >= 1
    ensures r.Some? ==> 0.0 < r.value <= 10000.0
    ensures col.Some? && r.Some? ==> col.value < |fields| && r == ParseFrametime(fields[col.value])
    ensures col.None? && r.Some? ==> r == ParseFrametime(fields[0]) || (|fields| >= 2 && r == ParseFrametime(fields[1]))
  {
    match col
    case Some(idx) => if idx < |fields| then ParseFrametime(fields[idx]) else None
    case None =>
      if |fields| == 1 then ParseFrametime(fields[0])
      else if ParseFrametime(fields[1]).Some? then ParseFrametime(fields[1])
      else ParseFrametime(fields[0])
  }

  /** `MangoHudStreamParser::parse_line` as a step on the parser state: the
      new state and the sample the line yields. */
  function ParseLineStep(st: ParserState, line: string): (r: (ParserState, Option<real>))
    ensures r.1.Some? ==> 0.0 < r.1.value <= 10000.0
  {
    var trimmed := Trim(line);
    if trimmed == [] || trimmed[0] == '#' then (st, None)
    else
      var fields := Split(trimmed, ',');
      var header := FindFrametimeColumn(fields);
      if !st.headerSeen && header.Some? then (ParserState(header, true), None)
      else
        var next := st.(headerSeen := true);
        (next, SampleOf(next.frametimeCol, fields))
  }

  /** Blank and comment lines change nothing; any other line settles the
      header question, which is then never reopened, and a known column
      always comes with a settled header. */
  lemma ParseLineStepState(st: ParserState, line: string)
    ensures var r := ParseLineStep(st, line);
      (IsSkipped(line) ==> r == (st, None)) &&
      (!IsSkipped(line) ==> r.0.headerSeen) &&
      (st.headerSeen ==> r.0 == st) &&
      ((st.frametimeCol.Some? ==> st.headerSeen) ==> (r.0.frametimeCol.Some? ==> r.0.headerSeen))
  {
  }

  /** The first content line is a header exactly when one of its fields
      names the frame time; it then fixes that column and is no sample. */
  lemma HeaderLineFixesColumn(st: ParserState, line: string, i: nat)
    requires !st.headerSeen && !IsSkipped(line)
    requires var fields := Split(Trim(line), ',');
      i < |fields| && IsFrametimeName(fields[i]) && forall j :: 0 <= j < i ==> !IsFrametimeName(fields[j])
    ensures ParseLineStep(st, line) == (ParserState(Some(i), true), None)
  {
    FindFrametimeColumnIsFirst(Split(Trim(line), ','), i);
  }

  /** The column found is the first field that names the frame time. */
  lemma FindFrametimeColumnIsFirst(fields: seq<string>, i: nat)
    requires i < |fields| && IsFrametimeName(fields[i])
    requires forall j :: 0 <= j < i ==> !IsFrametimeName(fields[j])
    ensures FindFrametimeColumn(fields) == Some(i)
  {
    var h := FindFrametimeColumn(fields);
    if h.None? {
      assert false;
    } else if h.value < i {
      assert false;
    } else if h.value > i {
      assert false;
    }
  }

  /** Once a column is fixed every content line is read from that column. */
  lemma DataLineUsesColumn(st: ParserState, line: string)
    requires st.headerSeen && st.frametimeCol.Some? && !IsSkipped(line)
    ensures var fields := Split(Trim(line), ',');
      ParseLineStep(st, line).1 ==
        if st.frametimeCol.value < |fields| then ParseFrametime(fields[st.frametimeCol.value]) else None
  {
  }

  /** The parser as an object, as the live capture keeps it across reads. */
  class MangoHudStreamParser {
    var frametimeCol: Option<nat>
    var headerSeen: bool

    function State(): ParserState
      reads this
    {
      ParserState(frametimeCol, headerSeen)
    }

    /** `MangoHudStreamParser::default`. */
    constructor ()
      ensures State() == InitialParser
    {
      frametimeCol := None;
      headerSeen := false;
    }

    /** `parse_line`. */
    method ParseLine(line: string) returns (ft: Option<real>)
      modifies this
      ensures (State(), ft) == ParseLineStep(old(State()), line)
    {
      var trimmed := Trim(line);
      if trimmed == [] || trimmed[0] == '#' {
        return None;
      }
      var fields := Split(trimmed, ',');
      if !headerSeen {
        var header := FindFrametimeColumn(fields);
        if header.Some? {
          frametimeCol := header;
          headerSeen := true;
          return None;
        }
        headerSeen := true;
      }
      ft := SampleOf(frametimeCol, fields);
    }
  }

  /* --------------------------------------------------------- the stream */

  /** The reader between two reads: the parser and the text after the last
      newline. */
  datatype StreamState<P> = StreamState(parser: P, partial: string)

  /** A line parser: the next parser and the sample of one line. */
  type LineParser<!P> = (P, string) -> (P, Option<real>)

  /** One character of input: a newline hands the buffered line to the
      parser, anything else is buffered. */
  function FeedChar<P>(parse: LineParser<P>, s: StreamState<P>, c: char): (StreamState<P>, Option<real>)
  {
    if c == '\n' then
      var step := parse(s.parser, s.partial);
      (StreamState(step.0, ""), step.1)
    else (StreamState(s.parser, s.partial + [c]), None)
  }

  function OptionToSeq(o: Option<real>): seq<real>
  {
    if o.Some? then [o.value] else []
  }

  /** The reader's reference behaviour: text read one character at a time,
      with the samples in order. */
  function Feed<P>(parse: LineParser<P>, s: StreamState<P>, text: string): (StreamState<P>, seq<real>)
    decreases |text|
  {
    if text == [] then (s, [])
    else
      var step := FeedChar(parse, s, text[0]);
      var tail := Feed(parse, step.0, text[1..]);
      (tail.0, OptionToSeq(step.1) + tail.1)
  }

  /** Text without a newline is only buffered. */
  lemma {:induction false} FeedNoNewline<P>(parse: LineParser<P>, s: StreamState<P>, text: string)
    requires '\n' !in text
    ensures Feed(parse, s, text) == (StreamState(s.parser, s.partial + text), [])
    decreases |text|
  {
    if text == [] {
      assert s.partial + text == s.partial;
    } else {
      assert text[0] in text;
      var step := FeedChar(parse, s, text[0]);
      assert step == (StreamState(s.parser, s.partial + [text[0]]), None);
      FeedNoNewline(parse, step.0, text[1..]);
      assert s.partial + text == s.partial + [text[0]] + text[1..];
      assert OptionToSeq(step.1) + Feed(parse, step.0, text[1..]).1 == [];
    }
  }

  /** Reading `a` then `b` is reading `a + b`. */
  lemma {:induction false} FeedAppend<P>(parse: LineParser<P>, s: StreamState<P>, a: string, b: string)
    ensures var x := Feed(parse, s, a);
      var y := Feed(parse, x.0, b);
      Feed(parse, s, a + b) == (y.0, x.1 + y.1)
    decreases |a|
  {
    if a == [] {
      assert a + b == b;
      var y := Feed(parse, s, b);
      assert [] + y.1 == y.1;
    } else {
      var t := FeedChar(parse, s, a[0]);
      assert (a + b)[0] == a[0] && (a + b)[1..] == a[1..] + b;
      FeedAppend(parse, t.0, a[1..], b);
      var x := Feed(parse, t.0, a[1..]);
      var y := Feed(parse, x.0, b);
      assert OptionToSeq(t.1) + (x.1 + y.1) == (OptionToSeq(t.1) + x.1) + y.1;
    }
  }

  /** A newline-terminated line whose text holds no newline is parsed as one
      line, and leaves no tail. */
  lemma FeedLine<P>(parse: LineParser<P>, st: P, line: string)
    requires '\n' !in line
    ensures Feed(parse, StreamState(st, ""), line + "\n") ==
      (StreamState(parse(st, line).0, ""), OptionToSeq(parse(st, line).1))
  {
    FeedAppend(parse, StreamState(st, ""), line, "\n");
    FeedNoNewline(parse, StreamState(st, ""), line);
    assert "" + line == line;
    var step := parse(st, line);
    assert FeedChar(parse, StreamState(st, line), '\n') == (StreamState(step.0, ""), step.1);
    assert "\n"[0] == '\n' && "\n"[1..] == [];
    assert Feed(parse, StreamState(st, line), "\n") == (StreamState(step.0, ""), OptionToSeq(step.1) + []);
    assert [] + (OptionToSeq(step.1) + []) == OptionToSeq(step.1);
  }

  /** The buffered tail can be read again as the head of the next text. */
  lemma FeedPartial<P>(parse: LineParser<P>, st: P, partial: string, text: string)
    requires '\n' !in partial
    ensures Feed(parse, StreamState(st, ""), partial + text) == Feed(parse, StreamState(st, partial), text)
  {
    FeedAppend(parse, StreamState(st, ""), partial, text);
    FeedNoNewline(parse, StreamState(st, ""), partial);
    assert "" + partial == partial;
    var y := Feed(parse, StreamState(st, partial), text);
    assert [] + y.1 == y.1;
  }

  /** The tail left after a read never holds a newline. */
  lemma {:induction false} FeedTailHasNoNewline<P>(parse: LineParser<P>, s: StreamState<P>, text: string)
    requires '\n' !in s.partial
    ensures '\n' !in Feed(parse, s, text).0.partial
    decreases |text|
  {
    if text != [] {
      var step := FeedChar(parse, s, text[0]);
      FeedTailHasNoNewline(parse, step.0, text[1..]);
    }
  }

  predicate SampleInRange(o: Option<real>)
  {
    o.Some? ==> 0.0 < o.value <= 10000.0
  }

  predicate AllSamplesInRange(out: seq<real>)
  {
    forall i :: 0 <= i < |out| ==> 0.0 < out[i] <= 10000.0
  }

  /** A parser whose samples lie in (0, 10000] reads only such samples. */
  lemma {:induction false} FeedSamplesInRange<P>(parse: LineParser<P>, s: StreamState<P>, text: string)
    requires forall st, line :: SampleInRange(parse(st, line).1)
    ensures AllSamplesInRange(Feed(parse, s, text).1)
    decreases |text|
  {
    if text != [] {
      var step := FeedChar(parse, s, text[0]);
      assert SampleInRange(step.1) by {
        if text[0] == '\n' {
          assert SampleInRange(parse(s.parser, s.partial).1);
        }
      }
      FeedSamplesInRange(parse, step.0, text[1..]);
      var tail := Feed(parse, step.0, text[1..]).1;
      var out := OptionToSeq(step.1) + tail;
      assert Feed(parse, s, text).1 == out;
      assert AllSamplesInRange(out) by {
        forall i | 0 <= i < |out| ensures 0.0 < out[i] <= 10000.0 {
          if i >= |OptionToSeq(step.1)| {
            assert out[i] == tail[i - |OptionToSeq(step.1)|];
            assert 0.0 < tail[i - |OptionToSeq(step.1)|];
          } else {
            assert step.1.Some? && OptionToSeq(step.1) == [step.1.value];
            assert out[i] == step.1.value;
            assert 0.0 < step.1.value;
          }
        }
      }
    }
  }

  /** A finished line loses its trailing carriage returns before parsing. */
  function ReadLine(st: ParserState, line: string): (r: (ParserState, Option<real>))
    ensures SampleInRange(r.1)
  {
    ParseLineStep(st, TrimEndMatches(line, "\r"))
  }

  /** `parse_chunk_frametimes` as a step: an empty read changes nothing;
      otherwise the tail and the new text are read together. */
  function ChunkStep(st: ParserState, partial: string, chunk: string): (r: (StreamState<ParserState>, seq<real>))
    ensures chunk == [] ==> r == (StreamState(st, partial), [])
    ensures chunk != [] ==> r == Feed(ReadLine, StreamState(st, ""), partial + chunk)
    ensures AllSamplesInRange(r.1)
  {
    if chunk == [] then (StreamState(st, partial), [])
    else
      FeedSamplesInRange(ReadLine, StreamState(st, ""), partial + chunk);
      Feed(ReadLine, StreamState(st, ""), partial + chunk)
  }

  /** Splitting the same text over two reads gives the same samples, tail
      and parser as one read. */
  lemma ChunkSplitInvariance(st: ParserState, partial: string, a: string, b: string)
    requires '\n' !in partial
    ensures var x := ChunkStep(st, partial, a);
      var y := ChunkStep(x.0.parser, x.0.partial, b);
      ChunkStep(st, partial, a + b) == (y.0, x.1 + y.1)
  {
    var x := ChunkStep(st, partial, a);
    if a == [] {
      assert a + b == b;
      var y := ChunkStep(st, partial, b);
      assert [] + y.1 == y.1;
    } else if b == [] {
      assert a + b == a;
      assert x.1 + [] == x.1;
    } else {
      FeedAppend(ReadLine, StreamState(st, ""), partial + a, b);
      assert partial + (a + b) == (partial + a) + b;
      FeedTailHasNoNewline(ReadLine, StreamState(st, ""), partial + a);
      FeedPartial(ReadLine, x.0.parser, x.0.partial, b);
    }
  }

  /** `parse_chunk_frametimes`: the tail of the previous read and the new
      chunk are split into newline-terminated segments; each finished line
      goes to the parser, and an unterminated last segment becomes the new
      tail. */
  method ParseChunkFrametimes(parser: MangoHudStreamParser, chunk: string, partial: string)
    returns (frameTimes: seq<real>, rest: string)
    modifies parser
    ensures (StreamState(parser.State(), rest), frameTimes) == ChunkStep(old(parser.State()), partial, chunk)
    ensures '\n' !in partial ==> '\n' !in rest
  {
    if chunk == [] {
      return [], partial;
    }
    var combined := partial + chunk;
    var segments := SplitInclusive(combined, '\n');
    ghost var states, outs;
    frameTimes, rest, states, outs := ReadSegments(parser, segments);
    FeedSegmentsTrace(ReadLine, segments, states, outs);
    FeedSegmentsIsFeed(ReadLine, StreamState(states[0], ""), segments);
    FeedTailHasNoNewline(ReadLine, StreamState(states[0], ""), combined);
  }

  /** A segment of `split_inclusive('\n')` that ends in the newline. */
  predicate Terminated(seg: string)
  {
    seg != [] && seg[|seg| - 1] == '\n'
  }

  /** The samples of a run of lines, in order. */
  function Flatten(outs: seq<Option<real>>): (r: seq<real>)
    ensures |r| <= |outs|
  {
    if outs == [] then [] else Flatten(outs[..|outs| - 1]) + OptionToSeq(outs[|outs| - 1])
  }

  /** The loop of `parse_chunk_frametimes`: every terminated segment goes
      through `parse_line`; the states the parser passes through and the
      answers it gives are returned as a trace. */
  method ReadSegments(parser: MangoHudStreamParser, segments: seq<string>)
    returns (frameTimes: seq<real>, rest: string, ghost states: seq<ParserState>, ghost outs: seq<Option<real>>)
    requires forall j :: 0 <= j < |segments| ==> segments[j] != [] && '\n' !in segments[j][..|segments[j]| - 1]
    requires forall j :: 0 <= j < |segments| - 1 ==> Terminated(segments[j])
    modifies parser
    ensures |states| == |segments| + 1 && |outs| == |segments|
    ensures states[0] == old(parser.State()) && states[|segments|] == parser.State()
    ensures frameTimes == Flatten(outs)
    ensures rest == if segments != [] && !Terminated(segments[|segments| - 1]) then segments[|segments| - 1] else ""
    ensures Traced(ReadLine, segments, states, outs)
  {
    rest := "";
    frameTimes := [];
    states := [parser.State()];
    outs := [];
    var k := 0;
    while k < |segments|
      invariant 0 <= k <= |segments|
      invariant |states| == k + 1 && |outs| == k
      invariant states[0] == old(parser.State()) && states[k] == parser.State()
      invariant frameTimes == Flatten(outs)
      invariant rest == if k > 0 && !Terminated(segments[k - 1]) then segments[k - 1] else ""
      invariant Traced(ReadLine, segments[..k], states, outs)
    {
      var segment := segments[k];
      var ft: Option<real> := None;
      if Terminated(segment) {
        ft := ReadTerminated(parser, segments, k, states, outs);
        frameTimes := frameTimes + OptionToSeq(ft);
      } else {
        assert rest == "";
        rest := rest + segment;
        TracedSkip(ReadLine, segments[..k], states, outs, segment);
        assert segments[..k + 1] == segments[..k] + [segment];
        assert Flatten(outs + [ft]) == Flatten(outs) + [];
      }
      states := states + [parser.State()];
      outs := outs + [ft];
      k := k + 1;
    }
    assert segments[..k] == segments;
  }

  /** One terminated segment: `trim_end_matches('\n')`, then
      `trim_end_matches('\r')`, then `parse_line`; the trace of the
      segments before it grows by this one. */
  method ReadTerminated(parser: MangoHudStreamParser, segments: seq<string>, k: nat,
                        ghost states: seq<ParserState>, ghost outs: seq<Option<real>>)
    returns (ft: Option<real>)
    requires k < |segments| && Terminated(segments[k]) && '\n' !in segments[k][..|segments[k]| - 1]
    requires Traced(ReadLine, segments[..k], states, outs) && states[k] == parser.State()
    modifies parser
    ensures Traced(ReadLine, segments[..k + 1], states + [parser.State()], outs + [ft])
    ensures Flatten(outs + [ft]) == Flatten(outs) + OptionToSeq(ft)
  {
    var segment := segments[k];
    var line := segment[..|segment| - 1];
    assert segment == line + "\n";
    TrimNewline(line);
    ft := parser.ParseLine(TrimEndMatches(TrimEndMatches(segment, "\n"), "\r"));
    TracedSnoc(ReadLine, segments[..k], states, outs, segment, parser.State(), ft);
    assert segments[..k + 1] == segments[..k] + [segment];
    assert (outs + [ft])[..|outs|] == outs;
  }

  /** `states` and `outs` are the states a line parser passes through and
      the answers it gives while reading `segs`: a terminated segment is
      parsed, any other one leaves the parser alone. */
  ghost predicate Traced<P>(parse: LineParser<P>, segs: seq<string>, states: seq<P>, outs: seq<Option<real>>)
  {
    |states| == |segs| + 1 && |outs| == |segs| &&
    forall j {:trigger StepAt(parse, segs, states, outs, j)} :: 0 <= j < |segs| ==> StepAt(parse, segs, states, outs, j)
  }

  /** Segment `j` of a trace. */
  ghost predicate StepAt<P>(parse: LineParser<P>, segs: seq<string>, states: seq<P>, outs: seq<Option<real>>, j: int)
    requires |states| == |segs| + 1 && |outs| == |segs|
  {
    0 <= j < |segs| && StepHolds(parse, segs[j], states[j], states[j + 1], outs[j])
  }

  /** One segment of a trace: a terminated segment is parsed from `st` to
      `next` with answer `o`; any other one leaves the parser alone. */
  ghost predicate StepHolds<P>(parse: LineParser<P>, seg: string, st: P, next: P, o: Option<real>)
  {
    if Terminated(seg) then parse(st, seg[..|seg| - 1]) == (next, o)
    else next == st && o == None
  }

  /** A trace grows by one segment at a time. */
  lemma TracedSnoc<P>(parse: LineParser<P>, segs: seq<string>, states: seq<P>, outs: seq<Option<real>>, seg: string, s: P, o: Option<real>)
    requires Traced(parse, segs, states, outs)
    requires StepHolds(parse, seg, states[|segs|], s, o)
    ensures Traced(parse, segs + [seg], states + [s], outs + [o])
  {
    var segs', states', outs' := segs + [seg], states + [s], outs + [o];
    forall j | 0 <= j < |segs'|
      ensures StepAt(parse, segs', states', outs', j)
    {
      if j < |segs| {
        assert StepAt(parse, segs, states, outs, j);
        assert segs'[j] == segs[j] && states'[j] == states[j] && states'[j + 1] == states[j + 1] && outs'[j] == outs[j];
      } else {
        assert segs'[j] == seg && states'[j] == states[|segs|] && states'[j + 1] == s && outs'[j] == o;
      }
    }
  }

  /** An unterminated segment extends a trace without parsing. */
  lemma TracedSkip<P>(parse: LineParser<P>, segs: seq<string>, states: seq<P>, outs: seq<Option<real>>, seg: string)
    requires Traced(parse, segs, states, outs) && !Terminated(seg)
    ensures Traced(parse, segs + [seg], states + [states[|segs|]], outs + [None])
  {
    TracedSnoc(parse, segs, states, outs, seg, states[|segs|], None);
  }

  /** A trace of the parser over the segments is what the reader computes. */
  lemma {:induction false} FeedSegmentsTrace<P>(parse: LineParser<P>, segs: seq<string>, states: seq<P>, outs: seq<Option<real>>)
    requires forall j :: 0 <= j < |segs| - 1 ==> Terminated(segs[j])
    requires Traced(parse, segs, states, outs)
    ensures FeedSegments(parse, StreamState(states[0], ""), segs) ==
      (StreamState(states[|segs|], if segs != [] && !Terminated(segs[|segs| - 1]) then segs[|segs| - 1] else ""), Flatten(outs))
    decreases |segs|
  {
    if segs != [] {
      var n := |segs|;
      var segs', states', outs' := segs[..n - 1], states[..n], outs[..n - 1];
      forall j | 0 <= j < |segs'|
        ensures StepAt(parse, segs', states', outs', j)
      {
        assert StepAt(parse, segs, states, outs, j);
      }
      FeedSegmentsTrace(parse, segs', states', outs');
      assert segs' == segs[..|segs| - 1];
      var seg := segs[n - 1];
      assert StepAt(parse, segs, states, outs, n - 1);
      assert outs' == outs[..|outs| - 1];
      if Terminated(seg) {
        assert "" + seg[..|seg| - 1] == seg[..|seg| - 1];
      } else {
        assert "" + seg == seg;
        assert Flatten(outs') + [] == Flatten(outs');
      }
    }
  }

  /** The reader fed whole segments of `split_inclusive('\n')`: a segment
      ending in a newline completes the buffered line, any other segment is
      buffered. */
  function FeedSegments<P>(parse: LineParser<P>, s: StreamState<P>, segs: seq<string>): (StreamState<P>, seq<real>)
    decreases |segs|
  {
    if segs == [] then (s, [])
    else
      var prev := FeedSegments(parse, s, segs[..|segs| - 1]);
      var seg := segs[|segs| - 1];
      if seg != [] && seg[|seg| - 1] == '\n' then
        var step := parse(prev.0.parser, prev.0.partial + seg[..|seg| - 1]);
        (StreamState(step.0, ""), prev.1 + OptionToSeq(step.1))
      else (StreamState(prev.0.parser, prev.0.partial + seg), prev.1)
  }

  /** A newline-terminated line completes whatever was buffered. */
  lemma FeedLineAfter<P>(parse: LineParser<P>, s: StreamState<P>, line: string)
    requires '\n' !in line
    ensures Feed(parse, s, line + "\n") ==
      (StreamState(parse(s.parser, s.partial + line).0, ""), OptionToSeq(parse(s.parser, s.partial + line).1))
  {
    FeedAppend(parse, s, line, "\n");
    FeedNoNewline(parse, s, line);
    var step := parse(s.parser, s.partial + line);
    assert FeedChar(parse, StreamState(s.parser, s.partial + line), '\n') == (StreamState(step.0, ""), step.1);
    assert "\n"[0] == '\n' && "\n"[1..] == [];
    assert Feed(parse, StreamState(s.parser, s.partial + line), "\n") == (StreamState(step.0, ""), OptionToSeq(step.1) + []);
    assert [] + (OptionToSeq(step.1) + []) == OptionToSeq(step.1);
  }

  /** Segments that hold a newline at most at their end are read exactly
      as their concatenation. */
  lemma {:induction false} FeedSegmentsIsFeed<P>(parse: LineParser<P>, s: StreamState<P>, segs: seq<string>)
    requires forall i :: 0 <= i < |segs| ==> segs[i] != [] && '\n' !in segs[i][..|segs[i]| - 1]
    ensures FeedSegments(parse, s, segs) == Feed(parse, s, Concat(segs))
    decreases |segs|
  {
    if segs != [] {
      var init := segs[..|segs| - 1];
      var seg := segs[|segs| - 1];
      FeedSegmentsIsFeed(parse, s, init);
      assert segs == init + [seg];
      ConcatSnoc(init, seg);
      FeedAppend(parse, s, Concat(init), seg);
      var prev := Feed(parse, s, Concat(init));
      var body := seg[..|seg| - 1];
      if seg[|seg| - 1] == '\n' {
        assert seg == body + "\n";
        FeedLineAfter(parse, prev.0, body);
      } else {
        assert seg == body + [seg[|seg| - 1]];
        assert '\n' !in seg;
        FeedNoNewline(parse, prev.0, seg);
        assert prev.1 + [] == prev.1;
      }
    }
  }

  /** `trim_end_matches('\n')` on a line plus its one newline. */
  lemma TrimNewline(line: string)
    requires '\n' !in line
    ensures TrimEndMatches(line + "\n", "\n") == line
  {
    var s := line + "\n";
    assert EndsWith(s, "\n");
    assert s[..|s| - 1] == line;
    assert line == [] || line[|line| - 1] != '\n';
  }

  /** `prime_mangohud_parser_with_existing_header` on the lines of the start
      of the file: lines are parsed, their samples dropped, until a column
      is known. */
  function Prime(st: ParserState, lines: seq<string>): (r: ParserState)
    decreases |lines|
  {
    if lines == [] || st.frametimeCol.Some? then st
    else Prime(ParseLineStep(st, lines[0]).0, lines[1..])
  }

  /** Priming settles the header question as soon as the start of the file
      holds a content line, and never unsettles a known column. */
  lemma {:induction false} PrimeSettlesHeader(st: ParserState, lines: seq<string>)
    requires st.frametimeCol.Some? ==> st.headerSeen
    ensures var r := Prime(st, lines);
      (r.frametimeCol.Some? ==> r.headerSeen) &&
      (st.frametimeCol.Some? ==> r == st) &&
      (r.headerSeen <==> st.headerSeen || exists i :: 0 <= i < |lines| && !IsSkipped(lines[i]))
    decreases |lines|
  {
    if lines == [] || st.frametimeCol.Some? {
      if st.frametimeCol.Some? {
        assert st.headerSeen;
      }
    } else {
      var next := ParseLineStep(st, lines[0]).0;
      ParseLineStepState(st, lines[0]);
      PrimeSettlesHeader(next, lines[1..]);
      var r := Prime(st, lines);
      if !IsSkipped(lines[0]) {
        assert r.headerSeen by {
          if next.frametimeCol.Some? {
            assert r == next;
          }
        }
      } else {
        assert next == st;
        assert (exists i :: 0 <= i < |lines| && !IsSkipped(lines[i])) <==>
               (exists i :: 0 <= i < |lines[1..]| && !IsSkipped(lines[1..][i])) by {
          forall i | 0 <= i < |lines| && !IsSkipped(lines[i]) ensures i >= 1 && !IsSkipped(lines[1..][i - 1]) {
          }
        }
      }
    }
  }

  method PrimeParser(parser: MangoHudStreamParser, prefix: string)
    modifies parser
    ensures parser.State() == Prime(old(parser.State()), Lines(prefix))
  {
    var lines := Lines(prefix);
    var k := 0;
    while k < |lines|
      invariant 0 <= k <= |lines|
      invariant Prime(parser.State(), lines[k..]) == Prime(old(parser.State()), lines)
    {
      if parser.frametimeCol.Some? {
        break;
      }
      assert lines[k..][1..] == lines[k + 1..];
      var _ := parser.ParseLine(lines[k]);
      k := k + 1;
    }
  }
}
