/** The fragment of Rust's `str`/`char` library that the client relies on,
    over strings of Unicode scalar values: trimming, ASCII case mapping,
    splitting, joining, searching and unsigned-integer parsing. */
module Text {
  import opened Wrappers

  /* ---------------------------------------------------------------- chars */

  /** Unicode White_Space, the set `char::is_whitespace` (and hence `trim`
      and `split_whitespace`) uses. */
  const WhitespaceChars: set<char> :=
    {'\t', '\n', '\U{000B}', '\U{000C}', '\r', ' ', '\U{0085}', '\U{00A0}', '\U{1680}',
     '\U{2000}', '\U{2001}', '\U{2002}', '\U{2003}', '\U{2004}', '\U{2005}', '\U{2006}',
     '\U{2007}', '\U{2008}', '\U{2009}', '\U{200A}', '\U{2028}', '\U{2029}', '\U{202F}',
     '\U{205F}', '\U{3000}'}

  predicate IsWhitespace(c: char) { c in WhitespaceChars }

  predicate IsAsciiDigit(c: char) { '0' <= c <= '9' }
  predicate IsAsciiUpper(c: char) { 'A' <= c <= 'Z' }
  predicate IsAsciiLowerCase(c: char) { 'a' <= c <= 'z' }
  predicate IsAsciiAlphanumeric(c: char) { IsAsciiDigit(c) || IsAsciiUpper(c) || IsAsciiLowerCase(c) }
  predicate IsAscii(c: char) { c as int < 0x80 }

  /** `char::is_control`: the general category Cc. */
  predicate IsControl(c: char) { c as int < 0x20 || (0x7F <= c as int < 0xA0) }

  function ToAsciiLowerChar(c: char): (r: char)
    ensures !IsAsciiUpper(r)
    ensures IsAsciiUpper(c) ==> IsAsciiLowerCase(r) && r as int == c as int + 32
    ensures !IsAsciiUpper(c) ==> r == c
  {
    if IsAsciiUpper(c) then (c as int + 32) as char else c
  }

  /** `str::to_ascii_lowercase`. */
  function AsciiLower(s: string): (r: string)
    ensures |r| == |s|
    ensures forall i :: 0 <= i < |s| ==> r[i] == ToAsciiLowerChar(s[i])
  {
    seq(|s|, i requires 0 <= i < |s| => ToAsciiLowerChar(s[i]))
  }

  predicate NoAsciiUpper(s: string) { forall i :: 0 <= i < |s| ==> !IsAsciiUpper(s[i]) }

  lemma AsciiLowerFixed(s: string)
    requires NoAsciiUpper(s)
    ensures AsciiLower(s) == s
  {
  }

  lemma AsciiLowerIdempotent(s: string)
    ensures AsciiLower(AsciiLower(s)) == AsciiLower(s)
  {
    AsciiLowerFixed(AsciiLower(s));
  }

  lemma AsciiLowerAppend(a: string, b: string)
    ensures AsciiLower(a + b) == AsciiLower(a) + AsciiLower(b)
  {
  }

  /** `str::eq_ignore_ascii_case`. */
  predicate EqIgnoreAsciiCase(a: string, b: string) { AsciiLower(a) == AsciiLower(b) }

  /** UTF-8 length of one scalar value. */
  function Utf8CharLen(c: char): (n: nat)
    ensures 1 <= n <= 4
    ensures n == 1 <==> IsAscii(c)
  {
    if c as int < 0x80 then 1
    else if c as int < 0x800 then 2
    else if c as int < 0x10000 then 3
    else 4
  }

  /** `str::len`: the number of UTF-8 bytes, not of characters. */
  function Utf8Len(s: string): (n: nat)
    ensures |s| <= n <= 4 * |s|
  {
    if s == [] then 0 else Utf8Len(s[..|s| - 1]) + Utf8CharLen(s[|s| - 1])
  }

  lemma {:induction false} Utf8LenAppend(a: string, b: string)
    ensures Utf8Len(a + b) == Utf8Len(a) + Utf8Len(b)
    decreases |b|
  {
    if b == [] {
      assert a + b == a;
    } else {
      assert (a + b)[..|a + b| - 1] == a + b[..|b| - 1];
      Utf8LenAppend(a, b[..|b| - 1]);
    }
  }

  /* ------------------------------------------------------------- trimming */

  /** Number of leading whitespace characters. */
  function LeadingWhitespace(s: string): (n: nat)
    ensures n <= |s|
    ensures forall i :: 0 <= i < n ==> IsWhitespace(s[i])
    ensures n < |s| ==> !IsWhitespace(s[n])
  {
    if s == [] || !IsWhitespace(s[0]) then 0 else 1 + LeadingWhitespace(s[1..])
  }

  /** Index where the trailing run of whitespace begins. */
  function TrailingStart(s: string): (k: nat)
    ensures k <= |s|
    ensures forall i :: k <= i < |s| ==> IsWhitespace(s[i])
    ensures k > 0 ==> !IsWhitespace(s[k - 1])
  {
    if s == [] || !IsWhitespace(s[|s| - 1]) then |s| else TrailingStart(s[..|s| - 1])
  }

  /** `str::trim_start`. */
  function TrimStart(s: string): (r: string)
    ensures r == s[LeadingWhitespace(s)..]
    ensures r == [] || !IsWhitespace(r[0])
  {
    s[LeadingWhitespace(s)..]
  }

  /** `str::trim_end`. */
  function TrimEnd(s: string): (r: string)
    ensures r == s[..TrailingStart(s)]
    ensures r == [] || !IsWhitespace(r[|r| - 1])
  {
    s[..TrailingStart(s)]
  }

  /** `str::trim`: no leading or trailing whitespace is left, and only
      whitespace was removed. */
  function Trim(s: string): (r: string)
    ensures r == [] || (!IsWhitespace(r[0]) && !IsWhitespace(r[|r| - 1]))
    ensures |r| <= |s|
  {
    var t := TrimStart(s);
    var k := TrailingStart(t);
    var a := LeadingWhitespace(s);
    assert t[..k] == s[a..a + k];
    t[..k]
  }

  /** What `str::trim` keeps is one piece of the string. */
  lemma TrimIsSlice(s: string)
    ensures exists a, b :: 0 <= a <= b <= |s| && Trim(s) == s[a..b]
  {
    var a := LeadingWhitespace(s);
    assert Trim(s) == s[a..a + TrailingStart(TrimStart(s))];
  }

  predicate IsTrimmed(s: string) { s == [] || (!IsWhitespace(s[0]) && !IsWhitespace(s[|s| - 1])) }

  lemma TrimOfTrimmed(s: string)
    requires IsTrimmed(s)
    ensures Trim(s) == s
  {
    assert LeadingWhitespace(s) == 0;
    assert TrailingStart(s) == |s|;
  }

  lemma TrimIdempotent(s: string)
    ensures Trim(Trim(s)) == Trim(s)
  {
    TrimOfTrimmed(Trim(s));
  }

  /** Trimming only shortens the string at its ends, so a string with no
      whitespace at all is its own trim. */
  lemma TrimNoWhitespace(s: string)
    requires forall i :: 0 <= i < |s| ==> !IsWhitespace(s[i])
    ensures Trim(s) == s
  {
    TrimOfTrimmed(s);
  }

  /* ------------------------------------------------------------- prefixes */

  predicate StartsWith(s: string, p: string) { |p| <= |s| && s[..|p|] == p }
  predicate EndsWith(s: string, p: string) { |p| <= |s| && s[|s| - |p|..] == p }

  /** `str::strip_prefix`. */
  function StripPrefix(s: string, p: string): (r: Option<string>)
    ensures r.Some? <==> StartsWith(s, p)
    ensures r.Some? ==> p + r.value == s
  {
    if StartsWith(s, p) then Some(s[|p|..]) else None
  }

  /** `str::strip_suffix`. */
  function StripSuffix(s: string, p: string): (r: Option<string>)
    ensures r.Some? <==> EndsWith(s, p)
    ensures r.Some? ==> r.value + p == s
  {
    if EndsWith(s, p) then Some(s[..|s| - |p|]) else None
  }

  /** `str::trim_end_matches(p)` for a non-empty string pattern: strips `p`
      from the end as often as it occurs there. */
  function TrimEndMatches(s: string, p: string): (r: string)
    requires |p| > 0
    ensures StartsWith(s, r)
    ensures !EndsWith(r, p)
    decreases |s|
  {
    if EndsWith(s, p) then
      var r := TrimEndMatches(s[..|s| - |p|], p);
      assert s[..|s| - |p|][..|r|] == s[..|r|];
      r
    else s
  }

  /** `str::trim_end_matches` with a set of characters. */
  function TrimEndChars(s: string, cs: set<char>): (r: string)
    ensures StartsWith(s, r)
    ensures r == [] || r[|r| - 1] !in cs
    ensures forall i :: |r| <= i < |s| ==> s[i] in cs
  {
    if s != [] && s[|s| - 1] in cs then
      var r := TrimEndChars(s[..|s| - 1], cs);
      assert s[..|s| - 1][..|r|] == s[..|r|];
      r
    else s
  }

  /** `str::trim_start_matches` with a set of characters. */
  function TrimStartChars(s: string, cs: set<char>): (r: string)
    ensures EndsWith(s, r)
    ensures r == [] || r[0] !in cs
    ensures forall i :: 0 <= i < |s| - |r| ==> s[i] in cs
  {
    if s != [] && s[0] in cs then TrimStartChars(s[1..], cs) else s
  }

  /** `str::trim_matches` with a set of characters: both ends. */
  function TrimChars(s: string, cs: set<char>): (r: string)
    ensures r == [] || (r[0] !in cs && r[|r| - 1] !in cs)
  {
    var t := TrimStartChars(s, cs);
    var r := TrimEndChars(t, cs);
    assert r != [] ==> r[0] == t[0];
    r
  }

  /* ------------------------------------------------------------ searching */

  predicate OccursAt(s: string, sub: string, i: nat) { i + |sub| <= |s| && s[i..i + |sub|] == sub }

  /** First index at or after `from` where `sub` occurs. */
  function FindFrom(s: string, sub: string, from: nat): (r: Option<nat>)
    requires from <= |s|
    ensures r.Some? ==> from <= r.value && OccursAt(s, sub, r.value)
    ensures forall j :: from <= j < (if r.Some? then r.value else |s| + 1) ==> !OccursAt(s, sub, j)
    decreases |s| - from
  {
    if OccursAt(s, sub, from) then Some(from)
    else if from == |s| then None
    else FindFrom(s, sub, from + 1)
  }

  /** `str::find`: the first occurrence of `sub`. */
  function Find(s: string, sub: string): (r: Option<nat>)
    ensures r.Some? ==> OccursAt(s, sub, r.value)
    ensures forall j :: 0 <= j < (if r.Some? then r.value else |s| + 1) ==> !OccursAt(s, sub, j)
  {
    FindFrom(s, sub, 0)
  }

  /** `str::contains` for a string pattern. */
  predicate Contains(s: string, sub: string) { Find(s, sub).Some? }

  lemma ContainsWitness(s: string, sub: string, i: nat)
    requires OccursAt(s, sub, i)
    ensures Contains(s, sub)
  {
  }

  lemma ContainsOfPrefix(s: string, p: string)
    requires StartsWith(s, p)
    ensures Contains(s, p)
  {
    ContainsWitness(s, p, 0);
  }

  /** `str::rfind`: the last occurrence of `sub`. */
  function RFind(s: string, sub: string): (r: Option<nat>)
    ensures r.Some? ==> OccursAt(s, sub, r.value)
    ensures r.Some? ==> forall j :: r.value < j <= |s| ==> !OccursAt(s, sub, j)
    ensures r.None? ==> forall j :: 0 <= j <= |s| ==> !OccursAt(s, sub, j)
  {
    RFindBelow(s, sub, |s|)
  }

  function RFindBelow(s: string, sub: string, upto: nat): (r: Option<nat>)
    requires upto <= |s|
    ensures r.Some? ==> r.value <= upto && OccursAt(s, sub, r.value)
    ensures forall j :: (if r.Some? then r.value + 1 else 0) <= j <= upto ==> !OccursAt(s, sub, j)
    decreases upto
  {
    if OccursAt(s, sub, upto) then Some(upto)
    else if upto == 0 then None
    else RFindBelow(s, sub, upto - 1)
  }

  /** First index of a character in the set, or `None`. */
  function IndexOfAny(s: string, cs: set<char>): (r: Option<nat>)
    ensures r.Some? ==> r.value < |s| && s[r.value] in cs
    ensures forall j :: 0 <= j < (if r.Some? then r.value else |s|) ==> s[j] !in cs
  {
    if s == [] then None
    else if s[0] in cs then Some(0)
    else match IndexOfAny(s[1..], cs)
      case None => None
      case Some(k) => Some(k + 1)
  }

  /* ------------------------------------------------ splitting and joining */

  /** `seps.join(…)`. */
  function Join(parts: seq<string>, sep: string): (r: string)
  {
    if parts == [] then ""
    else if |parts| == 1 then parts[0]
    else parts[0] + sep + Join(parts[1..], sep)
  }

  /** Concatenation of all parts. */
  function Concat(parts: seq<string>): (r: string)
  {
    if parts == [] then "" else parts[0] + Concat(parts[1..])
  }

  lemma {:induction false} ConcatSnoc(parts: seq<string>, last: string)
    ensures Concat(parts + [last]) == Concat(parts) + last
    decreases |parts|
  {
    if parts == [] {
      assert parts + [last] == [last];
    } else {
      assert (parts + [last])[1..] == parts[1..] + [last];
      ConcatSnoc(parts[1..], last);
    }
  }

  predicate NoneContains(parts: seq<string>, cs: set<char>)
  {
    forall i, j :: 0 <= i < |parts| && 0 <= j < |parts[i]| ==> parts[i][j] !in cs
  }

  /** `str::split` on any character of `cs`: always at least one piece, no
      piece contains a separator, and the separators found are in `cs`. */
  function SplitAny(s: string, cs: set<char>): (r: seq<string>)
    ensures |r| >= 1
    ensures NoneContains(r, cs)
    decreases |s|
  {
    match IndexOfAny(s, cs)
    case None => [s]
    case Some(i) =>
      var rest := SplitAny(s[i + 1..], cs);
      [s[..i]] + rest
  }

  /** `str::split(c)`. */
  function Split(s: string, c: char): (r: seq<string>)
    ensures |r| >= 1
    ensures forall i :: 0 <= i < |r| ==> c !in r[i]
  {
    var r := SplitAny(s, {c});
    assert forall i :: 0 <= i < |r| ==> c !in r[i] by {
      forall i | 0 <= i < |r| ensures c !in r[i] {
        assert forall j :: 0 <= j < |r[i]| ==> r[i][j] != c;
      }
    }
    r
  }

  /** Splitting then joining with the same character gives the text back. */
  lemma {:induction false} JoinSplit(s: string, c: char)
    ensures Join(Split(s, c), [c]) == s
    decreases |s|
  {
    match IndexOfAny(s, {c})
    case None =>
    case Some(i) =>
      JoinSplit(s[i + 1..], c);
      assert Split(s, c) == [s[..i]] + Split(s[i + 1..], c);
      assert s == s[..i] + [c] + s[i + 1..];
  }

  /** Joining pieces that do not contain the separator, then splitting,
      recovers the pieces. */
  lemma {:induction false} SplitJoin(parts: seq<string>, c: char)
    requires |parts| >= 1
    requires forall i :: 0 <= i < |parts| ==> c !in parts[i]
    ensures Split(Join(parts, [c]), c) == parts
  {
    if |parts| == 1 {
      assert IndexOfAny(parts[0], {c}).None?;
    } else {
      var s := Join(parts, [c]);
      var tail := Join(parts[1..], [c]);
      assert s == parts[0] + [c] + tail;
      var k := |parts[0]|;
      assert s[k] == c;
      assert forall j :: 0 <= j < k ==> s[j] == parts[0][j];
      assert IndexOfAny(s, {c}) == Some(k);
      assert s[k + 1..] == tail;
      assert s[..k] == parts[0];
      SplitJoin(parts[1..], c);
      assert parts == [parts[0]] + parts[1..];
    }
  }

  /** Keeps the non-empty strings, in order. */
  function NonEmpty(parts: seq<string>): (r: seq<string>)
    ensures |r| <= |parts|
    ensures forall i :: 0 <= i < |r| ==> r[i] != []
    ensures forall x :: x in r <==> x in parts && x != []
  {
    if parts == [] then []
    else (if parts[0] == [] then [] else [parts[0]]) + NonEmpty(parts[1..])
  }

  /** `str::split_whitespace`: the maximal runs of non-whitespace. */
  function SplitWhitespace(s: string): (r: seq<string>)
    ensures forall i :: 0 <= i < |r| ==> r[i] != [] && forall j :: 0 <= j < |r[i]| ==> !IsWhitespace(r[i][j])
  {
    var parts := SplitAny(s, WhitespaceChars);
    var r := NonEmpty(parts);
    assert forall i :: 0 <= i < |r| ==> r[i] in parts;
    r
  }

  /** `str::split_once(c)`: text before and after the first `c`. */
  function SplitOnce(s: string, c: char): (r: Option<(string, string)>)
    ensures r.Some? ==> r.value.0 + [c] + r.value.1 == s && c !in r.value.0
    ensures r.None? <==> c !in s
  {
    match IndexOfAny(s, {c})
    case None => None
    case Some(i) =>
      assert s == s[..i] + [c] + s[i + 1..];
      Some((s[..i], s[i + 1..]))
  }

  /** `str::split_inclusive(c)`: pieces that keep their terminator; only the
      last piece may lack it, and no piece is empty. */
  function SplitInclusive(s: string, c: char): (r: seq<string>)
    ensures Concat(r) == s && Segmentation(r, c)
    decreases |s|
  {
    if s == [] then []
    else match IndexOfAny(s, {c})
      case None =>
        SegmentationOfOne(s, c);
        [s]
      case Some(i) =>
        var head := s[..i + 1];
        var tail := SplitInclusive(s[i + 1..], c);
        assert head[..|head| - 1] == s[..i];
        assert s == head + s[i + 1..];
        SegmentationCons(head, tail, c);
        [head] + tail
  }

  /** Non-empty pieces holding `c` only as their last character, which
      every piece but the last one has. */
  predicate Segmentation(r: seq<string>, c: char)
  {
    (forall i :: 0 <= i < |r| ==> r[i] != [] && c !in r[i][..|r[i]| - 1]) &&
    (forall i :: 0 <= i < |r| - 1 ==> r[i][|r[i]| - 1] == c)
  }

  lemma SegmentationOfOne(s: string, c: char)
    requires s != [] && c !in s
    ensures Segmentation([s], c) && Concat([s]) == s
  {
    assert [s][0] == s;
  }

  lemma SegmentationCons(head: string, tail: seq<string>, c: char)
    requires head != [] && head[|head| - 1] == c && c !in head[..|head| - 1]
    requires Segmentation(tail, c)
    ensures Segmentation([head] + tail, c) && Concat([head] + tail) == head + Concat(tail)
  {
    var r := [head] + tail;
    assert r[1..] == tail;
    assert forall j :: 1 <= j < |r| ==> r[j] == tail[j - 1];
  }

  /** One line of `str::lines`: a trailing `\n` is removed, and then a `\r`
      directly before it. */
  function StripLineEnding(piece: string): (r: string)
    ensures StartsWith(piece, r)
    ensures piece != [] && '\n' !in piece[..|piece| - 1] ==> '\n' !in r
  {
    match StripSuffix(piece, "\n")
    case None => piece
    case Some(body) =>
      assert piece[..|body|] == body;
      match StripSuffix(body, "\r")
      case None => body
      case Some(inner) =>
        assert piece[..|inner|] == inner;
        inner
  }

  /** `str::lines`. */
  function Lines(s: string): (r: seq<string>)
    ensures |r| == |SplitInclusive(s, '\n')|
    ensures forall i :: 0 <= i < |r| ==> '\n' !in r[i]
  {
    var pieces := SplitInclusive(s, '\n');
    seq(|pieces|, i requires 0 <= i < |pieces| => StripLineEnding(pieces[i]))
  }

  /** `str::replace(c, with)` for a single character pattern. */
  function ReplaceChar(s: string, c: char, with: string): (r: string)
    ensures c !in with ==> c !in r
  {
    if s == [] then ""
    else (if s[0] == c then with else [s[0]]) + ReplaceChar(s[1..], c, with)
  }

  /** Removes every occurrence of `c` (`replace(c, "")`). */
  function RemoveChar(s: string, c: char): (r: string)
    ensures c !in r
    ensures |r| <= |s|
    ensures c !in s ==> r == s
  {
    if s == [] then ""
    else (if s[0] == c then "" else [s[0]]) + RemoveChar(s[1..], c)
  }

  /** Keeps the characters of `s` that are in `cs`, in order. */
  function KeepOnly(s: string, keep: set<char>): (r: string)
    ensures forall i :: 0 <= i < |r| ==> r[i] in keep
    ensures |r| <= |s|
  {
    if s == [] then ""
    else (if s[0] in keep then [s[0]] else "") + KeepOnly(s[1..], keep)
  }

  /* ------------------------------------------------------ unsigned numbers */

  const U16Max: nat := 65535
  const U32Max: nat := 4294967295
  const U64Max: nat := 18446744073709551615

  predicate AllDigits(s: string) { forall i :: 0 <= i < |s| ==> IsAsciiDigit(s[i]) }

  function DigitValue(c: char): (d: nat)
    requires IsAsciiDigit(c)
    ensures d < 10
  {
    c as int - '0' as int
  }

  /** Decimal value of a digit string. */
  function DigitsValue(s: string): (v: nat)
    requires AllDigits(s)
  {
    if s == [] then 0 else DigitsValue(s[..|s| - 1]) * 10 + DigitValue(s[|s| - 1])
  }

  /** The digits after an optional leading `+`, as `from_str` for unsigned
      integers reads them. */
  function UnsignedDigits(s: string): string
  {
    if |s| > 1 && s[0] == '+' then s[1..] else s
  }

  /** `u16`/`u32`/`u64`/`usize` `from_str`: an optional `+`, then one or more
      ASCII digits whose value does not exceed `max`. */
  function ParseUnsigned(s: string, max: nat): (r: Option<nat>)
    ensures r.Some? <==> (var d := UnsignedDigits(s); d != [] && AllDigits(d) && DigitsValue(d) <= max)
    ensures r.Some? ==> r.value <= max && r.value == DigitsValue(UnsignedDigits(s))
  {
    var d := UnsignedDigits(s);
    if d != [] && AllDigits(d) && DigitsValue(d) <= max then Some(DigitsValue(d)) else None
  }

  /** A parsed number is written with digits (and at most a leading `+`),
      so a string holding any other character does not parse. */
  lemma ParseUnsignedNeedsDigits(s: string, max: nat, i: nat)
    requires i < |s| && !IsAsciiDigit(s[i]) && !(i == 0 && s[i] == '+')
    ensures ParseUnsigned(s, max).None?
  {
    var d := UnsignedDigits(s);
    if |s| > 1 && s[0] == '+' {
      assert d[i - 1] == s[i];
    } else {
      assert d[i] == s[i];
    }
  }

  function DigitChar(d: nat): (c: char)
    requires d < 10
    ensures IsAsciiDigit(c) && DigitValue(c) == d
  {
    ('0' as int + d) as char
  }

  /** Decimal rendering of a natural number (`to_string`/`{}`). */
  function NatToString(n: nat): (s: string)
    ensures s != [] && AllDigits(s)
    ensures DigitsValue(s) == n
    ensures |s| == 1 || s[0] != '0'
  {
    if n < 10 then [DigitChar(n)]
    else
      var p := NatToString(n / 10);
      var s := p + [DigitChar(n % 10)];
      assert s[..|s| - 1] == p;
      s
  }

  /** Rendering and parsing are inverse on in-range numbers. */
  lemma ParseNatToString(n: nat, max: nat)
    requires n <= max
    ensures ParseUnsigned(NatToString(n), max) == Some(n)
  {
    var s := NatToString(n);
    assert UnsignedDigits(s) == s;
  }

  /* ------------------------------------------------- words and lines */

  predicate NoWhitespace(s: string) { forall j :: 0 <= j < |s| ==> !IsWhitespace(s[j]) }

  /** Visible ASCII characters only (`!` to `~`). */
  predicate AsciiGraphic(s: string) { forall j :: 0 <= j < |s| ==> '!' <= s[j] <= '~' }

  lemma GraphicHasNoWhitespace(s: string)
    requires AsciiGraphic(s)
    ensures NoWhitespace(s) && ' ' !in s
  {
  }

  /** Splitting `a c rest` on a set holding `c` but no character of `a`
      yields `a` first. */
  lemma {:induction false} IndexOfAnyAfter(a: string, c: char, rest: string, cs: set<char>)
    requires c in cs && forall j :: 0 <= j < |a| ==> a[j] !in cs
    ensures IndexOfAny(a + [c] + rest, cs) == Some(|a|)
    decreases |a|
  {
    var s := a + [c] + rest;
    if a != [] {
      IndexOfAnyAfter(a[1..], c, rest, cs);
      assert s[1..] == a[1..] + [c] + rest;
    }
  }

  lemma SplitAnyAfter(a: string, c: char, rest: string, cs: set<char>)
    requires c in cs && forall j :: 0 <= j < |a| ==> a[j] !in cs
    ensures SplitAny(a + [c] + rest, cs) == [a] + SplitAny(rest, cs)
  {
    var s := a + [c] + rest;
    IndexOfAnyAfter(a, c, rest, cs);
    assert s[..|a|] == a && s[|a| + 1..] == rest;
  }

  lemma NonEmptyCons(x: string, xs: seq<string>)
    requires x != []
    ensures NonEmpty([x] + xs) == [x] + NonEmpty(xs)
  {
    assert ([x] + xs)[1..] == xs;
  }

  /** A word followed by whitespace is the first word. */
  lemma FirstWord(a: string, c: char, rest: string)
    requires a != [] && NoWhitespace(a) && IsWhitespace(c)
    ensures SplitWhitespace(a + [c] + rest) == [a] + SplitWhitespace(rest)
  {
    SplitAnyAfter(a, c, rest, WhitespaceChars);
    NonEmptyCons(a, SplitAny(rest, WhitespaceChars));
  }

  /** A single word ended by whitespace is all the words there are. */
  lemma LastWord(a: string, c: char)
    requires a != [] && NoWhitespace(a) && IsWhitespace(c)
    ensures SplitWhitespace(a + [c]) == [a]
  {
    FirstWord(a, c, "");
    assert a + [c] + "" == a + [c];
    assert SplitAny("", WhitespaceChars) == [""];
    assert NonEmpty([""]) == [];
  }

  /** A single line ended by `\n` (and no `\r` before it) is read back
      as that line. */
  lemma OneLine(s: string)
    requires '\n' !in s && (s == [] || s[|s| - 1] != '\r')
    ensures Lines(s + "\n") == [s]
  {
    var t := s + "\n";
    assert forall j :: 0 <= j < |s| ==> s[j] !in {'\n'};
    IndexOfAnyAfter(s, '\n', [], {'\n'});
    assert s + ['\n'] + [] == t;
    SplitInclusiveOneLine(t, |s|);
    StripLineEndingOfLine(s);
  }

  /** A text whose only newline is its last character is one segment. */
  lemma SplitInclusiveOneLine(t: string, n: nat)
    requires n + 1 == |t| && IndexOfAny(t, {'\n'}) == Some(n)
    ensures SplitInclusive(t, '\n') == [t]
  {
    assert t[..n + 1] == t && t[n + 1..] == [];
  }

  /** A line with its `\n` and no `\r` loses exactly the `\n`. */
  lemma StripLineEndingOfLine(s: string)
    requires s == [] || s[|s| - 1] != '\r'
    ensures StripLineEnding(s + "\n") == s
  {
    var t := s + "\n";
    assert t[..|t| - 1] == s;
    assert StripSuffix(t, "\n") == Some(s);
    if s != [] {
      assert StripSuffix(s, "\r").None?;
    }
  }

  /* ------------------------------------------------------- string order */

  /** Rust's `Ord` on strings: lexicographic by character, a proper prefix
      first. */
  predicate LexLess(a: string, b: string)
  {
    if a == [] then b != []
    else if b == [] then false
    else if a[0] != b[0] then a[0] < b[0]
    else LexLess(a[1..], b[1..])
  }

  lemma {:induction false} LexLessIrreflexive(a: string)
    ensures !LexLess(a, a)
  {
    if a != [] {
      LexLessIrreflexive(a[1..]);
    }
  }

  lemma {:induction false} LexLessTotal(a: string, b: string)
    ensures a == b || LexLess(a, b) || LexLess(b, a)
  {
    if a != [] && b != [] && a[0] == b[0] {
      LexLessTotal(a[1..], b[1..]);
      if a[1..] == b[1..] {
        assert a == [a[0]] + a[1..] && b == [b[0]] + b[1..];
      }
    }
  }

  lemma {:induction false} LexLessTransitive(a: string, b: string, c: string)
    requires LexLess(a, b) && LexLess(b, c)
    ensures LexLess(a, c)
  {
    if a != [] && a[0] == b[0] && b[0] == c[0] {
      LexLessTransitive(a[1..], b[1..], c[1..]);
    }
  }

  /** Strictly increasing, neighbour by neighbour. */
  predicate StrictlySorted(xs: seq<string>)
  {
    forall i :: 0 < i < |xs| ==> LexLess(xs[i - 1], xs[i])
  }

  /** A strictly sorted list is increasing across any two positions, so it
      holds no duplicates. */
  lemma {:induction false} StrictlySortedIncreasing(xs: seq<string>, i: nat, j: nat)
    requires StrictlySorted(xs) && i < j < |xs|
    ensures LexLess(xs[i], xs[j]) && xs[i] != xs[j]
    decreases j - i
  {
    if i + 1 < j {
      StrictlySortedIncreasing(xs, i + 1, j);
      LexLessTransitive(xs[i], xs[i + 1], xs[j]);
    }
    LexLessIrreflexive(xs[i]);
  }

  /** Inserts `x` at its place, unless it is already there. */
  function InsertString(x: string, xs: seq<string>): (r: seq<string>)
    requires StrictlySorted(xs)
    ensures StrictlySorted(r)
    ensures forall y :: y in r <==> y == x || y in xs
    ensures r != [] && (r[0] == x || (xs != [] && r[0] == xs[0]))
  {
    if xs == [] then [x]
    else if x == xs[0] then xs
    else if LexLess(x, xs[0]) then [x] + xs
    else
      LexLessTotal(x, xs[0]);
      var rest := InsertString(x, xs[1..]);
      [xs[0]] + rest
  }

  /** `sort_unstable` of the distinct values: the same values, strictly
      increasing. */
  function SortDistinct(xs: seq<string>): (r: seq<string>)
    ensures StrictlySorted(r)
    ensures forall y :: y in r <==> y in xs
  {
    if xs == [] then [] else InsertString(xs[|xs| - 1], SortDistinct(xs[..|xs| - 1]))
  }
}
