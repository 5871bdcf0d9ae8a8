/** Finding the foreground process on Linux: which helper tool to ask, and
    how to read a process id out of each tool's output. Running the tools is
    outside the model; their output text is the input. */
module FocusLinux {
  import opened Wrappers
  import opened Text

  datatype Backend = Xdotool | Xprop | Hyprctl | Unavailable

  /** `detect_backend`: the first installed tool in the order xdotool,
      xprop, hyprctl. */
  function DetectBackend(hasXdotool: bool, hasXprop: bool, hasHyprctl: bool): (b: Backend)
    ensures b == Xdotool <==> hasXdotool
    ensures b == Xprop <==> !hasXdotool && hasXprop
    ensures b == Hyprctl <==> !hasXdotool && !hasXprop && hasHyprctl
    ensures b == Unavailable <==> !hasXdotool && !hasXprop && !hasHyprctl
  {
    if hasXdotool then Xdotool
    else if hasXprop then Xprop
    else if hasHyprctl then Hyprctl
    else Unavailable
  }

  /** A `u32` process id; zero is not a process. */
  function PositivePid(s: string): (r: Option<nat>)
    ensures r.Some? ==> 0 < r.value <= U32Max
    ensures r.Some? <==> ParseUnsigned(s, U32Max).Some? && ParseUnsigned(s, U32Max).value > 0
  {
    match ParseUnsigned(s, U32Max)
    case Some(n) => if n > 0 then Some(n) else None
    case None => None
  }

  /** The pid printed by `xdotool getwindowfocus getwindowpid`. */
  function XdotoolPid(output: string): (r: Option<nat>)
    ensures r.Some? ==> 0 < r.value <= U32Max
  {
    PositivePid(Trim(output))
  }

  /** The window id in `xprop -root _NET_ACTIVE_WINDOW` output: the trimmed
      text after the first `#`, up to any second `#`, if non-empty. */
  function XpropWindowId(root: string): (r: Option<string>)
    ensures r.Some? ==> r.value != [] && IsTrimmed(r.value) && '#' !in r.value
    ensures r.Some? ==> '#' in root
  {
    var parts := Split(root, '#');
    if |parts| < 2 then None
    else
      var id := Trim(parts[1]);
      if id == [] then None
      else
        assert '#' in root by {
          JoinSplit(root, '#');
          assert Join(parts, ['#']) == parts[0] + ['#'] + Join(parts[1..], ['#']);
          assert (parts[0] + ['#'] + Join(parts[1..], ['#']))[|parts[0]|] == '#';
        }
        Some(id)
  }

  /** `parse_number_after_equals` (the `_NET_WM_PID(CARDINAL) = 1234`
      line): the first word after the first `=`, as a positive `u32`. */
  function NumberAfterEquals(text: string): (r: Option<nat>)
    ensures r.Some? ==> 0 < r.value <= U32Max
  {
    var parts := Split(text, '=');
    if |parts| < 2 then None
    else
      var words := SplitWhitespace(Trim(parts[1]));
      if words == [] then None else PositivePid(words[0])
  }

  lemma SplitAnyWithoutSeparator(s: string, cs: set<char>)
    requires forall j :: 0 <= j < |s| ==> s[j] !in cs
    ensures SplitAny(s, cs) == [s]
  {
  }

  lemma SplitTwo(a: string, c: char, b: string)
    requires c !in a && c !in b
    ensures Split(a + [c] + b, c) == [a, b]
  {
    assert Join([a, b], [c]) == a + [c] + b;
    SplitJoin([a, b], c);
  }

  /** A run of digits is one word and needs no trimming. */
  lemma DigitsAreOneWord(d: string)
    requires d != [] && AllDigits(d)
    ensures Trim(d) == d
    ensures SplitWhitespace(Trim(d)) == [d]
  {
    assert forall j :: 0 <= j < |d| ==> d[j] !in WhitespaceChars by {
      assert forall j :: 0 <= j < |d| ==> IsAsciiDigit(d[j]);
    }
    TrimNoWhitespace(d);
    SplitAnyWithoutSeparator(d, WhitespaceChars);
    assert NonEmpty([d]) == [d] by {
      assert [d][1..] == [];
    }
  }

  /** Round trip for the xprop pid line: `<label>=<pid>` reads back the pid. */
  lemma NumberAfterEqualsReadsPid(head: string, pid: nat)
    requires '=' !in head && 0 < pid <= U32Max
    ensures NumberAfterEquals(head + "=" + NatToString(pid)) == Some(pid)
  {
    var d := NatToString(pid);
    assert '=' !in d by { assert forall j :: 0 <= j < |d| ==> IsAsciiDigit(d[j]); }
    assert head + "=" + d == head + ['='] + d;
    SplitTwo(head, '=', d);
    DigitsAreOneWord(d);
    ParseNatToString(pid, U32Max);
  }

  /** Round trip for the active-window line: `<label># <id>` gives the id. */
  lemma XpropWindowIdReadsId(head: string, id: string)
    requires '#' !in head && '#' !in id && id != [] && IsTrimmed(id)
    ensures XpropWindowId(head + "#" + id) == Some(id)
  {
    SplitTwo(head, '#', id);
    TrimOfTrimmed(id);
  }

  /** Digits at the start of `s`. */
  function LeadingDigits(s: string): (r: string)
    ensures AllDigits(r) && StartsWith(s, r)
    ensures |r| == |s| || !IsAsciiDigit(s[|r|])
  {
    if s != [] && IsAsciiDigit(s[0]) then [s[0]] + LeadingDigits(s[1..]) else []
  }

  /** A digit prefix ended by a non-digit or the end is the leading run. */
  lemma {:induction false} LeadingDigitsUnique(s: string, m: nat)
    requires m <= |s| && AllDigits(s[..m]) && (m == |s| || !IsAsciiDigit(s[m]))
    ensures LeadingDigits(s) == s[..m]
    decreases m
  {
    if m > 0 {
      assert IsAsciiDigit(s[..m][0]);
      assert s[1..][..m - 1] == s[1..m];
      LeadingDigitsUnique(s[1..], m - 1);
      assert s[..m] == [s[0]] + s[1..m];
    }
  }

  /** Index of the first ASCII digit, or `|s|`. */
  function FirstDigitIndex(s: string): (k: nat)
    ensures k <= |s|
    ensures forall j :: 0 <= j < k ==> !IsAsciiDigit(s[j])
    ensures k < |s| ==> IsAsciiDigit(s[k])
  {
    if s == [] || IsAsciiDigit(s[0]) then 0 else 1 + FirstDigitIndex(s[1..])
  }

  /** The first maximal run of digits in `s` (empty when there is none). */
  function FirstDigitRun(s: string): (r: string)
    ensures AllDigits(r)
    ensures r == [] <==> forall j :: 0 <= j < |s| ==> !IsAsciiDigit(s[j])
    ensures r != [] ==> OccursAt(s, r, FirstDigitIndex(s))
  {
    var k := FirstDigitIndex(s);
    var r := LeadingDigits(s[k..]);
    assert k < |s| ==> r != [];
    r
  }

  const PidMarker: string := "\"pid\":"

  /** `parse_hyprctl_pid`: after the first `"pid":` in the JSON, skip to the
      first digit, collect digits until the next non-digit, and accept the
      run as a positive `u32`. */
  method ParseHyprctlPid(json: string) returns (pid: Option<nat>)
    ensures Find(json, PidMarker).None? ==> pid.None?
    ensures Find(json, PidMarker).Some? ==>
      pid == PositivePid(FirstDigitRun(json[Find(json, PidMarker).value + |PidMarker|..]))
  {
    var found := Find(json, PidMarker);
    if found.None? {
      return None;
    }
    var digits := CollectDigitRun(json[found.value + |PidMarker|..]);
    pid := PositivePid(digits);
  }

  /** The scan of `parse_hyprctl_pid`: skip non-digits, then collect
      digits up to the first non-digit after them. */
  method CollectDigitRun(rest: string) returns (digits: string)
    ensures digits == FirstDigitRun(rest)
  {
    digits := "";
    var i := 0;
    while i < |rest|
      invariant 0 <= i <= |rest|
      invariant digits == [] ==> forall j :: 0 <= j < i ==> !IsAsciiDigit(rest[j])
      invariant digits != [] ==> FirstDigitIndex(rest) + |digits| == i && rest[FirstDigitIndex(rest)..i] == digits
      invariant AllDigits(digits)
    {
      if IsAsciiDigit(rest[i]) {
        if digits == [] {
          assert FirstDigitIndex(rest) == i;
        }
        digits := digits + [rest[i]];
      } else if digits != [] {
        break;
      }
      i := i + 1;
    }
    var k := FirstDigitIndex(rest);
    if digits != [] {
      assert rest[k..][..|digits|] == digits;
      LeadingDigitsUnique(rest[k..], |digits|);
    } else {
      assert k == |rest|;
    }
  }
}
