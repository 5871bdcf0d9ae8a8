/** Dependency helpers: reading the path `where` prints, adding a directory
    to a PATH value at most once, and the one-line install command for the
    benchmark tools that are missing. */
module Deps {
  import opened Wrappers
  import opened Text

  /* ------------------------------------------------------------- where */

  /** The first line that is not blank, trimmed. */
  function FirstNonBlank(lines: seq<string>): (r: Option<string>)
    ensures r.Some? ==> r.value != [] && IsTrimmed(r.value)
  {
    if lines == [] then None
    else if Trim(lines[0]) != [] then Some(Trim(lines[0]))
    else FirstNonBlank(lines[1..])
  }

  /** `parse_where_output`: the first path `where` prints. */
  function ParseWhereOutput(output: string): Option<string>
  {
    FirstNonBlank(Lines(output))
  }

  /** The path found is the first line that is not blank, and there is none
      exactly when every line is blank. */
  lemma {:induction false} FirstNonBlankIsFirst(lines: seq<string>)
    ensures FirstNonBlank(lines).None? <==> forall j :: 0 <= j < |lines| ==> Trim(lines[j]) == []
    ensures FirstNonBlank(lines).Some? ==>
      exists k :: 0 <= k < |lines| && FirstNonBlank(lines).value == Trim(lines[k]) &&
        forall j :: 0 <= j < k ==> Trim(lines[j]) == []
  {
    if lines != [] && Trim(lines[0]) == [] {
      FirstNonBlankIsFirst(lines[1..]);
      assert forall j :: 1 <= j < |lines| ==> lines[j] == lines[1..][j - 1];
      if FirstNonBlank(lines).Some? {
        var k :| 0 <= k < |lines[1..]| && FirstNonBlank(lines[1..]).value == Trim(lines[1..][k]) &&
          forall j :: 0 <= j < k ==> Trim(lines[1..][j]) == [];
        assert lines[k + 1] == lines[1..][k];
      }
    }
  }

  /* ------------------------------------------------------ path entries */

  /** `looks_like_windows_path`: after trimming, a backslash, a UNC prefix,
      or ':' as the second byte (which, in UTF-8, means an ASCII first
      character followed by ':'). */
  predicate LooksLikeWindowsPath(value: string)
  {
    var t := Trim(value);
    '\\' in t || StartsWith(t, "\\\\") || (|t| > 1 && IsAscii(t[0]) && t[1] == ':')
  }

  /** The UNC test adds nothing: a UNC prefix already holds a backslash. */
  lemma UncTestRedundant(value: string)
    ensures LooksLikeWindowsPath(value) <==>
      var t := Trim(value); '\\' in t || (|t| > 1 && IsAscii(t[0]) && t[1] == ':')
  {
    var t := Trim(value);
    if StartsWith(t, "\\\\") {
      assert t[0] == '\\';
    }
  }

  const PathSlashes: set<char> := {'\\', '/'}

  /** `normalize_path_for_compare`: trimmed, trailing slashes of either
      kind dropped, ASCII lower case. */
  function NormalizePathForCompare(value: string): (r: string)
    ensures |r| <= |value|
    ensures r == [] || r[|r| - 1] !in PathSlashes
  {
    AsciiLower(TrimEndChars(Trim(value), PathSlashes))
  }

  /** Trailing slashes and ASCII case do not make two directories differ. */
  lemma NormalizeIgnoresTrailingSlash(d: string, slash: char)
    requires d != [] && IsTrimmed(d) && slash in PathSlashes
    ensures NormalizePathForCompare(d + [slash]) == NormalizePathForCompare(d)
    ensures NormalizePathForCompare(AsciiLower(d)) == NormalizePathForCompare(d)
  {
    var s := d + [slash];
    assert s[0] == d[0] && s[|s| - 1] == slash;
    TrimOfTrimmed(s);
    TrimOfTrimmed(d);
    assert s[..|s| - 1] == d;
    LowerTrimmed(d);
    LowerTrimEnd(d);
    AsciiLowerIdempotent(TrimEndChars(d, PathSlashes));
  }

  lemma LowerTrimmed(d: string)
    requires d != [] && IsTrimmed(d)
    ensures Trim(AsciiLower(d)) == AsciiLower(d)
  {
    var l := AsciiLower(d);
    assert ToAsciiLowerChar(d[0]) == l[0] && ToAsciiLowerChar(d[|d| - 1]) == l[|l| - 1];
    TrimOfTrimmed(l);
  }

  /** Lower-casing commutes with dropping trailing slashes. */
  lemma {:induction false} LowerTrimEnd(s: string)
    ensures TrimEndChars(AsciiLower(s), PathSlashes) == AsciiLower(TrimEndChars(s, PathSlashes))
    decreases |s|
  {
    if s != [] {
      var l := AsciiLower(s);
      assert l[|l| - 1] in PathSlashes <==> s[|s| - 1] in PathSlashes;
      assert l[..|l| - 1] == AsciiLower(s[..|s| - 1]);
      LowerTrimEnd(s[..|s| - 1]);
    }
  }

  predicate SameDirectory(a: string, b: string)
  {
    NormalizePathForCompare(a) == NormalizePathForCompare(b)
  }

  /** The separator: ';' when the value already uses it or either argument
      looks like a Windows path, else ':'. */
  function Separator(current: string, directory: string): (c: char)
    ensures c == ';' || c == ':'
  {
    if ';' in current || LooksLikeWindowsPath(current) || LooksLikeWindowsPath(directory) then ';' else ':'
  }

  /** The pieces trimmed, blank ones dropped, in order. */
  function Entries(parts: seq<string>): (r: seq<string>)
    ensures |r| <= |parts|
    ensures forall i :: 0 <= i < |r| ==> r[i] != [] && IsTrimmed(r[i])
  {
    if parts == [] then []
    else
      var last := Trim(parts[|parts| - 1]);
      Entries(parts[..|parts| - 1]) + (if last == [] then [] else [last])
  }

  function PathEntries(current: string, sep: char): seq<string>
  {
    Entries(Split(current, sep))
  }

  predicate Listed(entries: seq<string>, directory: string)
  {
    exists i :: 0 <= i < |entries| && SameDirectory(entries[i], directory)
  }

  /** What `prepend_path_once` returns. */
  function PrependedPath(current: string, directory: string): string
  {
    var sep := Separator(current, directory);
    var entries := PathEntries(current, sep);
    if Listed(entries, directory) then Join(entries, [sep]) else Join([directory] + entries, [sep])
  }

  /** The `split`, `trim`, `filter` and `collect` chain: the entries in
      order. */
  method CollectEntries(parts: seq<string>) returns (entries: seq<string>)
    ensures entries == Entries(parts)
  {
    entries := [];
    var i := 0;
    while i < |parts|
      invariant 0 <= i <= |parts|
      invariant entries == Entries(parts[..i])
    {
      var value := Trim(parts[i]);
      assert parts[..i + 1][..i] == parts[..i];
      assert Entries(parts[..i + 1]) == Entries(parts[..i]) + (if value == [] then [] else [value]);
      if value != [] {
        entries := entries + [value];
      }
      i := i + 1;
    }
    assert parts[..i] == parts;
  }

  /** The `iter().any(...)` test: whether some entry names the directory. */
  method AnySame(entries: seq<string>, directory: string) returns (found: bool)
    ensures found <==> Listed(entries, directory)
  {
    var k := 0;
    found := false;
    while k < |entries| && !found
      invariant 0 <= k <= |entries|
      invariant found <==> Listed(entries[..k], directory)
    {
      ListedExtend(entries, k, directory);
      found := SameDirectory(entries[k], directory);
      k := k + 1;
    }
    if found {
      ListedPrefix(entries, k, directory);
    } else {
      assert entries[..k] == entries;
    }
  }

  lemma ListedExtend(entries: seq<string>, k: nat, directory: string)
    requires k < |entries|
    ensures Listed(entries[..k + 1], directory) <==> Listed(entries[..k], directory) || SameDirectory(entries[k], directory)
  {
    var p := entries[..k + 1];
    assert p[k] == entries[k];
    if Listed(entries[..k], directory) {
      var i :| 0 <= i < k && SameDirectory(entries[..k][i], directory);
      assert p[i] == entries[..k][i];
    }
    if Listed(p, directory) && !SameDirectory(entries[k], directory) {
      var i :| 0 <= i < k + 1 && SameDirectory(p[i], directory);
      assert i != k;
      assert entries[..k][i] == p[i];
    }
  }

  lemma ListedPrefix(entries: seq<string>, k: nat, directory: string)
    requires k <= |entries| && Listed(entries[..k], directory)
    ensures Listed(entries, directory)
  {
    var i :| 0 <= i < k && SameDirectory(entries[..k][i], directory);
    assert entries[i] == entries[..k][i];
  }

  /** `prepend_path_once`: collects the entries, looks for the directory
      among them and, when it is missing, inserts it at the front. */
  method PrependPathOnce(current: string, directory: string) returns (updated: string)
    ensures updated == PrependedPath(current, directory)
  {
    var sep := Separator(current, directory);
    var entries := CollectEntries(Split(current, sep));
    var found := AnySame(entries, directory);
    if found {
      return Join(entries, [sep]);
    }
    entries := [directory] + entries;
    updated := Join(entries, [sep]);
  }

  /* ----------------------------------------- characters of the entries */

  /** A character that is not whitespace survives trimming. */
  lemma TrimKeeps(s: string, k: nat)
    requires k < |s| && !IsWhitespace(s[k])
    ensures s[k] in Trim(s)
  {
    var a := LeadingWhitespace(s);
    var t := TrimStart(s);
    var b := TrailingStart(t);
    assert a <= k;
    assert k - a < b;
    assert Trim(s)[k - a] == s[k];
  }

  /** Trimming only removes characters. */
  lemma TrimChars(s: string, c: char)
    requires c in Trim(s)
    ensures c in s
  {
    TrimIsSlice(s);
  }

  lemma {:induction false} JoinHas(parts: seq<string>, sep: string, i: nat, c: char)
    requires i < |parts| && c in parts[i]
    ensures c in Join(parts, sep)
  {
    if i > 0 {
      JoinHas(parts[1..], sep, i - 1, c);
    }
  }

  lemma {:induction false} EntriesFrom(parts: seq<string>, i: nat, c: char)
    requires i < |Entries(parts)| && c in Entries(parts)[i]
    ensures exists j :: 0 <= j < |parts| && c in parts[j]
  {
    var front := Entries(parts[..|parts| - 1]);
    if i < |front| {
      EntriesFrom(parts[..|parts| - 1], i, c);
      var j :| 0 <= j < |parts[..|parts| - 1]| && c in parts[..|parts| - 1][j];
      assert c in parts[j];
    } else {
      TrimChars(parts[|parts| - 1], c);
    }
  }

  /** No entry contains a character the pieces do not. */
  lemma EntriesAvoid(parts: seq<string>, c: char)
    requires forall j :: 0 <= j < |parts| ==> c !in parts[j]
    ensures forall i :: 0 <= i < |Entries(parts)| ==> c !in Entries(parts)[i]
  {
    forall i | 0 <= i < |Entries(parts)| ensures c !in Entries(parts)[i] {
      if c in Entries(parts)[i] {
        EntriesFrom(parts, i, c);
      }
    }
  }

  /** Entries that are already clean are kept as they are. */
  lemma {:induction false} EntriesOfClean(xs: seq<string>)
    requires forall i :: 0 <= i < |xs| ==> xs[i] != [] && IsTrimmed(xs[i])
    ensures Entries(xs) == xs
  {
    if xs != [] {
      EntriesOfClean(xs[..|xs| - 1]);
      TrimOfTrimmed(xs[|xs| - 1]);
      assert xs == xs[..|xs| - 1] + [xs[|xs| - 1]];
    }
  }

  /** A join of clean pieces starts with the first piece and ends with the
      last character of the last piece. */
  lemma {:induction false} JoinEnds(parts: seq<string>, sep: char)
    requires |parts| >= 1 && forall i :: 0 <= i < |parts| ==> parts[i] != []
    ensures StartsWith(Join(parts, [sep]), parts[0])
    ensures var r := Join(parts, [sep]); var l := parts[|parts| - 1]; r != [] && r[|r| - 1] == l[|l| - 1]
  {
    if |parts| > 1 {
      JoinEnds(parts[1..], sep);
    }
  }

  /** A ':' survives normalisation, and comes from the original. */
  lemma ColonSurvives(s: string)
    requires s != [] && IsTrimmed(s)
    ensures ':' in s ==> ':' in NormalizePathForCompare(s)
    ensures ':' in NormalizePathForCompare(s) ==> ':' in s
  {
    TrimOfTrimmed(s);
    var e := TrimEndChars(s, PathSlashes);
    if ':' in s {
      var k :| 0 <= k < |s| && s[k] == ':';
      assert k < |e|;
      assert NormalizePathForCompare(s)[k] == ':';
    }
    if ':' in NormalizePathForCompare(s) {
      var k :| 0 <= k < |e| && NormalizePathForCompare(s)[k] == ':';
      assert e[k] == s[k];
    }
  }

  /* ----------------------------------------------------------- lemmas */

  /** With the directory missing (and free of the separator), the new value
      is the directory followed by the existing entries. */
  lemma DirectoryGoesFirst(current: string, directory: string)
    requires var sep := Separator(current, directory);
      !Listed(PathEntries(current, sep), directory) && sep !in directory
    ensures var sep := Separator(current, directory);
      Split(PrependedPath(current, directory), sep) == [directory] + PathEntries(current, sep)
    ensures StartsWith(PrependedPath(current, directory), directory)
  {
    var sep := Separator(current, directory);
    var entries := PathEntries(current, sep);
    EntriesAvoid(Split(current, sep), sep);
    SplitJoin([directory] + entries, sep);
    if directory != [] {
      JoinEnds([directory] + entries, sep);
    }
  }

  /** With the directory present, the value is the existing entries, once
      each and in order: nothing is added. */
  lemma ListedDirectoryKept(current: string, directory: string)
    requires Listed(PathEntries(current, Separator(current, directory)), directory)
    ensures var sep := Separator(current, directory);
      PrependedPath(current, directory) == Join(PathEntries(current, sep), [sep]) &&
      Split(PrependedPath(current, directory), sep) == PathEntries(current, sep)
  {
    var sep := Separator(current, directory);
    EntriesAvoid(Split(current, sep), sep);
    SplitJoin(PathEntries(current, sep), sep);
  }

  /** When a second call is sure to give the same value: a trimmed
      directory of two characters or more without ';', with ':' only in a
      Windows-looking directory, and (in a ':'-separated value) no
      one-character entry in front of others. */
  predicate IdempotencePre(current: string, directory: string)
  {
    var sep := Separator(current, directory);
    var entries := PathEntries(current, sep);
    |directory| >= 2 && IsTrimmed(directory) && ';' !in directory &&
    (':' in directory ==> LooksLikeWindowsPath(directory)) &&
    (sep == ':' && |entries| >= 2 ==> |entries[0]| >= 2)
  }

  /** The entries after the call, as a list: the existing ones, with the
      directory in front when it was missing. */
  function After(current: string, directory: string): (l: seq<string>)
    ensures PrependedPath(current, directory) == Join(l, [Separator(current, directory)])
  {
    var sep := Separator(current, directory);
    var entries := PathEntries(current, sep);
    if Listed(entries, directory) then entries else [directory] + entries
  }

  /** Applying the call twice gives what applying it once gives. */
  lemma PrependIdempotent(current: string, directory: string)
    requires IdempotencePre(current, directory)
    ensures PrependedPath(PrependedPath(current, directory), directory) == PrependedPath(current, directory)
  {
    var sep := Separator(current, directory);
    var l := After(current, directory);
    var r := PrependedPath(current, directory);
    AfterIsClean(current, directory);
    var sep2 := SeparatorStable(current, directory);
    assert Split(r, sep2) == l by {
      if sep2 == sep {
        SplitJoin(l, sep);
      } else {
        SplitJoin(l, sep2);
      }
    }
    EntriesOfClean(l);
    assert PathEntries(r, sep2) == l;
    assert SameDirectory(directory, directory);
    assert Listed(l, directory);
    assert PrependedPath(r, directory) == Join(l, [sep2]);
  }

  /** The list after the call is clean, avoids the separator, and lists
      the directory. */
  lemma AfterIsClean(current: string, directory: string)
    requires IdempotencePre(current, directory)
    ensures var l := After(current, directory); var sep := Separator(current, directory);
      |l| >= 1 && Listed(l, directory) &&
      forall i :: 0 <= i < |l| ==> l[i] != [] && IsTrimmed(l[i]) && sep !in l[i]
  {
    var sep := Separator(current, directory);
    var entries := PathEntries(current, sep);
    var l := After(current, directory);
    EntriesAvoid(Split(current, sep), sep);
    if Listed(entries, directory) {
      assert l == entries;
    } else {
      assert l == [directory] + entries;
      assert sep !in directory;
      assert SameDirectory(l[0], directory);
      forall i | 1 <= i < |l| ensures l[i] != [] && IsTrimmed(l[i]) && sep !in l[i] {
        assert l[i] == entries[i - 1];
      }
    }
  }

  /** The second call's separator splits the value back into the same
      list: it is the first call's separator, or the list has one entry
      that does not contain it. */
  lemma SeparatorStable(current: string, directory: string) returns (sep2: char)
    requires IdempotencePre(current, directory)
    ensures sep2 == Separator(PrependedPath(current, directory), directory)
    ensures var l := After(current, directory);
      sep2 == Separator(current, directory) || (|l| == 1 && sep2 !in l[0])
  {
    var sep := Separator(current, directory);
    var entries := PathEntries(current, sep);
    var l := After(current, directory);
    var r := PrependedPath(current, directory);
    sep2 := Separator(r, directory);
    AfterIsClean(current, directory);
    JoinEnds(l, sep);
    if sep == ';' {
      if !LooksLikeWindowsPath(directory) && |l| >= 2 {
        assert r == l[0] + [sep] + Join(l[1..], [sep]);
        assert r[|l[0]|] == ';';
      } else if !LooksLikeWindowsPath(directory) && sep2 == ':' {
        assert ':' !in l[0] by {
          if ':' in l[0] {
            assert SameDirectory(l[0], directory) by {
              var i :| 0 <= i < |l| && SameDirectory(l[i], directory);
            }
            ColonSurvives(l[0]);
            ColonSurvives(directory);
          }
        }
      }
    } else {
      ColonSeparated(current, directory);
    }
  }

  /** In a ':'-separated value the first call leaves nothing that would
      make the second call switch to ';'. */
  lemma ColonSeparated(current: string, directory: string)
    requires IdempotencePre(current, directory) && Separator(current, directory) == ':'
    ensures Separator(PrependedPath(current, directory), directory) == ':'
  {
    var l := After(current, directory);
    var r := PrependedPath(current, directory);
    AfterIsClean(current, directory);
    JoinTrimmed(l, ':');
    ColonValueAvoids(current, directory, ';');
    ColonValueAvoids(current, directory, '\\');
    ColonValueNoDrive(current, directory);
    ColonSeparatorFor(r, directory);
  }

  /** A trimmed value with no ';', no '\\' and no drive prefix, next to a
      directory that does not look like a Windows path, is split on ':'. */
  lemma ColonSeparatorFor(r: string, directory: string)
    requires IsTrimmed(r) && ';' !in r && '\\' !in r && !(|r| > 1 && IsAscii(r[0]) && r[1] == ':')
    requires !LooksLikeWindowsPath(directory)
    ensures Separator(r, directory) == ':'
  {
    TrimOfTrimmed(r);
    assert !StartsWith(r, "\\\\") by {
      if |r| >= 2 { assert r[0] in r; }
    }
  }

  /** A join of trimmed non-empty pieces is trimmed. */
  lemma JoinTrimmed(parts: seq<string>, sep: char)
    requires |parts| >= 1 && forall i :: 0 <= i < |parts| ==> parts[i] != [] && IsTrimmed(parts[i])
    ensures IsTrimmed(Join(parts, [sep]))
  {
    JoinEnds(parts, sep);
    var r := Join(parts, [sep]);
    assert r[0] == parts[0][0];
  }

  /** Neither ';' nor '\\' gets into a ':'-separated value. */
  lemma ColonValueAvoids(current: string, directory: string, c: char)
    requires IdempotencePre(current, directory) && Separator(current, directory) == ':'
    requires c == ';' || c == '\\'
    ensures c !in PrependedPath(current, directory)
  {
    var entries := PathEntries(current, ':');
    var l := After(current, directory);
    TrimOfTrimmed(directory);
    assert c !in directory;
    assert c !in current by {
      if c == '\\' {
        assert '\\' !in Trim(current);
        TrimAvoids(current, c);
      }
    }
    SplitAvoids(current, ':', c);
    EntriesAvoid(Split(current, ':'), c);
    assert forall i :: 0 <= i < |l| ==> c !in l[i];
    JoinAvoids(l, ':', c);
  }

  /** A ':'-separated value does not start like a drive path. */
  lemma ColonValueNoDrive(current: string, directory: string)
    requires IdempotencePre(current, directory) && Separator(current, directory) == ':'
    ensures var r := PrependedPath(current, directory); !(|r| > 1 && IsAscii(r[0]) && r[1] == ':')
  {
    var entries := PathEntries(current, ':');
    var l := After(current, directory);
    var r := PrependedPath(current, directory);
    AfterIsClean(current, directory);
    JoinEnds(l, ':');
    TrimOfTrimmed(directory);
    EntriesAvoid(Split(current, ':'), ':');
    assert |l[0]| >= 2 || |l| == 1;
    assert !(|l[0]| > 1 && IsAscii(l[0][0]) && l[0][1] == ':');
    if |l[0]| >= 2 {
      assert r[..|l[0]|] == l[0];
      assert r[0] == l[0][0] && r[1] == l[0][1];
    }
  }

  /** A non-whitespace character missing from the trimmed value is missing
      from the value. */
  lemma TrimAvoids(s: string, c: char)
    requires !IsWhitespace(c) && c !in Trim(s)
    ensures c !in s
  {
    if c in s {
      var k :| 0 <= k < |s| && s[k] == c;
      TrimKeeps(s, k);
    }
  }

  lemma SplitAvoids(s: string, sep: char, c: char)
    requires c !in s
    ensures forall j :: 0 <= j < |Split(s, sep)| ==> c !in Split(s, sep)[j]
  {
    JoinSplit(s, sep);
    forall j | 0 <= j < |Split(s, sep)| ensures c !in Split(s, sep)[j] {
      if c in Split(s, sep)[j] {
        JoinHas(Split(s, sep), [sep], j, c);
      }
    }
  }

  lemma {:induction false} JoinAvoids(parts: seq<string>, sep: char, c: char)
    requires c != sep && forall i :: 0 <= i < |parts| ==> c !in parts[i]
    ensures c !in Join(parts, [sep])
  {
    if |parts| > 1 {
      JoinAvoids(parts[1..], sep, c);
    }
  }

  /** Without the precondition the call is not idempotent: a one-letter
      directory such as `a` put in front of `/usr/bin` makes the value look
      like a Windows drive path (`a:/usr/bin`), the second call splits it
      on `;` instead of `:`, and the directory is added again. */
  lemma OneLetterDirectoryAddedTwice(current: string, x: char)
    requires |current| >= 2 && IsTrimmed(current) && current[|current| - 1] !in PathSlashes
    requires ':' !in current && ';' !in current && '\\' !in current
    requires IsAscii(x) && !IsWhitespace(x) && x !in PathSlashes && x != ':' && x != ';'
    ensures PrependedPath(current, [x]) == [x] + ":" + current
    ensures var once := [x] + ":" + current; PrependedPath(once, [x]) == [x] + ";" + once
  {
    OneLetterFirstCall(current, x);
    DriveLike(current, x);
    OneLetterSecondCall([x] + ":" + current, x);
  }

  /** `x:` in front of a value without `;` gives a drive-like value. */
  lemma DriveLike(current: string, x: char)
    requires |current| >= 2 && IsTrimmed(current) && current[|current| - 1] !in PathSlashes
    requires ';' !in current && x != ';' && !IsWhitespace(x)
    ensures var once := [x] + ":" + current;
      |once| >= 3 && once[0] == x && once[1] == ':' && IsTrimmed(once) &&
      once[|once| - 1] !in PathSlashes && ';' !in once
  {
    var once := [x] + ":" + current;
    assert once[|once| - 1] == current[|current| - 1];
    forall i | 0 <= i < |once| ensures once[i] != ';' {
      if i >= 2 { assert once[i] == current[i - 2]; }
    }
  }

  lemma OneLetterFirstCall(current: string, x: char)
    requires |current| >= 2 && IsTrimmed(current) && current[|current| - 1] !in PathSlashes
    requires ':' !in current && ';' !in current && '\\' !in current
    requires IsAscii(x) && !IsWhitespace(x) && x !in PathSlashes && x != ':' && x != ';'
    ensures PrependedPath(current, [x]) == [x] + ":" + current
  {
    var d := [x];
    TrimOfTrimmed(current);
    TrimOfTrimmed(d);
    assert !LooksLikeWindowsPath(current) by {
      assert !StartsWith(current, "\\\\") by { assert current[0] != '\\'; }
      assert current[1] in current;
    }
    assert Separator(current, d) == ':';
    SplitJoin([current], ':');
    EntriesOfClean([current]);
    assert PathEntries(current, ':') == [current];
    NormalizedLength(current);
    NormalizedLength(d);
    assert !SameDirectory(current, d);
  }

  lemma OneLetterSecondCall(once: string, x: char)
    requires |once| >= 3 && once[0] == x && once[1] == ':' && IsTrimmed(once)
    requires once[|once| - 1] !in PathSlashes && ';' !in once
    requires IsAscii(x) && !IsWhitespace(x) && x !in PathSlashes && x != ';'
    ensures PrependedPath(once, [x]) == [x] + ";" + once
  {
    var d := [x];
    TrimOfTrimmed(once);
    assert LooksLikeWindowsPath(once);
    assert Separator(once, d) == ';';
    SplitJoin([once], ';');
    EntriesOfClean([once]);
    assert PathEntries(once, ';') == [once];
    NormalizedLength(once);
    NormalizedLength(d);
    assert !SameDirectory(once, d);
  }

  /** A trimmed value that does not end in a slash keeps its length. */
  lemma NormalizedLength(s: string)
    requires s != [] && IsTrimmed(s) && s[|s| - 1] !in PathSlashes
    ensures |NormalizePathForCompare(s)| == |s|
  {
    TrimOfTrimmed(s);
  }

  /* ------------------------------------------------- bulk install command */

  datatype DependencyStatus = DependencyStatus(name: string, required: bool, available: bool, details: string)

  /** The four benchmark tools an install command can name. */
  predicate BenchTool(name: string)
  {
    name == "glmark2" || name == "sysbench" || name == "fio" || name == "stress-ng"
  }

  /** A missing benchmark tool among the statuses. */
  predicate MissingTool(statuses: seq<DependencyStatus>, name: string)
  {
    exists i :: 0 <= i < |statuses| && !statuses[i].available && BenchTool(statuses[i].name) && statuses[i].name == name
  }

  /** The names pushed by the loop, in order. */
  function MissingTools(statuses: seq<DependencyStatus>): (r: seq<string>)
    ensures forall p :: p in r <==> MissingTool(statuses, p)
  {
    if statuses == [] then []
    else
      var front := statuses[..|statuses| - 1];
      var last := statuses[|statuses| - 1];
      var r := MissingTools(front) + (if !last.available && BenchTool(last.name) then [last.name] else []);
      assert forall p :: MissingTool(front, p) ==> MissingTool(statuses, p) by {
        forall p | MissingTool(front, p) ensures MissingTool(statuses, p) {
          var i :| 0 <= i < |front| && !front[i].available && BenchTool(front[i].name) && front[i].name == p;
          assert statuses[i] == front[i];
        }
      }
      assert forall p :: MissingTool(statuses, p) ==> MissingTool(front, p) || (p == last.name && !last.available && BenchTool(p)) by {
        forall p | MissingTool(statuses, p) ensures MissingTool(front, p) || (p == last.name && !last.available && BenchTool(p)) {
          var i :| 0 <= i < |statuses| && !statuses[i].available && BenchTool(statuses[i].name) && statuses[i].name == p;
          if i < |front| {
            assert front[i] == statuses[i];
          }
        }
      }
      r
  }

  datatype PackageManager = AptGet | Dnf | Pacman | Brew

  /** The first package manager on the system, in the order apt-get, dnf,
      pacman, brew; `commands` are the commands `which` finds. */
  function ManagerFor(commands: set<string>): (m: Option<PackageManager>)
    ensures m == Some(AptGet) <==> "apt-get" in commands
    ensures m == Some(Dnf) <==> "apt-get" !in commands && "dnf" in commands
    ensures m == Some(Pacman) <==> "apt-get" !in commands && "dnf" !in commands && "pacman" in commands
    ensures m == Some(Brew) <==> "apt-get" !in commands && "dnf" !in commands && "pacman" !in commands && "brew" in commands
  {
    if "apt-get" in commands then Some(AptGet)
    else if "dnf" in commands then Some(Dnf)
    else if "pacman" in commands then Some(Pacman)
    else if "brew" in commands then Some(Brew)
    else None
  }

  function InstallPrefix(m: PackageManager): string
  {
    match m
    case AptGet => "sudo apt-get update && sudo apt-get install -y "
    case Dnf => "sudo dnf install -y "
    case Pacman => "sudo pacman -S --needed "
    case Brew => "brew install "
  }

  /** What `dependency_bulk_install_command` returns. */
  function BulkInstallCommand(statuses: seq<DependencyStatus>, commands: set<string>): Option<string>
  {
    var packages := SortDistinct(MissingTools(statuses));
    if packages == [] then None
    else match ManagerFor(commands)
      case None => None
      case Some(m) => Some(InstallPrefix(m) + Join(packages, " "))
  }

  /** `dependency_bulk_install_command`: pushes the missing benchmark tools,
      sorts and de-duplicates them, and prefixes the first package
      manager's install command. */
  method DependencyBulkInstallCommand(statuses: seq<DependencyStatus>, commands: set<string>) returns (cmd: Option<string>)
    ensures cmd == BulkInstallCommand(statuses, commands)
  {
    var packages: seq<string> := [];
    var i := 0;
    while i < |statuses|
      invariant 0 <= i <= |statuses|
      invariant packages == MissingTools(statuses[..i])
    {
      assert statuses[..i + 1][..i] == statuses[..i];
      var item := statuses[i];
      if !item.available && BenchTool(item.name) {
        packages := packages + [item.name];
      }
      i := i + 1;
    }
    assert statuses[..i] == statuses;
    packages := SortDistinct(packages);
    if packages == [] {
      return None;
    }
    var manager := ManagerFor(commands);
    if manager.None? {
      return None;
    }
    cmd := Some(InstallPrefix(manager.value) + Join(packages, " "));
  }

  /** There is a command exactly when some benchmark tool is missing and a
      package manager is found; it then names each missing tool once, in
      sorted order, after the manager's install prefix. */
  lemma BulkInstallNamesMissingTools(statuses: seq<DependencyStatus>, commands: set<string>)
    ensures BulkInstallCommand(statuses, commands).None? <==>
      (forall i :: 0 <= i < |statuses| ==> statuses[i].available || !BenchTool(statuses[i].name)) || ManagerFor(commands).None?
    ensures BulkInstallCommand(statuses, commands).Some? ==>
      exists packages: seq<string> ::
        StrictlySorted(packages) && (forall p :: p in packages <==> MissingTool(statuses, p)) &&
        BulkInstallCommand(statuses, commands).value == InstallPrefix(ManagerFor(commands).value) + Join(packages, " ")
  {
    var packages := SortDistinct(MissingTools(statuses));
    if packages == [] {
      forall i | 0 <= i < |statuses| ensures statuses[i].available || !BenchTool(statuses[i].name) {
        if !statuses[i].available && BenchTool(statuses[i].name) {
          assert MissingTool(statuses, statuses[i].name);
        }
      }
    } else {
      assert packages[0] in packages;
    }
  }
}
