/** Matching a foreground process against the capture target: names are
    compared after a fixed normalisation. */
module ProcessFocus {
  import opened Text

  /** Trim whitespace, then surrounding double quotes, then every trailing
      `.exe`, then every trailing `.app` (both case-sensitively), then
      lower-case ASCII letters. */
  function NormalizeProcessName(name: string): (r: string)
    ensures NoAsciiUpper(r)
    ensures |r| <= |name|
  {
    var t := TrimChars(Trim(name), {'"'});
    var u := TrimEndMatches(TrimEndMatches(t, ".exe"), ".app");
    AsciiLower(u)
  }

  /** `process_name_matches`: equality of normalised names. */
  predicate ProcessNameMatches(active: string, target: string)
  {
    NormalizeProcessName(active) == NormalizeProcessName(target)
  }

  lemma TrimEndMatchesAppended(s: string, p: string)
    requires |p| > 0
    ensures TrimEndMatches(s + p, p) == TrimEndMatches(s, p)
  {
    assert (s + p)[|s + p| - |p|..] == p;
    assert (s + p)[..|s + p| - |p|] == s;
  }

  lemma TrimCharsUnchanged(s: string, cs: set<char>)
    requires s == [] || (s[0] !in cs && s[|s| - 1] !in cs)
    ensures TrimChars(s, cs) == s
  {
  }

  /** A bare name and the same name with `.exe` appended match: the suffix
      is ignored whenever the name itself has no surrounding whitespace or
      quotes. */
  lemma ExeSuffixIgnored(s: string)
    requires s != [] && IsTrimmed(s) && s[0] != '"' && s[|s| - 1] != '"'
    ensures ProcessNameMatches(s + ".exe", s)
  {
    var e := s + ".exe";
    TrimOfTrimmed(s);
    assert e[0] == s[0] && e[|e| - 1] == 'e';
    TrimOfTrimmed(e);
    TrimCharsUnchanged(s, {'"'});
    TrimCharsUnchanged(e, {'"'});
    TrimEndMatchesAppended(s, ".exe");
  }

  /** For a name without surrounding whitespace or quotes only the suffix
      stripping and the lower-casing remain. */
  lemma NormalizePlain(s: string)
    requires s != [] && IsTrimmed(s) && s[0] != '"' && s[|s| - 1] != '"'
    ensures NormalizeProcessName(s) == AsciiLower(TrimEndMatches(TrimEndMatches(s, ".exe"), ".app"))
  {
    TrimOfTrimmed(s);
    TrimCharsUnchanged(s, {'"'});
  }

  /** A string whose last character differs from the pattern's keeps it. */
  lemma TrimEndMatchesMismatch(s: string, p: string)
    requires |p| > 0 && s != [] && s[|s| - 1] != p[|p| - 1]
    ensures TrimEndMatches(s, p) == s
  {
    if |p| <= |s| {
      assert s[|s| - |p|..][|p| - 1] == s[|s| - 1];
    }
  }

  /** A name ending in an upper-case `.EXE` keeps that suffix, because the
      suffixes are stripped before lower-casing. */
  lemma UpperExeKept(b: string)
    requires b != [] && IsTrimmed(b) && b[0] != '"'
    ensures NormalizeProcessName(b + ".EXE") == AsciiLower(b) + ".exe"
  {
    var e := b + ".EXE";
    assert e[0] == b[0] && e[|e| - 1] == 'E';
    NormalizePlain(e);
    TrimEndMatchesMismatch(e, ".exe");
    TrimEndMatchesMismatch(e, ".app");
    AsciiLowerAppend(b, ".EXE");
    LowerExe();
  }

  lemma LowerExe()
    ensures AsciiLower(".EXE") == ".exe"
  {
    var l := AsciiLower(".EXE");
    assert l[0] == '.' && l[1] == 'e' && l[2] == 'x' && l[3] == 'e';
  }

  /** Lower-casing leaves whitespace and quotes where they are. */
  lemma AsciiLowerKeepsEnds(b: string)
    requires b != [] && IsTrimmed(b) && b[0] != '"' && b[|b| - 1] != '"'
    ensures var l := AsciiLower(b); l != [] && IsTrimmed(l) && l[0] != '"' && l[|l| - 1] != '"'
  {
    var l := AsciiLower(b);
    assert l[0] == ToAsciiLowerChar(b[0]) && l[|l| - 1] == ToAsciiLowerChar(b[|b| - 1]);
  }

  /** Normalisation is not idempotent: for any bare name `b`, normalising
      `b.EXE` gives `b.exe` in lower case, and normalising that again strips
      the now lower-case suffix. */
  lemma NormalizeNotIdempotent(b: string)
    requires b != [] && IsTrimmed(b) && b[0] != '"' && b[|b| - 1] != '"'
    ensures NormalizeProcessName(NormalizeProcessName(b + ".EXE")) != NormalizeProcessName(b + ".EXE")
  {
    UpperExeKept(b);
    var l := AsciiLower(b);
    AsciiLowerKeepsEnds(b);
    ExeSuffixIgnored(l);
    var n := NormalizeProcessName(b + ".EXE");
    assert |NormalizeProcessName(l)| <= |l| < |n|;
  }

  /** Consequently an upper-case executable name never matches its
      lower-case spelling (`GAME.EXE` against `game.exe`). */
  lemma UpperCaseExeDoesNotMatch(b: string)
    requires b != [] && IsTrimmed(b) && b[0] != '"' && b[|b| - 1] != '"'
    ensures !ProcessNameMatches(b + ".EXE", AsciiLower(b) + ".exe")
  {
    UpperExeKept(b);
    NormalizeNotIdempotent(b);
  }

  /** The normalisation the upper-case import filter relies on: lower-case
      first, then strip the suffixes, so that `.EXE` is stripped like
      `.exe`. */
  function NormalizeProcessNameCaseless(name: string): (r: string)
    ensures NoAsciiUpper(r)
    ensures |r| <= |name|
  {
    var t := TrimChars(Trim(name), {'"'});
    var r := TrimEndMatches(TrimEndMatches(AsciiLower(t), ".exe"), ".app");
    assert forall i :: 0 <= i < |r| ==> r[i] == AsciiLower(t)[i];
    r
  }

  /** Names without ASCII upper case are normalised alike by both
      versions: the correction only changes upper-case names. */
  lemma CaselessAgreesOnLowerCase(name: string)
    requires NoAsciiUpper(name)
    ensures NormalizeProcessNameCaseless(name) == NormalizeProcessName(name)
  {
    var t := TrimChars(Trim(name), {'"'});
    NoUpperInfix(name, t);
    AsciiLowerFixed(t);
    var u := TrimEndMatches(TrimEndMatches(t, ".exe"), ".app");
    assert forall i :: 0 <= i < |u| ==> u[i] == t[i];
    AsciiLowerFixed(u);
  }

  /** Trimming keeps a name free of upper case. */
  lemma NoUpperInfix(name: string, t: string)
    requires NoAsciiUpper(name) && t == TrimChars(Trim(name), {'"'})
    ensures NoAsciiUpper(t)
  {
    TrimIsSlice(name);
    var a, b :| 0 <= a <= b <= |name| && Trim(name) == name[a..b];
    NoUpperSlice(name, a, b);
    var y := TrimStartChars(Trim(name), {'"'});
    NoUpperSlice(Trim(name), |Trim(name)| - |y|, |Trim(name)|);
    NoUpperSlice(y, 0, |t|);
  }

  lemma NoUpperSlice(s: string, a: nat, b: nat)
    requires NoAsciiUpper(s) && a <= b <= |s|
    ensures NoAsciiUpper(s[a..b])
  {
    assert forall i :: 0 <= i < b - a ==> s[a..b][i] == s[a + i];
  }

  /** With the corrected normalisation an upper-case executable name
      matches its lower-case spelling (`GAME.EXE` against `game.exe`). */
  lemma CaselessUpperExeMatches(b: string)
    requires b != [] && IsTrimmed(b) && b[0] != '"' && b[|b| - 1] != '"'
    ensures NormalizeProcessNameCaseless(b + ".EXE") == NormalizeProcessNameCaseless(AsciiLower(b) + ".exe")
  {
    var l := AsciiLower(b);
    AsciiLowerKeepsEnds(b);
    var e := b + ".EXE";
    var f := l + ".exe";
    assert e[0] == b[0] && e[|e| - 1] == 'E';
    assert f[0] == l[0] && f[|f| - 1] == 'e';
    assert IsTrimmed(e) && IsTrimmed(f);
    TrimOfTrimmed(e);
    TrimOfTrimmed(f);
    TrimCharsUnchanged(e, {'"'});
    TrimCharsUnchanged(f, {'"'});
    AsciiLowerAppend(b, ".EXE");
    LowerExe();
    AsciiLowerAppend(l, ".exe");
    AsciiLowerIdempotent(b);
    AsciiLowerFixed(".exe");
  }
}
