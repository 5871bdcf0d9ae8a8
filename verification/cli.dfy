/** The command-line front end's own decisions: reading a game choice or
    a batch of them, the live-capture safety guard, the yes/no prompt, the
    quoting of a suggested command, the process-name hint, the build
    compatibility verdict and the retry of pending submissions. */
module Cli {
  import opened Wrappers
  import opened Text
  import Games
  import AntiCheat
  import Storage
  import ApiClient
  import Submission
  import LiveCapture

  /* ----------------------------------------------------------- game input */

  /** A chosen game: the name to use, and the table entry when known. */
  datatype GameChoice = GameChoice(name: string, info: Option<Games.GameInfo>)

  /** `usize` is 64 bits wide on the targets the tool is built for. */
  const UsizeMax: nat := U64Max

  /** A menu number: a `usize` in `1..=KNOWN_GAMES.len()`. */
  function MenuNumber(t: string): (r: Option<nat>)
    ensures r.Some? <==> ParseUnsigned(t, UsizeMax).Some? && 1 <= ParseUnsigned(t, UsizeMax).value <= |Games.KnownGames|
    ensures r.Some? ==> r == ParseUnsigned(t, UsizeMax)
  {
    var n := ParseUnsigned(t, UsizeMax);
    if n.Some? && 0 < n.value <= |Games.KnownGames| then n else None
  }

  /** `parse_game_input` on the trimmed text: a menu number, else a name or
      alias the table finds, else the text itself with no entry. */
  function ChooseGame(t: string): (r: GameChoice)
    ensures r.info.Some? ==> r.info.value in Games.KnownGames && r.name == r.info.value.name
    ensures r.info.None? ==> r.name == t && Games.Find(t).None?
  {
    match MenuNumber(t)
    case Some(n) => GameChoice(Games.KnownGames[n - 1].name, Some(Games.KnownGames[n - 1]))
    case None =>
      match Games.Find(t)
      case Some(g) => GameChoice(g.name, Some(g))
      case None => GameChoice(t, None)
  }

  /** `parse_game_input`: the input is trimmed, then chosen. */
  function ParseGameInput(input: string): (r: GameChoice)
    ensures r.info.Some? ==> r.info.value in Games.KnownGames && r.name == r.info.value.name
    ensures r.info.None? ==> r.name == Trim(input) && Games.Find(Trim(input)).None?
  {
    ChooseGame(Trim(input))
  }

  /** The menu prints its numbers as plain decimals, which read back. */
  lemma MenuNumberOfDecimal(n: nat)
    requires 1 <= n <= |Games.KnownGames|
    ensures MenuNumber(Trim(NatToString(n))) == Some(n)
  {
    TrimNoWhitespace(NatToString(n));
    ParseNatToString(n, UsizeMax);
  }

  /** Menu number `n` (as the menu prints it) selects the `n`-th entry. */
  lemma MenuNumberSelects(n: nat)
    requires 1 <= n <= |Games.KnownGames|
    ensures ParseGameInput(NatToString(n)) == GameChoice(Games.KnownGames[n - 1].name, Some(Games.KnownGames[n - 1]))
  {
    MenuNumberOfDecimal(n);
  }

  /** Surrounding whitespace does not change the choice. */
  lemma ParseGameInputIgnoresPadding(input: string)
    ensures ParseGameInput(Trim(input)) == ParseGameInput(input)
  {
    TrimIdempotent(input);
  }

  /** A name that starts with an ASCII letter and ends with an ASCII
      letter, digit or closing parenthesis. */
  predicate IsWord(s: string)
  {
    s != [] && (IsAsciiUpper(s[0]) || IsAsciiLowerCase(s[0])) &&
    (IsAsciiAlphanumeric(s[|s| - 1]) || s[|s| - 1] == ')')
  }

  lemma NamesAreWords0()
    ensures forall i :: 0 <= i < 5 ==> IsWord(Games.KnownGames[i].name)
  {
  }

  lemma NamesAreWords1()
    ensures forall i :: 5 <= i < 10 ==> IsWord(Games.KnownGames[i].name)
  {
  }

  lemma NamesAreWords2()
    ensures forall i :: 10 <= i < 15 ==> IsWord(Games.KnownGames[i].name)
  {
  }

  lemma NamesAreWords3()
    ensures forall i :: 15 <= i < 20 ==> IsWord(Games.KnownGames[i].name)
  {
  }

  lemma NamesAreWords4()
    ensures forall i :: 20 <= i < |Games.KnownGames| ==> IsWord(Games.KnownGames[i].name)
  {
  }

  lemma WordIsTrimmed(s: string)
    requires IsWord(s)
    ensures IsTrimmed(s)
  {
    GraphicHasNoWhitespace([s[0], s[|s| - 1]]);
    assert [s[0], s[|s| - 1]][1] == s[|s| - 1];
  }

  /** Every name in the table is trimmed and starts with a letter, so it
      is never read as a menu number. */
  lemma NameIsNotANumber(i: nat)
    requires i < |Games.KnownGames|
    ensures Trim(Games.KnownGames[i].name) == Games.KnownGames[i].name
    ensures MenuNumber(Games.KnownGames[i].name).None?
  {
    if i < 5 {
      NamesAreWords0();
    } else if i < 10 {
      NamesAreWords1();
    } else if i < 15 {
      NamesAreWords2();
    } else if i < 20 {
      NamesAreWords3();
    } else {
      NamesAreWords4();
    }
    var name := Games.KnownGames[i].name;
    WordIsTrimmed(name);
    TrimOfTrimmed(name);
    ParseUnsignedNeedsDigits(name, UsizeMax, 0);
  }

  /** With the table's listed keys, re-reading a chosen name gives the same
      choice: the name a choice carries is canonical. */
  lemma ParseGameInputIdempotent(input: string)
    requires Games.KeysListed()
    ensures ParseGameInput(ParseGameInput(input).name) == ParseGameInput(input)
  {
    var r := ParseGameInput(input);
    match r.info
    case None =>
      TrimIdempotent(input);
    case Some(g) =>
      var i :| 0 <= i < |Games.KnownGames| && Games.KnownGames[i] == g;
      Games.FindsItself(i);
      NameIsNotANumber(i);
  }

  /* ---------------------------------------------------------- batch input */

  predicate AllNumbers(tokens: seq<string>)
  {
    forall i :: 0 <= i < |tokens| ==> ParseUnsigned(tokens[i], UsizeMax).Some?
  }

  function TrimEach(parts: seq<string>): (r: seq<string>)
    ensures |r| == |parts| && forall i :: 0 <= i < |r| ==> r[i] == Trim(parts[i])
  {
    seq(|parts|, i requires 0 <= i < |parts| => Trim(parts[i]))
  }

  const BatchDelimiters: set<char> := {',', ';'}

  /** How the trimmed batch text is cut: at commas and semicolons when it
      has any (dropping blank parts), else at whitespace when that gives
      several tokens that are all numbers, else it is one name. */
  function BatchParts(raw: string): (r: seq<string>)
  {
    if ',' in raw || ';' in raw then NonEmpty(TrimEach(SplitAny(raw, BatchDelimiters)))
    else
      var tokens := SplitWhitespace(raw);
      if |tokens| > 1 && AllNumbers(tokens) then tokens else [raw]
  }

  /** With delimiters, every part is trimmed, non-blank and free of them. */
  lemma DelimitedPartsClean(raw: string)
    requires ',' in raw || ';' in raw
    ensures forall i :: 0 <= i < |BatchParts(raw)| ==>
      BatchParts(raw)[i] != [] && Trim(BatchParts(raw)[i]) == BatchParts(raw)[i] &&
      ',' !in BatchParts(raw)[i] && ';' !in BatchParts(raw)[i]
  {
    var pieces := SplitAny(raw, BatchDelimiters);
    var trimmed := TrimEach(pieces);
    var r := NonEmpty(trimmed);
    forall i | 0 <= i < |r|
      ensures r[i] != [] && Trim(r[i]) == r[i] && ',' !in r[i] && ';' !in r[i]
    {
      assert r[i] in trimmed;
      var k :| 0 <= k < |trimmed| && trimmed[k] == r[i];
      TrimIdempotent(pieces[k]);
      PieceHasNoDelimiter(pieces, k);
      TrimAddsNothing(pieces[k], ',');
      TrimAddsNothing(pieces[k], ';');
    }
  }

  lemma PieceHasNoDelimiter(pieces: seq<string>, k: nat)
    requires k < |pieces| && NoneContains(pieces, BatchDelimiters)
    ensures ',' !in pieces[k] && ';' !in pieces[k]
  {
    assert forall j :: 0 <= j < |pieces[k]| ==> pieces[k][j] != ',' && pieces[k][j] != ';';
  }

  /** Trimming only removes characters. */
  lemma TrimAddsNothing(s: string, c: char)
    requires c !in s
    ensures c !in Trim(s)
  {
    TrimIsSlice(s);
    var a, b :| 0 <= a <= b <= |s| && Trim(s) == s[a..b];
    assert forall j :: 0 <= j < |Trim(s)| ==> Trim(s)[j] == s[a + j];
  }

  /** A list of trimmed names joined with `", "` is read back as those
      names. */
  lemma {:induction false} CommaListRoundTrip(names: seq<string>)
    requires |names| >= 2
    requires forall i :: 0 <= i < |names| ==> names[i] != [] && IsTrimmed(names[i]) && ',' !in names[i] && ';' !in names[i]
    ensures BatchParts(Join(names, ", ")) == names
  {
    var raw := Join(names, ", ");
    assert raw == names[0] + ", " + Join(names[1..], ", ");
    assert raw[|names[0]|] == ',';
    var pieces := SplitAny(raw, BatchDelimiters);
    PiecesOfCommaList(names);
    assert TrimEach(pieces) == names by {
      forall i | 0 <= i < |names| ensures Trim(pieces[i]) == names[i] {
        if i == 0 {
          TrimOfTrimmed(names[0]);
        } else {
          TrimAfterSpace(names[i]);
        }
      }
    }
    NonEmptyOfNonBlank(names);
  }

  /** The pieces of a `", "`-joined list: the first name, then each later
      name behind its space. */
  lemma {:induction false} PiecesOfCommaList(names: seq<string>)
    requires |names| >= 1
    requires forall i :: 0 <= i < |names| ==> ',' !in names[i] && ';' !in names[i]
    ensures var pieces := SplitAny(Join(names, ", "), BatchDelimiters);
      |pieces| == |names| && pieces[0] == names[0] &&
      forall i :: 1 <= i < |names| ==> pieces[i] == " " + names[i]
  {
    if |names| == 1 {
      assert Join(names, ", ") == names[0];
      NoDelimiterOnePiece(names[0]);
    } else {
      var rest := Join(names[1..], ", ");
      assert Join(names, ", ") == names[0] + [','] + (" " + rest);
      SplitAnyAfter(names[0], ',', " " + rest, BatchDelimiters);
      PiecesOfCommaList(names[1..]);
      var tail := SplitAny(rest, BatchDelimiters);
      SpaceBeforeFirstPiece(rest);
      var pieces := SplitAny(Join(names, ", "), BatchDelimiters);
      assert pieces == [names[0]] + ([" " + tail[0]] + tail[1..]);
      forall i | 1 <= i < |names| ensures pieces[i] == " " + names[i] {
        if i > 1 {
          assert pieces[i] == tail[i - 1] && names[1..][i - 1] == names[i];
        }
      }
    }
  }

  lemma NoDelimiterOnePiece(s: string)
    requires ',' !in s && ';' !in s
    ensures SplitAny(s, BatchDelimiters) == [s]
  {
    assert forall j :: 0 <= j < |s| ==> s[j] !in BatchDelimiters;
  }

  /** A leading space joins the first piece. */
  lemma SpaceBeforeFirstPiece(s: string)
    ensures var t := SplitAny(s, BatchDelimiters);
      SplitAny(" " + s, BatchDelimiters) == [" " + t[0]] + t[1..]
  {
    var s' := " " + s;
    assert s'[1..] == s;
    match IndexOfAny(s, BatchDelimiters)
    case None =>
    case Some(k) =>
      assert s'[..k + 1] == " " + s[..k];
      assert s'[k + 2..] == s[k + 1..];
  }

  lemma TrimAfterSpace(name: string)
    requires name != [] && IsTrimmed(name)
    ensures Trim(" " + name) == name
  {
    TrimIsSlice(" " + name);
    var t := Trim(" " + name);
    assert LeadingWhitespace(" " + name) == 1 by {
      assert !IsWhitespace((" " + name)[1]);
    }
  }

  lemma {:induction false} NonEmptyOfNonBlank(parts: seq<string>)
    requires forall i :: 0 <= i < |parts| ==> parts[i] != []
    ensures NonEmpty(parts) == parts
  {
    if parts != [] {
      NonEmptyOfNonBlank(parts[1..]);
      NonEmptyCons(parts[0], parts[1..]);
      assert parts == [parts[0]] + parts[1..];
    }
  }

  /** A batch warning; `Message` gives its text. */
  datatype BatchWarning = OutOfRange(part: string) | Repeated(name: string)

  function Message(w: BatchWarning): string
  {
    match w
    case OutOfRange(part) =>
      "'" + part + "' is out of range (valid game numbers are 1-" + NatToString(|Games.KnownGames|) + ")."
    case Repeated(name) => "'" + name + "' was entered multiple times and will be queued once."
  }

  /** The batch loop's state: the games selected, the warnings, and the
      lower-cased names seen. */
  datatype Batch = Batch(selected: seq<GameChoice>, warnings: seq<BatchWarning>, seen: set<string>)

  /** One part, with `count` menu entries and `choose` reading a part: an
      out-of-range number is warned about and skipped; a part choosing the
      empty name is skipped; a name seen before (ignoring ASCII case) is
      warned about and skipped; anything else is selected. */
  function BatchStep(b: Batch, part: string, count: nat, choose: string -> GameChoice): Batch
  {
    var n := ParseUnsigned(part, UsizeMax);
    if n.Some? && (n.value == 0 || n.value > count) then b.(warnings := b.warnings + [OutOfRange(part)])
    else
      var parsed := choose(part);
      if parsed.name == [] then b
      else if AsciiLower(parsed.name) in b.seen then b.(warnings := b.warnings + [Repeated(parsed.name)])
      else Batch(b.selected + [parsed], b.warnings, b.seen + {AsciiLower(parsed.name)})
  }

  function BatchFold(parts: seq<string>, count: nat, choose: string -> GameChoice): Batch
  {
    if parts == [] then Batch([], [], {})
    else BatchStep(BatchFold(parts[..|parts| - 1], count, choose), parts[|parts| - 1], count, choose)
  }

  /** What `parse_game_batch_input` answers. */
  function GameBatch(input: string): Batch
  {
    var raw := Trim(input);
    if raw == [] then Batch([], [], {}) else BatchFold(BatchParts(raw), |Games.KnownGames|, ParseGameInput)
  }

  /** The loop of `parse_game_batch_input` over the parts, with `count`
      menu entries and `choose` reading each part. */
  method SelectGames(parts: seq<string>, count: nat, choose: string -> GameChoice)
    returns (selected: seq<GameChoice>, warnings: seq<BatchWarning>)
    ensures selected == BatchFold(parts, count, choose).selected && warnings == BatchFold(parts, count, choose).warnings
  {
    selected, warnings := [], [];
    var seen: set<string> := {};
    var i := 0;
    while i < |parts|
      invariant 0 <= i <= |parts|
      invariant Batch(selected, warnings, seen) == BatchFold(parts[..i], count, choose)
    {
      assert parts[..i + 1][..i] == parts[..i];
      var part := parts[i];
      i := i + 1;
      var num := ParseUnsigned(part, UsizeMax);
      if num.Some? && (num.value == 0 || num.value > count) {
        warnings := warnings + [OutOfRange(part)];
        continue;
      }
      var parsed := choose(part);
      if parsed.name == [] {
        continue;
      }
      var key := AsciiLower(parsed.name);
      if key in seen {
        warnings := warnings + [Repeated(parsed.name)];
        continue;
      }
      seen := seen + {key};
      selected := selected + [parsed];
    }
    assert parts[..i] == parts;
  }

  /** `parse_game_batch_input`: blank input selects nothing; otherwise the
      parts are read with `parse_game_input`. */
  method ParseGameBatchInput(input: string) returns (selected: seq<GameChoice>, warnings: seq<BatchWarning>)
    ensures selected == GameBatch(input).selected && warnings == GameBatch(input).warnings
  {
    var raw := Trim(input);
    if raw == [] {
      return [], [];
    }
    selected, warnings := SelectGames(BatchParts(raw), |Games.KnownGames|, ParseGameInput);
  }

  /** The batch loop's invariant: the names seen are exactly the selected
      names, lower-cased; no two selected games have the same name up to
      ASCII case, and none has an empty name. */
  ghost predicate SelectedOnce(b: Batch)
  {
    (forall x :: x in b.seen <==> exists k :: 0 <= k < |b.selected| && AsciiLower(b.selected[k].name) == x) &&
    (forall k, l :: 0 <= k < l < |b.selected| ==> AsciiLower(b.selected[k].name) != AsciiLower(b.selected[l].name)) &&
    (forall k :: 0 <= k < |b.selected| ==> b.selected[k].name != [])
  }

  /** A step only adds to what was selected and seen. */
  lemma BatchStepGrows(b: Batch, part: string, count: nat, choose: string -> GameChoice)
    ensures var b' := BatchStep(b, part, count, choose);
      b.seen <= b'.seen && |b.selected| <= |b'.selected| && b'.selected[..|b.selected|] == b.selected
  {
    var b' := BatchStep(b, part, count, choose);
    if |b'.selected| != |b.selected| {
      assert b'.selected == b.selected + [choose(part)];
    }
  }

  /** One step keeps the invariant. */
  lemma BatchStepKeeps(b: Batch, part: string, count: nat, choose: string -> GameChoice)
    requires SelectedOnce(b)
    ensures SelectedOnce(BatchStep(b, part, count, choose))
  {
    var b' := BatchStep(b, part, count, choose);
    if |b'.selected| != |b.selected| {
      var p := choose(part);
      var key := AsciiLower(p.name);
      assert b' == Batch(b.selected + [p], b.warnings, b.seen + {key});
      assert key !in b.seen;
      forall k, l | 0 <= k < l < |b'.selected|
        ensures AsciiLower(b'.selected[k].name) != AsciiLower(b'.selected[l].name)
      {
        if l == |b.selected| {
          assert AsciiLower(b.selected[k].name) in b.seen;
        }
      }
      forall x ensures x in b'.seen <==> exists k :: 0 <= k < |b'.selected| && AsciiLower(b'.selected[k].name) == x {
        if x in b.seen {
          var k :| 0 <= k < |b.selected| && AsciiLower(b.selected[k].name) == x;
          assert b'.selected[k] == b.selected[k];
        }
        if x == key {
          assert b'.selected[|b.selected|] == p;
        }
      }
    } else {
      assert b'.selected == b.selected;
    }
  }

  /** No two selected games have the same name up to ASCII case, none has
      an empty name, and the names seen are the selected ones. */
  lemma {:induction false} BatchSelectsOnce(parts: seq<string>, count: nat, choose: string -> GameChoice)
    ensures SelectedOnce(BatchFold(parts, count, choose))
  {
    if parts != [] {
      var n := |parts| - 1;
      BatchSelectsOnce(parts[..n], count, choose);
      BatchStepKeeps(BatchFold(parts[..n], count, choose), parts[n], count, choose);
    }
  }

  /** A part that is not an out-of-range number and chooses a non-empty
      name has its name (lower-cased) among those seen. */
  lemma {:induction false} BatchSeesEveryGame(parts: seq<string>, count: nat, choose: string -> GameChoice, j: nat)
    requires j < |parts|
    requires var n := ParseUnsigned(parts[j], UsizeMax); n.None? || 1 <= n.value <= count
    requires choose(parts[j]).name != []
    ensures AsciiLower(choose(parts[j]).name) in BatchFold(parts, count, choose).seen
  {
    var n := |parts| - 1;
    BatchStepGrows(BatchFold(parts[..n], count, choose), parts[n], count, choose);
    if j < n {
      assert parts[..n][j] == parts[j];
      BatchSeesEveryGame(parts[..n], count, choose, j);
    }
  }

  /** Nothing is lost but repeats: every such part has its game among
      those selected, up to ASCII case. */
  lemma BatchKeepsEveryGame(parts: seq<string>, count: nat, choose: string -> GameChoice, j: nat)
    requires j < |parts|
    requires var n := ParseUnsigned(parts[j], UsizeMax); n.None? || 1 <= n.value <= count
    requires choose(parts[j]).name != []
    ensures var sel := BatchFold(parts, count, choose).selected;
      exists k :: 0 <= k < |sel| && AsciiLower(sel[k].name) == AsciiLower(choose(parts[j]).name)
  {
    BatchSeesEveryGame(parts, count, choose, j);
    BatchSelectsOnce(parts, count, choose);
  }

  /** Every selected game is the choice of one of the parts. */
  lemma {:induction false} BatchSelectsFromParts(parts: seq<string>, count: nat, choose: string -> GameChoice)
    ensures forall k :: 0 <= k < |BatchFold(parts, count, choose).selected| ==>
      exists j :: 0 <= j < |parts| && BatchFold(parts, count, choose).selected[k] == choose(parts[j])
  {
    if parts != [] {
      var n := |parts| - 1;
      var init := parts[..n];
      BatchSelectsFromParts(init, count, choose);
      var prev := BatchFold(init, count, choose).selected;
      var sel := BatchFold(parts, count, choose).selected;
      BatchStepGrows(BatchFold(init, count, choose), parts[n], count, choose);
      forall k | 0 <= k < |sel| ensures exists j :: 0 <= j < |parts| && sel[k] == choose(parts[j]) {
        if k < |prev| {
          assert sel[k] == prev[k];
          assert exists j :: 0 <= j < |init| && prev[k] == choose(init[j]);
          var j :| 0 <= j < |init| && prev[k] == choose(init[j]);
          assert parts[j] == init[j];
        } else {
          assert sel[k] == choose(parts[n]);
          assert 0 <= n < |parts| && sel[k] == choose(parts[n]);
        }
      }
      assert forall k :: 0 <= k < |sel| ==> exists j :: 0 <= j < |parts| && sel[k] == choose(parts[j]);
    } else {
      assert BatchFold(parts, count, choose).selected == [];
    }
  }

  /* --------------------------------------------------- live-capture guard */

  /** Why live capture is refused. */
  datatype GuardError = NoGameGiven | HighRiskGame(name: string)

  /** `guard_live_capture_safety`: without a game, capture needs the
      explicit override; with one, only a high-risk game needs it. */
  function GuardLiveCaptureSafety(game: Option<string>, allowRisk: bool): (r: Result<(), GuardError>)
    ensures r.Err? <==> !allowRisk && (game.None? || AntiCheat.RiskForGameName(game.value) == AntiCheat.High)
    ensures r.Err? ==> r.error == (if game.None? then NoGameGiven else HighRiskGame(game.value))
  {
    match game
    case None => if allowRisk then Ok(()) else Err(NoGameGiven)
    case Some(name) =>
      if AntiCheat.RiskForGameName(name) == AntiCheat.High && !allowRisk then Err(HighRiskGame(name))
      else Ok(())
  }

  /** A game the table does not know is never blocked. */
  lemma UnknownGameNotBlocked(name: string, allowRisk: bool)
    requires Games.Find(name).None?
    ensures GuardLiveCaptureSafety(Some(name), allowRisk).Ok?
  {
  }

  /** With the table's listed keys, a known game is blocked without the
      override exactly when the game card rates it high. */
  lemma GuardBlocksHighRiskEntries(i: nat)
    requires Games.KeysListed()
    requires i < |Games.KnownGames|
    ensures GuardLiveCaptureSafety(Some(Games.KnownGames[i].name), false).Err? <==>
      AntiCheat.CardRisk(Games.KnownGames[i].name) == AntiCheat.High
  {
    AntiCheat.RiskTablesAgree(i);
  }

  /** `source_requires_presentmon`. */
  function SourceRequiresPresentMon(source: LiveCapture.CaptureSource, hasMangoHudFallback: bool): bool
  {
    match source
    case PresentMon => true
    case MangoHud => false
    case Auto => !hasMangoHudFallback
  }

  /** On Windows with no capture file and PresentMon missing, a source that
      does not require PresentMon still resolves to MangoHud, and one that
      requires it does not. */
  lemma PresentMonRequirement(o: LiveCapture.LiveCaptureOptions, looksLikeMangoHud: bool, mangoHudLogExists: bool)
    requires o.file.None?
    ensures !SourceRequiresPresentMon(o.source, mangoHudLogExists) <==>
      LiveCapture.ResolveSource(o, looksLikeMangoHud, true, false, mangoHudLogExists) == Ok(LiveCapture.MangoHud)
  {
  }

  /* --------------------------------------------------------------- prompt */

  /** `prompt_yes_no`: `assume_yes` answers yes; without a terminal the
      non-interactive default applies; otherwise the line read (trimmed,
      ASCII lower-cased) is `y`/`yes`, `n`/`no`, or anything else for the
      default. Whether stdin is a terminal and the line are inputs. */
  function PromptYesNo(defaultYes: bool, nonInteractiveDefault: bool, assumeYes: bool, terminal: bool, line: string): (r: bool)
    ensures assumeYes ==> r
    ensures !assumeYes && !terminal ==> r == nonInteractiveDefault
    ensures !assumeYes && terminal && AsciiLower(Trim(line)) !in {"y", "yes", "n", "no"} ==> r == defaultYes
    ensures !assumeYes && terminal && AsciiLower(Trim(line)) in {"y", "yes", "n", "no"} ==>
      (r <==> AsciiLower(Trim(line)) in {"y", "yes"})
  {
    if assumeYes then true
    else if !terminal then nonInteractiveDefault
    else
      var answer := AsciiLower(Trim(line));
      if answer == [] then defaultYes
      else if answer == "y" || answer == "yes" then true
      else if answer == "n" || answer == "no" then false
      else defaultYes
  }

  /** The answer ignores ASCII case and surrounding whitespace. */
  lemma PromptIgnoresCase(defaultYes: bool, nonInteractiveDefault: bool, assumeYes: bool, terminal: bool, a: string, b: string)
    requires EqIgnoreAsciiCase(Trim(a), Trim(b))
    ensures PromptYesNo(defaultYes, nonInteractiveDefault, assumeYes, terminal, a) ==
            PromptYesNo(defaultYes, nonInteractiveDefault, assumeYes, terminal, b)
  {
  }

  /** At a terminal, a yes or no answer decides whatever the default. */
  lemma ExplicitAnswerDecides(nonInteractiveDefault: bool, line: string)
    requires AsciiLower(Trim(line)) in {"y", "yes", "n", "no"}
    ensures PromptYesNo(true, nonInteractiveDefault, false, true, line) == PromptYesNo(false, nonInteractiveDefault, false, true, line)
    ensures PromptYesNo(true, nonInteractiveDefault, false, true, line) <==> AsciiLower(Trim(line)) in {"y", "yes"}
  {
  }

  /* ------------------------------------------------------------- quoting */

  /** `quote_arg`: a value with a space or a double quote is wrapped in
      double quotes, its quotes escaped with a backslash. */
  function QuoteArg(value: string): (r: string)
    ensures r == value || (|r| >= 2 && r[0] == '"' && r[|r| - 1] == '"')
  {
    if ' ' in value || '"' in value then "\"" + ReplaceChar(value, '"', "\\\"") + "\"" else value
  }

  /** How a POSIX shell reads the inside of a double-quoted word: `\"` and
      `\\` stand for the second character, any other character for itself,
      and an unescaped `"` ends the word. Answers the text and what follows. */
  function ReadQuoted(s: string): (r: Option<(string, string)>)
    decreases |s|
  {
    if s == [] then None
    else if s[0] == '"' then Some(([], s[1..]))
    else
      var esc := s[0] == '\\' && |s| >= 2 && (s[1] == '"' || s[1] == '\\');
      var n := if esc then 2 else 1;
      var c := if esc then s[1] else s[0];
      match ReadQuoted(s[n..])
      case None => None
      case Some(p) => Some(([c] + p.0, p.1))
  }

  /** One command-line word: quoted, or bare without spaces and quotes. */
  function ReadWord(s: string): (r: Option<string>)
  {
    if s != [] && s[0] == '"' then
      match ReadQuoted(s[1..])
      case Some((v, rest)) => if rest == [] then Some(v) else None
      case None => None
    else if ' ' in s || '"' in s then None
    else Some(s)
  }

  /** A shell reads a quoted value back as the value, provided it has no
      backslash. */
  lemma QuoteArgReadsBack(value: string)
    requires '\\' !in value
    ensures ReadWord(QuoteArg(value)) == Some(value)
  {
    if ' ' in value || '"' in value {
      var q := QuoteArg(value);
      assert q[1..] == ReplaceChar(value, '"', "\\\"") + "\"";
      ReadEscaped(value);
    } else if value != [] {
      assert value[0] != '"';
    }
  }

  lemma {:induction false} ReadEscaped(value: string)
    requires '\\' !in value
    ensures ReadQuoted(ReplaceChar(value, '"', "\\\"") + "\"") == Some((value, []))
  {
    var s := ReplaceChar(value, '"', "\\\"") + "\"";
    if value != [] {
      assert value == [value[0]] + value[1..];
      ReadEscaped(value[1..]);
      var tail := ReplaceChar(value[1..], '"', "\\\"") + "\"";
      if value[0] == '"' {
        assert s == "\\\"" + tail;
        assert s[2..] == tail;
      } else {
        assert s == [value[0]] + tail;
        assert s[1..] == tail;
      }
    } else {
      assert s == "\"" && s[1..] == [];
    }
  }

  /* ------------------------------------------------------ process hint */

  /** `ProcessNameHint`. */
  datatype ProcessNameHint = ProcessNameHint(gameName: string, primary: string, alternatives: seq<string>)

  /** `process_name_hint_for_game`: the entry the name finds, its first
      suggested process name, and the rest of them. */
  function ProcessNameHintForGame(game: Option<string>): (r: Option<ProcessNameHint>)
    ensures r.Some? ==>
      game.Some? && Games.Find(game.value).Some? &&
      r.value.gameName == Games.Find(game.value).value.name &&
      [r.value.primary] + r.value.alternatives == Games.ProcessNameSuggestions(Games.Find(game.value).value)
    ensures game.Some? && Games.Find(game.value).Some? && Games.ProcessNameSuggestions(Games.Find(game.value).value) != [] ==> r.Some?
  {
    if game.None? then None
    else
      var found := Games.Find(game.value);
      if found.None? then None
      else HintOf(found.value.name, Games.ProcessNameSuggestions(found.value))
  }

  /** The first suggestion as primary, the others as alternatives. */
  function HintOf(name: string, suggestions: seq<string>): (r: Option<ProcessNameHint>)
    ensures r.Some? <==> suggestions != []
    ensures r.Some? ==> r.value.gameName == name && [r.value.primary] + r.value.alternatives == suggestions
  {
    if suggestions == [] then None
    else
      var rest := if |suggestions| > 1 then suggestions[1..] else [];
      assert [suggestions[0]] + rest == suggestions;
      Some(ProcessNameHint(name, suggestions[0], rest))
  }

  /** With the table's listed keys, every known game's name gives a hint
      naming that game, whose primary is its first suggestion. */
  lemma KnownGamesHaveHints(i: nat)
    requires Games.KeysListed()
    requires i < |Games.KnownGames|
    ensures var g := Games.KnownGames[i];
      var h := ProcessNameHintForGame(Some(g.name));
      h.Some? && h.value.gameName == g.name && [h.value.primary] + h.value.alternatives == Games.ProcessNameSuggestions(g)
  {
    Games.FindsItself(i);
    Games.ProcessNamesPresent(i);
  }

  /* --------------------------------------------------- build compatibility */

  /** A `serde_json::Value` as far as the check reads it. */
  datatype SpecValue = Integer(n: int) | Fractional | Other

  const I64Min: int := -0x8000_0000_0000_0000
  const I64Max: int := 0x7FFF_FFFF_FFFF_FFFF

  /** `Value::as_i64`: integers in the `i64` range. */
  function AsI64(v: Option<SpecValue>): (r: Option<int>)
    ensures r.Some? ==> I64Min <= r.value <= I64Max
  {
    if v.Some? && v.value.Integer? && I64Min <= v.value.n <= I64Max then Some(v.value.n) else None
  }

  datatype ComponentSpec = ComponentSpec(name: string, specs: map<string, SpecValue>)

  /** The components the check looks at. */
  datatype BuildComponents = BuildComponents(cpu: Option<ComponentSpec>, gpu: Option<ComponentSpec>, ram: Option<ComponentSpec>)

  function Spec(c: ComponentSpec, key: string): Option<SpecValue>
  {
    if key in c.specs then Some(c.specs[key]) else None
  }

  /** `i64` division, which truncates toward zero. */
  function DivTrunc(a: int, b: nat): (q: int)
    requires b > 0
    ensures a >= 0 ==> q == a / b
    ensures a < 0 ==> q == -((-a) / b)
  {
    if a >= 0 then a / b else -((-a) / b)
  }

  function IntToString(n: int): string
  {
    if n >= 0 then NatToString(n) else "-" + NatToString(-n)
  }

  /** The usable size in MB, else the total. */
  function UsableRamMb(ram: ComponentSpec): Option<int>
  {
    var usable := AsI64(Spec(ram, "usable_mb"));
    if usable.Some? then usable else AsI64(Spec(ram, "total_mb"))
  }

  function RamWarnings(c: BuildComponents): seq<string>
  {
    if c.ram.Some? && UsableRamMb(c.ram.value).Some? && DivTrunc(UsableRamMb(c.ram.value).value, 1024) < 16 then
      ["Low RAM: " + IntToString(DivTrunc(UsableRamMb(c.ram.value).value, 1024)) + "GB (16GB recommended for gaming)"]
    else []
  }

  function VramWarnings(c: BuildComponents): seq<string>
  {
    var vram := if c.gpu.Some? then AsI64(Spec(c.gpu.value, "vram_mb")) else None;
    if vram.Some? && DivTrunc(vram.value, 1024) < 8 then
      ["Low VRAM: " + IntToString(DivTrunc(vram.value, 1024)) + "GB (8GB recommended for modern games)"]
    else []
  }

  function MissingIssues(c: BuildComponents): seq<string>
  {
    (if c.cpu.None? then ["No CPU detected"] else []) +
    (if c.gpu.None? then ["No GPU detected"] else []) +
    (if c.ram.None? then ["No RAM detected"] else [])
  }

  /** What `check_build_compatibility` reports. */
  datatype BuildVerdict = BuildVerdict(issues: seq<string>, warnings: seq<string>, compatible: bool)

  /** `check_build_compatibility`: a missing CPU, GPU or RAM is a blocking
      issue; less than 16 GB of RAM or 8 GB of VRAM is a warning; the build
      is compatible without issues, and in strict mode also without
      warnings. */
  method CheckBuildCompatibility(c: BuildComponents, strict: bool) returns (v: BuildVerdict)
    ensures v.issues == MissingIssues(c) && v.warnings == RamWarnings(c) + VramWarnings(c)
    ensures v.compatible <==> v.issues == [] && (!strict || v.warnings == [])
  {
    var issues: seq<string> := [];
    var warnings: seq<string> := [];
    if c.cpu.None? {
      issues := issues + ["No CPU detected"];
    }
    if c.gpu.None? {
      issues := issues + ["No GPU detected"];
    }
    if c.ram.None? {
      issues := issues + ["No RAM detected"];
    }
    if c.ram.Some? {
      var usableMb := UsableRamMb(c.ram.value);
      if usableMb.Some? {
        var totalGb := DivTrunc(usableMb.value, 1024);
        if totalGb < 16 {
          warnings := warnings + ["Low RAM: " + IntToString(totalGb) + "GB (16GB recommended for gaming)"];
        }
      }
    }
    if c.gpu.Some? {
      var vramMb := AsI64(Spec(c.gpu.value, "vram_mb"));
      if vramMb.Some? {
        var vramGb := DivTrunc(vramMb.value, 1024);
        if vramGb < 8 {
          warnings := warnings + ["Low VRAM: " + IntToString(vramGb) + "GB (8GB recommended for modern games)"];
        }
      }
    }
    v := BuildVerdict(issues, warnings, issues == [] && (!strict || warnings == []));
  }

  /** The issues are exactly the missing components. */
  lemma MissingIssuesExact(c: BuildComponents)
    ensures MissingIssues(c) == [] <==> c.cpu.Some? && c.gpu.Some? && c.ram.Some?
    ensures "No CPU detected" in MissingIssues(c) <==> c.cpu.None?
    ensures "No GPU detected" in MissingIssues(c) <==> c.gpu.None?
    ensures "No RAM detected" in MissingIssues(c) <==> c.ram.None?
  {
  }

  /** Despite the truncating division, the RAM warning is exactly "fewer
      than 16384 MB", negative sizes included. */
  lemma RamWarningThreshold(c: BuildComponents)
    requires c.ram.Some? && UsableRamMb(c.ram.value).Some?
    ensures RamWarnings(c) != [] <==> UsableRamMb(c.ram.value).value < 16384
  {
  }

  /** Likewise the VRAM warning is exactly "fewer than 8192 MB". */
  lemma VramWarningThreshold(c: BuildComponents)
    requires c.gpu.Some? && AsI64(Spec(c.gpu.value, "vram_mb")).Some?
    ensures VramWarnings(c) != [] <==> AsI64(Spec(c.gpu.value, "vram_mb")).value < 8192
  {
  }

  /** A build with all three components, 16 GB of RAM and 8 GB of VRAM
      passes even the strict check. */
  lemma WellEquippedBuildPasses(c: BuildComponents)
    requires c.cpu.Some? && c.gpu.Some? && c.ram.Some?
    requires UsableRamMb(c.ram.value).None? || UsableRamMb(c.ram.value).value >= 16384
    requires AsI64(Spec(c.gpu.value, "vram_mb")).None? || AsI64(Spec(c.gpu.value, "vram_mb")).value >= 8192
    ensures MissingIssues(c) == [] && RamWarnings(c) + VramWarnings(c) == []
  {
  }

  /* ------------------------------------------------------- pending sync */

  /** Where one pending record ends up. */
  datatype Disposition = Uploaded | Dropped | Kept

  /** A record with an invalid id can be neither finalised nor removed; an
      accepted record is finalised; a refusal for missing consent or one
      worth retrying later keeps it; any other refusal drops it. */
  function Dispose(id: string, reply: Result<Submission.SubmissionResponse, ApiClient.ApiError>,
                   queueOffline: ApiClient.ApiError -> bool): Disposition
  {
    if !Storage.IsValidPendingId(id) then Kept
    else match reply
      case Ok(_) => Uploaded
      case Err(e) => if e.ConsentRequired? || queueOffline(e) then Kept else Dropped
  }

  /** The two directories of the queue. */
  datatype Dirs<T> = Dirs(pending: map<Storage.FileName, Storage.StoredFile<T>>, uploaded: map<string, Storage.StoredFile<T>>)

  /** The effect of one disposition: an upload moves the record if it is
      still pending, a drop deletes it. */
  function Apply<T>(d: Dirs<T>, id: string, disp: Disposition): Dirs<T>
  {
    var k := Storage.JsonName(id);
    match disp
    case Kept => d
    case Dropped => d.(pending := d.pending - {k})
    case Uploaded => if k in d.pending then Dirs(d.pending - {k}, d.uploaded[id := d.pending[k]]) else d
  }

  /** The directories and the three counters after some records. */
  datatype SyncState<T> = SyncState(dirs: Dirs<T>, uploaded: nat, failed: nat, dropped: nat)

  function SyncFold<T>(d: Dirs<T>, records: seq<Storage.PendingEntry<T>>,
                       replies: seq<Result<Submission.SubmissionResponse, ApiClient.ApiError>>,
                       queueOffline: ApiClient.ApiError -> bool): (r: SyncState<T>)
    requires |replies| == |records|
    ensures r.uploaded + r.failed + r.dropped == |records|
  {
    if records == [] then SyncState(d, 0, 0, 0)
    else
      var n := |records| - 1;
      var s := SyncFold(d, records[..n], replies[..n], queueOffline);
      var disp := Dispose(records[n].id, replies[n], queueOffline);
      var dirs := Apply(s.dirs, records[n].id, disp);
      match disp
      case Uploaded => SyncState(dirs, s.uploaded + 1, s.failed, s.dropped)
      case Dropped => SyncState(dirs, s.uploaded, s.failed, s.dropped + 1)
      case Kept => SyncState(dirs, s.uploaded, s.failed + 1, s.dropped)
  }

  /** `sync_pending_benchmarks` once the lock is held and the records are
      loaded: each record is re-submitted (the server's replies are an
      input; `queueOffline` is `should_queue_offline`), then finalised,
      kept or dropped, and counted. */
  method SyncPendingBenchmarks<T>(queue: Storage.PendingQueue<T>, records: seq<Storage.PendingEntry<T>>,
                                  replies: seq<Result<Submission.SubmissionResponse, ApiClient.ApiError>>,
                                  queueOffline: ApiClient.ApiError -> bool)
    returns (uploaded: nat, failed: nat, dropped: nat)
    requires |replies| == |records|
    modifies queue
    ensures var s := SyncFold(Dirs(old(queue.pending), old(queue.uploaded)), records, replies, queueOffline);
      Dirs(queue.pending, queue.uploaded) == s.dirs && uploaded == s.uploaded && failed == s.failed && dropped == s.dropped
  {
    uploaded, failed, dropped := 0, 0, 0;
    ghost var d0 := Dirs(queue.pending, queue.uploaded);
    var i := 0;
    while i < |records|
      invariant 0 <= i <= |records|
      invariant SyncFold(d0, records[..i], replies[..i], queueOffline) == SyncState(Dirs(queue.pending, queue.uploaded), uploaded, failed, dropped)
    {
      assert records[..i + 1][..i] == records[..i] && replies[..i + 1][..i] == replies[..i];
      var record, reply := records[i], replies[i];
      i := i + 1;
      match reply
      case Ok(_) =>
        var finalized := queue.MarkUploaded(record.id);
        if finalized.Err? {
          finalized := queue.Remove(record.id);
        }
        if finalized.Ok? {
          uploaded := uploaded + 1;
        } else {
          failed := failed + 1;
        }
      case Err(err) =>
        if err.ConsentRequired? || queueOffline(err) {
          failed := failed + 1;
        } else {
          var removed := queue.Remove(record.id);
          if removed.Ok? {
            dropped := dropped + 1;
          } else {
            failed := failed + 1;
          }
        }
    }
    assert records[..i] == records && replies[..i] == replies;
  }

  /** The pending file names that the records finalise or drop. */
  function Removed<T>(records: seq<Storage.PendingEntry<T>>,
                      replies: seq<Result<Submission.SubmissionResponse, ApiClient.ApiError>>,
                      queueOffline: ApiClient.ApiError -> bool): set<Storage.FileName>
    requires |replies| == |records|
  {
    if records == [] then {}
    else
      var n := |records| - 1;
      Removed(records[..n], replies[..n], queueOffline) +
        (if Dispose(records[n].id, replies[n], queueOffline) != Kept then {Storage.JsonName(records[n].id)} else {})
  }

  /** After a sync, the pending records are those before minus the ones
      uploaded or dropped. */
  lemma {:induction false} SyncPendingAfter<T>(d: Dirs<T>, records: seq<Storage.PendingEntry<T>>,
                                              replies: seq<Result<Submission.SubmissionResponse, ApiClient.ApiError>>,
                                              queueOffline: ApiClient.ApiError -> bool)
    requires |replies| == |records|
    ensures SyncFold(d, records, replies, queueOffline).dirs.pending == d.pending - Removed(records, replies, queueOffline)
  {
    if records != [] {
      var n := |records| - 1;
      SyncPendingAfter(d, records[..n], replies[..n], queueOffline);
    }
  }

  /** A name is removed exactly when some record with that id is uploaded
      or dropped. */
  lemma {:induction false} RemovedNames<T>(records: seq<Storage.PendingEntry<T>>,
                                          replies: seq<Result<Submission.SubmissionResponse, ApiClient.ApiError>>,
                                          queueOffline: ApiClient.ApiError -> bool, x: Storage.FileName)
    requires |replies| == |records|
    ensures x in Removed(records, replies, queueOffline) <==>
      exists i :: 0 <= i < |records| && Dispose(records[i].id, replies[i], queueOffline) != Kept && x == Storage.JsonName(records[i].id)
  {
    if records != [] {
      var n := |records| - 1;
      RemovedNames(records[..n], replies[..n], queueOffline, x);
      if exists i :: 0 <= i < |records| && Dispose(records[i].id, replies[i], queueOffline) != Kept && x == Storage.JsonName(records[i].id) {
        var i :| 0 <= i < |records| && Dispose(records[i].id, replies[i], queueOffline) != Kept && x == Storage.JsonName(records[i].id);
        if i < n {
          assert records[..n][i] == records[i] && replies[..n][i] == replies[i];
        }
      }
      if x in Removed(records[..n], replies[..n], queueOffline) {
        var i :| 0 <= i < n && Dispose(records[..n][i].id, replies[..n][i], queueOffline) != Kept && x == Storage.JsonName(records[..n][i].id);
        assert records[..n][i] == records[i] && replies[..n][i] == replies[i];
      }
    }
  }

  /** The counters: `uploaded` counts the accepted records with a valid
      id, `dropped` the permanently refused ones with a valid id, and
      `failed` all the rest. */
  lemma {:induction false} SyncCounts<T>(d: Dirs<T>, records: seq<Storage.PendingEntry<T>>,
                                        replies: seq<Result<Submission.SubmissionResponse, ApiClient.ApiError>>,
                                        queueOffline: ApiClient.ApiError -> bool)
    requires |replies| == |records|
    ensures SyncFold(d, records, replies, queueOffline).uploaded == Count(records, replies, queueOffline, Uploaded)
    ensures SyncFold(d, records, replies, queueOffline).dropped == Count(records, replies, queueOffline, Dropped)
  {
    if records != [] {
      var n := |records| - 1;
      SyncCounts(d, records[..n], replies[..n], queueOffline);
    }
  }

  /** How many records have disposition `disp`. */
  function Count<T>(records: seq<Storage.PendingEntry<T>>, replies: seq<Result<Submission.SubmissionResponse, ApiClient.ApiError>>,
                    queueOffline: ApiClient.ApiError -> bool, disp: Disposition): (n: nat)
    requires |replies| == |records|
    ensures n <= |records|
  {
    if records == [] then 0
    else
      var k := |records| - 1;
      Count(records[..k], replies[..k], queueOffline, disp) + (if Dispose(records[k].id, replies[k], queueOffline) == disp then 1 else 0)
  }

  /** A record refused for missing consent is never dropped: it stays
      pending unless another record with the same id is finalised. */
  lemma ConsentRefusalKeepsRecord(id: string, hint: string, queueOffline: ApiClient.ApiError -> bool)
    ensures Dispose(id, Err(ApiClient.ConsentRequired(hint)), queueOffline) == Kept
  {
  }
}
