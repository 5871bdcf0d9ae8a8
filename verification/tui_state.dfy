/** The terminal interface's state (`src/tui/state.rs`): screens, the
    hardware form, the consent check boxes, the results form, the spinner,
    the game filter and the modal dialog. */
module TuiState {
  import opened Wrappers
  import opened Text
  import Hw = Hardware
  import Games
  import Config
  import Fb = Feedback
  import BenchmarkRunner

  /** The build target, which decides the synthetic baseline and the
      PresentMon features. */
  datatype Platform = Windows | Linux | OtherPlatform

  /** Windows and Linux builds have the synthetic baseline. */
  predicate HasSynthetic(p: Platform) { p.Windows? || p.Linux? }

  datatype FeedbackStep = Category | Issue | Message | Submitting
  datatype ContributeStep = Consent | Hardware | Baseline | Game | Results | Review | Submitting

  datatype Screen =
    | Home
    | Contribute(step: ContributeStep)
    | ContributeResult
    | Feedback(feedbackStep: FeedbackStep)
    | FeedbackResult
    | SyntheticRunning
    | SyntheticResult
    | ErrorModal

  /** The home menu; `Synthetic` exists on Windows and Linux only. */
  datatype HomeChoice = GuidedFlow | Synthetic | Feedback | Quit

  /** Where the synthetic run returns to. */
  datatype SyntheticReturn = ReturnHome | ReturnContribute

  datatype InputMode = Navigate | Edit
  datatype ModalKind = Error | Confirm | Info
  datatype ConfirmAction = InstallPresentmon
  datatype Action = SubmitFeedback | SubmitBenchmark

  /** A title and body shown after a submission. */
  datatype ResultText = ResultText(title: string, body: string)

  /** The modal dialog; its message text is not modelled. */
  datatype ModalState = ModalState(title: string, kind: ModalKind, confirmAction: Option<ConfirmAction>)

  /** `FeedbackDraft`. */
  datatype FeedbackDraft = FeedbackDraft(categoryIndex: nat, issueIndex: nat, message: string, includeDiagnostics: bool)

  /** `FeedbackDraft::new`. */
  function NewDraft(): (d: FeedbackDraft)
    ensures d.categoryIndex == 0 && d.issueIndex == 0 && d.message == [] && !d.includeDiagnostics
  {
    FeedbackDraft(0, 0, "", false)
  }

  /** `GameState`: the search text and the highlighted row. */
  datatype GameState = GameState(query: string, cursor: nat)

  /* ------------------------------------------------------ capture method */

  datatype CaptureMethodChoice = InGameCounter | BuiltInBenchmark | ExternalTool

  /** `CaptureMethodChoice::as_api_value`. */
  function ApiValue(c: CaptureMethodChoice): (v: string)
  {
    match c
    case InGameCounter => "in_game_counter"
    case BuiltInBenchmark => "built_in_benchmark"
    case ExternalTool => "external_tool"
  }

  /** The three methods have three different values on the wire. */
  lemma ApiValuesDistinct(a: CaptureMethodChoice, b: CaptureMethodChoice)
    ensures ApiValue(a) == ApiValue(b) <==> a == b
  {
    if a != b {
      assert ApiValue(a)[0] != ApiValue(b)[0] || |ApiValue(a)| != |ApiValue(b)|;
    }
  }

  /* ------------------------------------------------------- hardware form */

  datatype HardwareField = GpuName | GpuVramMb | CpuName | CpuCores | CpuThreads | RamTotalMb

  /** `HardwareField::ALL`, the order the form walks through. */
  const AllFields: seq<HardwareField> := [GpuName, GpuVramMb, CpuName, CpuCores, CpuThreads, RamTotalMb]

  /** The position of a field in `AllFields`. */
  function IndexOf(f: HardwareField): (i: nat)
    ensures i < |AllFields| && AllFields[i] == f
  {
    match f
    case GpuName => 0
    case GpuVramMb => 1
    case CpuName => 2
    case CpuCores => 3
    case CpuThreads => 4
    case RamTotalMb => 5
  }

  /** Every position holds the field found there. */
  lemma IndexOfAt(i: nat)
    requires i < |AllFields|
    ensures IndexOf(AllFields[i]) == i
  {
  }

  /** The index `next_field` moves to. */
  function NextIndex(i: nat): (j: nat)
    requires i < |AllFields|
    ensures j < |AllFields|
  {
    (i + 1) % |AllFields|
  }

  /** The index `prev_field` moves to. */
  function PrevIndex(i: nat): (j: nat)
    requires i < |AllFields|
    ensures j < |AllFields|
  {
    if i == 0 then |AllFields| - 1 else i - 1
  }

  /** Moving back undoes moving forward and the other way round, and six
      moves forward come back to the start. */
  lemma NextPrevInverse(i: nat)
    requires i < |AllFields|
    ensures PrevIndex(NextIndex(i)) == i && NextIndex(PrevIndex(i)) == i
    ensures NextIndex(NextIndex(NextIndex(NextIndex(NextIndex(NextIndex(i)))))) == i
    ensures NextIndex(i) != i
  {
  }

  /** The six text fields of the form. */
  datatype FormValues = FormValues(
    gpuName: string, gpuVramMb: string, cpuName: string, cpuCores: string, cpuThreads: string, ramTotalMb: string)

  /** `s.trim().parse::<u64/usize>()` when it gives a number above zero. */
  function PositiveNumber(s: string): (r: Option<nat>)
    ensures r.Some? <==> ParseUnsigned(Trim(s), U64Max).Some? && ParseUnsigned(Trim(s), U64Max).value > 0
    ensures r.Some? ==> r == ParseUnsigned(Trim(s), U64Max)
  {
    match ParseUnsigned(Trim(s), U64Max)
    case Some(n) => if n > 0 then Some(n) else None
    case None => None
  }

  /** `has_required_values`: both names are not blank and the cores,
      threads and RAM read as numbers above zero. */
  predicate HasRequiredValues(v: FormValues)
  {
    Trim(v.gpuName) != [] && Trim(v.cpuName) != [] &&
    PositiveNumber(v.cpuCores).Some? && PositiveNumber(v.cpuThreads).Some? && PositiveNumber(v.ramTotalMb).Some?
  }

  /** What `commit_into_info` leaves in `info`: the names trimmed, each
      number replaced only by a value above zero read from its field, and
      the RAM value stored as both installed and usable size. */
  function CommitInfo(info: Hw.SystemInfo, v: FormValues): Hw.SystemInfo
  {
    var vram := PositiveNumber(v.gpuVramMb);
    var gpu := info.gpu.(name := Trim(v.gpuName), vramMb := if vram.Some? then vram else info.gpu.vramMb);
    var cpu := info.cpu.(name := Trim(v.cpuName), cores := PositiveNumber(v.cpuCores).GetOr(info.cpu.cores),
                         threads := PositiveNumber(v.cpuThreads).GetOr(info.cpu.threads));
    var ramMb := PositiveNumber(v.ramTotalMb);
    var ram := if ramMb.Some? then info.ram.(installedMb := ramMb, usableMb := ramMb.value) else info.ram;
    info.(gpu := gpu, cpu := cpu, ram := ram)
  }

  /** Committing twice gives what committing once gives. */
  lemma CommitIdempotent(info: Hw.SystemInfo, v: FormValues)
    ensures CommitInfo(CommitInfo(info, v), v) == CommitInfo(info, v)
  {
  }

  /** A form that may continue commits names that are not blank, and
      numbers above zero for the cores, threads and RAM. */
  lemma ContinuableCommitIsComplete(info: Hw.SystemInfo, v: FormValues)
    requires HasRequiredValues(v)
    ensures var r := CommitInfo(info, v);
      r.gpu.name != [] && IsTrimmed(r.gpu.name) && r.cpu.name != [] && IsTrimmed(r.cpu.name) &&
      r.cpu.cores > 0 && r.cpu.threads > 0 && r.ram.usableMb > 0 && r.ram.installedMb == Some(r.ram.usableMb)
  {
  }

  /** The text the form shows for a number. */
  lemma NumberTextReadsBack(n: nat)
    requires 0 < n <= U64Max
    ensures PositiveNumber(NatToString(n)) == Some(n)
  {
    var s := NatToString(n);
    assert forall j :: 0 <= j < |s| ==> !IsWhitespace(s[j]) by {
      forall j | 0 <= j < |s| ensures !IsWhitespace(s[j]) {
        assert IsAsciiDigit(s[j]);
      }
    }
    TrimOfTrimmed(s);
    ParseNatToString(n, U64Max);
  }

  /** `HardwareForm` as a value. */
  datatype FormState = FormState(
    info: Hw.SystemInfo, values: FormValues, confirmGpu: bool, confirmCpu: bool, confirmRam: bool,
    field: HardwareField, mode: InputMode)

  /** `can_continue` on a form state: the required values are present and
      all three confirmations are given. */
  predicate Continuable(s: FormState)
  {
    HasRequiredValues(s.values) && s.confirmGpu && s.confirmCpu && s.confirmRam
  }

  /** `HardwareForm::active_value_mut`, read side. */
  function FieldText(v: FormValues, f: HardwareField): string
  {
    match f
    case GpuName => v.gpuName
    case GpuVramMb => v.gpuVramMb
    case CpuName => v.cpuName
    case CpuCores => v.cpuCores
    case CpuThreads => v.cpuThreads
    case RamTotalMb => v.ramTotalMb
  }

  /** `HardwareForm::active_value_mut`, write side. */
  function WithFieldText(v: FormValues, f: HardwareField, t: string): (r: FormValues)
    ensures FieldText(r, f) == t
    ensures forall g :: g != f ==> FieldText(r, g) == FieldText(v, g)
  {
    match f
    case GpuName => v.(gpuName := t)
    case GpuVramMb => v.(gpuVramMb := t)
    case CpuName => v.(cpuName := t)
    case CpuCores => v.(cpuCores := t)
    case CpuThreads => v.(cpuThreads := t)
    case RamTotalMb => v.(ramTotalMb := t)
  }

  /** `String::pop`: the last character removed, if any. */
  function Pop(s: string): (r: string)
    ensures s == [] ==> r == []
    ensures s != [] ==> r + [s[|s| - 1]] == s
  {
    if s == [] then s else s[..|s| - 1]
  }

  /** The hardware review form: text fields over the detected information,
      three confirmations, the selected field and the editing mode. */
  class HardwareForm {
    var info: Hw.SystemInfo
    var gpuName: string
    var gpuVramMb: string
    var cpuName: string
    var cpuCores: string
    var cpuThreads: string
    var ramTotalMb: string
    var confirmGpu: bool
    var confirmCpu: bool
    var confirmRam: bool
    var field: HardwareField
    var mode: InputMode

    function Values(): FormValues
      reads this
    {
      FormValues(gpuName, gpuVramMb, cpuName, cpuCores, cpuThreads, ramTotalMb)
    }

    function State(): FormState
      reads this
    {
      FormState(info, Values(), confirmGpu, confirmCpu, confirmRam, field, mode)
    }

    /** `HardwareForm::from_info`: the fields show the detected values (the
        installed RAM when known, the usable RAM otherwise), nothing is
        confirmed, and the first field is selected for navigation. */
    constructor FromInfo(detected: Hw.SystemInfo)
      ensures info == detected
      ensures Values() == FormValues(
        detected.gpu.name,
        if detected.gpu.vramMb.Some? then NatToString(detected.gpu.vramMb.value) else "",
        detected.cpu.name, NatToString(detected.cpu.cores), NatToString(detected.cpu.threads),
        NatToString(detected.ram.installedMb.GetOr(detected.ram.usableMb)))
      ensures !confirmGpu && !confirmCpu && !confirmRam && field == GpuName && mode == Navigate
    {
      info := detected;
      gpuName := detected.gpu.name;
      gpuVramMb := if detected.gpu.vramMb.Some? then NatToString(detected.gpu.vramMb.value) else "";
      cpuName := detected.cpu.name;
      cpuCores := NatToString(detected.cpu.cores);
      cpuThreads := NatToString(detected.cpu.threads);
      ramTotalMb := NatToString(detected.ram.installedMb.GetOr(detected.ram.usableMb));
      confirmGpu, confirmCpu, confirmRam := false, false, false;
      field := GpuName;
      mode := Navigate;
    }

    /** `can_continue`. */
    predicate CanContinue()
      reads this
    {
      Continuable(State())
    }

    /** `field_index`. */
    function FieldIndex(): (i: nat)
      reads this
      ensures i < |AllFields| && AllFields[i] == field
    {
      IndexOf(field)
    }

    /** `set_field_by_index`: indices past the end select the last field. */
    method SetFieldByIndex(idx: nat)
      modifies this
      ensures field == AllFields[if idx < |AllFields| then idx else |AllFields| - 1]
      ensures State() == old(State()).(field := field)
    {
      field := AllFields[if idx < |AllFields| then idx else |AllFields| - 1];
    }

    /** `next_field`, wrapping from the last field to the first. */
    method NextField()
      modifies this
      ensures FieldIndex() == NextIndex(old(FieldIndex()))
      ensures State() == old(State()).(field := field)
    {
      var idx := (FieldIndex() + 1) % |AllFields|;
      SetFieldByIndex(idx);
      IndexOfAt(idx);
    }

    /** `prev_field`, wrapping from the first field to the last. */
    method PrevField()
      modifies this
      ensures FieldIndex() == PrevIndex(old(FieldIndex()))
      ensures State() == old(State()).(field := field)
    {
      var idx := FieldIndex();
      var next := if idx == 0 then |AllFields| - 1 else idx - 1;
      SetFieldByIndex(next);
      IndexOfAt(next);
    }

    /** Replaces the text of the selected field. */
    method SetActiveValue(t: string)
      modifies this
      ensures Values() == WithFieldText(old(Values()), field, t)
      ensures State() == old(State()).(values := Values())
    {
      match field
      case GpuName => gpuName := t;
      case GpuVramMb => gpuVramMb := t;
      case CpuName => cpuName := t;
      case CpuCores => cpuCores := t;
      case CpuThreads => cpuThreads := t;
      case RamTotalMb => ramTotalMb := t;
    }

    /** `commit_into_info`: only `info` changes. */
    method CommitIntoInfo()
      modifies this
      ensures info == CommitInfo(old(info), Values())
      ensures State() == old(State()).(info := info)
    {
      var r := CommitInfo(info, Values());
      info := r;
    }
  }

  /** A form made from detected numbers above zero commits the same numbers
      back, with the RAM shown stored as both installed and usable size. */
  lemma FromInfoCommitsBack(detected: Hw.SystemInfo, v: FormValues)
    requires 0 < detected.cpu.cores <= U64Max && 0 < detected.cpu.threads <= U64Max
    requires detected.gpu.vramMb.Some? ==> 0 < detected.gpu.vramMb.value <= U64Max
    requires 0 < detected.ram.installedMb.GetOr(detected.ram.usableMb) <= U64Max
    requires v == FormValues(
        detected.gpu.name,
        if detected.gpu.vramMb.Some? then NatToString(detected.gpu.vramMb.value) else "",
        detected.cpu.name, NatToString(detected.cpu.cores), NatToString(detected.cpu.threads),
        NatToString(detected.ram.installedMb.GetOr(detected.ram.usableMb)))
    ensures var r := CommitInfo(detected, v); var m := detected.ram.installedMb.GetOr(detected.ram.usableMb);
      r.gpu.vramMb == detected.gpu.vramMb && r.cpu.cores == detected.cpu.cores && r.cpu.threads == detected.cpu.threads &&
      r.ram.installedMb == Some(m) && r.ram.usableMb == m
  {
    NumberTextReadsBack(detected.cpu.cores);
    NumberTextReadsBack(detected.cpu.threads);
    NumberTextReadsBack(detected.ram.installedMb.GetOr(detected.ram.usableMb));
    if detected.gpu.vramMb.Some? {
      NumberTextReadsBack(detected.gpu.vramMb.value);
    } else {
      assert Trim("") == "";
    }
  }

  /* ------------------------------------------------------------- consent */

  /** The three consent check boxes. */
  datatype ConsentFlags = ConsentFlags(tos: bool, publicUse: bool, retention: bool)

  /** What `toggle_current` does to the boxes: cursor 0 flips the terms,
      1 the public use, anything else the retention box. */
  function Toggle(f: ConsentFlags, cursor: nat): ConsentFlags
  {
    if cursor == 0 then f.(tos := !f.tos)
    else if cursor == 1 then f.(publicUse := !f.publicUse)
    else f.(retention := !f.retention)
  }

  /** A toggle flips exactly one box, the one under the cursor, and a
      second toggle at the same place flips it back. */
  lemma ToggleFlipsOne(f: ConsentFlags, cursor: nat)
    ensures var g := Toggle(f, cursor);
      (g.tos != f.tos <==> cursor == 0) && (g.publicUse != f.publicUse <==> cursor == 1) &&
      (g.retention != f.retention <==> cursor >= 2)
    ensures Toggle(Toggle(f, cursor), cursor) == f
  {
  }

  predicate AllChecked(f: ConsentFlags) { f.tos && f.publicUse && f.retention }

  /** `ConsentState`. */
  class ConsentState {
    var tos: bool
    var publicUse: bool
    var retention: bool
    var cursor: nat
    var scrollOffset: nat

    function Flags(): ConsentFlags
      reads this
    {
      ConsentFlags(tos, publicUse, retention)
    }

    /** `ConsentState::from_config`: the boxes as the configuration has
        them, the cursor on the first. */
    constructor FromConfig(cfg: Config.Config)
      ensures Flags() == ConsentFlags(cfg.consent.tosAccepted, cfg.consent.consentPublicUse, cfg.consent.retentionAcknowledged)
      ensures IsComplete() <==> Config.IsComplete(cfg.consent)
      ensures cursor == 0 && scrollOffset == 0
    {
      tos := cfg.consent.tosAccepted;
      publicUse := cfg.consent.consentPublicUse;
      retention := cfg.consent.retentionAcknowledged;
      cursor := 0;
      scrollOffset := 0;
    }

    /** `is_complete`. */
    predicate IsComplete()
      reads this
    {
      AllChecked(Flags())
    }

    /** `toggle_current`. */
    method ToggleCurrent()
      modifies this
      ensures Flags() == Toggle(old(Flags()), cursor)
      ensures cursor == old(cursor) && scrollOffset == old(scrollOffset)
    {
      if cursor == 0 {
        tos := !tos;
      } else if cursor == 1 {
        publicUse := !publicUse;
      } else {
        retention := !retention;
      }
    }
  }

  /* ------------------------------------------------------------ results */

  /** `ResultsState`. */
  datatype ResultsState = ResultsState(
    resolution: string, preset: string, avgFps: string, fps1Low: string, fps01Low: string,
    rayTracing: bool, upscaling: string, captureMethod: CaptureMethodChoice, antiCheatAck: bool,
    cursor: nat, mode: InputMode)

  /** `ResultsState::default`. */
  function DefaultResults(): (r: ResultsState)
    ensures r.cursor == 0 && r.mode == Navigate && r.captureMethod == BuiltInBenchmark
    ensures !r.rayTracing && !r.antiCheatAck && r.avgFps == []
  {
    ResultsState("1440p", "High", "", "", "", false, "", BuiltInBenchmark, false, 0, Navigate)
  }

  datatype ResultsField = Resolution | Preset | AvgFps | Fps1Low | Fps01Low | Upscaling

  /** The field `active_results_field_mut` selects for a cursor position. */
  function ActiveResultsField(cursor: nat): ResultsField
  {
    match cursor
    case 0 => Resolution
    case 1 => Preset
    case 2 => AvgFps
    case 3 => Fps1Low
    case 4 => Fps01Low
    case _ => Upscaling
  }

  function ResultsText(r: ResultsState, f: ResultsField): string
  {
    match f
    case Resolution => r.resolution
    case Preset => r.preset
    case AvgFps => r.avgFps
    case Fps1Low => r.fps1Low
    case Fps01Low => r.fps01Low
    case Upscaling => r.upscaling
  }

  function WithResultsText(r: ResultsState, f: ResultsField, t: string): (w: ResultsState)
    ensures w.cursor == r.cursor && w.mode == r.mode && w.rayTracing == r.rayTracing &&
      w.captureMethod == r.captureMethod && w.antiCheatAck == r.antiCheatAck
  {
    match f
    case Resolution => r.(resolution := t)
    case Preset => r.(preset := t)
    case AvgFps => r.(avgFps := t)
    case Fps1Low => r.(fps1Low := t)
    case Fps01Low => r.(fps01Low := t)
    case Upscaling => r.(upscaling := t)
  }

  /** Cursor positions 0 to 4 select five different text fields and every
      other position the upscaling text; writing through the selection
      changes that field and nothing else. */
  lemma ActiveFieldMapping(r: ResultsState, cursor: nat, t: string)
    ensures cursor <= 4 ==> ActiveResultsField(cursor) != Upscaling
    ensures cursor > 4 ==> ActiveResultsField(cursor) == Upscaling
    ensures forall c :: c <= 4 && c != cursor && cursor <= 4 ==> ActiveResultsField(c) != ActiveResultsField(cursor)
    ensures var f := ActiveResultsField(cursor); var w := WithResultsText(r, f, t);
      ResultsText(w, f) == t && (forall g :: g != f ==> ResultsText(w, g) == ResultsText(r, g))
  {
  }

  /* ---------------------------------------------------------- animation */

  const TickModulus: nat := 0x1_0000_0000_0000_0000

  /** The ten braille spinner frames. */
  const SpinnerFrames: seq<char> := ['⠋', '⠙', '⠹', '⠸', '⠼', '⠴', '⠦', '⠧', '⠇', '⠏']

  /** The frame index: one frame per six ticks, ten frames round. */
  function FrameIndex(tick: nat): (i: nat)
    ensures i < |SpinnerFrames|
  {
    (tick / 6) % |SpinnerFrames|
  }

  /** The spinner repeats every sixty ticks and holds each frame for six. */
  lemma FramePeriod(tick: nat)
    ensures FrameIndex(tick + 60) == FrameIndex(tick)
    ensures tick % 6 != 5 ==> FrameIndex(tick + 1) == FrameIndex(tick)
    ensures tick % 6 == 5 ==> FrameIndex(tick + 1) == (FrameIndex(tick) + 1) % 10
  {
    assert (tick + 60) / 6 == tick / 6 + 10;
    if tick % 6 != 5 {
      assert (tick + 1) / 6 == tick / 6;
    } else {
      assert (tick + 1) / 6 == tick / 6 + 1;
    }
  }

  /** `AnimationState`: a `u64` tick counter. */
  class AnimationState {
    var tick: nat

    constructor ()
      ensures tick == 0
    {
      tick := 0;
    }

    /** `advance`: `wrapping_add(1)`. */
    method Advance()
      requires tick < TickModulus
      modifies this
      ensures tick == (old(tick) + 1) % TickModulus
      ensures tick < TickModulus
    {
      tick := (tick + 1) % TickModulus;
    }

    /** `spinner_char`. */
    function SpinnerChar(): (c: char)
      reads this
      ensures c in SpinnerFrames
    {
      SpinnerFrames[FrameIndex(tick)]
    }
  }

  /* ------------------------------------------------------- game filter */

  /** Whether `filtered_games` keeps a game for a lowered, trimmed query. */
  predicate KeepsGame(q: string, g: Games.GameInfo)
  {
    q == [] || Contains(AsciiLower(g.name), q)
  }

  /** The indices of the games kept, in table order. */
  function FilteredIndices(games: seq<Games.GameInfo>, q: string): (r: seq<nat>)
    ensures |r| <= |games|
  {
    if games == [] then []
    else
      var r := FilteredIndices(games[..|games| - 1], q);
      if KeepsGame(q, games[|games| - 1]) then r + [|games| - 1] else r
  }

  /** The list holds, in ascending order, exactly the indices of the games
      the query keeps. */
  lemma {:induction false} FilteredIndicesSpec(games: seq<Games.GameInfo>, q: string)
    ensures var r := FilteredIndices(games, q);
      (forall k :: 0 <= k < |r| ==> r[k] < |games| && KeepsGame(q, games[r[k]])) &&
      (forall i :: 0 <= i < |games| ==> (i in r <==> KeepsGame(q, games[i]))) &&
      (forall k, l :: 0 <= k < l < |r| ==> r[k] < r[l])
  {
    if games != [] {
      var init := games[..|games| - 1];
      FilteredIndicesSpec(init, q);
      assert forall i :: 0 <= i < |init| ==> games[i] == init[i];
    }
  }

  /** Every entry of the list is an index into the table. */
  lemma FilteredEntryInTable(games: seq<Games.GameInfo>, q: string, k: nat)
    requires k < |FilteredIndices(games, q)|
    ensures FilteredIndices(games, q)[k] < |games|
  {
    FilteredIndicesSpec(games, q);
  }

  /** `filtered_games`. */
  function FilteredGames(query: string): seq<nat>
  {
    FilteredIndices(Games.KnownGames, AsciiLower(Trim(query)))
  }

  /** With an empty query every game is kept, in order. */
  lemma {:induction false} EmptyQueryKeepsAll(games: seq<Games.GameInfo>)
    ensures FilteredIndices(games, []) == seq(|games|, i => i)
  {
    if games != [] {
      EmptyQueryKeepsAll(games[..|games| - 1]);
    }
  }

  /** A blank query lists every game; otherwise the list holds, in
      ascending order, exactly the games whose lowered name contains the
      lowered, trimmed query. */
  lemma FilteredGamesSpec(query: string)
    ensures Trim(query) == [] ==> FilteredGames(query) == seq(|Games.KnownGames|, i => i)
    ensures var q := AsciiLower(Trim(query)); var r := FilteredGames(query);
      (forall i :: 0 <= i < |Games.KnownGames| ==> (i in r <==> KeepsGame(q, Games.KnownGames[i]))) &&
      (forall k, l :: 0 <= k < l < |r| ==> r[k] < r[l])
  {
    FilteredIndicesSpec(Games.KnownGames, AsciiLower(Trim(query)));
    if Trim(query) == [] {
      EmptyQueryKeepsAll(Games.KnownGames);
    }
  }

  /* ------------------------------------------------------------------ app */

  /** The terminal schema lists categories, each with issues to pick. */
  lemma TerminalSchemaUsable(os: Fb.OsFamily)
    ensures var s := Fb.SchemaFor(Fb.TerminalUi, os);
      0 < |s.categories| && forall i :: 0 <= i < |s.categories| ==> 0 < |s.categories[i].issues|
  {
    var s := Fb.SchemaFor(Fb.TerminalUi, os);
    forall i | 0 <= i < |s.categories|
      ensures 0 < |s.categories[i].issues|
    {
      Fb.SchemaListsEveryCategory(Fb.TerminalUi, os, i);
    }
    Fb.SchemaListsEveryCategory(Fb.TerminalUi, os, 0);
  }

  /** `ContributeState` apart from its consent boxes: the hardware form
      (an object the handlers edit in place), whether detection is running,
      the baseline scores, the game search, the chosen game, the results
      form, the outcome message and the three review sections. */
  datatype ContributeData = ContributeData(
    hardware: Option<HardwareForm>, detecting: bool, baseline: Option<BenchmarkRunner.Scores>,
    game: GameState, selectedGame: Option<nat>, results: ResultsState, resultMessage: Option<ResultText>,
    reviewExpanded: seq<bool>)

  /** `ContributeState::new`, apart from the consent boxes. */
  function NewContribute(): (c: ContributeData)
    ensures c.hardware.None? && !c.detecting && c.baseline.None? && c.selectedGame.None? && c.resultMessage.None?
    ensures c.game == GameState("", 0) && c.results == DefaultResults() && c.reviewExpanded == [true, true, true]
  {
    ContributeData(None, false, None, GameState("", 0), None, DefaultResults(), None, [true, true, true])
  }

  /** The synthetic baseline run: where it returns to, whether the worker
      runs, and what it reported. */
  datatype SyntheticData = SyntheticData(
    returnTo: SyntheticReturn, returnScreen: Screen, running: bool, result: Option<BenchmarkRunner.Scores>,
    error: Option<string>, progress: Option<BenchmarkRunner.ProgressUpdate>)

  /** The value fields of `App`; the consent boxes appear as a reference. */
  datatype AppView = AppView(
    screen: Screen, homeChoice: HomeChoice, feedback: FeedbackDraft, feedbackResult: Option<ResultText>,
    consent: ConsentState, contribute: ContributeData, synthetic: SyntheticData, errorModal: Option<ModalState>,
    errorReturnScreen: Screen, presentmonInstalling: bool, pendingAction: Option<Action>, exit: bool)

  /** The search cursor is on a game of the list the query shows, or at 0. */
  predicate SearchCursorOnList(g: GameState, games: seq<Games.GameInfo>)
  {
    g.cursor == 0 || g.cursor < |FilteredIndices(games, AsciiLower(Trim(g.query)))|
  }

  /** The bounds on the guided flow's data: the results cursor is on one
      of its nine rows, the chosen game is in the table, and there are
      three review sections. */
  predicate ContributeBounds(c: ContributeData, games: seq<Games.GameInfo>)
  {
    c.results.cursor <= 8 &&
    (c.selectedGame.Some? ==> c.selectedGame.value < |games|) &&
    |c.reviewExpanded| == 3
  }

  /** The bounds on the feedback draft: the schema has categories, each
      with issues, and both indices are in range (the issue index may be 0
      regardless). */
  predicate FeedbackBounds(d: FeedbackDraft, schema: Fb.Schema)
  {
    0 < |schema.categories| && d.categoryIndex < |schema.categories| &&
    (forall i :: 0 <= i < |schema.categories| ==> 0 < |schema.categories[i].issues|) &&
    (d.issueIndex == 0 || d.issueIndex < |schema.categories[d.categoryIndex].issues|)
  }

  /** `App`. The worker channels become flags (`detecting`,
      `synthetic.running`, `presentmonInstalling`); `games` is the game
      table the search runs over. */
  class App {
    const platform: Platform
    const schema: Fb.Schema
    const games: seq<Games.GameInfo>
    const animation: AnimationState
    var screen: Screen
    var homeChoice: HomeChoice
    var feedback: FeedbackDraft
    var feedbackResult: Option<ResultText>
    var consent: ConsentState
    var contribute: ContributeData
    var synthetic: SyntheticData
    var errorModal: Option<ModalState>
    var errorReturnScreen: Screen
    var presentmonInstalling: bool
    var pendingAction: Option<Action>
    var exit: bool

    function View(): AppView
      reads this
    {
      AppView(screen, homeChoice, feedback, feedbackResult, consent, contribute, synthetic, errorModal,
              errorReturnScreen, presentmonInstalling, pendingAction, exit)
    }

    /** The hardware form object, when there is one. */
    function HardwareObjects(): set<object>
      reads this
    {
      if contribute.hardware.Some? then {contribute.hardware.value} else {}
    }

    /** The hardware form's state, when there is a form. */
    function Form(): Option<FormState>
      reads this, HardwareObjects()
    {
      if contribute.hardware.Some? then Some(contribute.hardware.value.State()) else None
    }

    /** The game list the search shows: `filtered_games(query)` over the
        table. */
    function Filtered(): seq<nat>
      reads this
    {
      FilteredIndices(games, AsciiLower(Trim(contribute.game.query)))
    }

    /** The bounds the key handlers keep. */
    predicate Valid()
      reads this, consent
    {
      consent.cursor <= 2 && ContributeBounds(contribute, games) && FeedbackBounds(feedback, schema) &&
      (HasSynthetic(platform) || homeChoice != HomeChoice.Synthetic)
    }

    /** `App::new` with the loaded (or default) configuration, the terminal
        feedback schema (`schema_for(TerminalUi)`, which
        `TerminalSchemaUsable` shows meets the requirement) and the game
        table; on Windows, `offerPresentmon` says that the start-up prompt
        is not skipped and PresentMon was not found, and the install prompt
        opens. */
    constructor (platform: Platform, schema: Fb.Schema, games: seq<Games.GameInfo>, cfg: Config.Config, offerPresentmon: bool)
      requires 0 < |schema.categories| && forall i :: 0 <= i < |schema.categories| ==> 0 < |schema.categories[i].issues|
      ensures Valid()
      ensures this.platform == platform && this.schema == schema && this.games == games
      ensures homeChoice == GuidedFlow && feedback == NewDraft() && !exit && pendingAction.None?
      ensures contribute == NewContribute() && !synthetic.running && !presentmonInstalling
      ensures consent.Flags() == ConsentFlags(cfg.consent.tosAccepted, cfg.consent.consentPublicUse, cfg.consent.retentionAcknowledged)
      ensures platform.Windows? && offerPresentmon ==>
        screen == ErrorModal && errorReturnScreen == Home && errorModal.Some? &&
        errorModal.value.kind == Confirm && errorModal.value.confirmAction == Some(InstallPresentmon)
      ensures !(platform.Windows? && offerPresentmon) ==> screen == Home && errorModal.None?
    {
      this.platform := platform;
      this.schema := schema;
      this.games := games;
      animation := new AnimationState();
      screen := Home;
      homeChoice := GuidedFlow;
      feedback := NewDraft();
      feedbackResult := None;
      consent := new ConsentState.FromConfig(cfg);
      contribute := NewContribute();
      synthetic := SyntheticData(ReturnHome, Home, false, None, None, None);
      errorModal := None;
      errorReturnScreen := Home;
      presentmonInstalling := false;
      pendingAction := None;
      exit := false;
      new;
      if platform.Windows? && offerPresentmon {
        SetConfirm("Install PresentMon", InstallPresentmon);
      }
    }

    /** `ContributeState::new(cfg)` put in place: a fresh guided flow. */
    method ResetContribute(cfg: Config.Config)
      requires Valid()
      modifies this
      ensures Valid()
      ensures fresh(consent) && consent.cursor == 0
      ensures consent.Flags() == ConsentFlags(cfg.consent.tosAccepted, cfg.consent.consentPublicUse, cfg.consent.retentionAcknowledged)
      ensures consent.IsComplete() <==> Config.IsComplete(cfg.consent)
      ensures View() == old(View()).(consent := consent, contribute := NewContribute())
    {
      consent := new ConsentState.FromConfig(cfg);
      contribute := NewContribute();
    }

    /** `App::category`. */
    function Category(): Fb.CategorySchema
      reads this
      requires feedback.categoryIndex < |schema.categories|
    {
      schema.categories[feedback.categoryIndex]
    }

    /** `App::issue`: the issue index clamped into the category's list. */
    function Issue(): (o: Fb.IssueOption)
      reads this
      requires feedback.categoryIndex < |schema.categories| && 0 < |Category().issues|
      ensures o in Category().issues
      ensures feedback.issueIndex < |Category().issues| ==> o == Category().issues[feedback.issueIndex]
      ensures feedback.issueIndex >= |Category().issues| ==> o == Category().issues[|Category().issues| - 1]
    {
      var issues := Category().issues;
      var idx := if feedback.issueIndex < |issues| - 1 then feedback.issueIndex else |issues| - 1;
      issues[idx]
    }

    /** `set_error`: the modal opens over the current screen and returns
        to it. */
    method SetError(title: string)
      modifies this
      ensures View() == old(View()).(errorReturnScreen := old(screen), screen := ErrorModal,
                                     errorModal := Some(ModalState(title, Error, None)))
    {
      errorReturnScreen := screen;
      errorModal := Some(ModalState(title, Error, None));
      screen := ErrorModal;
    }

    /** `set_info`. */
    method SetInfo(title: string)
      modifies this
      ensures View() == old(View()).(errorReturnScreen := old(screen), screen := ErrorModal,
                                     errorModal := Some(ModalState(title, Info, None)))
    {
      errorReturnScreen := screen;
      errorModal := Some(ModalState(title, Info, None));
      screen := ErrorModal;
    }

    /** `set_confirm`: the only setter that carries an action. */
    method SetConfirm(title: string, action: ConfirmAction)
      modifies this
      ensures View() == old(View()).(errorReturnScreen := old(screen), screen := ErrorModal,
                                     errorModal := Some(ModalState(title, Confirm, Some(action))))
    {
      errorReturnScreen := screen;
      errorModal := Some(ModalState(title, Confirm, Some(action)));
      screen := ErrorModal;
    }
  }
}
