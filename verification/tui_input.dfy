/** Keyboard handling of the terminal interface (`src/tui/input.rs`): one
    handler per screen, each a transition of the `App` state, and the
    submission preview built from the guided flow. */
module TuiInput {
  import opened Wrappers
  import opened Text
  import opened TuiState
  import Config
  import Games
  import Float
  import Hw = Hardware
  import Sub = Submission

  datatype KeyCode = Esc | Up | Down | Left | Right | Enter | Tab | BackTab | Backspace | F(n: nat) | Char(c: char) | OtherKey

  /** A key press; `control` is the Ctrl modifier. */
  datatype Key = Key(code: KeyCode, control: bool)

  /** What the handlers learn from outside the interface: the stored
      configuration (`Config::load().unwrap_or_default()`), whether saving
      it succeeds, whether PresentMon is found, and the bulk install
      command the dependency check offers. */
  datatype Env = Env(config: Config.Config, saveSucceeds: bool, presentmonFound: bool, installCommand: Option<string>)

  /* ------------------------------------------------------------ cursors */

  /** `saturating_sub(1)`. */
  function Dec(n: nat): nat { if n == 0 then 0 else n - 1 }

  /** `(n + 1).min(len.saturating_sub(1))`: one row down a list of `len`
      rows. */
  function StepDown(n: nat, len: nat): nat
  {
    if n + 1 <= Dec(len) then n + 1 else Dec(len)
  }

  /** A cursor moved down stays on a row of the list (or at 0 when the list
      is empty), never moves back, and moving up again undoes the move
      unless it was stopped by the last row. */
  lemma CursorSteps(n: nat, len: nat)
    ensures StepDown(n, len) == 0 || StepDown(n, len) < len
    ensures n < len ==> n <= StepDown(n, len) <= n + 1
    ensures n + 1 < len ==> Dec(StepDown(n, len)) == n
    ensures n < len && n + 1 >= len ==> StepDown(n, len) == n
    ensures Dec(n) <= n && (n > 0 ==> Dec(n) < n)
  {
  }

  /* --------------------------------------------------------- home menu */

  /** The home menu one row down, wrapping round; the synthetic entry exists
      only where `synthetic` holds. */
  function NextChoice(c: HomeChoice, synthetic: bool): (d: HomeChoice)
    requires synthetic || c != HomeChoice.Synthetic
    ensures synthetic || d != HomeChoice.Synthetic
  {
    match c
    case GuidedFlow => if synthetic then HomeChoice.Synthetic else HomeChoice.Feedback
    case Synthetic => HomeChoice.Feedback
    case Feedback => Quit
    case Quit => GuidedFlow
  }

  /** The home menu one row up, wrapping round. */
  function PrevChoice(c: HomeChoice, synthetic: bool): (d: HomeChoice)
    requires synthetic || c != HomeChoice.Synthetic
    ensures synthetic || d != HomeChoice.Synthetic
  {
    match c
    case GuidedFlow => Quit
    case Synthetic => GuidedFlow
    case Feedback => if synthetic then HomeChoice.Synthetic else GuidedFlow
    case Quit => HomeChoice.Feedback
  }

  /** Up undoes Down and Down undoes Up; the menu has four entries with the
      synthetic baseline and three without, and walking down visits all of
      them before coming back. */
  lemma HomeMenuCycle(c: HomeChoice, synthetic: bool)
    requires synthetic || c != HomeChoice.Synthetic
    ensures PrevChoice(NextChoice(c, synthetic), synthetic) == c
    ensures NextChoice(PrevChoice(c, synthetic), synthetic) == c
    ensures var c1 := NextChoice(c, synthetic); var c2 := NextChoice(c1, synthetic); var c3 := NextChoice(c2, synthetic);
      (synthetic ==> NextChoice(c3, synthetic) == c && c != c1 && c != c2 && c != c3 && c1 != c2 && c1 != c3 && c2 != c3) &&
      (!synthetic ==> c3 == c && c != c1 && c != c2 && c1 != c2)
  {
  }

  /* ---------------------------------------------------- capture method */

  /** Right at the capture-method row. */
  function CaptureRight(c: CaptureMethodChoice): CaptureMethodChoice
  {
    match c
    case InGameCounter => BuiltInBenchmark
    case BuiltInBenchmark => ExternalTool
    case ExternalTool => InGameCounter
  }

  /** Left at the capture-method row. */
  function CaptureLeft(c: CaptureMethodChoice): CaptureMethodChoice
  {
    match c
    case InGameCounter => ExternalTool
    case BuiltInBenchmark => InGameCounter
    case ExternalTool => BuiltInBenchmark
  }

  /** Left inverts Right, and three presses of either come back. */
  lemma CaptureCycle(c: CaptureMethodChoice)
    ensures CaptureLeft(CaptureRight(c)) == c && CaptureRight(CaptureLeft(c)) == c
    ensures CaptureRight(c) != c && CaptureRight(CaptureRight(c)) != c
    ensures CaptureRight(CaptureRight(CaptureRight(c))) == c
  {
  }

  /* ------------------------------------------------------ hardware form */

  /** What a key does to the hardware form. The confirmation and detection
      letters are matched before typing, so they toggle (or detect) even
      while a field is being edited. */
  function HardwareFormKey(s: FormState, key: Key): FormState
  {
    match key.code
    case Char(ch) =>
      if ch == 'g' || ch == 'G' then s.(confirmGpu := !s.confirmGpu)
      else if ch == 'c' || ch == 'C' then s.(confirmCpu := !s.confirmCpu)
      else if ch == 'r' || ch == 'R' then s.(confirmRam := !s.confirmRam)
      else if ch == 'd' || ch == 'D' || s.mode != Edit || key.control then s
      else s.(values := WithFieldText(s.values, s.field, FieldText(s.values, s.field) + [ch]))
    case Tab => s.(field := AllFields[NextIndex(IndexOf(s.field))])
    case Down => s.(field := AllFields[NextIndex(IndexOf(s.field))])
    case BackTab => s.(field := AllFields[PrevIndex(IndexOf(s.field))])
    case Up => s.(field := AllFields[PrevIndex(IndexOf(s.field))])
    case Enter =>
      if s.mode == Edit then s.(info := CommitInfo(s.info, s.values), mode := Navigate)
      else if Continuable(s) then s.(info := CommitInfo(s.info, s.values))
      else s.(mode := Edit)
    case Backspace =>
      if s.mode == Edit then s.(values := WithFieldText(s.values, s.field, Pop(FieldText(s.values, s.field))))
      else s
    case _ => s
  }

  /** Whether a key on the hardware screen (with a form) moves on to the
      baseline step. */
  predicate HardwareAdvances(s: FormState, key: Key)
  {
    key.code == Enter && s.mode == Navigate && Continuable(s)
  }

  /** Moving on to the baseline step happens only from a form that may
      continue, and the information it commits has names that are not
      blank and numbers above zero for the cores, threads and RAM. */
  lemma AdvanceCommitsCompleteInfo(s: FormState, key: Key)
    requires HardwareAdvances(s, key)
    ensures var r := HardwareFormKey(s, key).info;
      r == CommitInfo(s.info, s.values) && r.gpu.name != [] && r.cpu.name != [] &&
      r.cpu.cores > 0 && r.cpu.threads > 0 && r.ram.usableMb > 0
  {
    ContinuableCommitIsComplete(s.info, s.values);
  }

  /** In the editing mode a key without Ctrl types its character into the
      selected field, leaving the other fields alone, unless it is one of
      the letters d, g, c and r in either case; those never reach a field. */
  lemma TypingInHardwareForm(s: FormState, ch: char, control: bool)
    ensures var r := HardwareFormKey(s, Key(Char(ch), control));
      (ch in "dDgGcCrR" ==> r.values == s.values) &&
      (ch !in "dDgGcCrR" && s.mode == Edit && !control ==>
         FieldText(r.values, s.field) == FieldText(s.values, s.field) + [ch] &&
         (forall f :: f != s.field ==> FieldText(r.values, f) == FieldText(s.values, f)) &&
         r == s.(values := r.values))
  {
  }

  /** Tab and Back-Tab undo each other, as do Down and Up. */
  lemma TabUndoesBackTab(s: FormState)
    ensures HardwareFormKey(HardwareFormKey(s, Key(Tab, false)), Key(BackTab, false)) == s
    ensures HardwareFormKey(HardwareFormKey(s, Key(BackTab, false)), Key(Tab, false)) == s
    ensures HardwareFormKey(HardwareFormKey(s, Key(Down, false)), Key(Up, false)) == s
  {
    var i := IndexOf(s.field);
    NextPrevInverse(i);
    IndexOfAt(NextIndex(i));
    IndexOfAt(PrevIndex(i));
  }

  /* ------------------------------------------------------- results form */

  /** What a key does to the results form (the screen changes are made by
      the handler). */
  function ResultsKey(r: ResultsState, key: Key): ResultsState
  {
    match key.code
    case Up => r.(cursor := Dec(r.cursor))
    case BackTab => r.(cursor := Dec(r.cursor))
    case Down => r.(cursor := StepDown(r.cursor, 9))
    case Tab => r.(cursor := StepDown(r.cursor, 9))
    case Left => if r.cursor == 6 then r.(captureMethod := CaptureLeft(r.captureMethod)) else r
    case Right => if r.cursor == 6 then r.(captureMethod := CaptureRight(r.captureMethod)) else r
    case Enter => if r.mode == Edit then r.(mode := Navigate) else r
    case Backspace =>
      if r.mode == Edit then
        var f := ActiveResultsField(r.cursor);
        WithResultsText(r, f, Pop(ResultsText(r, f)))
      else r
    case Char(ch) =>
      if ch == ' ' then
        if r.cursor == 5 then r.(rayTracing := !r.rayTracing)
        else if r.cursor == 7 then r.(antiCheatAck := !r.antiCheatAck)
        else r
      else if key.control || 5 <= r.cursor <= 7 then r
      else
        var f := ActiveResultsField(r.cursor);
        WithResultsText(r.(mode := Edit), f, ResultsText(r, f) + [ch])
    case _ => r
  }

  /** The results cursor stays in 0..8 and moves only on Up, Down, Tab and
      Back-Tab. */
  lemma ResultsCursorRule(r: ResultsState, key: Key)
    requires r.cursor <= 8
    ensures var n := ResultsKey(r, key);
      n.cursor <= 8 && (n.cursor != r.cursor ==> key.code in {Up, Down, Tab, BackTab})
  {
  }

  /** Only Left and Right at row 6 change the capture method, and Left
      undoes Right there. */
  lemma ResultsCaptureRule(r: ResultsState, key: Key)
    ensures var n := ResultsKey(r, key);
      n.captureMethod != r.captureMethod <==> r.cursor == 6 && (key.code == Left || key.code == Right)
    ensures r.cursor == 6 ==> ResultsKey(ResultsKey(r, Key(Right, false)), Key(Left, false)) == r
  {
    CaptureCycle(r.captureMethod);
  }

  /** Only Space changes the two toggles: ray tracing at row 5 and the
      anti-cheat acknowledgement at row 7. */
  lemma ResultsToggleRule(r: ResultsState, key: Key)
    ensures var n := ResultsKey(r, key);
      (n.rayTracing != r.rayTracing <==> r.cursor == 5 && key.code == Char(' ')) &&
      (n.antiCheatAck != r.antiCheatAck <==> r.cursor == 7 && key.code == Char(' '))
  {
  }

  /** A typed character is ignored at rows 5 to 7 and with Ctrl; at the
      text rows it switches to editing and is appended to that row's
      field, leaving the other fields alone. A space is never typed. */
  lemma ResultsTypingRule(r: ResultsState, ch: char, control: bool)
    ensures var n := ResultsKey(r, Key(Char(ch), control));
      ((5 <= r.cursor <= 7 || control || ch == ' ') ==> forall f :: ResultsText(n, f) == ResultsText(r, f))
    ensures var n := ResultsKey(r, Key(Char(ch), control)); var f := ActiveResultsField(r.cursor);
      (!(5 <= r.cursor <= 7) && !control && ch != ' ') ==>
        n.mode == Edit && ResultsText(n, f) == ResultsText(r, f) + [ch] &&
        forall g :: g != f ==> ResultsText(n, g) == ResultsText(r, g)
  {
    var f := ActiveResultsField(r.cursor);
    if !(5 <= r.cursor <= 7) && !control && ch != ' ' {
      ActiveFieldMapping(r.(mode := Edit), r.cursor, ResultsText(r, f) + [ch]);
    }
  }

  /** Backspace while editing removes the last character of the field the
      cursor selects, and at rows 5 to 8 that field is the upscaling text:
      the editing mode survives moving onto the toggle rows. */
  lemma ResultsBackspaceRule(r: ResultsState)
    requires r.mode == Edit
    ensures var n := ResultsKey(r, Key(Backspace, false)); var f := ActiveResultsField(r.cursor);
      ResultsText(n, f) == Pop(ResultsText(r, f)) && (forall g :: g != f ==> ResultsText(n, g) == ResultsText(r, g)) &&
      (r.cursor >= 5 ==> f == Upscaling)
  {
    ActiveFieldMapping(r, r.cursor, Pop(ResultsText(r, ActiveResultsField(r.cursor))));
  }

  /* ------------------------------------------------------- game search */

  /** What a key does to the game search; `count` is the length of the list
      shown before the key. */
  function GameKey(g: GameState, count: nat, key: Key): GameState
  {
    match key.code
    case Up => g.(cursor := Dec(g.cursor))
    case Down => g.(cursor := StepDown(g.cursor, count))
    case Backspace => GameState(Pop(g.query), 0)
    case Char(ch) => if key.control || IsControl(ch) then g else GameState(g.query + [ch], 0)
    case _ => g
  }

  /** The search cursor stays on a listed game (or at 0), and any change of
      the query puts it back on the first row. */
  lemma GameKeyKeepsCursor(games: seq<Games.GameInfo>, g: GameState, key: Key)
    requires SearchCursorOnList(g, games)
    ensures var n := GameKey(g, |FilteredIndices(games, AsciiLower(Trim(g.query)))|, key);
      SearchCursorOnList(n, games) &&
      (n.query != g.query ==> n.cursor == 0) &&
      (n.query == g.query || key.code.Backspace? || key.code.Char?)
  {
    var len := |FilteredIndices(games, AsciiLower(Trim(g.query)))|;
    if key.code.Up? || key.code.Down? {
      CursorSteps(g.cursor, len);
    } else if !key.code.Backspace? && !key.code.Char? {
      assert GameKey(g, len, key) == g;
    }
  }

  /* ---------------------------------------------------------- consent */

  /** The configuration the consent step saves: all three boxes set. */
  function Granted(cfg: Config.Config): (r: Config.Config)
    ensures Config.IsComplete(r.consent)
    ensures r.api == cfg.api && r.capture == cfg.capture && r.currency == cfg.currency && r.channel == cfg.channel
  {
    cfg.(consent := Config.ConsentConfig(true, true, true))
  }

  /* --------------------------------------------------- screen changes */

  /** A modal opened over the current screen, as `set_error`, `set_info`
      and `set_confirm` do. */
  function OpenModal(v: AppView, m: ModalState): AppView
  {
    v.(errorReturnScreen := v.screen, screen := ErrorModal, errorModal := Some(m))
  }

  /** `start_contribute` on the view (the new consent boxes aside). */
  function StartContributeView(v: AppView, cfg: Config.Config): AppView
  {
    v.(contribute := NewContribute(), synthetic := v.synthetic.(returnTo := ReturnHome, returnScreen := Home),
       screen := Contribute(if Config.IsComplete(cfg.consent) then ContributeStep.Hardware else Consent))
  }

  /** Starting the synthetic worker: the old outcome is cleared and the
      running screen shows. */
  function StartSyntheticView(v: AppView): AppView
  {
    v.(screen := SyntheticRunning, synthetic := v.synthetic.(running := true, result := None, error := None, progress := None))
  }

  /** Whether a key on the home screen quits. */
  predicate HomeQuits(v: AppView, key: Key)
  {
    key.code == Esc || (key.code == Enter && v.homeChoice == Quit)
  }

  /** Whether a key on the home screen starts the guided flow. */
  predicate HomeStartsContribute(v: AppView, key: Key)
  {
    key.code == Enter && v.homeChoice == GuidedFlow
  }

  /** What `handle_home_key` does. */
  function HomeStep(v: AppView, key: Key, env: Env, platform: Platform): AppView
    requires HasSynthetic(platform) || v.homeChoice != HomeChoice.Synthetic
  {
    match key.code
    case Esc => v.(exit := true)
    case Up => v.(homeChoice := PrevChoice(v.homeChoice, HasSynthetic(platform)))
    case Down => v.(homeChoice := NextChoice(v.homeChoice, HasSynthetic(platform)))
    case Enter =>
      (match v.homeChoice
       case GuidedFlow => StartContributeView(v, env.config)
       case Synthetic => StartSyntheticView(v.(synthetic := v.synthetic.(returnTo := ReturnHome, returnScreen := Home)))
       case Feedback => v.(feedback := NewDraft(), screen := Screen.Feedback(FeedbackStep.Category))
       case Quit => v.(exit := true))
    case Char(ch) =>
      if ch == 'f' || ch == 'F' then v.(feedback := NewDraft(), screen := Screen.Feedback(FeedbackStep.Category))
      else if (ch == 'i' || ch == 'I') && platform.Windows? && !v.presentmonInstalling then
        OpenModal(v, if env.presentmonFound then ModalState("PresentMon already installed", Info, None)
                     else ModalState("Install PresentMon", Confirm, Some(InstallPresentmon)))
      else v
    case _ => v
  }

  /** What `handle_synthetic_running_key` does: Esc abandons the run. */
  function SyntheticRunningStep(v: AppView, key: Key): AppView
  {
    if key.code == Esc then v.(synthetic := v.synthetic.(running := false, progress := None), screen := v.synthetic.returnScreen)
    else v
  }

  /** What `handle_synthetic_result_key` does: leaving the result of a run
      started from the guided flow keeps its scores as the baseline. */
  function SyntheticResultStep(v: AppView, key: Key): AppView
  {
    if key.code == Enter || key.code == Esc then
      v.(synthetic := v.synthetic.(progress := None), screen := v.synthetic.returnScreen,
         contribute := if v.synthetic.returnTo == ReturnContribute && v.synthetic.result.Some?
                       then v.contribute.(baseline := v.synthetic.result) else v.contribute)
    else v
  }

  /** What `handle_contribute_result_key` does. */
  function ContributeResultStep(v: AppView, key: Key): AppView
  {
    if key.code == Enter || key.code == Esc then v.(contribute := v.contribute.(resultMessage := None), screen := Home)
    else v
  }

  /** The consent step's effect: the view, the boxes, the cursor, and the
      configuration saved. */
  datatype ConsentOutcome = ConsentOutcome(view: AppView, flags: ConsentFlags, cursor: nat, saved: Option<Config.Config>)

  /** What `handle_contribute_consent_key` does. */
  function ConsentStep(v: AppView, f: ConsentFlags, c: nat, key: Key, env: Env): ConsentOutcome
  {
    match key.code
    case Esc => ConsentOutcome(v.(screen := Home), f, c, None)
    case Up => ConsentOutcome(v, f, Dec(c), None)
    case Down => ConsentOutcome(v, f, StepDown(c, 3), None)
    case Char(ch) => ConsentOutcome(v, if ch == ' ' then Toggle(f, c) else f, c, None)
    case Enter =>
      if !AllChecked(f) then ConsentOutcome(v, f, c, None)
      else if env.saveSucceeds then ConsentOutcome(v.(screen := Contribute(ContributeStep.Hardware)), f, c, Some(Granted(env.config)))
      else ConsentOutcome(OpenModal(v, ModalState("Save failed", Error, None)), f, c, None)
    case _ => ConsentOutcome(v, f, c, None)
  }

  /** The consent cursor stays on one of the three boxes; the hardware
      step is reached, and the configuration saved with all three consents,
      only when every box is checked and the save succeeds; Space flips the
      box under the cursor and nothing else changes a box. */
  lemma ConsentStepRules(v: AppView, f: ConsentFlags, c: nat, key: Key, env: Env)
    requires c <= 2
    ensures var o := ConsentStep(v, f, c, key, env);
      o.cursor <= 2 &&
      (o.view.screen == Contribute(ContributeStep.Hardware) && v.screen != o.view.screen ==>
         AllChecked(f) && env.saveSucceeds && key.code == Enter) &&
      (o.saved.Some? <==> key.code == Enter && AllChecked(f) && env.saveSucceeds) &&
      (o.saved.Some? ==> o.saved.value == Granted(env.config) && Config.IsComplete(o.saved.value.consent)) &&
      (o.flags == if key.code == Char(' ') then Toggle(f, c) else f)
  {
  }

  /** What `handle_contribute_hardware_key` does to the view, given the
      form's state before the key: Esc goes home, detection starts on D
      (or Enter without a form) where there is a detection worker, and the
      flow moves on when `HardwareAdvances`. */
  function HardwareStep(v: AppView, form: Option<FormState>, key: Key, platform: Platform): AppView
  {
    v.(screen := if key.code == Esc then Home
                 else if form.Some? && HardwareAdvances(form.value, key) then Contribute(Baseline)
                 else v.screen,
       contribute := v.contribute.(detecting :=
         v.contribute.detecting || (HasSynthetic(platform) && StartsDetection(form.Some?, key))))
  }

  /** Whether a key on the hardware screen starts hardware detection. */
  predicate StartsDetection(hasForm: bool, key: Key)
  {
    key.code == Char('d') || key.code == Char('D') || (key.code == Enter && !hasForm)
  }

  /** What `handle_contribute_baseline_key` does. On Windows and Linux, S
      skips the baseline and B runs it, returning here; on Linux, I shows
      whether a bulk install command for the missing optional tools
      exists. */
  function BaselineStep(v: AppView, key: Key, env: Env, platform: Platform): AppView
  {
    var syn := HasSynthetic(platform);
    match key.code
    case Esc => v.(screen := Contribute(ContributeStep.Hardware))
    case Enter => v.(screen := Contribute(Game))
    case Char(ch) =>
      if syn && (ch == 's' || ch == 'S') then v.(screen := Contribute(Game))
      else if syn && (ch == 'b' || ch == 'B') then
        StartSyntheticView(v.(synthetic := v.synthetic.(returnTo := ReturnContribute, returnScreen := Contribute(Baseline))))
      else if platform.Linux? && (ch == 'i' || ch == 'I') then
        OpenModal(v, ModalState(if env.installCommand.Some? then "Install optional tools"
                                else "Optional tools already installed", Info, None))
      else v
    case _ => v
  }

  /** What `handle_contribute_game_key` does, given the list shown before
      the key: Enter picks the highlighted game when the list has one. */
  function GameStep(v: AppView, list: seq<nat>, key: Key): AppView
  {
    if key.code == Esc then v.(screen := Contribute(Baseline))
    else if key.code == Enter then
      if v.contribute.game.cursor < |list| then
        v.(contribute := v.contribute.(selectedGame := Some(list[v.contribute.game.cursor])), screen := Contribute(Results))
      else v
    else v.(contribute := v.contribute.(game := GameKey(v.contribute.game, |list|, key)))
  }

  /** What `handle_contribute_results_key` does: Esc goes back to the game
      step, Enter outside editing on to the review, and every other key
      changes the form as `ResultsKey` says. */
  function ResultsStep(v: AppView, key: Key): AppView
  {
    if key.code == Esc then v.(screen := Contribute(Game))
    else if key.code == Enter && v.contribute.results.mode == Navigate then v.(screen := Contribute(Review))
    else v.(contribute := v.contribute.(results := ResultsKey(v.contribute.results, key)))
  }

  /** What `handle_contribute_review_key` does: Enter queues the benchmark
      submission; 1, 2 and 3 fold or unfold one review section each. */
  function ReviewStep(v: AppView, key: Key): AppView
    requires |v.contribute.reviewExpanded| == 3
  {
    var e := v.contribute.reviewExpanded;
    match key.code
    case Esc => v.(screen := Contribute(Results))
    case Enter => v.(screen := Contribute(ContributeStep.Submitting), pendingAction := Some(SubmitBenchmark))
    case Char(ch) =>
      if '1' <= ch <= '3' then
        var i := ch as int - '1' as int;
        v.(contribute := v.contribute.(reviewExpanded := e[i := !e[i]]))
      else v
    case _ => v
  }

  /** A review key folds or unfolds at most one section, and the same key
      twice restores them. */
  lemma ReviewToggleRule(v: AppView, key: Key)
    requires |v.contribute.reviewExpanded| == 3
    ensures var w := ReviewStep(v, key); var e := v.contribute.reviewExpanded; var e2 := w.contribute.reviewExpanded;
      |e2| == 3 && (forall i, j :: 0 <= i < j < 3 && e2[i] != e[i] ==> e2[j] == e[j]) &&
      (forall i, j :: 0 <= j < i < 3 && e2[i] != e[i] ==> e2[j] == e[j]) &&
      ReviewStep(ReviewStep(v, key), key).contribute.reviewExpanded == e
  {
  }

  /** Whether a key sends the feedback from the message step: F5, or Ctrl+S. */
  predicate SendsFeedback(key: Key)
  {
    key.code == F(5) || (key.code == Char('s') && key.control)
  }

  /** What `handle_feedback_key` does at a step, with `categories`
      categories in the schema and `issues` issues in the current one. */
  function FeedbackKeyStep(v: AppView, step: FeedbackStep, key: Key, categories: nat, issues: nat): AppView
  {
    var d := v.feedback;
    match step
    case Category =>
      (match key.code
       case Esc => v.(screen := Home)
       case Up => v.(feedback := d.(categoryIndex := Dec(d.categoryIndex), issueIndex := 0))
       case Down => v.(feedback := d.(categoryIndex := StepDown(d.categoryIndex, categories), issueIndex := 0))
       case Enter => v.(screen := Screen.Feedback(FeedbackStep.Issue))
       case _ => v)
    case Issue =>
      (match key.code
       case Esc => v.(screen := Screen.Feedback(FeedbackStep.Category))
       case Up => v.(feedback := d.(issueIndex := Dec(d.issueIndex)))
       case Down => v.(feedback := d.(issueIndex := StepDown(d.issueIndex, issues)))
       case Enter => v.(screen := Screen.Feedback(Message))
       case _ => v)
    case Message =>
      if SendsFeedback(key) then v.(screen := Screen.Feedback(FeedbackStep.Submitting), pendingAction := Some(SubmitFeedback))
      else
        (match key.code
         case Esc => v.(screen := Screen.Feedback(FeedbackStep.Issue))
         case Tab => v.(feedback := d.(includeDiagnostics := !d.includeDiagnostics))
         case Backspace => v.(feedback := d.(message := Pop(d.message)))
         case Enter => v.(feedback := d.(message := d.message + "\n"))
         case Char(ch) => if key.control then v else v.(feedback := d.(message := d.message + [ch]))
         case _ => v)
    case Submitting => v
  }

  /** Both feedback indices stay within their lists, and a change of
      category puts the issue back on the first. */
  lemma FeedbackIndicesRule(v: AppView, step: FeedbackStep, key: Key, categories: nat, issues: nat)
    requires v.feedback.categoryIndex < categories
    requires v.feedback.issueIndex == 0 || v.feedback.issueIndex < issues
    ensures var d := FeedbackKeyStep(v, step, key, categories, issues).feedback;
      d.categoryIndex < categories &&
      (d.categoryIndex != v.feedback.categoryIndex ==> d.issueIndex == 0) &&
      (d.issueIndex == 0 || (d.categoryIndex == v.feedback.categoryIndex && d.issueIndex < issues))
  {
    CursorSteps(v.feedback.categoryIndex, categories);
    CursorSteps(v.feedback.issueIndex, issues);
  }

  /** What `handle_feedback_result_key` does. */
  function FeedbackResultStep(v: AppView, key: Key): AppView
  {
    if key.code == Enter || key.code == Esc then v.(feedbackResult := None, screen := Home) else v
  }

  /** What `handle_error_modal_key` does: Esc and Enter close the dialog
      and return to the screen it opened over; on Windows, Enter on the
      install prompt also starts the PresentMon install. */
  function ErrorModalStep(v: AppView, key: Key, platform: Platform): AppView
  {
    if key.code == Esc then v.(errorModal := None, screen := v.errorReturnScreen)
    else if key.code == Enter then
      v.(errorModal := None, screen := v.errorReturnScreen,
         presentmonInstalling := v.presentmonInstalling ||
           (platform.Windows? && v.errorModal.Some? && v.errorModal.value.confirmAction == Some(InstallPresentmon)))
    else v
  }

  /** A modal closed with Esc leaves the screen it opened over as it was;
      Enter does the same, and starts the install only for the Windows
      install prompt. */
  lemma ModalReturns(v: AppView, m: ModalState, control: bool, platform: Platform)
    ensures ErrorModalStep(OpenModal(v, m), Key(Esc, control), platform) == v.(errorReturnScreen := v.screen, errorModal := None)
    ensures var w := ErrorModalStep(OpenModal(v, m), Key(Enter, control), platform);
      w == v.(errorReturnScreen := v.screen, errorModal := None, presentmonInstalling := w.presentmonInstalling) &&
      (w.presentmonInstalling <==> v.presentmonInstalling || (platform.Windows? && m.confirmAction == Some(InstallPresentmon)))
  {
  }

  /** A synthetic run abandoned with Esc, or whose result is left, returns
      to the screen it was started from. */
  lemma SyntheticReturns(v: AppView, key: Key)
    requires key.code == Esc
    ensures SyntheticRunningStep(StartSyntheticView(v), key).screen == v.synthetic.returnScreen
    ensures SyntheticResultStep(v, key).screen == v.synthetic.returnScreen
  {
  }

  /* ---------------------------------------------------------- handlers */

  /** `start_contribute`: a fresh guided flow from the stored
      configuration, starting at the hardware step when consent is already
      complete and at the consent step otherwise. */
  method StartContribute(app: App, cfg: Config.Config)
    requires app.Valid()
    modifies app
    ensures app.Valid() && fresh(app.consent) && app.consent.cursor == 0
    ensures app.consent.IsComplete() <==> Config.IsComplete(cfg.consent)
    ensures app.consent.Flags() == ConsentFlags(cfg.consent.tosAccepted, cfg.consent.consentPublicUse, cfg.consent.retentionAcknowledged)
    ensures app.View() == StartContributeView(old(app.View()), cfg).(consent := app.consent)
  {
    app.ResetContribute(cfg);
    app.synthetic := app.synthetic.(returnTo := ReturnHome, returnScreen := Home);
    if app.consent.IsComplete() {
      app.screen := Contribute(ContributeStep.Hardware);
    } else {
      app.screen := Contribute(Consent);
    }
  }

  /** Starting the synthetic worker. */
  method StartSyntheticWorker(app: App)
    requires app.Valid()
    modifies app
    ensures app.Valid()
    ensures app.View() == StartSyntheticView(old(app.View()))
  {
    app.synthetic := app.synthetic.(running := true, result := None, error := None, progress := None);
    app.screen := SyntheticRunning;
  }

  /** `handle_home_key`; the result says whether the interface quits. */
  method HandleHome(app: App, key: Key, env: Env) returns (quit: bool)
    requires app.Valid()
    modifies app
    ensures app.Valid()
    ensures quit == HomeQuits(old(app.View()), key) && app.exit == (old(app.exit) || quit)
    ensures app.View() == HomeStep(old(app.View()), key, env, app.platform).(consent := app.consent)
    ensures HomeStartsContribute(old(app.View()), key) ==>
      fresh(app.consent) && app.consent.cursor == 0 &&
      app.consent.Flags() == ConsentFlags(env.config.consent.tosAccepted, env.config.consent.consentPublicUse, env.config.consent.retentionAcknowledged)
    ensures !HomeStartsContribute(old(app.View()), key) ==> app.consent == old(app.consent)
  {
    quit := false;
    var syn := HasSynthetic(app.platform);
    match key.code
    case Esc =>
      app.exit := true;
      quit := true;
    case Up =>
      app.homeChoice := PrevChoice(app.homeChoice, syn);
    case Down =>
      app.homeChoice := NextChoice(app.homeChoice, syn);
    case Enter =>
      quit := HomeEnter(app, key, env);
    case Char(ch) =>
      HomeChar(app, key, env);
    case _ =>
  }

  /** Enter on the home screen: the highlighted entry is opened. */
  method HomeEnter(app: App, key: Key, env: Env) returns (quit: bool)
    requires app.Valid() && key.code == Enter
    modifies app
    ensures app.Valid()
    ensures quit == (old(app.homeChoice) == Quit) && app.exit == (old(app.exit) || quit)
    ensures app.View() == HomeStep(old(app.View()), key, env, app.platform).(consent := app.consent)
    ensures old(app.homeChoice) == GuidedFlow ==>
      fresh(app.consent) && app.consent.cursor == 0 &&
      app.consent.Flags() == ConsentFlags(env.config.consent.tosAccepted, env.config.consent.consentPublicUse, env.config.consent.retentionAcknowledged)
    ensures old(app.homeChoice) != GuidedFlow ==> app.consent == old(app.consent)
  {
    quit := false;
    match app.homeChoice
    case GuidedFlow =>
      StartContribute(app, env.config);
    case Synthetic =>
      app.synthetic := app.synthetic.(returnTo := ReturnHome, returnScreen := Home);
      StartSyntheticWorker(app);
    case Feedback =>
      app.feedback := NewDraft();
      app.screen := Screen.Feedback(FeedbackStep.Category);
    case Quit =>
      app.exit := true;
      quit := true;
  }

  /** A letter on the home screen: F opens the feedback flow and, on
      Windows while no install runs, I offers to install PresentMon (or
      says it is already installed). */
  method HomeChar(app: App, key: Key, env: Env)
    requires app.Valid() && key.code.Char?
    modifies app
    ensures app.Valid() && app.exit == old(app.exit) && app.consent == old(app.consent)
    ensures app.View() == HomeStep(old(app.View()), key, env, app.platform)
  {
    var ch := key.code.c;
    if ch == 'f' || ch == 'F' {
      app.feedback := NewDraft();
      app.screen := Screen.Feedback(FeedbackStep.Category);
    } else if (ch == 'i' || ch == 'I') && app.platform.Windows? && !app.presentmonInstalling {
      if !env.presentmonFound {
        app.SetConfirm("Install PresentMon", InstallPresentmon);
      } else {
        app.SetInfo("PresentMon already installed");
      }
    }
  }

  /** `handle_synthetic_running_key`. */
  method HandleSyntheticRunning(app: App, key: Key)
    requires app.Valid()
    modifies app
    ensures app.exit == old(app.exit)
    ensures app.Valid() && app.View() == SyntheticRunningStep(old(app.View()), key)
  {
    if key.code == Esc {
      app.synthetic := app.synthetic.(running := false, progress := None);
      app.screen := app.synthetic.returnScreen;
    }
  }

  /** `handle_synthetic_result_key`. */
  method HandleSyntheticResult(app: App, key: Key)
    requires app.Valid()
    modifies app
    ensures app.exit == old(app.exit)
    ensures app.Valid() && app.View() == SyntheticResultStep(old(app.View()), key)
  {
    if key.code == Enter || key.code == Esc {
      if app.synthetic.returnTo == ReturnContribute && app.synthetic.result.Some? {
        app.contribute := app.contribute.(baseline := app.synthetic.result);
      }
      app.synthetic := app.synthetic.(progress := None);
      app.screen := app.synthetic.returnScreen;
    }
  }

  /** `handle_contribute_result_key`. */
  method HandleContributeResult(app: App, key: Key)
    requires app.Valid()
    modifies app
    ensures app.exit == old(app.exit)
    ensures app.Valid() && app.View() == ContributeResultStep(old(app.View()), key)
  {
    if key.code == Enter || key.code == Esc {
      app.contribute := app.contribute.(resultMessage := None);
      app.screen := Home;
    }
  }

  /** `handle_contribute_consent_key`; the result is the configuration
      saved, if any. */
  method HandleConsent(app: App, key: Key, env: Env) returns (saved: Option<Config.Config>)
    requires app.Valid()
    modifies app, app.consent
    ensures app.Valid() && app.consent == old(app.consent) && app.exit == old(app.exit)
    ensures app.consent.scrollOffset == old(app.consent.scrollOffset)
    ensures var o := ConsentStep(old(app.View()), old(app.consent.Flags()), old(app.consent.cursor), key, env);
      app.View() == o.view && app.consent.Flags() == o.flags && app.consent.cursor == o.cursor && saved == o.saved
    ensures saved.Some? ==>
      saved.value == Granted(env.config) && old(app.consent.IsComplete()) && app.screen == Contribute(ContributeStep.Hardware)
  {
    saved := None;
    match key.code
    case Esc =>
      app.screen := Home;
    case Up =>
      app.consent.cursor := Dec(app.consent.cursor);
    case Down =>
      app.consent.cursor := StepDown(app.consent.cursor, 3);
    case Char(ch) =>
      if ch == ' ' {
        app.consent.ToggleCurrent();
      }
    case Enter =>
      if app.consent.IsComplete() {
        if env.saveSucceeds {
          saved := Some(Granted(env.config));
          app.screen := Contribute(ContributeStep.Hardware);
        } else {
          app.SetError("Save failed");
        }
      }
    case _ =>
  }

  /** `handle_contribute_hardware_key`: the form changes as
      `HardwareFormKey` says and the view as `HardwareStep` says. */
  method HandleHardware(app: App, key: Key)
    requires app.Valid()
    modifies app, app.HardwareObjects()
    ensures app.Valid() && app.exit == old(app.exit) && app.contribute.hardware == old(app.contribute.hardware)
    ensures app.contribute.hardware.Some? ==>
      app.contribute.hardware.value.State() == HardwareFormKey(old(app.contribute.hardware.value.State()), key)
    ensures app.View() == HardwareStep(old(app.View()), old(app.Form()), key, app.platform)
  {
    if key.code == Esc || StartsDetection(app.contribute.hardware.Some?, key) {
      if app.contribute.hardware.Some? {
        KeysBesideTheForm(app.contribute.hardware.value.State(), key);
      }
      if key.code == Esc {
        app.screen := Home;
      } else if HasSynthetic(app.platform) {
        app.contribute := app.contribute.(detecting := true);
      }
    } else if app.contribute.hardware.Some? {
      var advance := HardwareFormKeyOnApp(app, key);
      if advance {
        app.screen := Contribute(Baseline);
      }
    }
  }

  /** A key that reaches the form: the form changes; the result says
      whether the flow moves on to the baseline step. */
  method HardwareFormKeyOnApp(app: App, key: Key) returns (advance: bool)
    requires app.Valid() && app.contribute.hardware.Some?
    requires key.code != Esc && !StartsDetection(true, key)
    modifies app.HardwareObjects()
    ensures app.Valid() && app.View() == old(app.View())
    ensures app.contribute.hardware.value.State() == HardwareFormKey(old(app.contribute.hardware.value.State()), key)
    ensures advance == HardwareAdvances(old(app.contribute.hardware.value.State()), key)
  {
    var hw := app.contribute.hardware.value;
    advance := FormKey(hw, key);
  }

  /** Esc and the detection keys leave the form as it is. */
  lemma KeysBesideTheForm(s: FormState, key: Key)
    requires key.code == Esc || StartsDetection(true, key)
    ensures HardwareFormKey(s, key) == s && !HardwareAdvances(s, key)
  {
  }

  /** The hardware keys that reach the form; the result says whether the
      flow moves on to the baseline step. */
  method FormKey(hw: HardwareForm, key: Key) returns (advance: bool)
    requires !StartsDetection(true, key)
    modifies hw
    ensures hw.State() == HardwareFormKey(old(hw.State()), key)
    ensures advance == HardwareAdvances(old(hw.State()), key)
  {
    advance := false;
    match key.code
    case Char(ch) => FormChar(hw, key);
    case Tab => hw.NextField();
    case Down => hw.NextField();
    case BackTab => hw.PrevField();
    case Up => hw.PrevField();
    case Enter => advance := FormEnter(hw, key);
    case Backspace =>
      if hw.mode == Edit {
        hw.SetActiveValue(Pop(FieldText(hw.Values(), hw.field)));
      }
    case _ =>
  }

  /** Enter on the hardware form: it ends editing, or moves on when the
      form may continue, or starts editing; in the first two cases the
      typed values are committed into the information. */
  method FormEnter(hw: HardwareForm, key: Key) returns (advance: bool)
    requires key.code == Enter
    modifies hw
    ensures hw.State() == HardwareFormKey(old(hw.State()), key)
    ensures advance == HardwareAdvances(old(hw.State()), key)
  {
    advance := false;
    if hw.mode == Edit {
      hw.CommitIntoInfo();
      hw.mode := Navigate;
    } else if hw.CanContinue() {
      hw.CommitIntoInfo();
      advance := true;
    } else {
      hw.mode := Edit;
    }
  }

  /** A character on the hardware form: G, C and R flip a confirmation
      box; any other character without Ctrl is typed while editing. */
  method FormChar(hw: HardwareForm, key: Key)
    requires key.code.Char? && !StartsDetection(true, key)
    modifies hw
    ensures hw.State() == HardwareFormKey(old(hw.State()), key)
  {
    var ch := key.code.c;
    if ch == 'g' || ch == 'G' {
      hw.confirmGpu := !hw.confirmGpu;
    } else if ch == 'c' || ch == 'C' {
      hw.confirmCpu := !hw.confirmCpu;
    } else if ch == 'r' || ch == 'R' {
      hw.confirmRam := !hw.confirmRam;
    } else if hw.mode == Edit && !key.control {
      hw.SetActiveValue(FieldText(hw.Values(), hw.field) + [ch]);
    }
  }

  /** `handle_contribute_baseline_key`. */
  method HandleBaseline(app: App, key: Key, env: Env)
    requires app.Valid()
    modifies app
    ensures app.exit == old(app.exit)
    ensures app.Valid() && app.View() == BaselineStep(old(app.View()), key, env, app.platform)
  {
    var syn := HasSynthetic(app.platform);
    match key.code
    case Esc => app.screen := Contribute(ContributeStep.Hardware);
    case Enter => app.screen := Contribute(Game);
    case Char(ch) =>
      if syn && (ch == 's' || ch == 'S') {
        app.screen := Contribute(Game);
      } else if syn && (ch == 'b' || ch == 'B') {
        app.synthetic := app.synthetic.(returnTo := ReturnContribute, returnScreen := Contribute(Baseline));
        StartSyntheticWorker(app);
      } else if app.platform.Linux? && (ch == 'i' || ch == 'I') {
        if env.installCommand.Some? {
          app.SetInfo("Install optional tools");
        } else {
          app.SetInfo("Optional tools already installed");
        }
      }
    case _ =>
  }

  /** `handle_contribute_game_key`, over the list shown before the key. */
  method HandleGame(app: App, key: Key)
    requires app.Valid()
    modifies app
    ensures app.exit == old(app.exit)
    ensures app.Valid() && app.View() == GameStep(old(app.View()), old(app.Filtered()), key)
  {
    var list := app.Filtered();
    if key.code == Esc { app.screen := Contribute(Baseline); }
    else if key.code == Enter {
      var cursor := app.contribute.game.cursor;
      if cursor < |list| {
        FilteredEntryInTable(app.games, AsciiLower(Trim(app.contribute.game.query)), cursor);
        app.contribute := app.contribute.(selectedGame := Some(list[cursor]));
        app.screen := Contribute(Results);
      }
    } else {
      app.contribute := app.contribute.(game := GameKey(app.contribute.game, |list|, key));
    }
  }

  /** `handle_contribute_results_key`. */
  method HandleResults(app: App, key: Key)
    requires app.Valid()
    modifies app
    ensures app.exit == old(app.exit)
    ensures app.Valid() && app.View() == ResultsStep(old(app.View()), key)
  {
    var r := app.contribute.results;
    if key.code == Esc {
      app.screen := Contribute(Game);
    } else if key.code == Enter && r.mode == Navigate {
      app.screen := Contribute(Review);
    } else {
      ResultsCursorRule(r, key);
      app.contribute := app.contribute.(results := ResultsKey(r, key));
    }
  }

  /** `handle_contribute_review_key`. */
  method HandleReview(app: App, key: Key)
    requires app.Valid()
    modifies app
    ensures app.exit == old(app.exit)
    ensures app.Valid() && app.View() == ReviewStep(old(app.View()), key)
  {
    match key.code
    case Esc => app.screen := Contribute(Results);
    case Enter =>
      app.screen := Contribute(ContributeStep.Submitting);
      app.pendingAction := Some(SubmitBenchmark);
    case Char(ch) =>
      if '1' <= ch <= '3' {
        var e := app.contribute.reviewExpanded;
        var i := ch as int - '1' as int;
        app.contribute := app.contribute.(reviewExpanded := e[i := !e[i]]);
      }
    case _ =>
  }

  /** `handle_feedback_key`. */
  method HandleFeedback(app: App, step: FeedbackStep, key: Key)
    requires app.Valid()
    modifies app
    ensures app.exit == old(app.exit)
    ensures app.Valid()
    ensures app.View() == FeedbackKeyStep(old(app.View()), step, key, |app.schema.categories|,
                                          |app.schema.categories[old(app.feedback.categoryIndex)].issues|)
  {
    match step
    case Category => FeedbackPick(app, step, key);
    case Issue => FeedbackPick(app, step, key);
    case Message => FeedbackMessage(app, key);
    case Submitting =>
  }

  /** A key on the category or the issue list. */
  method FeedbackPick(app: App, step: FeedbackStep, key: Key)
    requires app.Valid() && (step == FeedbackStep.Category || step == FeedbackStep.Issue)
    modifies app
    ensures app.exit == old(app.exit)
    ensures app.Valid()
    ensures app.View() == FeedbackKeyStep(old(app.View()), step, key, |app.schema.categories|,
                                          |app.schema.categories[old(app.feedback.categoryIndex)].issues|)
  {
    var d := app.feedback;
    var issues := |app.schema.categories[d.categoryIndex].issues|;
    FeedbackIndicesRule(app.View(), step, key, |app.schema.categories|, issues);
    if step == FeedbackStep.Category {
      match key.code {
        case Esc => app.screen := Home;
        case Up => app.feedback := d.(categoryIndex := Dec(d.categoryIndex), issueIndex := 0);
        case Down => app.feedback := d.(categoryIndex := StepDown(d.categoryIndex, |app.schema.categories|), issueIndex := 0);
        case Enter => app.screen := Screen.Feedback(FeedbackStep.Issue);
        case _ =>
      }
    } else {
      match key.code {
        case Esc => app.screen := Screen.Feedback(FeedbackStep.Category);
        case Up => app.feedback := d.(issueIndex := Dec(d.issueIndex));
        case Down => app.feedback := d.(issueIndex := StepDown(d.issueIndex, issues));
        case Enter => app.screen := Screen.Feedback(Message);
        case _ =>
      }
    }
  }

  /** A key on the message step: F5 or Ctrl+S sends, the rest edit the
      message or the diagnostics choice. */
  method FeedbackMessage(app: App, key: Key)
    requires app.Valid()
    modifies app
    ensures app.exit == old(app.exit)
    ensures app.Valid()
    ensures app.View() == FeedbackKeyStep(old(app.View()), Message, key, |app.schema.categories|,
                                          |app.schema.categories[old(app.feedback.categoryIndex)].issues|)
  {
    var d := app.feedback;
    if SendsFeedback(key) {
      app.screen := Screen.Feedback(FeedbackStep.Submitting);
      app.pendingAction := Some(SubmitFeedback);
    } else {
      match key.code {
        case Esc => app.screen := Screen.Feedback(FeedbackStep.Issue);
        case Tab => app.feedback := d.(includeDiagnostics := !d.includeDiagnostics);
        case Backspace => app.feedback := d.(message := Pop(d.message));
        case Enter => app.feedback := d.(message := d.message + "\n");
        case Char(ch) =>
          if !key.control {
            app.feedback := d.(message := d.message + [ch]);
          }
        case _ =>
      }
    }
  }

  /** `handle_feedback_result_key`. */
  method HandleFeedbackResult(app: App, key: Key)
    requires app.Valid()
    modifies app
    ensures app.exit == old(app.exit)
    ensures app.Valid() && app.View() == FeedbackResultStep(old(app.View()), key)
  {
    if key.code == Enter || key.code == Esc {
      app.feedbackResult := None;
      app.screen := Home;
    }
  }

  /** `handle_error_modal_key`. */
  method HandleErrorModal(app: App, key: Key)
    requires app.Valid()
    modifies app
    ensures app.exit == old(app.exit)
    ensures app.Valid() && app.View() == ErrorModalStep(old(app.View()), key, app.platform)
  {
    if key.code == Esc {
      app.errorModal := None;
      app.screen := app.errorReturnScreen;
    } else if key.code == Enter {
      var action := if app.errorModal.Some? then app.errorModal.value.confirmAction else None;
      app.errorModal := None;
      app.screen := app.errorReturnScreen;
      if app.platform.Windows? && action == Some(InstallPresentmon) {
        app.presentmonInstalling := true;
      }
    }
  }

  /** A key on one of the guided flow's steps, sent to that step's
      handler; nothing is saved except from the consent step. */
  method HandleContributeKey(app: App, step: ContributeStep, key: Key, env: Env) returns (saved: Option<Config.Config>)
    requires app.Valid()
    modifies app, app.consent, app.HardwareObjects()
    ensures app.Valid() && app.exit == old(app.exit)
    ensures saved.Some? ==>
      saved.value == Granted(env.config) && step == Consent &&
      old(app.consent.IsComplete()) && app.screen == Contribute(ContributeStep.Hardware)
  {
    saved := None;
    match step
    case Consent => saved := HandleConsent(app, key, env);
    case Hardware => HandleHardware(app, key);
    case Baseline => HandleBaseline(app, key, env);
    case Game => HandleGame(app, key);
    case Results => HandleResults(app, key);
    case Review => HandleReview(app, key);
    case Submitting =>
  }

  /** Whether a key is Ctrl+Q. */
  predicate IsCtrlQ(key: Key)
  {
    key.code == Char('q') && key.control
  }

  /** `handle_key`: Ctrl+Q quits from every screen; otherwise the key goes
      to the handler of the current screen (the synthetic screens exist on
      Windows and Linux only). The results say whether the interface quits
      and which configuration, if any, was saved. */
  method HandleKey(app: App, key: Key, env: Env) returns (quit: bool, saved: Option<Config.Config>)
    requires app.Valid()
    modifies app, app.consent, app.HardwareObjects()
    ensures app.Valid()
    ensures IsCtrlQ(key) ==> quit && saved.None? && app.View() == old(app.View()).(exit := true)
    ensures quit <==> IsCtrlQ(key) || (old(app.screen) == Home && HomeQuits(old(app.View()), key))
    ensures app.exit == (old(app.exit) || quit)
    ensures saved.Some? ==>
      saved.value == Granted(env.config) && old(app.screen) == Contribute(Consent) &&
      old(app.consent.IsComplete()) && app.screen == Contribute(ContributeStep.Hardware)
  {
    quit, saved := false, None;
    if IsCtrlQ(key) {
      app.exit := true;
      quit := true;
      return;
    }
    match app.screen
    case Home =>
      quit := HandleHome(app, key, env);
    case Contribute(step) =>
      saved := HandleContributeKey(app, step, key, env);
    case ContributeResult => HandleContributeResult(app, key);
    case Feedback(step) => HandleFeedback(app, step, key);
    case FeedbackResult => HandleFeedbackResult(app, key);
    case SyntheticRunning =>
      if HasSynthetic(app.platform) {
        HandleSyntheticRunning(app, key);
      }
    case SyntheticResult =>
      if HasSynthetic(app.platform) {
        HandleSyntheticResult(app, key);
      }
    case ErrorModal => HandleErrorModal(app, key);
  }

  /* ------------------------------------------------- submission preview */

  /** Why the preview has no submission. */
  datatype PreviewIssue = HardwareMissing | NoGameSelected | AvgNotNumber | AntiCheatAckMissing | Invalid(issue: Sub.Issue)

  /** The previewed submission with the two fields the terminal sets on
      it: the capture method's API value and the anti-cheat
      acknowledgement. */
  datatype TuiSubmission = TuiSubmission(submission: Sub.BenchmarkSubmission, captureMethod: Option<string>, antiCheatAcknowledged: Option<bool>)

  /** A low-FPS field: `s.trim().parse::<f64>().ok().filter(|v| *v > 0.0)`. */
  function PositiveLow(s: string): (r: Option<Float.F64>)
    ensures r.Some? <==> Float.ParseF64(Trim(s)).Some? && Float.Positive(Float.ParseF64(Trim(s)).value)
    ensures r.Some? ==> r == Float.ParseF64(Trim(s))
  {
    match Float.ParseF64(Trim(s))
    case Some(v) => if Float.Positive(v) then Some(v) else None
    case None => None
  }

  /** The submission the preview builds before validating it: the
      committed hardware, the game's name, the resolution normalised as
      the program writes it (kept trimmed when unrecognised), the trimmed
      preset, the average, the two lows kept only when above zero, and the
      trimmed upscaling text when not empty. */
  function DraftSubmission(
    info: Hw.SystemInfo, game: string, r: ResultsState, avg: Float.F64, id: string, timestamp: int): (s: Sub.BenchmarkSubmission)
    ensures s.systemInfo == info && s.game == game && s.avgFps == avg && s.rayTracing == r.rayTracing
    ensures s.preset == Trim(r.preset) && s.fps1Low == PositiveLow(r.fps1Low) && s.fps01Low == PositiveLow(r.fps01Low)
    ensures s.upscaling.Some? <==> Trim(r.upscaling) != []
    ensures s.upscaling.Some? ==> s.upscaling.value == Trim(r.upscaling)
    ensures s.resolution == Sub.NormalizeResolutionAsWritten(Trim(r.resolution)).GetOr(Trim(r.resolution))
  {
    TrimIdempotent(r.resolution);
    var upscaling := if Trim(r.upscaling) == [] then None else Some(Trim(r.upscaling));
    Sub.NewSubmission(id, timestamp, info, game, Trim(r.resolution), Trim(r.preset), avg, PositiveLow(r.fps1Low),
                      r.rayTracing, upscaling).(fps01Low := PositiveLow(r.fps01Low))
  }

  /** `Invalid` over a list of validation problems. */
  function AsPreviewIssues(es: seq<Sub.Issue>): (r: seq<PreviewIssue>)
    ensures |r| == |es| && forall i :: 0 <= i < |es| ==> r[i] == Invalid(es[i])
  {
    seq(|es|, i requires 0 <= i < |es| => Invalid(es[i]))
  }

  /** `build_submission_preview` over the form state, the chosen game, the
      results form and the game table (the id and timestamp the
      submission is given come from outside). */
  function BuildSubmissionPreview(
    form: Option<FormState>, selected: Option<nat>, r: ResultsState, games: seq<Games.GameInfo>,
    id: string, timestamp: int): (p: (Option<TuiSubmission>, Option<seq<PreviewIssue>>))
    requires selected.Some? ==> selected.value < |games|
    ensures p.0.Some? != p.1.Some?
    ensures p.1.Some? ==> p.1.value != []
    ensures form.None? ==> p.1 == Some([HardwareMissing])
    ensures form.Some? && selected.None? ==> p.1 == Some([NoGameSelected])
    ensures form.Some? && selected.Some? && Float.ParseF64(Trim(r.avgFps)).None? ==> p.1 == Some([AvgNotNumber])
    ensures form.Some? && selected.Some? && Float.ParseF64(Trim(r.avgFps)).Some? && !r.antiCheatAck ==>
      p.1 == Some([AntiCheatAckMissing])
    ensures form.Some? && selected.Some? && Float.ParseF64(Trim(r.avgFps)).Some? && r.antiCheatAck ==>
      var s := DraftSubmission(CommitInfo(form.value.info, form.value.values), games[selected.value].name, r,
                               Float.ParseF64(Trim(r.avgFps)).value, id, timestamp);
      (p.0.Some? <==> Sub.Acceptable(s, Sub.Recognised(s.resolution))) &&
      (p.0.Some? ==> p.0.value == TuiSubmission(s, Some(ApiValue(r.captureMethod)), Some(true))) &&
      (p.1.Some? ==> p.1.value == AsPreviewIssues(Sub.Failing(Sub.ChecksOf(s, Sub.Recognised(s.resolution)), Sub.IssueCount)))
  {
    if form.None? then (None, Some([HardwareMissing]))
    else if selected.None? then (None, Some([NoGameSelected]))
    else match Float.ParseF64(Trim(r.avgFps))
      case None => (None, Some([AvgNotNumber]))
      case Some(avg) =>
        if !r.antiCheatAck then (None, Some([AntiCheatAckMissing]))
        else
          var s := DraftSubmission(CommitInfo(form.value.info, form.value.values), games[selected.value].name, r,
                                   avg, id, timestamp);
          var known := Sub.Recognised(s.resolution);
          Sub.AcceptableIffNothingFails(s, known);
          if Sub.Acceptable(s, known) then (Some(TuiSubmission(s, Some(ApiValue(r.captureMethod)), Some(true))), None)
          else (None, Some(AsPreviewIssues(Sub.Failing(Sub.ChecksOf(s, known), Sub.IssueCount))))
  }

  /** A previewed submission has the anti-cheat acknowledgement set, the
      capture method's API value, lows that are above zero when present,
      and passes validation. */
  lemma PreviewSubmissionFacts(
    form: Option<FormState>, selected: Option<nat>, r: ResultsState, games: seq<Games.GameInfo>, id: string, timestamp: int)
    requires selected.Some? ==> selected.value < |games|
    requires BuildSubmissionPreview(form, selected, r, games, id, timestamp).0.Some?
    ensures var t := BuildSubmissionPreview(form, selected, r, games, id, timestamp).0.value; var s := t.submission;
      t.antiCheatAcknowledged == Some(true) && t.captureMethod == Some(ApiValue(r.captureMethod)) &&
      (s.fps1Low.Some? ==> Float.Positive(s.fps1Low.value)) && (s.fps01Low.Some? ==> Float.Positive(s.fps01Low.value)) &&
      Sub.Acceptable(s, Sub.Recognised(s.resolution)) && r.antiCheatAck && form.Some? && selected.Some? &&
      s.game == games[selected.value].name && s.systemInfo == CommitInfo(form.value.info, form.value.values)
  {
  }
}
