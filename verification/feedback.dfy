/** Feedback capture: the categories and issue lists offered to the user,
    the schema sent to the web UI, the checks a report must pass before it
    is sent, and the scrubbing of dependency details in the optional
    diagnostics. */
module Feedback {
  import opened Wrappers
  import opened Text

  /** Where a report comes from. */
  datatype FeedbackSurface = WebUi | TerminalUi

  datatype FeedbackCategory =
    | InstallUpdate | WebUiIssues | TerminalUiIssues | HardwareDetection | Capture
    | SyntheticBenchmarks | SubmissionSync | DataQuality | Performance | PrivacyConsent | Other

  /** The categories in declaration order. */
  const AllCategories: seq<FeedbackCategory> := [
    InstallUpdate, WebUiIssues, TerminalUiIssues, HardwareDetection, Capture,
    SyntheticBenchmarks, SubmissionSync, DataQuality, Performance, PrivacyConsent, Other
  ]

  /** `FeedbackCategory::label`. */
  function Label(c: FeedbackCategory): string
  {
    match c
    case InstallUpdate => "Install / Update"
    case WebUiIssues => "Web UI"
    case TerminalUiIssues => "Terminal UI"
    case HardwareDetection => "Hardware Detection"
    case Capture => "Performance Capture"
    case SyntheticBenchmarks => "Synthetic Benchmarks"
    case SubmissionSync => "Submission & Sync"
    case DataQuality => "Data Quality"
    case Performance => "Performance / Stability"
    case PrivacyConsent => "Privacy / Consent"
    case Other => "Other"
  }

  /** `FeedbackCategory::description`. */
  function Description(c: FeedbackCategory): string
  {
    match c
    case InstallUpdate => "Install steps, upgrades, dependencies, or setup problems."
    case WebUiIssues => "Browser-based interface issues or confusing flows."
    case TerminalUiIssues => "Terminal prompts, formatting, or interaction problems."
    case HardwareDetection => "Incorrect or missing GPU/CPU/RAM/driver details."
    case Capture => "Issues capturing FPS / lows from your tool or session."
    case SyntheticBenchmarks => "Optional synthetic benchmark run issues or odd results."
    case SubmissionSync => "Upload failures, queued retries, or sync problems."
    case DataQuality => "Numbers look wrong, rounding, mismatched lows, or confusion about metrics."
    case Performance => "Crashes, freezes, slow UI, or high CPU usage."
    case PrivacyConsent => "Questions about what is collected, consent, or retention messaging."
    case Other => "Anything else."
  }

  datatype OsFamily = Windows | Macos | Linux | OtherOs

  /** `current_os_family`, given the platform's `std::env::consts::OS`. */
  function CurrentOsFamily(os: string): (f: OsFamily)
    ensures f == Windows <==> os == "windows"
    ensures f == Macos <==> os == "macos"
    ensures f == Linux <==> os == "linux"
  {
    match os
    case "windows" => Windows
    case "macos" => Macos
    case "linux" => Linux
    case _ => OtherOs
  }

  /** The issues a report can name, one constructor per issue option of
      the schema. */
  datatype Issue =
    | InstallFailed | UpdateFailed | DependencyPromptConfusing
    | PageWontLoad | ButtonsNotWorking | ConfusingFlow
    | PromptConfusing | FormattingBroken | InputPainful
    | GpuWrong | CpuWrong | RamWrong
    | CaptureWontStart | CaptureNumbersWrong | CaptureStops | AltTabBrokeCapture | NeedsAdmin
    | SyntheticWontRun | SyntheticScoresWeird | SyntheticPermission
    | UploadFailed | QueuedNeverSyncs | RateLimited
    | MetricsMismatch | AskedToAverageAgain | UnitsOrRounding
    | Crash | Freeze | Slow
    | ConsentUnclear | PrivacyQuestion | RetentionConcern
    | SomethingElse

  /** `FeedbackIssueOption`: the code sent to the backend, the label shown
      and the hint under it. */
  datatype IssueOption = IssueOption(code: string, labelText: string, hint: string)

  /** The option each issue is shown as. */
  function OptionOf(i: Issue): IssueOption
  {
    match i
    case InstallFailed => IssueOption("install_failed", "Install failed",
      "The app or a required helper tool would not install correctly.")
    case UpdateFailed => IssueOption("update_failed", "Update failed",
      "Updating the app or tools failed or left things in a broken state.")
    case DependencyPromptConfusing => IssueOption("dependency_prompt_confusing", "Dependency prompt was confusing",
      "I wasn\U{2019}t sure what I was approving or why it was needed.")
    case PageWontLoad => IssueOption("page_wont_load", "Page would not load",
      "I saw a blank screen, error screen, or infinite loading state.")
    case ButtonsNotWorking => IssueOption("buttons_not_working", "Buttons or inputs did not work",
      "Clicks didn\U{2019}t register, forms wouldn\U{2019}t submit, or controls felt broken.")
    case ConfusingFlow => IssueOption("confusing_flow", "Flow was confusing",
      "I wasn\U{2019}t sure what to do next or what a field meant.")
    case PromptConfusing => IssueOption("prompt_confusing", "Prompts were confusing",
      "I wasn\U{2019}t sure what to enter or how to proceed.")
    case FormattingBroken => IssueOption("formatting_broken", "Text formatting looked broken",
      "Output was hard to read, aligned wrong, or messy in my terminal.")
    case InputPainful => IssueOption("input_painful", "Entering data was painful",
      "Too many steps or too much typing for what I wanted to report.")
    case GpuWrong => IssueOption("gpu_wrong", "GPU info looked wrong",
      "GPU name, VRAM, or driver info didn\U{2019}t match my system.")
    case CpuWrong => IssueOption("cpu_wrong", "CPU info looked wrong",
      "CPU name, core/thread count, or frequency looked incorrect.")
    case RamWrong => IssueOption("ram_wrong", "RAM info looked wrong",
      "Installed/usable RAM, speed, or type didn\U{2019}t match my system.")
    case CaptureWontStart => IssueOption("capture_wont_start", "Capture would not start",
      "I followed the steps, but the app couldn\U{2019}t capture performance data.")
    case CaptureNumbersWrong => IssueOption("capture_numbers_wrong", "Capture numbers looked wrong",
      "FPS/low values looked obviously incorrect compared to what I saw in-game.")
    case CaptureStops => IssueOption("capture_stops", "Capture stopped unexpectedly",
      "It started but stopped early or ended with an error.")
    case AltTabBrokeCapture => IssueOption("alt_tab_broke_capture", "Alt-tab / focus changes broke capture",
      "Switching windows or losing focus seemed to ruin the capture.")
    case NeedsAdmin => IssueOption("needs_admin", "It only works as Administrator",
      "Capture or benchmarks only worked when running as admin.")
    case SyntheticWontRun => IssueOption("synthetic_wont_run", "Benchmarks would not run",
      "The optional synthetic benchmark step failed to start or errored.")
    case SyntheticScoresWeird => IssueOption("synthetic_scores_weird", "Scores looked unrealistic",
      "The numbers looked way too high/low or didn\U{2019}t match expectations.")
    case SyntheticPermission => IssueOption("synthetic_permission", "Permission / security blocked it",
      "I saw a permission error or Windows blocked the benchmark run.")
    case UploadFailed => IssueOption("upload_failed", "Upload failed",
      "Submitting feedback or benchmarks returned an error.")
    case QueuedNeverSyncs => IssueOption("queued_never_syncs", "Queued but never syncs",
      "It said it was queued locally, but it never uploads later.")
    case RateLimited => IssueOption("rate_limited", "Rate limited",
      "I got blocked for sending too many requests.")
    case MetricsMismatch => IssueOption("metrics_mismatch", "My numbers don\U{2019}t match my tool",
      "Average/1%/0.1% lows don\U{2019}t match the source I used.")
    case AskedToAverageAgain => IssueOption("asked_to_average_again", "It asked me to re-average results",
      "My tool already calculated metrics, but the app felt like it recalculated again.")
    case UnitsOrRounding => IssueOption("units_or_rounding", "Rounding/units looked wrong",
      "Values looked rounded oddly or shown in the wrong units.")
    case Crash => IssueOption("crash", "App crashed", "The app exited unexpectedly or showed a crash error.")
    case Freeze => IssueOption("freeze", "App froze or got stuck", "The UI stopped responding or the terminal hung.")
    case Slow => IssueOption("slow", "App felt slow", "Pages took too long to load or actions were sluggish.")
    case ConsentUnclear => IssueOption("consent_unclear", "Consent text was unclear",
      "I didn\U{2019}t understand what I was agreeing to.")
    case PrivacyQuestion => IssueOption("privacy_question", "Privacy question",
      "I have a question about what data is collected or how it is used.")
    case RetentionConcern => IssueOption("retention_concern", "Retention concern",
      "I\U{2019}m concerned about how long data is stored.")
    case SomethingElse => IssueOption("other", "Something else", "Tell us what happened and what you expected.")
  }

  datatype CategorySchema = CategorySchema(id: FeedbackCategory, labelText: string, description: string, issues: seq<IssueOption>)

  datatype Schema = Schema(
    schemaVersion: nat, surface: FeedbackSurface, os: OsFamily, intro: string, privacyNote: string,
    categories: seq<CategorySchema>)

  predicate Distinct(issues: seq<Issue>)
  {
    forall i, j :: 0 <= i < j < |issues| ==> issues[i] != issues[j]
  }

  /* ------------------------------------------------------- issue lists */

  const CaptureIssuesCommon: seq<Issue> := [CaptureWontStart, CaptureNumbersWrong, CaptureStops, AltTabBrokeCapture]
  const SyntheticIssuesCommon: seq<Issue> := [SyntheticWontRun, SyntheticScoresWeird]

  /** The list `capture_issue_options_for` returns. */
  function CaptureIssues(os: OsFamily): seq<Issue>
  {
    CaptureIssuesCommon + (if os == Windows then [NeedsAdmin] else [])
  }

  /** The list `synthetic_issue_options_for` returns. */
  function SyntheticIssues(os: OsFamily): seq<Issue>
  {
    SyntheticIssuesCommon + (if os == Windows then [SyntheticPermission] else [])
  }

  /** `capture_issue_options_for`: the common list, then the administrator
      issue pushed on Windows. */
  method CaptureIssueOptionsFor(os: OsFamily) returns (issues: seq<Issue>)
    ensures issues == CaptureIssues(os)
  {
    issues := CaptureIssuesCommon;
    if os == Windows {
      issues := issues + [NeedsAdmin];
    }
  }

  /** `synthetic_issue_options_for`: the common list, then the permission
      issue pushed on Windows. */
  method SyntheticIssueOptionsFor(os: OsFamily) returns (issues: seq<Issue>)
    ensures issues == SyntheticIssues(os)
  {
    issues := SyntheticIssuesCommon;
    if os == Windows {
      issues := issues + [SyntheticPermission];
    }
  }

  /** The administrator issue is offered exactly on Windows, after the four
      common capture issues, and no issue is offered twice. */
  lemma CaptureIssuesByPlatform(os: OsFamily)
    ensures CaptureIssues(os)[..4] == CaptureIssuesCommon
    ensures |CaptureIssues(os)| == (if os == Windows then 5 else 4)
    ensures NeedsAdmin in CaptureIssues(os) <==> os == Windows
    ensures Distinct(CaptureIssues(os))
  {
  }

  /** The permission issue is offered exactly on Windows, after the two
      common synthetic issues, and no issue is offered twice. */
  lemma SyntheticIssuesByPlatform(os: OsFamily)
    ensures SyntheticIssues(os)[..2] == SyntheticIssuesCommon
    ensures |SyntheticIssues(os)| == (if os == Windows then 3 else 2)
    ensures SyntheticPermission in SyntheticIssues(os) <==> os == Windows
    ensures Distinct(SyntheticIssues(os))
  {
  }

  /** The fixed issue list of every category other than capture and
      synthetic benchmarks. */
  function FixedIssues(c: FeedbackCategory): seq<Issue>
  {
    match c
    case InstallUpdate => [InstallFailed, UpdateFailed, DependencyPromptConfusing]
    case WebUiIssues => [PageWontLoad, ButtonsNotWorking, ConfusingFlow]
    case TerminalUiIssues => [PromptConfusing, FormattingBroken, InputPainful]
    case HardwareDetection => [GpuWrong, CpuWrong, RamWrong]
    case SubmissionSync => [UploadFailed, QueuedNeverSyncs, RateLimited]
    case DataQuality => [MetricsMismatch, AskedToAverageAgain, UnitsOrRounding]
    case Performance => [Crash, Freeze, Slow]
    case PrivacyConsent => [ConsentUnclear, PrivacyQuestion, RetentionConcern]
    case Other => [SomethingElse]
    case Capture => []
    case SyntheticBenchmarks => []
  }

  /** The issues of one category on one platform. */
  function IssuesFor(c: FeedbackCategory, os: OsFamily): seq<Issue>
  {
    match c
    case Capture => CaptureIssues(os)
    case SyntheticBenchmarks => SyntheticIssues(os)
    case _ => FixedIssues(c)
  }

  function Options(issues: seq<Issue>): (r: seq<IssueOption>)
    ensures |r| == |issues|
  {
    seq(|issues|, i requires 0 <= i < |issues| => OptionOf(issues[i]))
  }

  function CategoryEntry(c: FeedbackCategory, os: OsFamily): CategorySchema
  {
    CategorySchema(c, Label(c), Description(c), Options(IssuesFor(c, os)))
  }

  const Intro := "Help improve FPS Tracker by reporting bugs, confusing steps, or data quality issues."
  const PrivacyNote := "Please do not include passwords, emails, or private links. Diagnostics are optional."

  /** `schema_for`; `os` is `current_os_family()`. The categories are
      listed one per category, in declaration order. */
  function SchemaFor(surface: FeedbackSurface, os: OsFamily): Schema
  {
    Schema(1, surface, os, Intro, PrivacyNote,
           seq(|AllCategories|, i requires 0 <= i < |AllCategories| => CategoryEntry(AllCategories[i], os)))
  }

  /** Every category appears exactly once, in declaration order. */
  lemma AllCategoriesOnce(c: FeedbackCategory)
    ensures c in AllCategories
    ensures forall i, j :: 0 <= i < j < |AllCategories| ==> AllCategories[i] != AllCategories[j]
  {
  }

  /** Every category offers at least one issue, and none twice. */
  lemma CategoryIssuesDistinct(c: FeedbackCategory, os: OsFamily)
    ensures |IssuesFor(c, os)| > 0
    ensures Distinct(IssuesFor(c, os))
  {
    match c
    case Capture => CaptureIssuesByPlatform(os);
    case SyntheticBenchmarks => SyntheticIssuesByPlatform(os);
    case _ =>
  }

  /** The schema has version 1 and lists the eleven categories in
      declaration order, each with its own label and description and a
      non-empty list of issues, none offered twice. */
  lemma SchemaListsEveryCategory(surface: FeedbackSurface, os: OsFamily, i: nat)
    requires i < 11
    ensures SchemaFor(surface, os).schemaVersion == 1
    ensures |SchemaFor(surface, os).categories| == 11
    ensures SchemaFor(surface, os).categories[i].id == AllCategories[i]
    ensures SchemaFor(surface, os).categories[i].labelText == Label(AllCategories[i])
    ensures SchemaFor(surface, os).categories[i].description == Description(AllCategories[i])
    ensures |SchemaFor(surface, os).categories[i].issues| == |IssuesFor(AllCategories[i], os)| > 0
    ensures Distinct(IssuesFor(AllCategories[i], os))
  {
    var entry := SchemaFor(surface, os).categories[i];
    assert entry == CategoryEntry(AllCategories[i], os);
    CategoryIssuesDistinct(AllCategories[i], os);
  }

  /** The category an issue is listed under. */
  function CategoryOf(x: Issue): FeedbackCategory
  {
    match x
    case InstallFailed | UpdateFailed | DependencyPromptConfusing => InstallUpdate
    case PageWontLoad | ButtonsNotWorking | ConfusingFlow => WebUiIssues
    case PromptConfusing | FormattingBroken | InputPainful => TerminalUiIssues
    case GpuWrong | CpuWrong | RamWrong => HardwareDetection
    case CaptureWontStart | CaptureNumbersWrong | CaptureStops | AltTabBrokeCapture | NeedsAdmin => Capture
    case SyntheticWontRun | SyntheticScoresWeird | SyntheticPermission => SyntheticBenchmarks
    case UploadFailed | QueuedNeverSyncs | RateLimited => SubmissionSync
    case MetricsMismatch | AskedToAverageAgain | UnitsOrRounding => DataQuality
    case Crash | Freeze | Slow => Performance
    case ConsentUnclear | PrivacyQuestion | RetentionConcern => PrivacyConsent
    case SomethingElse => Other
  }

  /** An issue offered under a category belongs to it, so no issue is
      offered under two categories. */
  lemma IssueBelongsToCategory(c: FeedbackCategory, os: OsFamily, x: Issue)
    requires x in IssuesFor(c, os)
    ensures CategoryOf(x) == c
  {
    match c
    case Capture =>
    case SyntheticBenchmarks =>
    case _ =>
  }

  /** Every issue is offered under its category, on every platform except
      the two Windows-only issues. */
  lemma IssueOfferedUnderCategory(x: Issue, os: OsFamily)
    ensures x in IssuesFor(CategoryOf(x), os) <==> os == Windows || (x != NeedsAdmin && x != SyntheticPermission)
  {
    var c := CategoryOf(x);
    if c == Capture {
      assert CaptureIssues(os) == CaptureIssuesCommon + (if os == Windows then [NeedsAdmin] else []);
    } else if c == SyntheticBenchmarks {
      assert SyntheticIssues(os) == SyntheticIssuesCommon + (if os == Windows then [SyntheticPermission] else []);
    }
  }

  /* --------------------------------------------------------- validate */

  datatype FeedbackSubmission = FeedbackSubmission(
    surface: FeedbackSurface, category: FeedbackCategory, issueCode: string, message: string,
    includesDiagnostics: bool)

  /** The longest message accepted, in UTF-8 bytes. */
  const MaxMessageBytes: nat := 2000

  /** The errors `validate` collects, in the order it pushes them. */
  function ValidationErrors(s: FeedbackSubmission): seq<string>
  {
    var msg := Trim(s.message);
    (if Trim(s.issueCode) == [] then ["Issue is required"] else []) +
    (if msg == [] then ["Message is required"] else []) +
    (if Utf8Len(msg) > MaxMessageBytes then ["Message is too long (max 2000 characters)"] else [])
  }

  /** `FeedbackSubmission::validate`: pushes one error per failed check
      and succeeds when none was pushed. */
  method Validate(s: FeedbackSubmission) returns (r: Result<(), seq<string>>)
    ensures r.Ok? <==> ValidationErrors(s) == []
    ensures r.Err? ==> r.error == ValidationErrors(s)
  {
    var errors: seq<string> := [];
    if Trim(s.issueCode) == [] {
      errors := errors + ["Issue is required"];
    }
    var msg := Trim(s.message);
    if msg == [] {
      errors := errors + ["Message is required"];
    }
    if Utf8Len(msg) > 2000 {
      errors := errors + ["Message is too long (max 2000 characters)"];
    }
    if errors == [] {
      r := Ok(());
    } else {
      r := Err(errors);
    }
  }

  /** A report passes exactly when the issue and the trimmed message are
      present and the trimmed message fits in 2000 bytes; a blank message
      is reported as missing, never as too long. */
  lemma ValidationAccepts(s: FeedbackSubmission)
    ensures ValidationErrors(s) == [] <==>
      Trim(s.issueCode) != [] && Trim(s.message) != [] && Utf8Len(Trim(s.message)) <= MaxMessageBytes
    ensures Trim(s.message) == [] ==> "Message is too long (max 2000 characters)" !in ValidationErrors(s)
    ensures |ValidationErrors(s)| <= 2
  {
    var msg := Trim(s.message);
    if msg == [] {
      assert Utf8Len(msg) == 0;
    }
  }

  /* ------------------------------------------------------ diagnostics */

  /** The path test of `sanitize_dependency_details`. */
  predicate LooksLikePath(details: string)
  {
    '\\' in details || '/' in details || Contains(details, ":\\") || StartsWith(details, "\\\\")
  }

  /** `sanitize_dependency_details`. */
  function SanitizeDependencyDetails(name: string, details: string): (r: string)
    ensures '\\' !in r && '/' !in r
    ensures !LooksLikePath(details) ==> r == details
  {
    if name == "presentmon" && LooksLikePath(details) then "Detected (path hidden)"
    else if LooksLikePath(details) then "Available (path hidden)"
    else details
  }

  /** The last two path tests add nothing: a backslash is already caught by
      the first. */
  lemma PathTestIsSeparatorTest(details: string)
    ensures LooksLikePath(details) <==> '\\' in details || '/' in details
  {
    if Contains(details, ":\\") {
      var i := Text.Find(details, ":\\").value;
      assert details[i + 1] == '\\';
    }
    if StartsWith(details, "\\\\") {
      assert details[0] == '\\';
    }
  }

  /** Scrubbing is idempotent, and a path is replaced by the hint the
      dependency's name selects. */
  lemma SanitizeIdempotent(name: string, details: string)
    ensures SanitizeDependencyDetails(name, SanitizeDependencyDetails(name, details)) == SanitizeDependencyDetails(name, details)
    ensures LooksLikePath(details) ==>
      SanitizeDependencyDetails(name, details) == (if name == "presentmon" then "Detected (path hidden)" else "Available (path hidden)")
  {
    var r := SanitizeDependencyDetails(name, details);
    PathTestIsSeparatorTest(r);
  }

  /** One dependency's line in the diagnostics. */
  datatype DependencyLine = DependencyLine(name: string, required: bool, available: bool, details: string)

  /** The dependency part of `collect_diagnostics`: every status with its
      details scrubbed. */
  function SanitizedStatuses(statuses: seq<DependencyLine>): (r: seq<DependencyLine>)
    ensures |r| == |statuses|
    ensures forall i :: 0 <= i < |r| ==>
      r[i].name == statuses[i].name && r[i].required == statuses[i].required &&
      r[i].available == statuses[i].available && '\\' !in r[i].details && '/' !in r[i].details
  {
    seq(|statuses|, i requires 0 <= i < |statuses| =>
      var s := statuses[i];
      DependencyLine(s.name, s.required, s.available, SanitizeDependencyDetails(s.name, s.details)))
  }

  /** The reply the feedback backend sends. */
  datatype BackendResponse = BackendResponse(id: Option<string>, status: Option<string>, message: Option<string>)
}
