/** The decisions the local HTTP API makes inside its handlers: hardware
    detection confidence, the game list and its filters, the consent gate,
    the idempotency key taken from the request headers, the status codes
    errors map to, and the synthetic-benchmark profile and surface read from
    query strings. The handlers' I/O (detection, network, storage) enters
    as parameters. */
module ApiRoutes {
  import opened Wrappers
  import opened Text
  import Games
  import AntiCheat
  import ApiClient
  import Config
  import Hardware
  import BenchmarkRunner
  import Feedback
  import Submission
  import Idempotency

  /* ------------------------------------------------- hardware detection */

  /** A GPU counts as detected with a non-blank name other than the
      placeholder for a failed probe. */
  predicate GpuDetected(g: Hardware.GpuInfo)
  {
    Trim(g.name) != [] && !EqIgnoreAsciiCase(g.name, "unknown gpu")
  }

  predicate CpuDetected(c: Hardware.CpuInfo)
  {
    Trim(c.name) != [] && !EqIgnoreAsciiCase(c.name, "unknown cpu") && c.cores > 0 && c.threads > 0
  }

  /** RAM counts with a positive installed size, or a positive usable size
      when the installed size is unknown. */
  predicate RamDetected(r: Hardware.RamInfo)
  {
    r.installedMb.GetOr(r.usableMb) > 0
  }

  function Count(b: bool): nat { if b then 1 else 0 }

  /** The confidence `detect_hardware` reports: 0.25 with nothing detected,
      then 0.2 more for each detected component. */
  function Confidence(hasGpu: bool, hasCpu: bool, hasRam: bool): (c: real)
    ensures var n := Count(hasGpu) + Count(hasCpu) + Count(hasRam);
      c == if n == 0 then 0.25 else 0.35 + 0.2 * n as real
  {
    match (hasGpu, hasCpu, hasRam)
    case (true, true, true) => 0.95
    case (true, true, false) | (true, false, true) | (false, true, true) => 0.75
    case (true, false, false) | (false, true, false) | (false, false, true) => 0.55
    case (false, false, false) => 0.25
  }

  /** Detecting one more component never lowers the confidence, and it
      stays within [0.25, 0.95]. */
  lemma ConfidenceMonotone(g: bool, c: bool, r: bool)
    ensures 0.25 <= Confidence(g, c, r) <= 0.95
    ensures Confidence(false, c, r) < Confidence(true, c, r)
    ensures Confidence(g, false, r) < Confidence(g, true, r)
    ensures Confidence(g, c, false) < Confidence(g, c, true)
    ensures Confidence(g, c, r) == 0.95 <==> g && c && r
  {
  }

  datatype ComponentSpec = ComponentSpec(
    name: string, vramMb: Option<nat>, cores: Option<nat>, threads: Option<nat>,
    totalMb: Option<nat>, speedMhz: Option<nat>)

  datatype HardwareResponse = HardwareResponse(
    osFamily: string, os: string, osVersion: Option<string>,
    gpu: ComponentSpec, cpu: ComponentSpec, ram: ComponentSpec, confidence: real)

  /** The family name the API sends, from the build target. */
  function OsFamilyName(os: Feedback.OsFamily): string
  {
    match os
    case Windows => "windows"
    case Macos => "macos"
    case Linux => "linux"
    case OtherOs => "other"
  }

  /** `detect_hardware`: 500 when detection fails; otherwise each component
      in its own slot and the RAM total as the installed size, or the usable
      size when that is unknown. */
  function DetectHardware(detected: Option<Hardware.SystemInfo>, os: Feedback.OsFamily): (r: Result<HardwareResponse, nat>)
    ensures detected.None? <==> r == Err(500)
    ensures r.Ok? ==>
      var info := detected.value;
      r.value.gpu.name == info.gpu.name && r.value.gpu.vramMb == info.gpu.vramMb &&
      r.value.cpu.cores == Some(info.cpu.cores) && r.value.cpu.threads == Some(info.cpu.threads) &&
      r.value.ram.totalMb.Some? && (r.value.ram.totalMb.value > 0 <==> RamDetected(info.ram)) &&
      r.value.ram.speedMhz == info.ram.speedMhz &&
      r.value.confidence == Confidence(GpuDetected(info.gpu), CpuDetected(info.cpu), RamDetected(info.ram))
    ensures r.Ok? ==>
      var info := detected.value;
      r.value.os == info.os && r.value.osVersion == info.osVersion &&
      r.value.cpu.name == info.cpu.name && r.value.ram.name == "System Memory" &&
      r.value.ram.totalMb == Some(if info.ram.installedMb.Some? then info.ram.installedMb.value else info.ram.usableMb)
    ensures r.Ok? ==>
      (r.value.osFamily == "windows" <==> os == Feedback.Windows) &&
      (r.value.osFamily == "macos" <==> os == Feedback.Macos) &&
      (r.value.osFamily == "linux" <==> os == Feedback.Linux) &&
      (r.value.osFamily == "other" <==> os == Feedback.OtherOs)
  {
    match detected
    case None => Err(500)
    case Some(info) =>
      Ok(HardwareResponse(
        OsFamilyName(os), info.os, info.osVersion,
        ComponentSpec(info.gpu.name, info.gpu.vramMb, None, None, None, None),
        ComponentSpec(info.cpu.name, None, Some(info.cpu.cores), Some(info.cpu.threads), None, None),
        ComponentSpec("System Memory", None, None, None, info.ram.installedMb.Or(Some(info.ram.usableMb)), info.ram.speedMhz),
        Confidence(GpuDetected(info.gpu), CpuDetected(info.cpu), RamDetected(info.ram))))
  }

  /* ---------------------------------------------------------- game list */

  datatype GameFilter = GameFilter(difficulty: Option<string>, hasBenchmark: Option<bool>)

  /** `Display` for a difficulty. */
  function DifficultyName(d: Games.Difficulty): string
  {
    match d
    case Light => "Light"
    case Medium => "Medium"
    case Heavy => "Heavy"
    case Extreme => "Extreme"
  }

  /** Lower-cased, the four names are still four different names. */
  lemma DifficultyNamesDistinct(a: Games.Difficulty, b: Games.Difficulty)
    ensures EqIgnoreAsciiCase(DifficultyName(a), DifficultyName(b)) <==> a == b
  {
    var x, y := AsciiLower(DifficultyName(a)), AsciiLower(DifficultyName(b));
    if x == y {
      assert |DifficultyName(a)| == |DifficultyName(b)|;
      assert ToAsciiLowerChar(DifficultyName(a)[0]) == ToAsciiLowerChar(DifficultyName(b)[0]) by {
        assert x[0] == y[0];
      }
    }
  }

  /** The `list_games` filter: the difficulty compared without case, then
      the benchmark flag. */
  predicate Keeps(f: GameFilter, g: Games.GameInfo)
  {
    (f.difficulty.Some? ==> EqIgnoreAsciiCase(DifficultyName(g.difficulty), f.difficulty.value)) &&
    (f.hasBenchmark.Some? ==> g.hasBenchmark == f.hasBenchmark.value)
  }

  /** The positions of the entries the filter keeps, ascending. */
  function KeptIndices(games: seq<Games.GameInfo>, f: GameFilter): (r: seq<nat>)
    ensures forall k :: 0 <= k < |r| ==> r[k] < |games| && Keeps(f, games[r[k]])
    ensures forall i :: 0 <= i < |games| && Keeps(f, games[i]) ==> i in r
    ensures forall k, l :: 0 <= k < l < |r| ==> r[k] < r[l]
  {
    if games == [] then []
    else
      var r := KeptIndices(games[..|games| - 1], f);
      if Keeps(f, games[|games| - 1]) then r + [|games| - 1] else r
  }

  /** One element of the reply; the free-text benchmark notes are not
      modelled. */
  datatype GameEntry = GameEntry(
    id: string, name: string, hasBenchmark: bool, difficulty: string,
    supportsRt: bool, supportsDlss: bool, supportsFsr: bool, antiCheatRisk: string)

  /** The id: the lower-cased name with every space turned into '-'. */
  function GameId(name: string): string
  {
    ReplaceChar(AsciiLower(name), ' ', "-")
  }

  /** Replacing spaces by '-' changes exactly the spaces. */
  lemma {:induction false} ReplaceSpaces(s: string)
    ensures |ReplaceChar(s, ' ', "-")| == |s|
    ensures forall i :: 0 <= i < |s| ==> ReplaceChar(s, ' ', "-")[i] == if s[i] == ' ' then '-' else s[i]
  {
    if s != [] {
      ReplaceSpaces(s[1..]);
    }
  }

  /** An id is as long as the name, has no space and no upper-case letter,
      and keeps every other character of the lower-cased name. */
  lemma GameIdShape(name: string)
    ensures |GameId(name)| == |name|
    ensures forall i :: 0 <= i < |name| ==> GameId(name)[i] != ' ' && !IsAsciiUpper(GameId(name)[i])
    ensures forall i :: 0 <= i < |name| && name[i] != ' ' ==> GameId(name)[i] == ToAsciiLowerChar(name[i])
  {
    ReplaceSpaces(AsciiLower(name));
  }

  function ToEntry(g: Games.GameInfo): (e: GameEntry)
  {
    GameEntry(GameId(g.name), g.name, g.hasBenchmark, AsciiLower(DifficultyName(g.difficulty)),
              g.supportsRt, g.supportsDlss, g.supportsFsr, AntiCheat.RouteRisk(g.name))
  }

  /** `list_games` over a table: the kept entries, in table order. */
  function ListGamesIn(games: seq<Games.GameInfo>, f: GameFilter): (r: seq<GameEntry>)
  {
    var idx := KeptIndices(games, f);
    seq(|idx|, k requires 0 <= k < |idx| => ToEntry(games[idx[k]]))
  }

  /** `list_games` over the known games. */
  function ListGames(f: GameFilter): seq<GameEntry>
  {
    ListGamesIn(Games.KnownGames, f)
  }

  /** The reply lists exactly the entries the filter keeps, each once and in
      table order; under a difficulty filter every entry reports the
      difficulty asked for, in lower case. */
  lemma ListGamesExact(games: seq<Games.GameInfo>, f: GameFilter)
    ensures |ListGamesIn(games, f)| <= |games|
    ensures forall g :: g in games && Keeps(f, g) ==> ToEntry(g) in ListGamesIn(games, f)
    ensures forall e :: e in ListGamesIn(games, f) ==> exists g :: g in games && Keeps(f, g) && e == ToEntry(g)
    ensures f.difficulty.Some? ==> forall e :: e in ListGamesIn(games, f) ==> e.difficulty == AsciiLower(f.difficulty.value)
  {
    var idx := KeptIndices(games, f);
    var r := ListGamesIn(games, f);
    IndicesFit(idx, |games|);
    forall g | g in games && Keeps(f, g) ensures ToEntry(g) in r {
      var i :| 0 <= i < |games| && games[i] == g;
      var k :| 0 <= k < |idx| && idx[k] == i;
      assert r[k] == ToEntry(g);
    }
    forall e | e in r ensures exists g :: g in games && Keeps(f, g) && e == ToEntry(g) {
      var k :| 0 <= k < |r| && r[k] == e;
      assert games[idx[k]] in games;
    }
  }

  /** Ascending positions below `n` are at most `n` many. */
  lemma {:induction false} IndicesFit(idx: seq<nat>, n: nat)
    requires forall k :: 0 <= k < |idx| ==> idx[k] < n
    requires forall k, l :: 0 <= k < l < |idx| ==> idx[k] < idx[l]
    ensures |idx| <= n
  {
    if idx != [] {
      var m := idx[|idx| - 1];
      IndicesFit(idx[..|idx| - 1], m);
    }
  }

  /** A difficulty query in any ASCII case selects the same entries as the
      table's own difficulty filter. */
  lemma {:induction false} DifficultyQuerySelects(games: seq<Games.GameInfo>, q: string, d: Games.Difficulty)
    requires EqIgnoreAsciiCase(q, DifficultyName(d))
    ensures KeptIndices(games, GameFilter(Some(q), None)) == Games.DifficultyIndices(games, d)
  {
    if games != [] {
      DifficultyQuerySelects(games[..|games| - 1], q, d);
      DifficultyNamesDistinct(games[|games| - 1].difficulty, d);
    }
  }

  /** A difficulty that names none of the four keeps nothing. */
  lemma UnknownDifficultyKeepsNothing(games: seq<Games.GameInfo>, q: string, hasBenchmark: Option<bool>)
    requires forall d :: !EqIgnoreAsciiCase(DifficultyName(d), q)
    ensures KeptIndices(games, GameFilter(Some(q), hasBenchmark)) == []
  {
    var f := GameFilter(Some(q), hasBenchmark);
    assert forall g :: !Keeps(f, g) by {
      forall g ensures !Keeps(f, g) {
        assert !EqIgnoreAsciiCase(DifficultyName(g.difficulty), q);
      }
    }
  }

  /* ------------------------------------------------------------ consent */

  datatype ConsentRequest = ConsentRequest(tosAccepted: bool, consentPublicUse: bool, retentionAcknowledged: bool)

  datatype ConsentStatus = ConsentStatus(
    tosAccepted: bool, consentPublicUse: bool, retentionAcknowledged: bool, complete: bool)

  function StatusOf(c: Config.ConsentConfig): (r: ConsentStatus)
    ensures r.complete <==> r.tosAccepted && r.consentPublicUse && r.retentionAcknowledged
  {
    ConsentStatus(c.tosAccepted, c.consentPublicUse, c.retentionAcknowledged, Config.IsComplete(c))
  }

  /** `consent_status`: the stored consent, or the default when the
      configuration cannot be loaded. */
  function ConsentStatusRoute(loaded: Option<Config.Config>): (r: ConsentStatus)
    ensures loaded.None? ==> !r.complete
    ensures loaded.Some? ==> (r.complete <==> Config.IsComplete(loaded.value.consent))
  {
    StatusOf(loaded.GetOr(Config.DefaultConfig()).consent)
  }

  /** `accept_consent`: 400 unless all three boxes are ticked; otherwise the
      loaded (or default) configuration with all three flags set, which is
      saved (500 when saving fails). The acceptance time is not modelled. */
  function AcceptConsent(req: ConsentRequest, loaded: Option<Config.Config>, saveSucceeds: bool)
    : (r: Result<(Config.Config, ConsentStatus), nat>)
    ensures r == Err(400) <==> !(req.tosAccepted && req.consentPublicUse && req.retentionAcknowledged)
    ensures r == Err(500) <==> req.tosAccepted && req.consentPublicUse && req.retentionAcknowledged && !saveSucceeds
    ensures r.Ok? ==>
      var (saved, status) := r.value;
      var base := loaded.GetOr(Config.DefaultConfig());
      status.complete && Config.IsComplete(saved.consent) && status == StatusOf(saved.consent) &&
      saved.api == base.api && saved.capture == base.capture &&
      saved.currency == base.currency && saved.channel == base.channel
  {
    if !req.tosAccepted || !req.consentPublicUse || !req.retentionAcknowledged then Err(400)
    else
      var base := loaded.GetOr(Config.DefaultConfig());
      var saved := base.(consent := Config.ConsentConfig(true, true, true));
      if !saveSucceeds then Err(500) else Ok((saved, StatusOf(saved.consent)))
  }

  /** After a successful acceptance the status route reports completion. */
  lemma AcceptedConsentIsReported(req: ConsentRequest, loaded: Option<Config.Config>)
    requires AcceptConsent(req, loaded, true).Ok?
    ensures ConsentStatusRoute(Some(AcceptConsent(req, loaded, true).value.0)).complete
  {
  }

  /* ----------------------------------------------------- idempotency key */

  /** `HeaderValue::to_str` succeeds on visible ASCII and tabs. */
  predicate HeaderChar(c: char) { c == '\t' || (' ' <= c <= '~') }

  function HeaderText(v: string): (r: Option<string>)
    ensures r.Some? <==> forall i :: 0 <= i < |v| ==> HeaderChar(v[i])
    ensures r.Some? ==> r.value == v
  {
    if forall i :: 0 <= i < |v| ==> HeaderChar(v[i]) then Some(v) else None
  }

  /** The key both submit handlers use: `Idempotency-Key` when present,
      else `X-Idempotency-Key`; readable, trimmed and non-blank, or else the
      freshly generated key. */
  function IdempotencyKeyFor(primary: Option<string>, secondary: Option<string>, generated: string): (k: string)
    ensures k == generated || (k != [] && IsTrimmed(k) && forall i :: 0 <= i < |k| ==> HeaderChar(k[i]))
  {
    var chosen := if primary.Some? then primary else secondary;
    var text := if chosen.Some? then HeaderText(chosen.value) else None;
    if text.Some? && Trim(text.value) != [] then
      var t := Trim(text.value);
      TrimSliceChars(text.value);
      t
    else generated
  }

  /** Trimming keeps only characters of the original. */
  lemma TrimSliceChars(s: string)
    requires forall i :: 0 <= i < |s| ==> HeaderChar(s[i])
    ensures forall i :: 0 <= i < |Trim(s)| ==> HeaderChar(Trim(s)[i])
  {
    TrimIsSlice(s);
    var a, b :| 0 <= a <= b <= |s| && Trim(s) == s[a..b];
    assert forall i :: 0 <= i < |Trim(s)| ==> Trim(s)[i] == s[a + i];
  }

  /** A present `Idempotency-Key` decides alone, even when it is blank or
      unreadable; `X-Idempotency-Key` is read only when it is absent. */
  lemma PrimaryHeaderShadows(primary: Option<string>, secondary: Option<string>, generated: string)
    ensures primary.Some? ==> IdempotencyKeyFor(primary, secondary, generated) == IdempotencyKeyFor(primary, None, generated)
    ensures primary.None? ==> IdempotencyKeyFor(primary, secondary, generated) == IdempotencyKeyFor(secondary, None, generated)
    ensures primary.Some? && Trim(primary.value) == [] ==> IdempotencyKeyFor(primary, secondary, generated) == generated
  {
  }

  /** A readable key is sent as the client wrote it, less its padding. */
  lemma ReadableKeyKept(key: string, secondary: Option<string>, generated: string)
    requires forall i :: 0 <= i < |key| ==> HeaderChar(key[i])
    requires Trim(key) != []
    ensures IdempotencyKeyFor(Some(key), secondary, generated) == Trim(key)
  {
  }

  /** The benchmark handler's key: generated keys carry the submit prefix. */
  function SubmitKey(primary: Option<string>, secondary: Option<string>, uuid: string): (k: string)
    ensures k == Idempotency.NewSubmitKey(uuid) || (k != [] && IsTrimmed(k))
  {
    IdempotencyKeyFor(primary, secondary, Idempotency.NewSubmitKey(uuid))
  }

  /** The feedback handler's key: generated keys carry the feedback prefix. */
  function FeedbackKey(primary: Option<string>, secondary: Option<string>, uuid: string): (k: string)
    ensures k == Idempotency.NewFeedbackKey(uuid) || (k != [] && IsTrimmed(k))
  {
    IdempotencyKeyFor(primary, secondary, Idempotency.NewFeedbackKey(uuid))
  }

  /* ---------------------------------------------------- error statuses */

  /** `StatusCode::from_u16` accepts three-digit codes. */
  predicate ValidStatus(code: nat) { 100 <= code <= 999 }

  /** The status an API error is answered with when it is not queued. */
  function ErrorStatus(e: ApiClient.ApiError): (code: nat)
    ensures ValidStatus(code)
    ensures e.Validation? <==> code == 400 && !(e.Api? && e.status == 400)
    ensures e.ConsentRequired? ==> code == 403
    ensures e.Api? ==> code == if ValidStatus(e.status) then e.status else 502
    ensures e.Network? || e.Unreachable? ==> code == 502
  {
    match e
    case Validation(_) => 400
    case ConsentRequired(_) => 403
    case Api(status, _) => if ValidStatus(status) then status else 502
    case Network => 502
    case Unreachable => 502
  }

  /** What a submit handler answers: a JSON status and message, or an error
      status with a plain-text body (the body's text is not modelled). */
  datatype Reply = JsonReply(code: nat, status: string, message: string) | TextReply(code: nat)

  function Code(r: Reply): nat { if r.JsonReply? then r.code else r.code }

  const Accepted: string := "accepted"
  const Queued: string := "queued"
  const BenchmarkThanks: string := "Thank you for contributing!"
  const FeedbackThanks: string := "Thank you for the feedback."

  lemma DefaultsNotBlank()
    ensures Trim(Accepted) != [] && Trim(BenchmarkThanks) != [] && Trim(FeedbackThanks) != []
  {
    AcceptedNotBlank();
    BenchmarkThanksNotBlank();
    FeedbackThanksNotBlank();
  }

  lemma AcceptedNotBlank()
    ensures Trim(Accepted) != []
  {
    TrimOfTrimmed(Accepted);
  }

  lemma BenchmarkThanksNotBlank()
    ensures Trim(BenchmarkThanks) != []
  {
    TrimOfTrimmed(BenchmarkThanks);
  }

  lemma FeedbackThanksNotBlank()
    ensures Trim(FeedbackThanks) != []
  {
    TrimOfTrimmed(FeedbackThanks);
  }

  /** `Option::filter(|v| !v.trim().is_empty())`. */
  function NonBlank(v: Option<string>): (r: Option<string>)
    ensures r.Some? <==> v.Some? && Trim(v.value) != []
    ensures r.Some? ==> r == v
  {
    if v.Some? && Trim(v.value) != [] then v else None
  }

  /** `submit_benchmark`: on success 200 with the backend's status and
      message, defaulted when blank; on an error the backend wants queued,
      202 when the local save succeeds and 500 otherwise; any other error by
      `ErrorStatus`. */
  function BenchmarkSubmitReply(result: Result<Submission.SubmissionResponse, ApiClient.ApiError>, queueable: bool, saved: bool)
    : (r: Reply)
    ensures result.Ok? ==> r.JsonReply? && r.code == 200 && Trim(r.status) != [] && Trim(r.message) != []
    ensures result.Ok? && Trim(result.value.message) != [] ==> r.message == result.value.message
    ensures result.Err? && queueable ==> r == (if saved then JsonReply(202, Queued, "") else TextReply(500))
    ensures result.Err? && !queueable ==> r == TextReply(ErrorStatus(result.error))
  {
    match result
    case Ok(resp) =>
      DefaultsNotBlank();
      JsonReply(200, NonBlank(resp.status).GetOr(Accepted),
                if Trim(resp.message) == [] then BenchmarkThanks else resp.message)
    case Err(e) =>
      if queueable then (if saved then JsonReply(202, Queued, "") else TextReply(500))
      else TextReply(ErrorStatus(e))
  }

  /** The feedback request as the handler turns it into a submission: the
      surface is always the web UI. */
  datatype FeedbackRequest = FeedbackRequest(
    category: Feedback.FeedbackCategory, issueCode: string, message: string, includeDiagnostics: bool)

  function FeedbackFromRequest(req: FeedbackRequest): (s: Feedback.FeedbackSubmission)
    ensures s.surface == Feedback.WebUi && s.category == req.category && s.issueCode == req.issueCode
    ensures s.message == req.message && s.includesDiagnostics == req.includeDiagnostics
  {
    Feedback.FeedbackSubmission(Feedback.WebUi, req.category, req.issueCode, req.message, req.includeDiagnostics)
  }

  /** `submit_feedback`: as for benchmarks, with the feedback defaults. */
  function FeedbackSubmitReply(result: Result<Feedback.BackendResponse, ApiClient.ApiError>, queueable: bool, saved: bool)
    : (r: Reply)
    ensures result.Ok? ==> r.JsonReply? && r.code == 200 && Trim(r.status) != [] && Trim(r.message) != []
    ensures result.Ok? && NonBlank(result.value.message).Some? ==> r.message == result.value.message.value
    ensures result.Err? && queueable ==> r == (if saved then JsonReply(202, Queued, "") else TextReply(500))
    ensures result.Err? && !queueable ==> r == TextReply(ErrorStatus(result.error))
  {
    match result
    case Ok(resp) =>
      DefaultsNotBlank();
      JsonReply(200, NonBlank(resp.status).GetOr(Accepted), NonBlank(resp.message).GetOr(FeedbackThanks))
    case Err(e) =>
      if queueable then (if saved then JsonReply(202, Queued, "") else TextReply(500))
      else TextReply(ErrorStatus(e))
  }

  /** Both handlers answer an error they do not queue in the same way. */
  lemma SameErrorStatuses(e: ApiClient.ApiError)
    ensures BenchmarkSubmitReply(Err(e), false, false) == FeedbackSubmitReply(Err(e), false, false)
    ensures Code(BenchmarkSubmitReply(Err(e), false, false)) != 200 || (e.Api? && e.status == 200)
  {
  }

  /* -------------------------------------------------- synthetic runs */

  /** The trimmed, lower-cased profile, or nothing when absent or blank. */
  function ProfileText(profile: Option<string>): Option<string>
  {
    if profile.Some? && Trim(profile.value) != [] then Some(AsciiLower(Trim(profile.value))) else None
  }

  /** The profile both synthetic routes run. */
  function ProfileFromQuery(profile: Option<string>): (t: BenchmarkRunner.BenchmarkType)
    ensures profile.None? || Trim(profile.value) == [] ==> t == BenchmarkRunner.Standard
    ensures t == BenchmarkRunner.Quick <==> profile.Some? && AsciiLower(Trim(profile.value)) == "quick"
    ensures t == BenchmarkRunner.Extended <==> profile.Some? && AsciiLower(Trim(profile.value)) == "extended"
  {
    var p := ProfileText(profile);
    if p == Some("quick") then BenchmarkRunner.Quick
    else if p == Some("extended") then BenchmarkRunner.Extended
    else BenchmarkRunner.Standard
  }

  /** Every profile key reads back as its profile. */
  lemma ProfileKeyReadsBack(t: BenchmarkRunner.BenchmarkType)
    ensures ProfileFromQuery(Some(BenchmarkRunner.ProfileKey(t))) == t
  {
    var key := BenchmarkRunner.ProfileKey(t);
    TrimOfTrimmed(key);
    AsciiLowerFixed(key);
  }

  /** What a failed synthetic run is answered with. */
  datatype SyntheticError = SyntheticError(code: nat, error: string, requiresAdmin: bool)

  /** A failure whose message mentions administrators or elevation needs
      administrator rights (403); any other failure is a bad request (400). */
  function SyntheticFailure(message: string): (r: SyntheticError)
    ensures r.error == message
    ensures r.requiresAdmin <==> Contains(AsciiLower(message), "administrator") || Contains(AsciiLower(message), "elevat")
    ensures r.code == (if r.requiresAdmin then 403 else 400)
  {
    var lower := AsciiLower(message);
    var admin := Contains(lower, "administrator") || Contains(lower, "elevat");
    SyntheticError(if admin then 403 else 400, message, admin)
  }

  /** A message asking for elevation in any case is answered with 403. */
  lemma ElevationForbidden(a: string, b: string)
    ensures SyntheticFailure(a + "Elevat" + b).code == 403
  {
    var s := a + "Elevat" + b;
    var lower := AsciiLower(s);
    assert lower[|a|..|a| + 6] == "elevat";
    ContainsWitness(lower, "elevat", |a|);
  }

  /* ------------------------------------------------------ feedback schema */

  /** `feedback_schema`'s surface: "terminal_ui" or "terminal" after
      trimming (with the case as sent) selects the terminal UI; anything
      else, absent or blank, the web UI. */
  function SurfaceFromQuery(surface: Option<string>): (r: Feedback.FeedbackSurface)
    ensures r == Feedback.TerminalUi <==>
      surface.Some? && (Trim(surface.value) == "terminal_ui" || Trim(surface.value) == "terminal")
  {
    if surface.Some? && (Trim(surface.value) == "terminal_ui" || Trim(surface.value) == "terminal") then Feedback.TerminalUi
    else Feedback.WebUi
  }

  /** The schema route answers with the schema for the requested surface. */
  function FeedbackSchemaRoute(surface: Option<string>, os: Feedback.OsFamily): (s: Feedback.Schema)
    ensures s.surface == SurfaceFromQuery(surface) && s.os == os && s.schemaVersion == 1
  {
    Feedback.SchemaFor(SurfaceFromQuery(surface), os)
  }
}
