/** The client's configuration: API access, consent, and the live-capture
    defaults, together with how a capture run combines them with
    command-line overrides. Reading and writing the TOML file is not
    modelled. */
module Config {
  import opened Wrappers
  import opened Text
  import opened Float
  import LiveCapture

  const DefaultApiUrl: string := "https://aipcbuilderbackend-ikpg65blaq-uc.a.run.app"

  datatype ApiConfig = ApiConfig(baseUrl: string, timeoutSeconds: nat, verifySsl: bool, maxRetries: nat)

  /** `ApiConfig::default`. */
  function DefaultApiConfig(): (c: ApiConfig)
    ensures c.timeoutSeconds == 30 && c.maxRetries == 2 && c.verifySsl
    ensures c.baseUrl == DefaultApiUrl
  {
    ApiConfig(DefaultApiUrl, 30, true, 2)
  }

  /** The consent flags; the acceptance time is not modelled. */
  datatype ConsentConfig = ConsentConfig(tosAccepted: bool, consentPublicUse: bool, retentionAcknowledged: bool)

  /** `ConsentConfig::is_complete`. */
  predicate IsComplete(c: ConsentConfig)
  {
    c.tosAccepted && c.consentPublicUse && c.retentionAcknowledged
  }

  /** `ConsentConfig::default`: nothing accepted. */
  function DefaultConsent(): (c: ConsentConfig)
    ensures !c.tosAccepted && !c.consentPublicUse && !c.retentionAcknowledged
  {
    ConsentConfig(false, false, false)
  }

  /** Consent is complete exactly when every flag is set, and one missing
      flag is enough to leave it incomplete. */
  lemma CompleteNeedsEveryFlag(c: ConsentConfig)
    ensures IsComplete(c) <==> c == ConsentConfig(true, true, true)
    ensures !IsComplete(DefaultConsent())
  {
  }

  /** `CaptureConfig`, sharing the live capture's focus policy. */
  datatype CaptureConfig = CaptureConfig(
    focusPolicy: LiveCapture.FocusPolicy, pauseOnUnfocus: bool, defaultPollMs: nat,
    processValidation: bool, maxFrameTimeMs: F64, strictUnfocusGraceMs: nat)

  /** `CaptureConfig::default`. */
  function DefaultCaptureConfig(): (c: CaptureConfig)
    ensures c.focusPolicy == LiveCapture.Strict && c.pauseOnUnfocus && c.processValidation
    ensures c.defaultPollMs == 100 && c.maxFrameTimeMs == Finite(250.0) && c.strictUnfocusGraceMs == 1000
  {
    CaptureConfig(LiveCapture.Strict, true, 100, true, Finite(250.0), 1000)
  }

  datatype Config = Config(api: ApiConfig, consent: ConsentConfig, capture: CaptureConfig, currency: string, channel: string)

  /** `Config::default`. */
  function DefaultConfig(): (c: Config)
    ensures c.api == DefaultApiConfig() && c.capture == DefaultCaptureConfig()
    ensures !IsComplete(c.consent) && c.currency == "USD" && c.channel == "stable"
  {
    Config(DefaultApiConfig(), DefaultConsent(), DefaultCaptureConfig(), "USD", "stable")
  }

  /** Why no configuration path could be found. */
  datatype PathError = NoProjectDirectories

  /** `Config::config_path`: the trimmed `FPS_TRACKER_CONFIG_PATH` when it is
      set and not blank, else `config.toml` in the platform's configuration
      directory, which may be unknown. */
  function ConfigPath(envOverride: Option<string>, platformConfigDir: Option<string>): (r: Result<string, PathError>)
    ensures envOverride.Some? && Trim(envOverride.value) != [] ==> r == Ok(Trim(envOverride.value))
    ensures (envOverride.None? || Trim(envOverride.value) == []) ==>
      (r.Err? <==> platformConfigDir.None?) &&
      (r.Ok? ==> r.value == platformConfigDir.value + "/config.toml")
  {
    if envOverride.Some? && Trim(envOverride.value) != [] then Ok(Trim(envOverride.value))
    else if platformConfigDir.None? then Err(NoProjectDirectories)
    else Ok(platformConfigDir.value + "/config.toml")
  }

  /** The options a live capture runs with: each setting given on the
      command line wins over the configured one; validation is switched
      off when no target process was resolved. */
  function EffectiveOptions(
    cfg: CaptureConfig, source: LiveCapture.CaptureSource, durationSecs: nat, file: Option<string>,
    gameHint: Option<string>, processName: Option<string>,
    focusPolicy: Option<LiveCapture.FocusPolicy>, pauseOnUnfocus: Option<bool>, processValidation: Option<bool>,
    pollMs: Option<nat>, maxFrameTimeMs: Option<F64>, graceMs: Option<nat>): (o: LiveCapture.LiveCaptureOptions)
    ensures o.pollMs == pollMs.GetOr(cfg.defaultPollMs) && o.strictUnfocusGraceMs == graceMs.GetOr(cfg.strictUnfocusGraceMs)
    ensures o.maxFrameTimeMs == maxFrameTimeMs.GetOr(cfg.maxFrameTimeMs) && o.focusPolicy == focusPolicy.GetOr(cfg.focusPolicy)
    ensures o.processValidation <==> processValidation.GetOr(cfg.processValidation) && processName.Some?
    ensures o.durationSecs == durationSecs && o.processName == processName
  {
    LiveCapture.LiveCaptureOptions(
      source, durationSecs, file, gameHint, processName,
      focusPolicy.GetOr(cfg.focusPolicy), pauseOnUnfocus.GetOr(cfg.pauseOnUnfocus),
      pollMs.GetOr(cfg.defaultPollMs),
      processValidation.GetOr(cfg.processValidation) && processName.Some?,
      maxFrameTimeMs.GetOr(cfg.maxFrameTimeMs), graceMs.GetOr(cfg.strictUnfocusGraceMs))
  }

  /** The default capture settings lie inside the ranges a live capture
      enforces: with no overrides, only the duration can make the option
      checks fail. */
  lemma DefaultCaptureInRange(source: LiveCapture.CaptureSource, durationSecs: nat, file: Option<string>,
                              gameHint: Option<string>, processName: Option<string>)
    ensures var o := EffectiveOptions(DefaultCaptureConfig(), source, durationSecs, file, gameHint, processName,
                                      None, None, None, None, None, None);
      LiveCapture.ValidateOptions(o).None? <==> 10 <= durationSecs <= 900
  {
  }
}
