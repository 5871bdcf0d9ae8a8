# FPStracker client — a Dafny model of its decision logic

FPStracker is a command-line, terminal-UI and local-web-UI client. It captures or imports frame times from games, summarises them, and submits benchmark results to the FPStracker service. Submissions that cannot be sent are kept in an offline queue and synced later. This project models the deterministic core behind the client's I/O and proves properties of it.

The model covers these parts of the client:

- **Offline queue and sync.** Pending, uploaded and invalid records, and the id and build-name validators (`storage.dfy`). Idempotency keys (`idempotency.dfy`). The sync-lock staleness rule and its single-holder token (`sync_lock.dfy`). The sync loop and its counters (`cli.dfy`).
- **Live capture.**
  - The streaming MangoHud parser with its partial-line buffer (`live_stream.dfy`).
  - The adaptive poll interval, the focus tracker with time as an explicit millisecond input, and quality scoring with instability classification (`live_capture.dfy`).
  - Process-name matching (`process_focus.dfy`).
  - The Linux compositor output parsers (`focus_linux.dfy`).
- **Importers and statistics.**
  - The CapFrameX and MangoHud log importers over rows and lines (`capframex.dfy`, `mangohud_log.dfy`).
  - Frame-time sanitising, median, stutter spikes and percentile indices over reals (`frame_stats.dfy`).
  - The benchmark session (`session.dfy`).
- **Submission.**
  - Resolution normalisation, field validation and response helpers (`submit.dfy`).
  - The API client's own resolution table, base-URL handling, payload clamping and retry/backoff (`api_client.dfy`).
  - Configuration defaults and completeness (`config.dfy`).
  - Feedback validation and dependency-detail sanitising (`feedback.dfy`).
  - The local API's error-to-status and consent rules (`api_routes.dfy`).
- **Games and anti-cheat.** The known-games table and its lookup (`games.dfy`). Anti-cheat risk and the submission guard (`anti_cheat.dfy`, `cli.dfy`). Game-input parsing, batch selection and argument quoting (`cli.dfy`).
- **Hardware and benchmarks.**
  - The GPU and RAM parsers and tables (`hardware.dfy`).
  - The benchmark-runner output parsers and result filling (`benchmark_runner.dfy`).
  - Dependency PATH handling and install-command building (`deps.dfy`).
- **Terminal UI state and key handling** (`tui_state.dfy`, `tui_input.dfy`).
  - Each key handler is a method on the `App` class.
  - Each handler's new view is tied to a pure step function, and the lemmas are stated about those step functions.

`wrappers.dfy`, `text.dfy` and `float.dfy` hold shared helpers. These are the `Option` and `Result` types, ASCII string operations, and the numeric helpers that model integer width and rounding.

Code that mutates state in the source is modelled as classes and methods with loops. Each such method is proved against a pure specification function. Code that only computes a value is modelled as functions and lemmas.

Where the source behaves other than it evidently intends (see Findings), the operations follow the code as written. The corrected definitions sit beside them, and the intended properties are proved about those.

## Model

| member | source | states |
|---|---|---|
| Idempotency.NewSubmitKey | src/idempotency.rs:13-15 | a fresh benchmark key is the submit prefix followed by exactly the UUID text |
| Idempotency.NewFeedbackKey | src/idempotency.rs:17-19 | a fresh feedback key is the feedback prefix followed by exactly the UUID text |
| Idempotency.LegacyPendingKey | src/idempotency.rs:23-25 | the legacy benchmark key is the legacy prefix followed by the pending id, so the id can be read back |
| Idempotency.LegacyPendingFeedbackKey | src/idempotency.rs:28-30 | the legacy feedback key is its prefix followed by the pending id |
| Idempotency.LegacyKeysInjective | src/idempotency.rs:21-30 | different pending ids give different legacy keys, in each namespace |
| Idempotency.LegacyNamespacesOverlap | src/idempotency.rs:8-11 | the legacy feedback prefix extends the benchmark one: a benchmark record named `feedback-<id>` gets the same key as feedback record `<id>` |
| Idempotency.FreshKeysDisjoint | src/idempotency.rs:8-19 | fresh benchmark keys, fresh feedback keys and legacy keys never coincide, in every pairing |
| ProcessFocus.NormalizeProcessName | src/benchmark/focus/mod.rs:31-37 | the normalised name has no ASCII upper-case letter and is never longer than the input |
| ProcessFocus.NormalizeProcessNameCaseless | src/benchmark/focus/mod.rs:31-37 | corrected half: lower-casing before the suffixes are stripped; the result has no ASCII upper-case letter and is never longer than the input |
| ProcessFocus.CaselessAgreesOnLowerCase | src/benchmark/focus/mod.rs:31-37 | on names without ASCII upper-case letters the corrected and the written normalisation agree |
| ProcessFocus.CaselessUpperExeMatches | src/benchmark/focus/mod.rs:31-42 | corrected half: `b.EXE` and the lower-cased `b.exe` normalise to the same name |
| ProcessFocus.ExeSuffixIgnored | src/benchmark/focus/mod.rs:40-42 | a bare name matches the same name with `.exe` appended |
| ProcessFocus.NormalizePlain | src/benchmark/focus/mod.rs:31-37 | for a name without surrounding blanks or quotes normalising is suffix stripping followed by lower-casing |
| ProcessFocus.TrimEndMatchesMismatch | src/benchmark/focus/mod.rs:31-37 | a suffix strip leaves a string whose last character differs from the pattern's unchanged |
| ProcessFocus.UpperExeKept | src/benchmark/focus/mod.rs:31-37 | `b.EXE` normalises to lower-case `b` followed by `.exe`, because suffixes are stripped before lower-casing |
| ProcessFocus.AsciiLowerKeepsEnds | src/benchmark/focus/mod.rs:31-37 | lower-casing keeps a trimmed, unquoted name trimmed and unquoted |
| ProcessFocus.NormalizeNotIdempotent | src/benchmark/focus/mod.rs:31-37 | normalising twice differs from normalising once for every `b.EXE` |
| ProcessFocus.UpperCaseExeDoesNotMatch | src/benchmark/focus/mod.rs:31-42 | for any trimmed, unquoted non-empty base, `b.EXE` does not match the lower-cased `b.exe` (see Findings) |
| ProcessFocus.ProcessNameMatches | src/benchmark/focus/mod.rs:40-42 | definition: equal normalised names; `ExeSuffixIgnored` and `UpperCaseExeDoesNotMatch` state which names match |
| FocusLinux.DetectBackend | src/benchmark/focus/linux.rs:31-41 | each backend is chosen exactly when it is installed and no earlier one in the order xdotool, xprop, hyprctl is |
| FocusLinux.PositivePid | src/benchmark/focus/linux.rs:51-54 | a pid is read exactly when the text is a `u32` greater than zero |
| FocusLinux.XdotoolPid | src/benchmark/focus/linux.rs:51-54 | a pid read from xdotool's output is a positive `u32` |
| FocusLinux.XpropWindowId | src/benchmark/focus/linux.rs:56-66 | a window id is non-empty, trimmed, free of `#`, and found only when the output has a `#` |
| FocusLinux.NumberAfterEquals | src/benchmark/focus/linux.rs:87-94 | a number read after `=` is a positive `u32` |
| FocusLinux.DigitsAreOneWord | src/benchmark/focus/linux.rs:87-94 | a run of digits is already trimmed and splits into itself alone |
| FocusLinux.NumberAfterEqualsReadsPid | src/benchmark/focus/linux.rs:87-94 | round trip: `<label>=<pid>` reads back the pid |
| FocusLinux.XpropWindowIdReadsId | src/benchmark/focus/linux.rs:56-66 | round trip: `<label>#<id>` reads back the id |
| FocusLinux.LeadingDigits | src/benchmark/focus/linux.rs:76-83 | the result is the longest run of digits at the start of the text |
| FocusLinux.LeadingDigitsUnique | src/benchmark/focus/linux.rs:76-83 | any digit prefix that ends the text or is followed by a non-digit is that longest run |
| FocusLinux.FirstDigitIndex | src/benchmark/focus/linux.rs:76-80 | the index of the first digit: no digit before it, a digit at it unless it is the end |
| FocusLinux.FirstDigitRun | src/benchmark/focus/linux.rs:76-83 | the first run of digits: all digits, empty exactly when the text has no digit, located at the first digit |
| FocusLinux.ParseHyprctlPid | src/benchmark/focus/linux.rs:73-85 | no pid without a `"pid":` marker; otherwise the pid is the first run of digits after the marker, read as a positive `u32` |
| FocusLinux.CollectDigitRun | src/benchmark/focus/linux.rs:73-85 | the character scan collects exactly the first run of digits |
| Session.RateOfRate | src/benchmark/session.rs:68-77 | a positive FPS turned into a frame time and back gives the FPS |
| Session.SortedFrameTimeIsReading | src/benchmark/session.rs:95-109 | every entry of the sorted frame times is positive and converts back to the FPS of some sample |
| Session.QuantileIndexInRange | src/benchmark/session.rs:103-104 | `floor(n * q)` is a valid index for a quantile below one |
| Session.LowOf | src/benchmark/session.rs:95-125 | the low at a quantile is always present and equal to the FPS of one of the samples |
| Session.BenchmarkSession.Start | src/benchmark/session.rs:46-64 | a new session has the given game settings, starts now, has no samples and has not ended |
| Session.BenchmarkSession.AddSample | src/benchmark/session.rs:68-77 | a non-finite or non-positive reading leaves the samples alone; any other is appended once with frame time 1000 / fps |
| Session.BenchmarkSession.End | src/benchmark/session.rs:81-83 | the end time is now and the samples are unchanged |
| Session.BenchmarkSession.AverageFps | src/benchmark/session.rs:86-92 | absent exactly when there are no samples; otherwise between the smallest and the largest reading |
| Session.BenchmarkSession.Fps1Low | src/benchmark/session.rs:95-109 | present exactly from 100 samples on, and then the FPS of one of the samples |
| Session.BenchmarkSession.Fps01Low | src/benchmark/session.rs:113-125 | present exactly from 1000 samples on, and then the FPS of one of the samples |
| Session.BenchmarkSession.DurationSecs | src/benchmark/session.rs:128-131 | seconds from the start to the end, or to now while running |
| Session.IsValidByMillis | src/benchmark/session.rs:135-137 | valid exactly with at least 30 samples and at least 30 000 ms of run time |
| Config.DefaultApiConfig | src/config.rs:137-162 | the default API settings: 30 s timeout, 2 retries, TLS verification on, the built-in base URL |
| Config.DefaultConsent | src/config.rs:199-215 | by default no consent flag is set |
| Config.CompleteNeedsEveryFlag | src/config.rs:218-220 | consent is complete exactly when all three flags are set; the default is incomplete |
| Config.DefaultCaptureConfig | src/config.rs:379-388 | default capture: strict focus, pause on unfocus, validation on, 100 ms polling, 250 ms frame-time cap, 1000 ms grace |
| Config.DefaultConfig | src/config.rs:19-48 | the default configuration uses the default API and capture settings, incomplete consent, USD and the stable channel |
| Config.ConfigPath | src/config.rs:89-101 | a non-blank override wins, trimmed; otherwise `config.toml` in the platform directory, and an error exactly when that directory is unknown |
| Config.EffectiveOptions | src/main.rs:3117-3175 | every capture option given on the command line wins over the configured one; validation is on only when asked for and a target process was resolved |
| Config.DefaultCaptureInRange | src/config.rs:379-388 | with the default capture settings and no overrides the option checks fail only for a duration outside 10-900 s |
| Config.IsComplete | src/config.rs:218-220 | definition: all three consent flags; `CompleteNeedsEveryFlag` states one missing flag leaves it incomplete |
| Submission.ResolutionKey | src/benchmark/submit.rs:223 | the lookup key of a resolution contains no space |
| Submission.Alias | src/benchmark/submit.rs:228-240 | every answer of the alias table is one of the eight canonical names |
| Submission.HeightLabel | src/benchmark/submit.rs:246-248 | a height written as `<n>p` ends in `p` |
| Submission.PHeight | src/benchmark/submit.rs:243-245 | a height is read only from a key ending in `p`, and it fits in a `u16` |
| Submission.Shorthand | src/benchmark/submit.rs:255-262 | a bare number is recognised exactly for the seven shorthand heights, 2160 and 4320 |
| Submission.CorrectionOnlyAt2160 | src/benchmark/submit.rs:242-251 | the corrected normaliser differs from the code as written only where the latter answers `2160p` and the former `4K` |
| Submission.NormalizedIsCanonical | src/benchmark/submit.rs:222-265 | every answer of the normaliser is an alias target or `<n>p` for a listed height other than 2160 |
| Submission.TargetShape | src/benchmark/submit.rs:228-240 | every alias target, lower-cased, is an alias key that names itself |
| Submission.AliasKeyFixed | src/benchmark/submit.rs:222-240 | a name whose lower-cased form is an alias key naming it normalises to itself |
| Submission.LabelNot2160 | src/benchmark/submit.rs:246-248 | no height but 2160 is written `2160p` |
| Submission.AliasOfPKey | src/benchmark/submit.rs:228-240 | the only `<digits>p` alias key that names something other than itself is `2160p` |
| Submission.LabelKey | src/benchmark/submit.rs:242-251 | `<n>p` is its own lookup key, and when it is no alias key its height is read back |
| Submission.LabelFixed | src/benchmark/submit.rs:242-251 | `<n>p` for a listed height other than 2160 normalises to itself |
| Submission.CanonicalIsFixed | src/benchmark/submit.rs:222-265 | every canonical name normalises to itself |
| Submission.NormalizeIsFixedPoint | src/benchmark/submit.rs:222-265 | normalising an answer of the corrected normaliser gives the same answer (idempotence) |
| Submission.DoublePKey | src/benchmark/submit.rs:242-245 | `<n>pp` is its own key, no alias, and its height `n` is read back |
| Submission.AsWrittenDoubleP | src/benchmark/submit.rs:242-251 | as written, `<n>pp` for a listed height comes back as `<n>p` |
| Submission.AliasOfLabel2160 | src/benchmark/submit.rs:232 | `2160p` is an alias of `4K` |
| Submission.AsWrittenLabel2160 | src/benchmark/submit.rs:232 | as written, `2160p` normalises to `4K` |
| Submission.AsWrittenNotFixedAt2160 | src/benchmark/submit.rs:222-265 | as written, `2160pp` normalises to `2160p`, which normalises again to `4K`: not idempotent |
| Submission.AsWrittenStaysRecognised | src/benchmark/submit.rs:222-265 | as written, anything recognised is recognised again after normalising |
| Submission.NewSubmission | src/benchmark/submit.rs:49-79 | the resolution is what the normaliser as written answers when it recognises it, and the trimmed input otherwise; the 0.1% low and session fields start empty; the other fields are the arguments |
| Submission.NewKeepsResolutionRecognised | src/benchmark/submit.rs:49-79 | a submission built from a recognised resolution passes the resolution check, and its stored resolution normalises to itself unless it is `2160p` |
| Submission.AsWrittenFourK | src/benchmark/submit.rs:222-265 | the normaliser as written answers `4K` with itself |
| Submission.IssueAt | src/benchmark/submit.rs:135-219 | the checks are numbered in the order `validate` runs them, and the numbering is one-to-one |
| Submission.IssueAtRank | src/benchmark/submit.rs:135-219 | numbering a problem and looking the number up gives the problem back |
| Submission.Failing | src/benchmark/submit.rs:135-219 | the first `n` checks report at most `n` problems |
| Submission.FailingMembers | src/benchmark/submit.rs:135-219 | the first `n` checks report exactly the failing problems numbered below `n` |
| Submission.InOrderSnoc | src/benchmark/submit.rs:135-219 | adding a problem checked after every reported one keeps the report in checking order |
| Submission.FailingInOrder | src/benchmark/submit.rs:135-219 | problems are reported in checking order |
| Submission.NothingFailsIff | src/benchmark/submit.rs:212-218 | nothing is reported exactly when no check fails |
| Submission.Report | src/benchmark/submit.rs:138-210 | one check adds its problem to the report exactly when it fails |
| Submission.Validate | src/benchmark/submit.rs:135-219 | accepted exactly when the submission is acceptable; otherwise the non-empty list of failing problems in checking order |
| Submission.AverageVerdict | src/benchmark/submit.rs:138-151 | the average passes exactly when it is finite and within 1-500 |
| Submission.Low1Verdict | src/benchmark/submit.rs:154-167 | a 1% low passes exactly when it is finite, within 1-500 and not above the average |
| Submission.Low01Verdict | src/benchmark/submit.rs:170-185 | a 0.1% low passes exactly when it is not outside 1-500 and not above the average or the 1% low |
| Submission.GameChecks | src/benchmark/submit.rs:196-201 | the game check fails exactly for a blank name or a trimmed name over 120 bytes |
| Submission.PresetChecks | src/benchmark/submit.rs:188-206 | the resolution check fails exactly for an unrecognised resolution, the preset check exactly for a blank preset |
| Submission.UpscalingCheck | src/benchmark/submit.rs:208-212 | the upscaling check fails exactly for a trimmed mode over 64 bytes |
| Submission.TextVerdict | src/benchmark/submit.rs:188-212 | the text fields pass exactly when none of their five checks fails |
| Submission.AcceptableIffNoViolation | src/benchmark/submit.rs:135-219 | a submission is acceptable exactly when no check fails |
| Submission.AcceptableIffNothingFails | src/benchmark/submit.rs:212-218 | nothing is reported exactly for an acceptable submission |
| Submission.ReportedExactly | src/benchmark/submit.rs:135-219 | the reported problems are exactly the failing checks, each once, in checking order |
| Submission.NaNLow01NeverFails | src/benchmark/submit.rs:170-185 | a NaN 0.1% low fails none of its checks, as every comparison with NaN is false |
| Submission.EffectiveId | src/benchmark/submit.rs:300-307 | no id exactly when the id is blank; otherwise the trimmed id |
| Submission.RejectionIgnoresCase | src/benchmark/submit.rs:309-314 | whether a response is rejected does not depend on the case of its status |
| Submission.RejectionSummary | src/benchmark/submit.rs:316-325 | the reasons joined with `, ` when there are any, else the message when not blank, else the fixed text |
| Submission.SummaryEmptyOnlyForOneEmptyReason | src/benchmark/submit.rs:316-325 | the summary is empty exactly when the reasons are one empty string |
| Submission.NormalizeResolutionAsWritten | src/benchmark/submit.rs:222-265 | definition of the code as written, including its `<n>p` branch; `AsWrittenStaysRecognised` and `AsWrittenNotFixedAt2160` state its behaviour |
| Submission.NormalizeResolution | src/benchmark/submit.rs:222-265 | corrected definition, answering `4K` for 2160 in the `<n>p` branch; `NormalizeIsFixedPoint` states it is idempotent |
| ApiClient.NamedDims | src/api/client.rs:388-399 | every size in the name table is one the tracker accepts, and no name in it contains `x` |
| ApiClient.HeightDims | src/api/client.rs:405-418 | the height table gives an accepted size of that height, or 1920x1080 for an unlisted height |
| ApiClient.ParseDimensions | src/api/client.rs:423-431 | a size is read only from text containing `x`, and only when it is at least 320 by 200 |
| ApiClient.DimsOfKey | src/api/client.rs:381-421 | every key converts to a size the tracker accepts |
| ApiClient.TrackerDimsAsWritten | src/api/client.rs:381-421 | as written, every resolution converts to a size the tracker accepts |
| ApiClient.TrackerDims | src/api/client.rs:381-421 | with the `5k` row added, every resolution still converts to an accepted size |
| ApiClient.ToTrackerResolution | src/api/client.rs:381-421 | the `WxH` text sent always parses back as the size the conversion as written gives |
| ApiClient.SplitOnceAfter | src/api/client.rs:424 | splitting `a x b` at the first `x` gives `a` and `b` when `a` has no `x` |
| ApiClient.RenderParse | src/api/client.rs:400-402 | round trip: an accepted size written as `WxH` parses back to itself |
| ApiClient.TrackerResolutionIdempotent | src/api/client.rs:381-421 | converting the converted text again, as written, gives the same text |
| ApiClient.HeightKeyDims | src/api/client.rs:404-418 | a bare height with any number of trailing `p`s converts through the height table |
| ApiClient.HeightTargetDims | src/api/client.rs:388-392 | `720p`, `900p`, `1080p` and `1440p` convert to their own sizes |
| ApiClient.NamedTargetDims | src/api/client.rs:395-397 | `4k` and `8k` convert to 3840x2160 and 7680x4320, and `5k` to 5120x2880 once its row is added |
| ApiClient.WideTargetDims | src/api/client.rs:400-402 | `3440x1440` converts to itself through the `WxH` branch |
| ApiClient.TargetDims | src/api/client.rs:381-421 | corrected half (with the `5k` row added): every name the normaliser answers with converts to a size other than 1920x1080, except `1080p` |
| ApiClient.LabelDims | src/api/client.rs:404-418 | `<h>p` outside the name table converts through the height table |
| ApiClient.ListedHeightDims | src/api/client.rs:405-416 | every listed height but 1080 has its own size |
| ApiClient.LabelNeverFallsBack | src/api/client.rs:381-421 | `<h>p` for a listed height lands on 1920x1080 only for `1080p` |
| ApiClient.NamedFallback | src/api/client.rs:388-399 | only `1080p` and `fhd` name 1920x1080 in the name table |
| ApiClient.TargetNeverFallsBack | src/api/client.rs:381-421 | corrected half: an alias target lands on 1920x1080 only when it is `1080p` |
| ApiClient.RecognisedNeverFallsBack | src/api/client.rs:381-421 | corrected pair of normaliser and conversion: whatever is recognised is sent as the size it names; only a 1080p name is sent as 1920x1080 |
| ApiClient.AsWrittenFiveKFallsBack | src/api/client.rs:381-421 | as written, `5K` is answered by the normaliser as itself yet sent as 1920x1080 |
| ApiClient.AsWrittenRecognisedFallsBackOnlyAtFiveK | src/api/client.rs:381-421 | as written, of everything the normaliser recognises only a 1080p name and `5K` are sent as 1920x1080 |
| ApiClient.ConversionsDifferOnlyAtFiveK | src/api/client.rs:388-399 | the conversion as written and the corrected one agree on every key but `5k` |
| ApiClient.FiveKKeyOnlyOfFiveK | src/api/client.rs:381-421 | among the names the normaliser answers with, only `5K` has the lookup key `5k` |
| ApiClient.CanonicalNeverFallsBack | src/api/client.rs:381-421 | corrected half: a canonical name lands on 1920x1080 only when it is `1080p` |
| ApiClient.CanonicalFallsBackAsWritten | src/api/client.rs:381-421 | as written, a canonical name lands on 1920x1080 only when it is `1080p` or `5K` |
| ApiClient.Label2160Dims | src/api/client.rs:381-421 | `2160p` is sent as 3840x2160 |
| ApiClient.FiveKConverted | src/api/client.rs:381-421 | the corrected conversion sends `5K` as 5120x2880 |
| ApiClient.NormalizeBaseUrl | src/api/client.rs:433-439 | a blank URL gives the default; otherwise the trimmed URL with exactly its trailing `/`s removed |
| ApiClient.BaseUrlDropsSlashes | src/api/client.rs:433-439 | a trimmed URL not ending in `/` survives whatever `/`s follow it |
| ApiClient.SlashOnlyBaseUrlIsEmpty | src/api/client.rs:433-439 | `/` is not blank, so it normalises to the empty URL instead of the default |
| ApiClient.ParseBoolValue | src/api/client.rs:446-452 | true exactly for `1`/`true`/`yes`/`on` and false exactly for `0`/`false`/`no`/`off`, after trimming and lower-casing |
| ApiClient.ParseBoolWords | src/api/client.rs:446-452 | `true` and `false` in any case read back as the boolean |
| ApiClient.ClientFromEnv | src/api/client.rs:101-177 | a parsable positive timeout variable wins, else the configured timeout raised to at least 1 s; a parsable SSL or retry variable wins, else the configured value; a non-blank URL variable is used, else the configured URL, both normalised; the public-use flag is the stored one and the legal attestation is terms accepted and retention acknowledged; both hold exactly when the stored consent is complete |
| ApiClient.EnvNumber | src/api/client.rs:101-135 | an environment number is read only from a set variable and never exceeds its bound |
| ApiClient.BackoffMs | src/api/client.rs:458-464 | every wait is between 200 ms and 2 s |
| ApiClient.BackoffSchedule | src/api/client.rs:458-464 | the waits are 200, 200, 400, 800, 1600 ms for attempts 0-4 and 2 s from the fifth on |
| ApiClient.BackoffMonotone | src/api/client.rs:458-464 | a later attempt never waits less |
| ApiClient.MaxAttempts | src/api/client.rs:200 | at least one attempt and at most the `u32` maximum; `max_retries + 1` when that fits |
| ApiClient.Settle | src/api/client.rs:209-245 | the answer to an attempt that ends the loop, never `Unreachable` |
| ApiClient.SubmitBenchmark | src/api/client.rs:188-254 | an invalid submission is refused with its problems and a missing consent with the hint, both before any request; otherwise the result is the retry loop over at most `max_retries + 1` attempts |
| ApiClient.PostWithRetries | src/api/client.rs:207-251 | the loop's result and request count are those of the attempt-by-attempt definition |
| ApiClient.AttemptsBounded | src/api/client.rs:207-253 | between one and `max_attempts` requests are sent, the result is never `Unreachable`, and every attempt but the last was a retryable failure |
| ApiClient.SettlesOnFinalAnswer | src/api/client.rs:222-245 | a success or a non-server error ends the loop at once |
| ApiClient.OkMeansAccepted | src/api/client.rs:224-232 | an accepted result comes from a 2xx reply whose decoded answer was not rejected |
| ApiClient.RamGb | src/api/client.rs:303-309 | the RAM sent is between 4 and 512 GB |
| ApiClient.RamGbOfWholeGb | src/api/client.rs:303-309 | a whole number of GB within range is sent unchanged |
| ApiClient.RamGbMonotone | src/api/client.rs:303-309 | more RAM is never reported as less |
| ApiClient.RamSpeed | src/api/client.rs:311-316 | a speed is sent exactly when one fits in a `u32`, clamped to 1600-10000 and unchanged inside that range |
| ApiClient.SessionMinutes | src/api/client.rs:332-335 | the minutes are at least 1, the seconds rounded up to whole minutes |
| ApiClient.UpscalingMode | src/api/client.rs:324-330 | a mode is sent exactly when one is given and not blank, and then trimmed |
| ApiClient.SessionOf | src/api/client.rs:356-371 | the session's resolution parses back as the size the conversion as written gives; ray tracing `On`/`Off`; the upscaling mode or `Off`; minutes exactly when a duration is known |
| ApiClient.Payload | src/api/client.rs:298-379 | one session, converted as written, `self_recorded`, `captured` exactly when capture data is present, RAM figures within their ranges, the consent flags passed through |
| ApiClient.RenderDims | src/api/client.rs:402 | definition: the `WxH` text of a size; `ToTrackerResolution` proves it parses back |
| Storage.ValidPendingIdByChars | src/storage/mod.rs:659-665 | since every accepted character is ASCII, the 200-byte limit is a limit of 200 characters |
| Storage.ValidPendingIdHasNoPathParts | src/storage/mod.rs:659-665 | a valid id contains no `/`, `\`, `.` or NUL, so it never names anything outside its directory |
| Storage.PendingId | src/storage/mod.rs:115-119 | a new record's id starts with `pending_` (benchmarks) or `pending_feedback_` (feedback) |
| Storage.SavedIdsAreValid | src/storage/mod.rs:115-119 | the ids saving generates pass the id check that removing and finalising apply |
| Storage.SanitizeBuildName | src/storage/mod.rs:827-843 | accepted exactly when the trimmed name is non-empty, at most 120 bytes and free of `/`, `\`, NUL and `..`; the answer is the trimmed name |
| Storage.SanitizeBuildNameIdempotent | src/storage/mod.rs:827-843 | an accepted name is accepted again unchanged |
| Storage.SanitizeRejectsParentRef | src/storage/mod.rs:835-841 | a name containing `..` anywhere is rejected |
| Storage.LegacyKey | src/storage/mod.rs:188-193 | a legacy record's key starts with the legacy prefix of its queue |
| Storage.EntryOf | src/storage/mod.rs:188-199 | a loaded entry keeps its id; a record keeps its stored key, a legacy file gets the legacy key of its id |
| Storage.PermutationDistinct | src/storage/mod.rs:156 | a rearrangement of a repetition-free listing is repetition-free |
| Storage.InsertByMtime | src/storage/mod.rs:156 | inserting a name keeps the listing a permutation and ordered by modification time |
| Storage.SortByMtime | src/storage/mod.rs:156 | the sorted listing is a permutation of the input, oldest first |
| Storage.AfterLoadClean | src/storage/mod.rs:158-199 | after a load no pending `.json` file is one already uploaded, and every remaining one is loadable |
| Storage.AfterLoadKeepsOthers | src/storage/mod.rs:147-156 | a load leaves every file that is not a `.json` record or an `.invalid` name it creates unchanged |
| Storage.DoneStep | src/storage/mod.rs:158-199 | handling the next sorted file adds it, and only it, to the handled set |
| Storage.DoneAll | src/storage/mod.rs:158-199 | once the whole sorted listing is handled, exactly the `.json` files have been handled |
| Storage.PendingQueue.constructor | src/storage/mod.rs:86-102 | a new queue has empty pending and uploaded directories |
| Storage.PendingQueue.Save | src/storage/mod.rs:105-134 | a blank key is an error and changes nothing; otherwise the record with the trimmed key is created under the new id unless that file already exists, which is never overwritten |
| Storage.PendingQueue.ListJson | src/storage/mod.rs:147-154 | the listing holds every `.json` file of the pending directory exactly once and nothing else |
| Storage.PendingQueue.HandleEntry | src/storage/mod.rs:158-199 | one file: an already uploaded record is deleted, an unloadable one is renamed to `.invalid`, and exactly a loadable, not uploaded record yields its entry |
| Storage.PendingQueue.LoadPending | src/storage/mod.rs:137-203 | the entries are exactly the loadable, not yet uploaded `.json` records, each with its stored or legacy key, with distinct ids, oldest first; the directory ends in the after-load state |
| Storage.PendingQueue.LoadSorted | src/storage/mod.rs:158-199 | the loop over the sorted listing ends with every `.json` file handled and the entries tracked to their files |
| Storage.PendingQueue.Remove | src/storage/mod.rs:403-415 | an invalid id is an error and changes nothing; otherwise the record is gone afterwards whether or not it was there, so removing twice equals removing once |
| Storage.PendingQueue.MarkUploaded | src/storage/mod.rs:418-458 | an invalid id is an error; an absent record changes nothing; otherwise the record leaves pending and replaces any earlier copy under uploaded |
| Storage.AfterLoadStep | src/storage/mod.rs:158-199 | one file moves the directory from the state for the files handled so far to the state with that file handled, for each of the three outcomes |
| Storage.LoadOrder | src/storage/mod.rs:156-199 | the entries follow the sorted listing: distinct ids, oldest first |
| Storage.AfterLoadNothing | src/storage/mod.rs:146 | before any file is handled the directory is unchanged |
| Storage.SortedJsonFiles | src/storage/mod.rs:147-156 | the sorted listing holds each `.json` file exactly once |
| Storage.TrackedStep | src/storage/mod.rs:158-199 | one file extends the entries by the file's entry when it yields one and leaves them alone otherwise |
| Storage.LoadResult | src/storage/mod.rs:137-203 | a finished load yields exactly one entry per loadable, not yet uploaded record, each from its file, distinct and oldest first |
| Storage.IsValidPendingId | src/storage/mod.rs:659-665 | definition: non-empty, at most 200 bytes, only ASCII letters, digits, `_` and `-`; `ValidPendingIdHasNoPathParts` states a valid id names nothing outside its directory |
| SyncLock.LockText | src/storage/mod.rs:733-745 | a lock file holds one newline-terminated line |
| SyncLock.FindStripPrefix | src/storage/mod.rs:764-767 | nothing is found exactly when no line starts with the prefix |
| SyncLock.FindStripPrefixFound | src/storage/mod.rs:764-767 | what is found is the rest of the first line that starts with the prefix |
| SyncLock.ReadLockPid | src/storage/mod.rs:762-770 | a pid read from a lock file fits in a `u32` |
| SyncLock.ReadLockTimestamp | src/storage/mod.rs:817-825 | an unreadable lock file has no time |
| SyncLock.LockAgeSecs | src/storage/mod.rs:800-815 | with a lock time, the whole seconds since it, or 0 when it lies ahead; without one, the file's age when known, else 0 |
| SyncLock.StartEpoch | src/storage/mod.rs:786-791 | a start time below the boot time is taken as relative to boot, saturating at the `u64` maximum |
| SyncLock.LockTextLines | src/storage/mod.rs:733-745 | the text of a new lock is the single line `pid=<pid> at=<time>` |
| SyncLock.ReadLockPidOfLockText | src/storage/mod.rs:733-770 | round trip: the pid written into a lock is the pid read back |
| SyncLock.PidWord | src/storage/mod.rs:762-770 | the pid's digits are the first word after `pid=` |
| SyncLock.PidLineRest | src/storage/mod.rs:762-770 | the lock's line starts with `pid=`, followed by the pid |
| SyncLock.LockWords | src/storage/mod.rs:733-745 | a lock text splits into the two words `pid=<pid>` and `at=<time>` |
| SyncLock.ReadLockTimestampOfLockText | src/storage/mod.rs:733-825 | round trip: the time written into a lock is the time read back |
| SyncLock.LiveHolderKeepsLock | src/storage/mod.rs:716-731 | a lock written by a running process that started no later than 5 s after the lock time is never reclaimed |
| SyncLock.DeadHolderIsStale | src/storage/mod.rs:716-731 | a lock whose holder is not running is stale however young it is |
| SyncLock.ReusedPidIsStale | src/storage/mod.rs:777-798 | a lock naming a running pid is stale when that process started more than 5 s after the lock time |
| SyncLock.NoPidStaleByAge | src/storage/mod.rs:716-731 | without a readable pid the lock is stale exactly when it is older than six hours |
| SyncLock.PendingLock.constructor | src/storage/mod.rs:460-461 | no lock file at first |
| SyncLock.PendingLock.TryAcquire | src/storage/mod.rs:460-493 | acquired exactly when there was no lock file or the existing one is stale; a new lock holds this process and time; otherwise the file is untouched |
| SyncLock.PendingLock.Release | src/storage/mod.rs:77-81 | dropping the guard removes the lock file |
| SyncLock.SingleHolder | src/storage/mod.rs:1251-1269 | a running process takes the lock, a second attempt while it is held fails, and after release a third succeeds |
| SyncLock.IsStale | src/storage/mod.rs:716-731 | definition of the staleness test; `DeadHolderIsStale`, `ReusedPidIsStale`, `LiveHolderKeepsLock` and `NoPidStaleByAge` state its four cases |
| SyncLock.ProcessStartedAfter | src/storage/mod.rs:777-797 | definition: a missing process, or one whose start (boot-relative times corrected) is more than 5 s after the lock time; `ReusedPidIsStale` and `LiveHolderKeepsLock` state its effect on the lock |
| LiveStream.ParseFrametime | src/benchmark/live.rs:744-751 | a value is accepted exactly when the trimmed text parses to a finite number in (0, 10000], and the answer is that number |
| LiveStream.ParseFrametimeOfNat | src/benchmark/live.rs:744-751 | whole milliseconds from 1 to 10000 are read back as written |
| LiveStream.FindFrametimeColumn | src/benchmark/live.rs:737-742 | the column found names the frame time and no earlier field does; none is found when no field does |
| LiveStream.SampleOf | src/benchmark/live.rs:689-704 | a sample is in (0, 10000]; with a known column it is read from that column; otherwise from the second field or the first |
| LiveStream.ParseLineStep | src/benchmark/live.rs:672-705 | every sample a line yields is in (0, 10000] |
| LiveStream.ParseLineStepState | src/benchmark/live.rs:672-705 | blank and `#` lines change nothing; any other line settles the header question, which is never reopened; a known column comes with a settled header |
| LiveStream.HeaderLineFixesColumn | src/benchmark/live.rs:680-687 | the first content line naming the frame time fixes that column and yields no sample |
| LiveStream.FindFrametimeColumnIsFirst | src/benchmark/live.rs:737-742 | the column found is the first field naming the frame time |
| LiveStream.DataLineUsesColumn | src/benchmark/live.rs:689-691 | once a column is fixed every content line is read from that column, and a short line yields nothing |
| LiveStream.MangoHudStreamParser.constructor | src/benchmark/live.rs:665-669 | a new parser has no column and has not seen a header |
| LiveStream.MangoHudStreamParser.ParseLine | src/benchmark/live.rs:672-705 | the new parser state and the sample are those of the step function |
| LiveStream.FeedNoNewline | src/benchmark/live.rs:708-735 | text without a newline is only buffered |
| LiveStream.FeedAppend | src/benchmark/live.rs:708-735 | reading `a` and then `b` gives the state and samples of reading `a + b` |
| LiveStream.FeedLine | src/benchmark/live.rs:724-729 | a newline-terminated line is parsed as one line and leaves no tail |
| LiveStream.FeedPartial | src/benchmark/live.rs:717-720 | the buffered tail is read again as the head of the next text |
| LiveStream.FeedTailHasNoNewline | src/benchmark/live.rs:730-732 | the tail left after a read never holds a newline |
| LiveStream.FeedSamplesInRange | src/benchmark/live.rs:708-735 | a line parser with samples in (0, 10000] reads only such samples from any text |
| LiveStream.ReadLine | src/benchmark/live.rs:725-726 | a finished line, stripped of trailing carriage returns, yields a sample in (0, 10000] if any |
| LiveStream.ChunkStep | src/benchmark/live.rs:708-735 | an empty chunk changes nothing; otherwise the tail and the chunk are read together; all samples are in range |
| LiveStream.ChunkSplitInvariance | src/benchmark/live.rs:1014-1025 | splitting the same text over two reads gives the same samples, tail and parser state as one read |
| LiveStream.ParseChunkFrametimes | src/benchmark/live.rs:708-735 | the new parser state, tail and samples are those of the chunk step; a tail without newline stays without newline |
| LiveStream.Flatten | src/benchmark/live.rs:722-733 | a run of lines yields at most one sample per line |
| LiveStream.ReadSegments | src/benchmark/live.rs:722-733 | the loop passes every terminated segment through the parser, returns the samples in order and keeps an unterminated last segment as the tail |
| LiveStream.ReadTerminated | src/benchmark/live.rs:724-729 | one terminated segment extends the trace and the samples by exactly its own answer |
| LiveStream.TracedSnoc | src/benchmark/live.rs:722-733 | a trace grows by one parsed segment |
| LiveStream.TracedSkip | src/benchmark/live.rs:730-732 | an unterminated segment extends a trace without parsing |
| LiveStream.FeedSegmentsTrace | src/benchmark/live.rs:722-733 | the loop's trace agrees with the reader function over the segments |
| LiveStream.FeedLineAfter | src/benchmark/live.rs:717-729 | a newline-terminated line completes whatever was buffered |
| LiveStream.FeedSegmentsIsFeed | src/benchmark/live.rs:722 | reading the newline-split segments one by one is reading their concatenation |
| LiveStream.TrimNewline | src/benchmark/live.rs:725 | `trim_end_matches('\n')` removes exactly the one newline |
| LiveStream.PrimeSettlesHeader | src/benchmark/live.rs:753-772 | priming settles the header question exactly when the file start holds a content line, and leaves a known column alone |
| LiveStream.PrimeParser | src/benchmark/live.rs:753-772 | the parser ends in the state of priming over the lines of the file's first 64 KiB |
| LiveCapture.ValidateOptions | src/benchmark/live.rs:159-174 | no error exactly when duration is 10-900 s, polling 50-500 ms, grace 100-10000 ms and the frame-time cap finite and positive; each error is reported exactly when its check fails and every earlier check, in the order duration too short, too long, polling, grace, frame-time cap, passes |
| LiveCapture.ResolveSource | src/benchmark/live.rs:184-222 | never answers `auto`; an explicit source is kept; a MangoHud-looking file gives MangoHud; PresentMon is chosen under `auto` only on Windows |
| LiveCapture.AdjustPollInterval | src/benchmark/live.rs:774-795 | always within 50-500 ms, following the five-row table on the number of new samples |
| LiveCapture.PollAntitoneForModerateBase | src/benchmark/live.rs:774-795 | with a base of at most 250 ms, more new samples never make the next poll slower |
| LiveCapture.PollNotAntitoneForSlowBase | src/benchmark/live.rs:774-795 | above a base of 250 ms, five new samples poll sooner than fifty |
| LiveCapture.IdlePolls | src/benchmark/live.rs:778-780 | the interval after any number of empty polls stays within 50-500 ms |
| LiveCapture.IdlePollsBackOff | src/benchmark/live.rs:778-780 | idle polling backs off by 25 ms per empty poll up to 500 ms |
| LiveCapture.WrapI32 | src/benchmark/live.rs:632-649 | the `as i32` cast: in range, identity on `i32` values, congruent modulo 2^32 |
| LiveCapture.SatI32 | src/benchmark/live.rs:651 | the float-to-`i32` cast saturates and keeps `i32` values |
| LiveCapture.QualityScoreAsWritten | src/benchmark/live.rs:622-655 | the score as written never exceeds 100 |
| LiveCapture.QualityScore | src/benchmark/live.rs:622-655 | the intended score is at most 100, and exactly 100 when no penalty applies |
| LiveCapture.CleanCaptureScoresFull | src/benchmark/live.rs:1036-1040 | a clean capture of at least 120 frames scores 100 |
| LiveCapture.PenaltiesMonotone | src/benchmark/live.rs:634-652 | each capped penalty grows with its input |
| LiveCapture.QualityScoreAntitone | src/benchmark/live.rs:622-655 | fewer frames, more pauses, more drops, a mismatch, longer unfocus or more spikes never raise the score |
| LiveCapture.WrappedPenaltiesAgree | src/benchmark/live.rs:634-652 | below 2^31 each wrapped penalty as written equals the intended one |
| LiveCapture.QualityScoreAgrees | src/benchmark/live.rs:622-655 | on counts below 2^31 and a spike ratio in [0, 1] the code as written computes the intended score |
| LiveCapture.QualityScoreAgreesBelowWrap | src/benchmark/live.rs:622-655 | the same agreement as an implication: below 2^31 the score as written is the intended one |
| LiveCapture.QualityScoreWrapsOnHugeDropCount | src/benchmark/live.rs:638-640 | as written, 2^31 dropped samples score 100 while one dropped sample scores 95; the intended score for 2^31 is 70 |
| LiveCapture.DroppedRatio | src/benchmark/live.rs:657-663 | the ratio is in [0, 1], 0 without samples, dropped over the total otherwise, and positive exactly when something was dropped |
| LiveCapture.InitDiagnostics | src/benchmark/live.rs:797-803 | nothing counted yet; validation is on exactly when requested and a process name is given |
| LiveCapture.ValidationMonitorsFocus | src/benchmark/live.rs:805-809 | enabled process validation always switches focus monitoring on |
| LiveCapture.ValidFrames | src/benchmark/live.rs:539-542 | the kept samples are positive, within the maximum, and no more than the input |
| LiveCapture.ValidFramesAreKept | src/benchmark/live.rs:539-542 | with a finite maximum this filter is the one the frame statistics use |
| LiveCapture.Summarize | src/benchmark/live.rs:551-619 | frame count, lows within min and max, 0.1% low exactly from 1000 frames, dropped and spike ratios of the kept samples, and the quality score as written, which equals the intended score while the counts stay below 2^31 |
| LiveCapture.BuildResult | src/benchmark/live.rs:528-620 | an error carrying the count exactly when fewer than 60 samples are valid; otherwise the summary, with both ratios in [0, 1] |
| LiveCapture.HeavyDropsAreUnstable | src/benchmark/live.rs:597-600 | more than one drop per nine kept samples pushes the dropped ratio over 10 % |
| LiveCapture.SteadyCleanCaptureIsStable | src/benchmark/live.rs:1124-1141 | a steady sample set has no spikes, and with 120 frames and no focus trouble the score as written rates it stable |
| LiveCapture.UpperExeTargetMissesItself | src/benchmark/live.rs:845-881 | a target spelled with an upper-case `.EXE` never matches a foreground process of exactly that name, because the target is normalised twice |
| LiveCapture.Elapsed | src/benchmark/live.rs:952 | the milliseconds between two clock readings, when the clock did not go back |
| LiveCapture.FocusTracker.constructor | src/benchmark/live.rs:859-881 | collecting, nothing counted, the target normalised, the first probe due at once; the invariant holds |
| LiveCapture.FocusTracker.FinalizeUnfocusedSegment | src/benchmark/live.rs:950-960 | an open spell is closed, its length added to the finished spells, the total (saturating) and the longest, a strict violation added past the grace; without one nothing changes |
| LiveCapture.FocusTracker.MeasureOpenSpell | src/benchmark/live.rs:928-935 | the longest spell grows to the open spell's length so far, a strict violation is added exactly past the grace, nothing else changes |
| LiveCapture.FocusTracker.ApplyCollectState | src/benchmark/live.rs:921-940 | the whole new state (`CollectApplied`): the state recorded; a fall counts a pause (saturating) and opens a spell at `now`; collecting closes the open spell into the finished spells, total and longest; not collecting measures it against the longest and the grace; nothing else changes; the invariant is kept |
| LiveCapture.FocusTracker.RecordProbe | src/benchmark/live.rs:893-908 | a probe records its time and outcome, a mismatch once seen stays seen, and the pause and spell bookkeeping change as `CollectApplied` says |
| LiveCapture.FocusTracker.Probe | src/benchmark/live.rs:893-908 | collecting follows the foreground process against the target; a mismatch is recorded exactly when a process other than the target is active; the bookkeeping changes as `CollectApplied` says |
| LiveCapture.FocusTracker.ShouldCollect | src/benchmark/live.rs:883-919 | without monitoring it collects, only raising the cached state; within 400 ms of the last probe it repeats the cached decision and changes nothing; otherwise it probes at `now`, records a mismatch exactly for another process and applies the outcome as `CollectApplied` says; the answer ignores focus when collection does not pause |
| LiveCapture.FocusTracker.FinalizeUnfocusedTracking | src/benchmark/live.rs:962-964 | the open spell, if any, is closed and counted |
| LiveCapture.UpdateDiagnostics | src/benchmark/live.rs:811-820 | the tracker's counts are copied; a recorded mismatch stays recorded |
| LiveCapture.ShouldCollectForTarget | src/benchmark/live.rs:845-856 | definition: collect without a target or without a known foreground process, else exactly when the names match; `FocusTracker.Probe` and `UpperExeTargetMissesItself` state its use |
| LiveCapture.MonitorFocusEnabled | src/benchmark/live.rs:805-809 | definition: pausing on unfocus, process validation or the strict policy; `ValidationMonitorsFocus` states validation always enables it |
| LiveCapture.Mismatch | src/benchmark/live.rs:898-906 | definition: a target and a foreground process are known and do not match; `FocusTracker.ShouldCollect` records a mismatch exactly then |
| FrameStats.MinOf | src/import/common.rs:82 | the minimum is an element and bounds every element from below |
| FrameStats.MaxOf | src/import/common.rs:83 | the maximum is an element and bounds every element from above |
| FrameStats.Rates | src/import/common.rs:60 | the FPS of each frame time, position by position |
| FrameStats.RateAntitone | src/import/common.rs:60 | taking the FPS reverses the order of positive frame times |
| FrameStats.SortReals | src/import/common.rs:67-68 | the sorted copy is an ascending permutation of the samples |
| FrameStats.ElementOfPermutation | src/import/common.rs:67-68 | every element of the sorted copy is an element of the input |
| FrameStats.SortedUnique | src/import/common.rs:67-68 | two ascending arrangements of the same values are equal |
| FrameStats.SortPermutationInvariant | src/import/common.rs:67-68 | sorting depends only on the multiset of values |
| FrameStats.SortSorted | src/import/common.rs:67-68 | sorting an ascending sequence changes nothing |
| FrameStats.SortedElementBounds | src/import/common.rs:67-72 | every element of the sorted copy lies between the input's minimum and maximum |
| FrameStats.Ceiling | src/import/common.rs:102-106 | the ceiling is positive: the given maximum when finite and positive, else 1000 |
| FrameStats.KeepFrames | src/import/common.rs:108-112 | the kept samples lie in (0, ceiling] and are no more than the input |
| FrameStats.KeepFramesAppend | src/import/common.rs:108-112 | filtering distributes over concatenation, so kept samples keep their order |
| FrameStats.KeepFramesOne | src/import/common.rs:111 | one sample survives exactly when it is finite and in (0, ceiling] |
| FrameStats.KeepFramesMembers | src/import/common.rs:108-112 | a value survives exactly when some input sample carrying it passes the filter |
| FrameStats.KeepFramesOfKept | src/import/common.rs:108-112 | values already in (0, ceiling] are all kept |
| FrameStats.Sanitized | src/import/common.rs:101-113 | the sanitised samples lie in (0, ceiling] and are no more than the input |
| FrameStats.PercentileIndex | src/import/common.rs:70-77 | a percentile index is below the count and at most `n * q` |
| FrameStats.CalculateStats | src/import/common.rs:50-98 | absent exactly without sanitised samples; otherwise the count of sanitised samples, a 0.1% low exactly from 1000 frames, all FPS figures between min and max, the duration, application and source passed through |
| FrameStats.StatsOrdered | src/import/common.rs:64-83 | the FPS of the average frame time and of every sorted sample lie between the minimum and maximum FPS |
| FrameStats.AverageBetween | src/import/common.rs:64 | the average frame time lies between the shortest and the longest |
| FrameStats.SortedRateBetween | src/import/common.rs:70-78 | the FPS of any sorted sample lies between the minimum and maximum FPS |
| FrameStats.RateBetween | src/import/common.rs:60-83 | a frame time between the shortest and the longest has an FPS between the lowest and the highest |
| FrameStats.Median | src/import/common.rs:116-128 | absent exactly without samples; otherwise between min and max, and an actual sample for an odd count |
| FrameStats.Middle | src/import/common.rs:121-127 | the middle value for an odd count, the mean of the two middle values for an even count |
| FrameStats.MedianPermutationInvariant | src/import/common.rs:116-128 | the median does not depend on the order of the samples |
| FrameStats.CountAtLeast | src/import/common.rs:141 | the count is at most the number of values, and 0 when all are below the threshold |
| FrameStats.SpikeThreshold | src/import/common.rs:140 | the threshold is at least 33.3 ms and at least 1.75 times the median |
| FrameStats.SpikeCount | src/import/common.rs:131-142 | there are never more spikes than sanitised samples |
| FrameStats.SpikeRatio | src/import/common.rs:145-151 | the ratio lies in [0, 1], is 0 without samples, and is positive exactly when there is a spike |
| FrameStats.Ratio | src/import/common.rs:150 | a part over a total lies in [0, 1], is 0 for an empty total, and multiplies back to the part |
| FrameStats.SteadyCaptureHasNoSpikes | src/import/common.rs:131-142 | when every frame is within 1.75 times the shortest there is no spike |
| CapFrameX.HeaderKey | src/import/capframex.rs:60 | the header key has no ASCII upper case |
| CapFrameX.LastWhere | src/import/capframex.rs:59-76 | a column found in a row is one of its columns |
| CapFrameX.LastWhereIsLast | src/import/capframex.rs:59-76 | the column found is the last matching cell; a row without a match keeps the earlier column |
| CapFrameX.Cell | src/import/capframex.rs:86-89 | a cell is read only from an existing column, trimmed and not blank |
| CapFrameX.ProcessValue | src/import/capframex.rs:86-95 | a row's process is its process-name cell, else its application cell |
| CapFrameX.FrameValue | src/import/capframex.rs:115-123 | a row yields at most one frame time, in (0, 10000] |
| CapFrameX.Remember | src/import/capframex.rs:97-99 | the seen processes grow by exactly the row's process |
| CapFrameX.Finish | src/import/capframex.rs:132-153 | an error exactly without frames, naming the sorted seen processes exactly when a filter was given and some were seen; otherwise the frames, the application and duration = sum / 1000 |
| CapFrameX.ScanHeaderRow | src/import/capframex.rs:59-76 | the loop over a row's cells computes the header scan |
| CapFrameX.ParseCapFrameX | src/import/capframex.rs:26-154 | the result is the outcome of the row-by-row fold with the normalised filter |
| CapFrameX.ScanFieldsLastFrametime | src/import/capframex.rs:59-66 | the last cell naming a frame-time column gives the column; a row without one keeps the earlier column |
| CapFrameX.RunFramesInRange | src/import/capframex.rs:115-123 | every kept frame time lies in (0, 10000] |
| CapFrameX.RunHeaderHasFrametime | src/import/capframex.rs:78-81 | a header is recorded only with a frame-time column |
| CapFrameX.StepBeforeHeader | src/import/capframex.rs:53-82 | blank records change nothing; rows before the header and the header row add no frame or process; a row is the header exactly when it names a frame-time column |
| CapFrameX.ApplicationIsFirst | src/import/capframex.rs:125-128 | once known the application never changes, so it is the process of the first included row that names one |
| CapFrameX.OtherProcessIgnored | src/import/capframex.rs:101-113 | with a filter, a row of any other process adds no frame and sets no application |
| CapFrameX.UpperCaseProcessNotIncluded | src/import/capframex.rs:101-113 | with the filter the lower-cased `b.exe`, a row whose process is `b.EXE` is not included (see Findings) |
| CapFrameX.IncludeRow | src/import/capframex.rs:101-109 | definition: no filter, or a process normalising to the normalised filter; `OtherProcessIgnored` and `UpperCaseProcessNotIncluded` state its effect |
| MangoHudLog.HeaderColumn | src/import/mangohud.rs:49-54 | the column found is a field naming the frame time |
| MangoHudLog.Sample | src/import/mangohud.rs:63-64 | a sample lies strictly inside (0, 1000) |
| MangoHudLog.TakeNamed | src/import/mangohud.rs:100-102 | the leading parts before the first date-like part, which is where it stops |
| MangoHudLog.ApplicationName | src/import/mangohud.rs:94-105 | an application name, when given, is not empty |
| MangoHudLog.ApplicationOfLogName | src/import/mangohud.rs:99-104 | a log named `<name parts>_<date>_<more>` is attributed to the name parts joined by `_` |
| MangoHudLog.Finish | src/import/mangohud.rs:85-113 | an error exactly without frames; otherwise the frames, the application from the stem and duration = sum / 1000 |
| MangoHudLog.ScanHeader | src/import/mangohud.rs:49-54 | the loop over a line's fields computes the header scan |
| MangoHudLog.ParseMangoHudLog | src/import/mangohud.rs:24-113 | the result is the outcome of the line-by-line fold over the log's lines |
| MangoHudLog.RunFramesInRange | src/import/mangohud.rs:63-82 | every kept frame time lies strictly inside (0, 1000) |
| MangoHudLog.HeaderLineIsNotSample | src/import/mangohud.rs:48-60 | a line naming the frame-time column fixes it and adds no sample |
| MangoHudLog.HeaderColumnFindsAny | src/import/mangohud.rs:49-54 | a line with a naming field always yields a naming column |
| MangoHudLog.BareSampleStartsLog | src/import/mangohud.rs:61-70 | without a header, the first line whose first field is a sample is kept and fixes column 0 |
| MangoHudLog.SkippedLineIgnored | src/import/mangohud.rs:40-43 | blank and `#` lines change nothing |
| Hardware.UnknownGpu | src/hardware/gpu.rs:96-106 | the fallback GPU is named `Unknown GPU`, of unknown vendor, with every optional detail absent |
| Hardware.DetectGpuTakesFirstSuccess | src/hardware/gpu.rs:61-107 | the first probe that succeeds, in the order tried, is the GPU reported |
| Hardware.DetectGpu | src/hardware/gpu.rs:61-107 | the GPU reported is the unknown GPU or one a probe returned |
| Hardware.DetectGpuAllFailed | src/hardware/gpu.rs:61-107 | when every probe fails the unknown GPU is reported |
| Hardware.LspciVendor | src/hardware/gpu.rs:230-238 | NVIDIA exactly when the line names it; AMD exactly when it names AMD, ATI or Radeon and not NVIDIA; Intel exactly when it names Intel and neither of those; never unknown when it names Intel |
| Hardware.LspciName | src/hardware/gpu.rs:242-251 | the whole line without `": "`; otherwise a prefix of the text after the first `": "`: all of it exactly when it holds no `" (rev"`, else cut where `" (rev"` starts with no later occurrence, i.e. at the last one |
| Hardware.LspciNameOfLine | src/hardware/gpu.rs:240-251 | a line `<slot>: <name> (rev <r>)` gives back exactly `<name>` |
| Hardware.FirstSeparator | src/hardware/gpu.rs:242 | the first `": "` is the one right after a slot holding none |
| Hardware.LastRevision | src/hardware/gpu.rs:245 | the last `" (rev"` is the one before a revision text holding none |
| Hardware.SysfsVendor | src/hardware/gpu.rs:278-284 | the vendor is NVIDIA, AMD or Intel exactly for the ids `0x10de`, `0x1002` and `0x8086`, after trimming |
| Hardware.NvidiaName | src/hardware/gpu.rs:132-137 | the reported name always starts with `NVIDIA` and a name that already does is kept |
| Hardware.NvidiaNameIdempotent | src/hardware/gpu.rs:132-137 | prefixing `NVIDIA ` happens at most once |
| Hardware.NvidiaSmiFields | src/hardware/gpu.rs:126-139 | an error exactly with fewer than three `", "` fields; otherwise an NVIDIA name, a VRAM within `u64` and the trimmed driver version |
| Hardware.UnitFactor | src/hardware/gpu.rs:414-418 | `gb`/`gib` stand for 1024 MB, `mb`/`mib` for 1 MB, and nothing else is a unit |
| Hardware.AmountWithUnit | src/hardware/gpu.rs:413-420 | an amount read from a number and a unit fits in `u64` |
| Hardware.DigitsFallback | src/hardware/gpu.rs:422-427 | the number made of all the digits fits in `u64` |
| Hardware.ParseMemoryString | src/hardware/gpu.rs:408-428 | the amount in MB fits in `u64` |
| Hardware.MemoryWithUnit | src/hardware/gpu.rs:408-420 | `<n> <unit>` is n times the unit's factor, saturating at the `u64` maximum |
| Hardware.AmountWords | src/hardware/gpu.rs:410-411 | a number and a lower-case unit are read back as exactly those two words |
| Hardware.FirstCommonSize | src/hardware/ram.rs:145-151 | a size found is a common size whose one-GB window holds the usable amount; none found means no window holds it |
| Hardware.EstimateInstalledFromUsable | src/hardware/ram.rs:139-155 | the estimate is whole gigabytes, never below the usable amount, and less than a GB above it when no common size matches |
| Hardware.ExactSizeIsItself | src/hardware/ram.rs:145-151 | an exact common size is estimated as itself |
| Hardware.WindowGivesSize | src/hardware/ram.rs:145-151 | a usable amount within the GB below a common size is estimated as that size |
| Hardware.SmbiosMemoryType | src/hardware/ram.rs:498-507 | a memory type is known exactly for SMBIOS codes 24, 26 and 34 |
| Hardware.CapacityPart | src/hardware/ram.rs:535-551 | both amounts exactly when installed is known and differs by more than half a GB; usable only exactly when installed is unknown |
| Hardware.RankedSnoc | src/hardware/ram.rs:553-567 | appending a part of later rank keeps the display order |
| Hardware.RamParts | src/hardware/ram.rs:530-570 | the capacity first, then one part per known detail, in the order type, speed, sticks, model |
| Hardware.FormatRam | src/hardware/ram.rs:530-570 | definition: the RAM parts joined by ` \| `; `RamParts` states which parts and in what order |
| Games.ProcessNamesPresent | src/games/database.rs:340-389 | every listed game suggests at least one process name, so a default hint exists |
| Games.MatchKeyChars | src/games/database.rs:392-398 | a match key holds only lower-case ASCII letters and digits, and is no longer than its input |
| Games.MatchKeyAppend | src/games/database.rs:392-398 | the key of a concatenation is the concatenation of the keys |
| Games.MatchKeyOfLower | src/games/database.rs:392-398 | strings equal up to ASCII case have the same key |
| Games.MatchKeyIdempotent | src/games/database.rs:392-398 | a key is its own key |
| Games.KeyOfAlnum | src/games/database.rs:392-398 | a word of letters and digits keys to itself lower-cased |
| Games.KeyOfSeparator | src/games/database.rs:394 | separators contribute nothing to a key |
| Games.KeyOfWord | src/games/database.rs:392-398 | a word followed by separators keys to the word lower-cased, then the key of the rest |
| Games.Keys | src/games/database.rs:321-325 | an entry has one key for its name and one per alias |
| Games.AliasLowerGivesKey | src/games/database.rs:321-325 | an alias equal to the query up to case also matches by key |
| Games.AliasHasKeyIff | src/games/database.rs:323-325 | an alias key matches exactly when some alias keys to it |
| Games.InKeys | src/games/database.rs:321-325 | the keys of an entry are exactly its name's and its aliases' |
| Games.MatchesByKey | src/games/database.rs:319-326 | an entry matches a query exactly when the query's key is one of the entry's keys; the case-insensitive comparisons add nothing |
| Games.FirstMatch | src/games/database.rs:319-326 | the index found matches and no earlier entry does; none found means no entry matches |
| Games.Find | src/games/database.rs:316-327 | a game is found exactly when some listed game matches, and the one found matches |
| Games.SameFirstMatch | src/games/database.rs:319-326 | queries with the same key stop at the same entry |
| Games.FindByKey | src/games/database.rs:316-327 | lookup ignores case, spaces and punctuation: queries with the same key find the same game |
| Games.TableKeysDistinct | src/games/database.rs:54-312 | the transcribed keys of the game table are distinct across entries |
| Games.FirstMatchOfKey | src/games/database.rs:319-326 | a query keyed like entry i and no earlier entry finds entry i |
| Games.FindsEveryEntry | src/games/database.rs:316-327 | in a table with distinct keys every entry is found by its name and by each of its aliases |
| Games.FindsItself | src/games/database.rs:316-327 | given that the transcribed keys are the table's keys, every listed game is found by its name and by each alias |
| Games.DifficultyIndices | src/games/database.rs:331-336 | exactly the positions of the entries with that difficulty, ascending |
| Games.Select | src/games/database.rs:332-335 | the entries selected are exactly those of the given difficulty |
| Games.ByDifficulty | src/games/database.rs:331-336 | the listed games of a difficulty, no other |
| Games.MatchKey | src/games/database.rs:392-398 | definition: the ASCII letters and digits, lower-cased; `MatchKeyChars` bounds it |
| Games.ProcessNameSuggestions | src/games/database.rs:340-389 | definition: the executable and process names to try for each game, by exact name, none for an unlisted name; `ProcessNamesPresent` states every listed game has one |
| AntiCheat.RiskOfTitle | src/main.rs:1787-1795 | high exactly for Valorant and League of Legends; medium exactly for Counter-Strike 2, Fortnite, Apex Legends and Call of Duty: Warzone |
| AntiCheat.RiskForGameName | src/main.rs:1782-1796 | a name the game table does not find is medium risk; high exactly when the entry it finds is one of the high-risk titles |
| AntiCheat.RiskForGame | src/main.rs:1798-1802 | no entry is medium risk; an entry is rated by its name |
| AntiCheat.CardRisk | src/tui/widgets/game_card.rs:77-85 | the game card rates the same titles high and medium as the CLI's table |
| AntiCheat.RouteRisk | src/api_routes/mod.rs:288-303 | the local API says `high` exactly for the high-risk titles and `medium` for the medium ones plus six titles of its own; every label is high, medium or low |
| AntiCheat.TitleTablesAgree | src/main.rs:1787-1795 | the CLI's title table and the game card's are the same table |
| AntiCheat.RouteAgreesWithCard | src/api_routes/mod.rs:288-303 | the local API agrees with the game card on every name outside its six extra medium titles |
| AntiCheat.KnownGamesNotRouteOnly | src/games/database.rs:54-312 | none of the known games is one of the local API's extra titles |
| AntiCheat.RiskTablesAgree | src/main.rs:1782-1796 | given the transcribed keys, the CLI, the game card and the local API rate every known game alike |
| Cli.MenuNumber | src/main.rs:2372-2377 | a menu number is a `usize` between 1 and the number of known games |
| Cli.ChooseGame | src/main.rs:2372-2385 | a chosen entry is a known game and the name is its canonical name; otherwise the text is kept and the table finds nothing for it |
| Cli.ParseGameInput | src/main.rs:2368-2386 | the same, for the input once trimmed |
| Cli.MenuNumberOfDecimal | src/main.rs:2372-2377 | every number on the menu reads back as itself |
| Cli.MenuNumberSelects | src/main.rs:2372-2377 | typing menu number n selects the n-th known game |
| Cli.ParseGameInputIgnoresPadding | src/main.rs:2369 | surrounding whitespace does not change the choice |
| Cli.NameIsNotANumber | src/main.rs:2372-2381 | a known game's name is trimmed and never read as a menu number |
| Cli.ParseGameInputIdempotent | src/main.rs:2368-2386 | given the transcribed keys, re-reading the chosen name gives the same choice |
| Cli.DelimitedPartsClean | src/main.rs:2397-2401 | with commas or semicolons, every part is trimmed, non-blank and free of delimiters |
| Cli.TrimAddsNothing | src/main.rs:2399 | trimming adds no character |
| Cli.CommaListRoundTrip | src/main.rs:2397-2401 | a list of trimmed names joined with `", "` is read back as those names |
| Cli.PiecesOfCommaList | src/main.rs:2398 | splitting a `", "`-joined list gives the first name, then each later name behind a space |
| Cli.SpaceBeforeFirstPiece | src/main.rs:2398 | a leading space stays with the first piece |
| Cli.SelectGames | src/main.rs:2413-2442 | the loop over the parts computes the batch fold: the same selection and the same warnings |
| Cli.ParseGameBatchInput | src/main.rs:2388-2445 | blank input selects nothing; otherwise the selection and warnings of the fold over the parts |
| Cli.BatchStepGrows | src/main.rs:2413-2442 | a step only appends to the selection and only adds to the names seen |
| Cli.BatchStepKeeps | src/main.rs:2432-2441 | a step keeps the selection free of repeats and of empty names, with the seen names those selected |
| Cli.BatchSelectsOnce | src/main.rs:2388-2445 | no two selected games share a name up to ASCII case, none is empty, and the names seen are the selected ones |
| Cli.BatchSeesEveryGame | src/main.rs:2413-2442 | every in-range part choosing a non-empty name has that name, lower-cased, among those seen |
| Cli.BatchKeepsEveryGame | src/main.rs:2413-2442 | only repeats are lost: every such part's game is selected, up to ASCII case |
| Cli.BatchSelectsFromParts | src/main.rs:2413-2442 | every selected game is the choice of some part |
| Cli.GuardLiveCaptureSafety | src/main.rs:1870-1932 | refused exactly without the override and with no game or a high-risk game, naming which |
| Cli.UnknownGameNotBlocked | src/main.rs:1870-1932 | a game the table does not know is never refused |
| Cli.GuardBlocksHighRiskEntries | src/main.rs:1891-1897 | given the transcribed keys, a known game is refused without the override exactly when the game card rates it high |
| Cli.PresentMonRequirement | src/main.rs:2960-2966 | on Windows without a capture file or PresentMon, a source not requiring PresentMon still resolves to MangoHud, and one requiring it does not |
| Cli.PromptYesNo | src/main.rs:2828-2847 | assume-yes answers yes; without a terminal the non-interactive default applies; at a terminal `y`/`yes` answers yes and `n`/`no` no, in any case and padding, and a blank or any other answer gives the default |
| Cli.PromptIgnoresCase | src/main.rs:2821-2837 | the answer ignores ASCII case and surrounding whitespace |
| Cli.ExplicitAnswerDecides | src/main.rs:2842-2846 | at a terminal a yes or no decides whatever the default; the answer is yes exactly for `y` or `yes` |
| Cli.QuoteArg | src/main.rs:2943-2949 | the value is kept, or wrapped in double quotes |
| Cli.QuoteArgReadsBack | src/main.rs:2943-2949 | a shell reads the quoted value back as the value, when it holds no backslash |
| Cli.ProcessNameHintForGame | src/main.rs:2980-2995 | a hint names the entry the game finds, with its first suggestion as primary and the rest as alternatives; a known game with suggestions always has one |
| Cli.HintOf | src/main.rs:2983-2994 | a hint exists exactly with suggestions, and primary plus alternatives are the suggestions |
| Cli.KnownGamesHaveHints | src/main.rs:2980-2995 | given the transcribed keys, every known game's name gives a hint for that game |
| Cli.AsI64 | src/main.rs:3700 | a JSON integer is read only within the `i64` range |
| Cli.DivTrunc | src/main.rs:3703 | `i64` division truncates toward zero |
| Cli.CheckBuildCompatibility | src/main.rs:3672-3731 | issues are the missing components, warnings the RAM and VRAM ones; compatible exactly without issues, and in strict mode also without warnings |
| Cli.MissingIssuesExact | src/main.rs:3684-3693 | each issue is reported exactly when its component is missing |
| Cli.RamWarningThreshold | src/main.rs:3695-3711 | despite the truncating division, the RAM warning is raised exactly below 16384 MB |
| Cli.VramWarningThreshold | src/main.rs:3713-3724 | the VRAM warning is raised exactly below 8192 MB |
| Cli.WellEquippedBuildPasses | src/main.rs:3672-3731 | a build with all components, 16 GB of RAM and 8 GB of VRAM has no issue and no warning |
| Cli.SyncFold | src/main.rs:2568-2613 | every record is counted exactly once as uploaded, failed or dropped |
| Cli.SyncPendingBenchmarks | src/main.rs:2568-2613 | the queue's directories and the three counters after the loop are those of the sync fold |
| Cli.SyncPendingAfter | src/main.rs:2568-2613 | the pending records after a sync are those before minus the ones uploaded or dropped |
| Cli.RemovedNames | src/main.rs:2568-2613 | a file is removed exactly when some record with that id is uploaded or dropped |
| Cli.SyncCounts | src/main.rs:2568-2613 | `uploaded` counts the accepted records, `dropped` the permanently refused ones |
| Cli.Count | src/main.rs:2568-2613 | a count of records is at most the number of records |
| Cli.ConsentRefusalKeepsRecord | src/main.rs:2587-2590 | a record refused for missing consent is always kept |
| Cli.BatchFold | src/main.rs:2388-2445 | definition: the fold of the batch step over the parts; `ParseGameBatchInput` is proved to compute it |
| Cli.SourceRequiresPresentMon | src/main.rs:2960-2966 | definition: PresentMon always, MangoHud never, Auto exactly without a MangoHud fallback |
| Cli.Dispose | src/main.rs:2578-2611 | definition: an invalid id is kept, an accepted record uploaded, a consent or offline refusal kept, any other refusal dropped; `SyncCounts` and `ConsentRefusalKeepsRecord` state the counts and that consent refusals keep the record |
| Feedback.CurrentOsFamily | src/feedback/mod.rs:99-106 | Windows, macOS and Linux exactly for the platform names `windows`, `macos` and `linux`; anything else is another family |
| Feedback.CaptureIssueOptionsFor | src/feedback/mod.rs:349-382 | the capture issues built for a platform are the capture issue list of that platform |
| Feedback.SyntheticIssueOptionsFor | src/feedback/mod.rs:384-407 | the synthetic issues built for a platform are the synthetic issue list of that platform |
| Feedback.CaptureIssuesByPlatform | src/feedback/mod.rs:349-382 | the four common capture issues first; the administrator issue exactly on Windows; no issue twice |
| Feedback.SyntheticIssuesByPlatform | src/feedback/mod.rs:384-407 | the two common synthetic issues first; the permission issue exactly on Windows; no issue twice |
| Feedback.AllCategoriesOnce | src/feedback/mod.rs:133-347 | every category appears exactly once in the schema's order |
| Feedback.CategoryIssuesDistinct | src/feedback/mod.rs:133-347 | every category offers at least one issue and none twice |
| Feedback.SchemaListsEveryCategory | src/feedback/mod.rs:133-347 | schema version 1 with the eleven categories in order, each with its own label, description and non-empty issue list |
| Feedback.IssueBelongsToCategory | src/feedback/mod.rs:133-347 | an issue offered under a category belongs to that category, so none is offered under two |
| Feedback.IssueOfferedUnderCategory | src/feedback/mod.rs:133-407 | every issue is offered under its category on every platform, except the two Windows-only issues off Windows |
| Feedback.Validate | src/feedback/mod.rs:501-520 | success exactly when no check fails; a failure carries the list of failed checks |
| Feedback.ValidationAccepts | src/feedback/mod.rs:503-513 | a report passes exactly with an issue, a non-blank trimmed message and at most 2000 bytes of it; a blank message is never also too long; at most two errors |
| Feedback.SanitizeDependencyDetails | src/feedback/mod.rs:471-488 | the scrubbed details hold no path separator, and details that do not look like a path are kept |
| Feedback.PathTestIsSeparatorTest | src/feedback/mod.rs:474-477 | the path test is exactly "holds a slash or a backslash" |
| Feedback.SanitizeIdempotent | src/feedback/mod.rs:471-488 | scrubbing twice is scrubbing once, and a path becomes the PresentMon or the generic hint by the dependency's name |
| Feedback.SanitizedStatuses | src/feedback/mod.rs:440-449 | one scrubbed status per dependency, keeping name, required and available, with no path separator in the details |
| Feedback.SchemaFor | src/feedback/mod.rs:133-347 | definition: version 1, the surface and OS, the intro and privacy texts and one entry per category in order; `SchemaListsEveryCategory` states it |
| Feedback.ValidationErrors | src/feedback/mod.rs:501-520 | definition: the failed checks in the order pushed; `ValidationAccepts` states when the list is empty |
| BenchmarkRunner.FormatDurationReadsBack | src/benchmark_runner.rs:2362-2369 | the number printed reads back as the seconds below a minute, else as the whole minutes the duration spans |
| BenchmarkRunner.ProfileOrder | src/benchmark_runner.rs:166-189 | quick runs shorter than standard, standard shorter than extended, and the three profile keys differ |
| BenchmarkRunner.ProfileTables | src/benchmark_runner.rs:166-181 | each profile's description starts with its formatted duration |
| BenchmarkRunner.ProgressEvents | src/benchmark_runner.rs:2162-2175 | one event exactly with a callback, carrying the total and the status, with the completed steps capped at the total |
| BenchmarkRunner.QuietStillReports | src/benchmark_runner.rs:2168-2178 | quiet mode silences the console, not the callback |
| BenchmarkRunner.GlmarkLineScore | src/benchmark_runner.rs:1379-1386 | a line's score is positive and fits in `u64` |
| BenchmarkRunner.Glmark2FirstScoreWins | src/benchmark_runner.rs:1377-1389 | none exactly when no line announces a positive score; otherwise the score of the first line that does |
| BenchmarkRunner.GlmarkLineReadsBack | src/benchmark_runner.rs:1379-1386 | a line printing a positive score after the prefix is read back as that score |
| BenchmarkRunner.GpuScoreFromGlmark | src/benchmark_runner.rs:1370-1373 | the GPU score lies in [1, 1000000] and is the parsed score when that is in range |
| BenchmarkRunner.ParsedNumbers | src/benchmark_runner.rs:1922-1925 | the tokens kept are no more than the tokens and all fit in `u64` |
| BenchmarkRunner.DigitPrefix | src/benchmark_runner.rs:1937-1940 | the leading digits, ending at the first non-digit |
| BenchmarkRunner.DigitRuns | src/benchmark_runner.rs:1937-1940 | every run is a non-empty string of ASCII digits |
| BenchmarkRunner.TotRating | src/benchmark_runner.rs:1918-1933 | a "Tot:" rating fits in `u64` |
| BenchmarkRunner.LastNumber | src/benchmark_runner.rs:1935-1944 | a "Total Rating" number fits in `u64` |
| BenchmarkRunner.LineRating | src/benchmark_runner.rs:1911-1946 | a line's rating fits in `u64` |
| BenchmarkRunner.Parse7zTotalMips | src/benchmark_runner.rs:1908-1949 | the loop keeps the rating of the last line that gives one |
| BenchmarkRunner.LastRatingWins | src/benchmark_runner.rs:1908-1949 | none exactly when no line gives a rating; otherwise the rating of the last line that does |
| BenchmarkRunner.TotLineThirdNumber | src/benchmark_runner.rs:1927-1930 | a "Tot:" line with three numbers yields the third |
| BenchmarkRunner.ThreeWords | src/benchmark_runner.rs:1922-1923 | three words joined by single spaces split back into the three |
| BenchmarkRunner.ThreeNumbers | src/benchmark_runner.rs:1922-1925 | three printed numbers parse back in order |
| BenchmarkRunner.OnlyWord | src/benchmark_runner.rs:2017 | a word without whitespace is the only word |
| BenchmarkRunner.DiskspdRowValue | src/benchmark_runner.rs:2008-2023 | a row's throughput fits in `u64` |
| BenchmarkRunner.DiskspdFirstTotalWins | src/benchmark_runner.rs:2006-2026 | none exactly when no row gives a value; otherwise the value of the first row that does, which starts with "total:" |
| BenchmarkRunner.TotalRowsOnly | src/benchmark_runner.rs:2010-2012 | only a row starting with "total:" gives a value |
| BenchmarkRunner.DiskspdRounds | src/benchmark_runner.rs:2019-2021 | a positive throughput is rounded half away from zero |
| BenchmarkRunner.DetectWindowsStageIndex | src/benchmark_runner.rs:1819-1840 | a stage index is at most 3, and 0 exactly when the line mentions the CPU |
| BenchmarkRunner.StageIgnoresCase | src/benchmark_runner.rs:1820 | stage detection ignores ASCII case |
| BenchmarkRunner.CpuStageFirst | src/benchmark_runner.rs:1822-1824 | a line mentioning the CPU is the CPU stage whatever else it mentions |
| BenchmarkRunner.CalibratedScore | src/benchmark_runner.rs:1077-1080 | an internal score lies in [1, 10000] |
| BenchmarkRunner.CalibrationMonotone | src/benchmark_runner.rs:1077-1080 | a larger measurement never scores lower, and one in range scores its rounded quotient |
| BenchmarkRunner.RoundMonotone | src/benchmark_runner.rs:1078 | rounding is monotone |
| BenchmarkRunner.FillKeepsExisting | src/benchmark_runner.rs:1704-1732 | a present score is never overwritten, none is invented without a source, and each filled score is labelled with its source |
| BenchmarkRunner.FillPreference | src/benchmark_runner.rs:1707-1732 | a missing CPU score prefers multi-thread 7-Zip, then single-thread, then internal; a missing disk score prefers DiskSpd's read, then internal |
| BenchmarkRunner.FillIdempotent | src/benchmark_runner.rs:1704-1732 | filling twice fills nothing more |
| BenchmarkRunner.BenchmarkResults.constructor | src/benchmark_runner.rs:545-560 | a new record holds no score, no source and no measurement |
| BenchmarkRunner.BenchmarkResults.FillMissingScores | src/benchmark_runner.rs:1704-1732 | the record's scores after the fill are the fill of its scores before |
| BenchmarkRunner.FormatDuration | src/benchmark_runner.rs:2362-2369 | definition: seconds below a minute, whole minutes otherwise; `FormatDurationReadsBack` states the number reads back |
| BenchmarkRunner.ParseGlmark2Score | src/benchmark_runner.rs:1377-1389 | definition: the first positive score after the prefix; `Glmark2FirstScoreWins` states it |
| BenchmarkRunner.ParseDiskspdTotalMbS | src/benchmark_runner.rs:2006-2025 | definition: the first row that gives a value; `DiskspdFirstTotalWins` states it is the first `total:` row with a positive throughput, and none exactly when no row gives one |
| BenchmarkRunner.FillMissing | src/benchmark_runner.rs:1704-1733 | definition of the fallback fill; `FillKeepsExisting`, `FillPreference` and `FillIdempotent` state that present scores are kept, the order of preference of the sources, and that filling twice adds nothing |
| ApiRoutes.Confidence | src/api_routes/mod.rs:202-207 | 0.25 with nothing detected, else 0.35 plus 0.2 per detected component |
| ApiRoutes.ConfidenceMonotone | src/api_routes/mod.rs:202-207 | one more detected component always raises the confidence, which stays in [0.25, 0.95] and is 0.95 exactly with all three |
| ApiRoutes.DetectHardware | src/api_routes/mod.rs:183-254 | 500 exactly when detection fails; otherwise the OS family of the build platform, the OS and its version, the GPU name and VRAM, the CPU name, cores and threads, `System Memory` with the installed size or, when unknown, the usable size (positive exactly when RAM was detected) and the RAM speed, and the confidence of what was detected |
| ApiRoutes.DifficultyNamesDistinct | src/api_routes/mod.rs:260-264 | the four difficulty names differ even ignoring case |
| ApiRoutes.KeptIndices | src/api_routes/mod.rs:257-272 | exactly the positions of the entries the filter keeps, ascending |
| ApiRoutes.ReplaceSpaces | src/api_routes/mod.rs:274 | replacing spaces by `-` changes exactly the spaces |
| ApiRoutes.GameIdShape | src/api_routes/mod.rs:274 | an id is as long as the name, has no space or upper-case letter, and keeps every other lower-cased character |
| ApiRoutes.ListGamesExact | src/api_routes/mod.rs:256-286 | exactly the entries the filter keeps, in table order; under a difficulty filter each reports that difficulty in lower case |
| ApiRoutes.IndicesFit | src/api_routes/mod.rs:256-286 | there are no more ascending positions below n than n |
| ApiRoutes.DifficultyQuerySelects | src/api_routes/mod.rs:260-264 | a difficulty query in any ASCII case selects the same entries as the table's own difficulty filter |
| ApiRoutes.UnknownDifficultyKeepsNothing | src/api_routes/mod.rs:260-264 | a difficulty naming none of the four keeps nothing |
| ApiRoutes.StatusOf | src/api_routes/mod.rs:310-316 | the status is complete exactly when all three boxes are ticked |
| ApiRoutes.ConsentStatusRoute | src/api_routes/mod.rs:305-318 | without a loadable configuration consent is incomplete; otherwise complete exactly when the stored consent is |
| ApiRoutes.AcceptConsent | src/api_routes/mod.rs:320-350 | 400 exactly unless all three boxes are ticked; 500 exactly when saving then fails; otherwise the loaded or default configuration with consent complete and everything else unchanged |
| ApiRoutes.AcceptedConsentIsReported | src/api_routes/mod.rs:305-350 | after a successful acceptance the status route reports completion |
| ApiRoutes.HeaderText | src/api_routes/mod.rs:365 | a header value is readable exactly when all its characters are visible ASCII, space or tab, and reads as itself |
| ApiRoutes.IdempotencyKeyFor | src/api_routes/mod.rs:362-368 | the key is the generated one or a readable, trimmed, non-blank header value |
| ApiRoutes.TrimSliceChars | src/api_routes/mod.rs:366 | trimming a readable value leaves it readable |
| ApiRoutes.PrimaryHeaderShadows | src/api_routes/mod.rs:362-368 | a present `Idempotency-Key` decides alone, even blank; `X-Idempotency-Key` counts only without it; a blank primary falls back to a generated key |
| ApiRoutes.ReadableKeyKept | src/api_routes/mod.rs:362-368 | a readable, non-blank key is sent as written, less its padding |
| ApiRoutes.SubmitKey | src/api_routes/mod.rs:362-368 | the benchmark handler's key is a fresh submit key or a trimmed non-blank header value |
| ApiRoutes.FeedbackKey | src/api_routes/mod.rs:638-645 | the feedback handler's key is a fresh feedback key or a trimmed non-blank header value |
| ApiRoutes.ErrorStatus | src/api_routes/mod.rs:410-432 | a valid status: validation errors 400, consent 403, backend errors their own status when valid else 502, network failures 502 |
| ApiRoutes.NonBlank | src/api_routes/mod.rs:374-376 | a value is kept exactly when present and not blank |
| ApiRoutes.BenchmarkSubmitReply | src/api_routes/mod.rs:369-434 | success answers 200 with a non-blank status and message, the backend's message when it gave one; a queueable error 202 when saved locally, else 500; any other error its error status |
| ApiRoutes.FeedbackFromRequest | src/api_routes/mod.rs:623-636 | the report is the web UI's, with the request's category, issue, message and diagnostics choice |
| ApiRoutes.FeedbackSubmitReply | src/api_routes/mod.rs:647-711 | the same answers for feedback, with the feedback defaults |
| ApiRoutes.SameErrorStatuses | src/api_routes/mod.rs:410-432 | both handlers answer an error they do not queue alike, and never with 200 unless the backend itself said 200 |
| ApiRoutes.ProfileFromQuery | src/api_routes/mod.rs:438-450 | absent or blank is standard; quick and extended exactly for those words in any case after trimming |
| ApiRoutes.ProfileKeyReadsBack | src/api_routes/mod.rs:438-450 | every profile key reads back as its profile |
| ApiRoutes.SyntheticFailure | src/api_routes/mod.rs:477-492 | needs administrator rights exactly when the message mentions administrators or elevation, answered 403, else 400 |
| ApiRoutes.ElevationForbidden | src/api_routes/mod.rs:477-492 | a message asking for elevation in any case is answered 403 |
| ApiRoutes.SurfaceFromQuery | src/api_routes/mod.rs:604-613 | the terminal UI exactly for `terminal_ui` or `terminal` after trimming; anything else is the web UI |
| ApiRoutes.FeedbackSchemaRoute | src/api_routes/mod.rs:603-617 | the schema of the requested surface, version 1 |
| ApiRoutes.ListGames | src/api_routes/mod.rs:256-284 | definition: the filtered known games; `ListGamesExact` states they are exactly the entries the filter keeps, in table order |
| ApiRoutes.GameId | src/api_routes/mod.rs:272 | definition: the lower-cased name with spaces turned into `-`; `GameIdShape` states its length and characters |
| Deps.FirstNonBlank | src/deps.rs:31-37 | a path found is non-empty and trimmed |
| Deps.FirstNonBlankIsFirst | src/deps.rs:31-37 | none exactly when every line is blank; otherwise the first non-blank line, trimmed |
| Deps.UncTestRedundant | src/deps.rs:68-72 | a value looks like a Windows path exactly when, trimmed, it holds a backslash or has `:` second; the UNC test adds nothing |
| Deps.NormalizePathForCompare | src/deps.rs:75-80 | the normalised path is no longer than the value and does not end in a slash |
| Deps.NormalizeIgnoresTrailingSlash | src/deps.rs:75-80 | a trailing slash of either kind and ASCII case do not make two directories differ |
| Deps.LowerTrimEnd | src/deps.rs:77-79 | lower-casing commutes with dropping trailing slashes |
| Deps.Separator | src/deps.rs:41-48 | the separator is `;` or `:` |
| Deps.Entries | src/deps.rs:49-54 | the entries are no more than the pieces, each non-empty and trimmed |
| Deps.CollectEntries | src/deps.rs:49-54 | the loop collects exactly the entries |
| Deps.AnySame | src/deps.rs:56-61 | the loop finds the directory exactly when some entry names it |
| Deps.PrependPathOnce | src/deps.rs:40-65 | the updated value is the prepended path of the current value and the directory |
| Deps.EntriesAvoid | src/deps.rs:49-54 | no entry holds a character the pieces do not |
| Deps.EntriesOfClean | src/deps.rs:49-54 | entries already clean are kept as they are |
| Deps.JoinEnds | src/deps.rs:64 | a join of clean pieces starts with the first piece and ends with the last piece's last character |
| Deps.ColonSurvives | src/deps.rs:75-80 | normalisation keeps a `:` and invents none |
| Deps.DirectoryGoesFirst | src/deps.rs:63-64 | a missing directory is put in front of the existing entries |
| Deps.ListedDirectoryKept | src/deps.rs:56-61 | with the directory present, the value is the existing entries, once each and in order |
| Deps.After | src/deps.rs:40-65 | the value after the call is the joined list of entries, with the directory in front when missing |
| Deps.PrependIdempotent | src/deps.rs:40-65 | under the stated conditions on the directory, a second call changes nothing |
| Deps.AfterIsClean | src/deps.rs:40-65 | the list after the call is clean, avoids the separator and lists the directory |
| Deps.SeparatorStable | src/deps.rs:41-48 | the second call splits on the first call's separator, or the list is a single entry free of it |
| Deps.ColonSeparated | src/deps.rs:41-48 | in a `:`-separated value the first call leaves nothing that would switch the second to `;` |
| Deps.ColonSeparatorFor | src/deps.rs:41-48 | a trimmed value without `;`, backslash or drive prefix, next to a non-Windows directory, is split on `:` |
| Deps.JoinTrimmed | src/deps.rs:64 | a join of trimmed non-empty pieces is trimmed |
| Deps.ColonValueAvoids | src/deps.rs:40-65 | neither `;` nor a backslash gets into a `:`-separated value |
| Deps.ColonValueNoDrive | src/deps.rs:40-65 | a `:`-separated value does not start like a drive path |
| Deps.TrimAvoids | src/deps.rs:50 | a non-whitespace character missing after trimming was missing before |
| Deps.OneLetterDirectoryAddedTwice | src/deps.rs:40-72 | the directory `a` put in front of a `:`-separated value makes it look like a drive path, so the second call splits on `;` and adds it again |
| Deps.DriveLike | src/deps.rs:68-72 | `x:` in front of a value without `;` gives a drive-like value |
| Deps.NormalizedLength | src/deps.rs:75-80 | a trimmed value not ending in a slash keeps its length |
| Deps.MissingTools | src/deps.rs:939-950 | the tools pushed are exactly the unavailable benchmark tools |
| Deps.ManagerFor | src/deps.rs:957-973 | the first package manager found in the order apt-get, dnf, pacman, brew |
| Deps.DependencyBulkInstallCommand | src/deps.rs:937-974 | the command built is the bulk install command of the statuses |
| Deps.BulkInstallNamesMissingTools | src/deps.rs:937-974 | none exactly when no benchmark tool is missing or no manager is found; otherwise each missing tool once, sorted, after the manager's install prefix |
| Deps.ParseWhereOutput | src/deps.rs:31-37 | definition: the first non-blank line of `where`, trimmed; `FirstNonBlankIsFirst` states it |
| Deps.BulkInstallCommand | src/deps.rs:937-974 | definition: none without missing benchmark tools or package manager, else the first manager's install prefix and the sorted, distinct tools; `DependencyBulkInstallCommand` is proved to build it |
| Deps.LooksLikeWindowsPath | src/deps.rs:68-72 | definition: a backslash, a UNC prefix or `:` as second byte, after trimming; `UncTestRedundant` states the UNC test adds nothing |
| Deps.PrependedPath | src/deps.rs:40-65 | definition of the value returned; `DirectoryGoesFirst`, `ListedDirectoryKept` and `AfterIsClean` state where the directory goes and that the entries stay clean, and `PrependPathOnce` is proved to compute it |
| TuiState.NewDraft | src/tui/state.rs:66-73 | a new feedback draft selects the first category and issue, with no message and no diagnostics |
| TuiState.ApiValuesDistinct | src/tui/state.rs:122-128 | the three capture methods have three different wire values |
| TuiState.IndexOf | src/tui/state.rs:231-236 | a field's index is its position in the field order |
| TuiState.IndexOfAt | src/tui/state.rs:231-236 | every position holds the field whose index it is |
| TuiState.NextIndex | src/tui/state.rs:242-245 | the next index is a valid field index |
| TuiState.PrevIndex | src/tui/state.rs:247-255 | the previous index is a valid field index |
| TuiState.NextPrevInverse | src/tui/state.rs:242-255 | moving back undoes moving forward and the other way round; six moves forward return to the start and one never stays put |
| TuiState.PositiveNumber | src/tui/state.rs:260-279 | a number is taken exactly when the trimmed text parses and is above zero |
| TuiState.CommitIdempotent | src/tui/state.rs:257-281 | committing the form twice gives what committing once gives |
| TuiState.ContinuableCommitIsComplete | src/tui/state.rs:203-281 | a form that may continue commits non-blank trimmed names, cores, threads and RAM above zero, and the RAM as both installed and usable |
| TuiState.NumberTextReadsBack | src/tui/state.rs:183-201 | the text a form shows for a positive number reads back as that number |
| TuiState.WithFieldText | src/tui/state.rs:220-229 | writing a field changes that field's text and no other |
| TuiState.Pop | src/tui/input.rs:334 | backspace removes the last character, and nothing from an empty text |
| TuiState.HardwareForm.FromInfo | src/tui/state.rs:183-201 | the form shows the detected values, the installed RAM when known else the usable RAM, nothing confirmed, the first field selected |
| TuiState.HardwareForm.FieldIndex | src/tui/state.rs:231-236 | the index is the selected field's position in the field order |
| TuiState.HardwareForm.SetFieldByIndex | src/tui/state.rs:238-240 | an index past the end selects the last field; nothing else changes |
| TuiState.HardwareForm.NextField | src/tui/state.rs:242-245 | the selection moves one forward, wrapping; nothing else changes |
| TuiState.HardwareForm.PrevField | src/tui/state.rs:247-255 | the selection moves one back, wrapping; nothing else changes |
| TuiState.HardwareForm.SetActiveValue | src/tui/state.rs:220-229 | the selected field's text is replaced; nothing else changes |
| TuiState.HardwareForm.CommitIntoInfo | src/tui/state.rs:257-281 | only the hardware info changes, to the commit of the form's values |
| TuiState.FromInfoCommitsBack | src/tui/state.rs:183-281 | a form made from detected numbers above zero commits them back, with the RAM shown stored as installed and usable |
| TuiState.ToggleFlipsOne | src/tui/state.rs:315-321 | a toggle flips exactly the box under the cursor, and a second toggle flips it back |
| TuiState.ConsentState.FromConfig | src/tui/state.rs:301-313 | the boxes as the configuration has them, complete exactly when its consent is, the cursor on the first |
| TuiState.ConsentState.ToggleCurrent | src/tui/state.rs:315-321 | the boxes become their toggle at the cursor; cursor and scroll stay |
| TuiState.DefaultResults | src/tui/state.rs:346-360 | the results form starts navigating at the first field, built-in benchmark, no ray tracing, no acknowledgement, no FPS typed |
| TuiState.ActiveFieldMapping | src/tui/state.rs:601-610 | cursor positions 0 to 4 select five different fields and any other the upscaling text; writing through the selection changes that field only |
| TuiState.FrameIndex | src/tui/state.rs:443-446 | the frame index is one of the ten frames |
| TuiState.FramePeriod | src/tui/state.rs:443-446 | the spinner repeats every sixty ticks and holds each frame for six |
| TuiState.AnimationState.constructor | src/tui/state.rs:435-437 | the tick starts at zero |
| TuiState.AnimationState.Advance | src/tui/state.rs:439-441 | the tick grows by one, wrapping at 2^64 |
| TuiState.AnimationState.SpinnerChar | src/tui/state.rs:443-446 | the spinner shows one of its frames |
| TuiState.FilteredIndices | src/tui/state.rs:586-599 | no more indices than games |
| TuiState.FilteredIndicesSpec | src/tui/state.rs:586-599 | exactly the indices of the games the query keeps, ascending |
| TuiState.FilteredEntryInTable | src/tui/state.rs:586-599 | every listed index is a position in the table |
| TuiState.EmptyQueryKeepsAll | src/tui/state.rs:592-594 | an empty query keeps every game, in order |
| TuiState.FilteredGamesSpec | src/tui/state.rs:586-599 | a blank query lists every game; otherwise exactly the games whose lower-cased name contains the trimmed, lower-cased query, ascending |
| TuiState.TerminalSchemaUsable | src/tui/state.rs:482 | the terminal schema offers categories, each with issues to pick |
| TuiState.NewContribute | src/tui/state.rs:379-393 | a fresh guided flow has no hardware, baseline, game or result, default results and every review section open |
| TuiState.App.constructor | src/tui/state.rs:477-530 | the app starts on the guided-flow choice with a new draft and a fresh guided flow, consent as configured, and on Windows without PresentMon the install prompt open |
| TuiState.App.ResetContribute | src/tui/input.rs:195-197 | the guided flow is replaced by a fresh one with consent as configured; nothing else changes |
| TuiState.App.Issue | src/tui/state.rs:536-543 | the issue is one of the category's, the one indexed or the last when the index is past the end |
| TuiState.App.SetError | src/tui/state.rs:545-554 | an error modal opens over the current screen and returns to it; nothing else changes |
| TuiState.App.SetInfo | src/tui/state.rs:557-566 | an information modal opens over the current screen and returns to it; nothing else changes |
| TuiState.App.SetConfirm | src/tui/state.rs:569-583 | a confirmation modal carrying its action opens over the current screen and returns to it; nothing else changes |
| TuiState.CommitInfo | src/tui/state.rs:257-281 | definition: names trimmed, numbers replaced only by positive values, RAM stored as both sizes; `CommitIdempotent` states it is idempotent |
| TuiState.FilteredGames | src/tui/state.rs:586-599 | definition: the known games filtered by the trimmed, lower-cased query; `FilteredGamesSpec` states which |
| TuiState.HasRequiredValues | src/tui/state.rs:203-210 | definition: both names not blank, cores, threads and RAM above zero; `ContinuableCommitIsComplete` states what a form passing it commits |
| TuiInput.CursorSteps | src/tui/input.rs:421-426 | a cursor moved down stays on a row of the list (or 0 when it is empty) and advances at most one; moving up undoes it unless the last row stopped it |
| TuiInput.NextChoice | src/tui/input.rs:76-96 | the synthetic entry is reached only on platforms that have it |
| TuiInput.PrevChoice | src/tui/input.rs:57-75 | the synthetic entry is reached only on platforms that have it |
| TuiInput.HomeMenuCycle | src/tui/input.rs:57-96 | Up undoes Down and Down undoes Up; walking down visits the four entries (three without the synthetic baseline) before coming back |
| TuiInput.CaptureCycle | src/tui/input.rs:466-485 | Left undoes Right, both always change the method, and three presses come back |
| TuiInput.AdvanceCommitsCompleteInfo | src/tui/input.rs:273-351 | the flow moves on to the baseline only from a form that may continue, committing non-blank names and cores, threads and RAM above zero |
| TuiInput.TypingInHardwareForm | src/tui/input.rs:273-351 | while editing, a character without Ctrl is appended to the selected field only; d, g, c and r in either case never reach a field |
| TuiInput.TabUndoesBackTab | src/tui/input.rs:295-305 | Tab and Back-Tab undo each other on the form, as do Down and Up |
| TuiInput.ResultsCursorRule | src/tui/input.rs:450-462 | the results cursor stays in 0..8 and moves only on Up, Down, Tab and Back-Tab |
| TuiInput.ResultsCaptureRule | src/tui/input.rs:466-485 | only Left and Right on row 6 change the capture method, and Left undoes Right there |
| TuiInput.ResultsToggleRule | src/tui/input.rs:462-466 | only Space changes the toggles: ray tracing on row 5, the anti-cheat acknowledgement on row 7 |
| TuiInput.ResultsTypingRule | src/tui/input.rs:498-512 | a character is ignored on rows 5 to 7, with Ctrl, or when it is a space; elsewhere it switches to editing and is appended to that row's field only |
| TuiInput.ResultsBackspaceRule | src/tui/input.rs:493-497 | Backspace while editing removes the last character of the selected field only, which is the upscaling text from row 5 on |
| TuiInput.GameKeyKeepsCursor | src/tui/input.rs:417-447 | the search cursor stays on a listed game (or 0), any change of the query resets it, and only Backspace and characters change the query |
| TuiInput.Granted | src/tui/input.rs:243-250 | the configuration saved has all three consents set and every other setting unchanged |
| TuiInput.ConsentStepRules | src/tui/input.rs:231-258 | the cursor stays on one of three boxes; the configuration is saved and the hardware step reached only with Enter, every box checked and a successful save; only Space flips a box, the one under the cursor |
| TuiInput.ReviewToggleRule | src/tui/input.rs:518-536 | a review key folds or unfolds at most one section, and the same key twice restores them |
| TuiInput.FeedbackIndicesRule | src/tui/input.rs:539-595 | both feedback indices stay within their lists, and a change of category puts the issue back on the first |
| TuiInput.ModalReturns | src/tui/input.rs:609-636 | Esc closes a modal back onto the screen it opened over; Enter does the same, starting the install only for the Windows install prompt |
| TuiInput.SyntheticReturns | src/tui/input.rs:169-193 | an abandoned run or a dismissed result returns to the screen the run was started from |
| TuiInput.StartContribute | src/tui/input.rs:195-206 | a fresh guided flow from the stored configuration, starting at the hardware step exactly when consent is already complete |
| TuiInput.StartSyntheticWorker | src/tui/input.rs:138-166 | the app's view becomes that of a started synthetic run |
| TuiInput.HandleHome | src/tui/input.rs:51-136 | the app changes as the home step says, and quits exactly when that step does |
| TuiInput.HomeEnter | src/tui/input.rs:95-109 | Enter opens the highlighted entry, and quits exactly on the quit entry |
| TuiInput.HomeChar | src/tui/input.rs:110-132 | a letter changes the app as the home step says, never quitting |
| TuiInput.HandleSyntheticRunning | src/tui/input.rs:169-176 | the app changes as the running-synthetic step says |
| TuiInput.HandleSyntheticResult | src/tui/input.rs:179-193 | the app changes as the synthetic-result step says |
| TuiInput.HandleContributeResult | src/tui/input.rs:220-229 | the app changes as the contribution-result step says |
| TuiInput.HandleConsent | src/tui/input.rs:231-258 | the app and the consent boxes change as the consent step says, which also gives the configuration saved |
| TuiInput.HandleHardware | src/tui/input.rs:273-351 | the form changes as the form key step says and the view as the hardware step says |
| TuiInput.HardwareFormKeyOnApp | src/tui/input.rs:295-349 | a key reaching the form changes only the form, and says whether the flow moves on |
| TuiInput.KeysBesideTheForm | src/tui/input.rs:274-294 | Esc and the detection keys leave the form as it is |
| TuiInput.FormKey | src/tui/input.rs:295-349 | the form changes as the form key step says, which also says whether the flow moves on |
| TuiInput.FormEnter | src/tui/input.rs:306-324 | Enter ends editing or moves on from a form that may continue, committing the values in both cases, else starts editing |
| TuiInput.FormChar | src/tui/input.rs:336-348 | G, C and R flip a confirmation box; other characters without Ctrl are typed while editing |
| TuiInput.HandleBaseline | src/tui/input.rs:353-388 | the app changes as the baseline step says |
| TuiInput.HandleGame | src/tui/input.rs:417-447 | the app changes as the game step says, over the list shown before the key |
| TuiInput.HandleResults | src/tui/input.rs:450-515 | the app changes as the results step says |
| TuiInput.HandleReview | src/tui/input.rs:518-536 | the app changes as the review step says |
| TuiInput.HandleFeedback | src/tui/input.rs:539-595 | the app changes as the feedback step says for the schema's list sizes |
| TuiInput.FeedbackPick | src/tui/input.rs:539-575 | a key on the category or issue list changes the app as the feedback step says |
| TuiInput.FeedbackMessage | src/tui/input.rs:576-595 | a key on the message step changes the app as the feedback step says |
| TuiInput.HandleFeedbackResult | src/tui/input.rs:598-606 | the app changes as the feedback-result step says |
| TuiInput.HandleErrorModal | src/tui/input.rs:609-636 | the app changes as the modal step says |
| TuiInput.HandleContributeKey | src/tui/input.rs:208-218 | a guided-flow key goes to its step's handler; a configuration is saved only from the consent step, with all consents granted |
| TuiInput.HandleKey | src/tui/input.rs:27-49 | Ctrl+Q quits from every screen and changes nothing else; otherwise the interface quits exactly when the home screen's key does, and saves only full consent |
| TuiInput.PositiveLow | src/tui/input.rs:807-822 | a low is kept exactly when the trimmed text parses as a number above zero |
| TuiInput.DraftSubmission | src/tui/input.rs:793-851 | the committed hardware, the game's name, the resolution as the normaliser as written answers it (trimmed when unrecognised), the trimmed preset, the average, the lows only when above zero, and the trimmed upscaling text when not empty |
| TuiInput.AsPreviewIssues | src/tui/input.rs:878-881 | one preview issue per validation problem, in order |
| TuiInput.BuildSubmissionPreview | src/tui/input.rs:781-882 | exactly one of a preview and a non-empty issue list; a missing form, a missing game and an average that is not a number are each reported alone; the resolution goes through the normaliser as written |
| TuiInput.PreviewSubmissionFacts | src/tui/input.rs:781-882 | a preview carries the anti-cheat acknowledgement and the capture method's wire value, has lows above zero when present, and passes validation |
| TuiInput.HardwareFormKey | src/tui/input.rs:273-351 | definition: the form's reaction to a key, confirmation and detection letters before typing |
| TuiInput.ResultsKey | src/tui/input.rs:450-516 | definition: the results form's reaction to a key |
| TuiInput.GameKey | src/tui/input.rs:417-448 | definition: the game search's reaction to a key |
| TuiInput.HomeStep | src/tui/input.rs:51-135 | definition of `handle_home_key` on the view; `HandleKey` states when it quits |
| TuiInput.SyntheticRunningStep | src/tui/input.rs:169-176 | definition: Esc abandons the run and returns |
| TuiInput.SyntheticResultStep | src/tui/input.rs:179-193 | definition: leaving a run started from the guided flow keeps its scores as the baseline |
| TuiInput.ContributeResultStep | src/tui/input.rs:220-229 | definition of `handle_contribute_result_key` on the view |
| TuiInput.ConsentStep | src/tui/input.rs:231-258 | definition: the view, boxes, cursor and saved configuration after a consent key; `HandleKey` states only full consent is saved |
| TuiInput.HardwareStep | src/tui/input.rs:273-351 | definition: Esc goes home, D starts detection, the flow moves on when the form can continue |
| TuiInput.BaselineStep | src/tui/input.rs:353-387 | definition of `handle_contribute_baseline_key` on the view |
| TuiInput.GameStep | src/tui/input.rs:417-448 | definition: Enter picks the highlighted game when the list has one |
| TuiInput.ResultsStep | src/tui/input.rs:450-516 | definition: Esc back to the game step, Enter outside editing on to the review, other keys to the form |
| TuiInput.ReviewStep | src/tui/input.rs:518-537 | definition: Enter queues the submission; 1, 2 and 3 fold sections |
| TuiInput.FeedbackKeyStep | src/tui/input.rs:539-596 | definition of `handle_feedback_key` on the view |
| TuiInput.FeedbackResultStep | src/tui/input.rs:598-607 | definition: Enter and Esc clear the result and go home |
| TuiInput.ErrorModalStep | src/tui/input.rs:609-637 | definition: Enter and Esc close the dialog; on Windows Enter on the install prompt starts the install |

## Left out

- Games.FindsItself: assumes `KeysListed()`, meaning the transcribed `TableKeys` equal the match keys computed from the table's names. The keys' distinctness is proved, but evaluating the key function on every literal name is beyond the solver's budget.
- AntiCheat.RiskTablesAgree: assumes `Games.KeysListed()`, for the same reason as `Games.FindsItself`.
- Cli.ParseGameInputIdempotent: assumes `Games.KeysListed()`, for the same reason as `Games.FindsItself`.
- Cli.GuardBlocksHighRiskEntries: assumes `Games.KeysListed()`, for the same reason as `Games.FindsItself`.
- Cli.KnownGamesHaveHints: assumes `Games.KeysListed()`, for the same reason as `Games.FindsItself`.
- Deps.PrependIdempotent: holds only under `IdempotencePre`. `Deps.OneLetterDirectoryAddedTwice` shows a one-letter directory that is prepended again on a second call.
- Storage: only the in-memory state of the pending, uploaded and invalid directories is modelled. File I/O, JSON (de)serialisation and directory resolution are maps and parameters.
- Storage: `from_session`, `pending_count`, the build save/load/list/delete operations and `health_check`/`get_leaderboard` are not modelled. For builds, only the name sanitiser is modelled.
- The sync lock is an abstract single-holder token. Its meaning across processes (lock files, process ids, the operating system's process table and boot time) is reduced to a `Host` value given as input.
- Time, UUIDs and the clock are explicit inputs: instants are millisecond counts, and ids and timestamps are parameters. The RFC 3339 parser is a parameter. chrono's out-of-range timestamps are not modelled.
- The network is left out: reqwest sends, the axum routing, server-sent events and the Tokio runtimes. `should_queue_offline`, `should_queue_offline_feedback` and the outcome of each send are parameters. The `ApiError::InvalidResponse` variant is not modelled.
- Frame times, FPS and scores are reals. f64 rounding, `as usize` casts and `{:.1}` display formatting are not modelled, apart from the explicit `i32` wrap-around in the quality score (see Findings).
- Unicode `to_lowercase` is modelled as ASCII lower-casing; `trim` and `split_whitespace` use the full Unicode White_Space set, as Rust's do.
- MangoHudLog.DateLike: `char::is_numeric` is modelled as ASCII digits, so a log-name part written in other numeric characters (fullwidth `２０２４`, say) is date-like in the program and not in the model.
- Message and label texts shown to the user are not modelled: error messages, the TUI modal texts and the acceptance time.
- The target operating system (`cfg!(target_os)`) is a parameter.
- Feedback: `collect_diagnostics` is not modelled, apart from the dependency-detail sanitising it uses. `benchmark_notes` is not modelled.
- Deps: `dependency_bulk_install_command`'s in-place sort and de-duplication are modelled as the sorted, duplicate-free result `SortDistinct`. `is_command_available` is a set of commands given as input.
- Deps: winget and bootstrap installs are not modelled. The PowerShell script text is not modelled.
- Hardware: CPU and system detection, and the command-running GPU and RAM probes, are not modelled; only their parsers and tables are. The numeric formatting inside the RAM size text is a parameter.
- BenchmarkRunner: running the external tools is not modelled (7-Zip, sysbench, fio, Blender, glmark2, WinSAT, the timeout reader threads and the CPU clock sampler threads). Only the output parsers, the stage tables and the filling of the results record are modelled. The time-based internal CPU, RAM and disk scores are inputs.
- TUI: rendering, the crossterm event loop, the ratatui widgets and the theme are not modelled.
- TUI: the mpsc workers (hardware detection, the synthetic benchmark, the PresentMon install) are modelled as flags set and cleared by the handlers.
- TUI: the submit handlers send over the network and are not modelled.
- TUI: `scroll_offset`, `last_tick`, and the copy of baseline results into the submission (src/tui/input.rs:861-876) are not modelled.
- TUI: the feedback schema and the games table are constructor parameters.
- TUI: loading and saving the configuration, locating PresentMon and the install command are inputs of an `Env` value.
- TUI: the bound of the game-search cursor is kept by `TuiInput.GameKeyKeepsCursor` rather than by `TuiState.App.Valid`.
- Interactive prompt loops and printing are not modelled (the feedback CLI, the guided, import and doctor flows). Only the answer mapping and the classification rules are modelled.
- The macOS and Windows foreground-window lookups are not modelled. On Linux only the parsers of the compositor output are modelled.
- The static assets of the local web server are not modelled.

## Findings

| source | as written | input that shows it | evidently intended | confidence | as-written member | corrected member |
|---|---|---|---|---|---|---|
| src/benchmark/submit.rs:242-251 | a key ending in `p` is trimmed of every trailing `p` and answered as `<n>p`, so for 2160 the answer is `2160p`, which the alias table maps to `4K` | `"2160pp"` normalises to `"2160p"`, and normalising that again gives `"4K"` | the normaliser answers with canonical names, so a second call changes nothing | medium; not executed | Submission.NormalizeResolutionAsWritten (Submission.AsWrittenNotFixedAt2160) | Submission.NormalizeResolution (Submission.NormalizeIsFixedPoint) |
| src/api/client.rs:388-399 | the tracker conversion table has no row for `5k`, although the client's normaliser answers `5K` for 5120x2880 | `"5K"` is sent to the tracker as 1920x1080 | `5K` is sent as 5120x2880 | medium; not executed | ApiClient.TrackerDimsAsWritten (ApiClient.AsWrittenFiveKFallsBack) | ApiClient.TrackerDims (ApiClient.FiveKConverted) |
| src/benchmark/live.rs:638-640 | the dropped-sample count is cast to `i32` before the penalty is computed | 2^31 dropped samples give a negative penalty, and the score is 100 (one dropped sample scores 95) | more dropped samples never raise the score | low; not executed | LiveCapture.QualityScoreAsWritten (LiveCapture.QualityScoreWrapsOnHugeDropCount) | LiveCapture.QualityScore (LiveCapture.QualityScoreAntitone) |
| src/benchmark/focus/mod.rs:31-37 | the `.exe` and `.app` suffixes are stripped case-sensitively and only then is the name lower-cased, so `GAME.EXE` keeps its extension | process `GAME.EXE` against the filter `game.exe` (the test at src/import/capframex.rs:247-260 expects both `GAME.EXE` rows to be kept) normalises to `game.exe` against `game`, so no row is kept | a process name matches whatever the case of its extension | medium; not executed | ProcessFocus.NormalizeProcessName (ProcessFocus.UpperCaseExeDoesNotMatch, CapFrameX.UpperCaseProcessNotIncluded) | ProcessFocus.NormalizeProcessNameCaseless (ProcessFocus.CaselessUpperExeMatches) |
