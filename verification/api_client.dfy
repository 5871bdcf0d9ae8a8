/** The backend client: the settings it reads from the environment and the
    configuration, the payload a submission becomes (the resolution as
    `WxH`, RAM clamped, session minutes), the retry backoff, and
    `submit_benchmark` with its validation and consent gates and its retry
    loop. Sending a request is not modelled: what each attempt brought back
    is an input. */
module ApiClient {
  import opened Wrappers
  import opened Text
  import opened Float
  import opened Hardware
  import opened Submission
  import Config

  /* ------------------------------------------------------------ resolution */

  /** A resolution as width and height in pixels. */
  datatype Dims = Dims(width: nat, height: nat)

  /** The `WxH` text of a resolution (`format!("{}x{}", width, height)`). */
  function RenderDims(d: Dims): string
  {
    NatToString(d.width) + "x" + NatToString(d.height)
  }

  /** What every unrecognised resolution becomes. */
  const FallbackDims: Dims := Dims(1920, 1080)

  /** The sizes the tracker accepts: `u32` sides of at least 320 by 200. */
  predicate TrackerSize(d: Dims)
  {
    320 <= d.width <= U32Max && 200 <= d.height <= U32Max
  }

  /** The name table of `to_tracker_resolution`; `fiveK` adds the `5k` row
      it lacks (see `DimsOfKey`). */
  function NamedDims(k: string, fiveK: bool): (r: Option<Dims>)
    ensures r.Some? ==> TrackerSize(r.value) && 'x' !in k
  {
    if k == "720p" then Some(Dims(1280, 720))
    else if k == "900p" then Some(Dims(1600, 900))
    else if k == "1080p" || k == "fhd" then Some(Dims(1920, 1080))
    else if k == "1200p" then Some(Dims(1920, 1200))
    else if k == "1440p" || k == "qhd" || k == "2k" then Some(Dims(2560, 1440))
    else if k == "1600p" then Some(Dims(2560, 1600))
    else if k == "1800p" then Some(Dims(3200, 1800))
    else if k == "4k" || k == "2160p" || k == "uhd" then Some(Dims(3840, 2160))
    else if k == "8k" || k == "4320p" then Some(Dims(7680, 4320))
    else if fiveK && k == "5k" then Some(Dims(5120, 2880))
    else None
  }

  /** The height table used for a bare height or `<h>p`. */
  function HeightDims(h: nat): (d: Dims)
    ensures TrackerSize(d)
    ensures d.height == h || d == FallbackDims
  {
    if h == 720 then Dims(1280, 720)
    else if h == 900 then Dims(1600, 900)
    else if h == 1080 then Dims(1920, 1080)
    else if h == 1200 then Dims(1920, 1200)
    else if h == 1440 then Dims(2560, 1440)
    else if h == 1600 then Dims(2560, 1600)
    else if h == 1800 then Dims(3200, 1800)
    else if h == 2160 then Dims(3840, 2160)
    else if h == 4320 then Dims(7680, 4320)
    else FallbackDims
  }

  /** `parse_resolution_dimensions`: `WxH` with `u32` sides, refused below
      320 by 200. */
  function ParseDimensions(value: string): (r: Option<Dims>)
    ensures r.Some? ==> TrackerSize(r.value) && 'x' in value
  {
    match SplitOnce(value, 'x')
    case None => None
    case Some((w, h)) =>
      var width := ParseUnsigned(w, U32Max);
      var height := ParseUnsigned(h, U32Max);
      if width.None? || height.None? || width.value < 320 || height.value < 200 then None
      else Some(Dims(width.value, height.value))
  }

  /** The lookup of `to_tracker_resolution` on a key: the name table, then
      `WxH`, then a height with its trailing `p`s dropped, else 1920x1080. */
  function DimsOfKey(k: string, fiveK: bool): (d: Dims)
    ensures TrackerSize(d)
  {
    if k == [] then FallbackDims
    else if NamedDims(k, fiveK).Some? then NamedDims(k, fiveK).value
    else if ParseDimensions(k).Some? then ParseDimensions(k).value
    else match ParseUnsigned(TrimEndChars(k, {'p'}), U32Max)
      case Some(h) => HeightDims(h)
      case None => FallbackDims
  }

  /** `to_tracker_resolution` as written: its name table has no row for
      `5k`. */
  function TrackerDimsAsWritten(resolution: string): (d: Dims)
    ensures TrackerSize(d)
  {
    DimsOfKey(ResolutionKey(resolution), false)
  }

  /** `to_tracker_resolution`, with `5K` (a name `normalize_resolution`
      answers with) converted to 5120x2880 instead of the fallback. */
  function TrackerDims(resolution: string): (d: Dims)
    ensures TrackerSize(d)
  {
    DimsOfKey(ResolutionKey(resolution), true)
  }

  /** The `WxH` text sent to the tracker, by the conversion as written; it
      always reads back as a size the tracker accepts. */
  function ToTrackerResolution(resolution: string): (r: string)
    ensures ParseDimensions(r) == Some(TrackerDimsAsWritten(resolution))
  {
    RenderParse(TrackerDimsAsWritten(resolution));
    RenderDims(TrackerDimsAsWritten(resolution))
  }

  /** Splitting `a x b` at the first `x` gives `a` and `b` when `a` has
      no `x`. */
  lemma SplitOnceAfter(a: string, b: string)
    requires 'x' !in a
    ensures SplitOnce(a + "x" + b, 'x') == Some((a, b))
  {
    var s := a + "x" + b;
    assert s == a + ['x'] + b;
    IndexOfAnyAfter(a, 'x', b, {'x'});
    assert s[..|a|] == a && s[|a| + 1..] == b;
  }

  /** A size the tracker accepts is read back from its `WxH` text. */
  lemma RenderParse(d: Dims)
    requires TrackerSize(d)
    ensures ParseDimensions(RenderDims(d)) == Some(d)
  {
    var w := NatToString(d.width);
    var h := NatToString(d.height);
    assert 'x' !in w by {
      assert forall i :: 0 <= i < |w| ==> IsAsciiDigit(w[i]);
    }
    SplitOnceAfter(w, h);
    ParseNatToString(d.width, U32Max);
    ParseNatToString(d.height, U32Max);
  }

  /** `WxH` text is visible ASCII without upper case. */
  lemma RenderShape(d: Dims)
    ensures AsciiGraphic(RenderDims(d)) && NoAsciiUpper(RenderDims(d))
  {
    var s := RenderDims(d);
    var w := NatToString(d.width);
    assert forall i :: 0 <= i < |s| ==> IsAsciiDigit(s[i]) || s[i] == 'x';
  }

  /** The text sent to the tracker converts to itself: converting twice is
      converting once. */
  lemma TrackerResolutionIdempotent(resolution: string)
    ensures ToTrackerResolution(ToTrackerResolution(resolution)) == ToTrackerResolution(resolution)
  {
    var d := TrackerDimsAsWritten(resolution);
    var s := RenderDims(d);
    RenderShape(d);
    KeyOfGraphic(s);
    AsciiLowerFixed(s);
    RenderParse(d);
    assert ResolutionKey(s) == s;
    assert TrackerDimsAsWritten(s) == d;
  }

  /** A bare height, with or without trailing `p`s, converts through the
      height table. */
  lemma {:induction false} HeightKeyDims(v: nat, ps: string)
    requires v <= U32Max && forall i :: 0 <= i < |ps| ==> ps[i] == 'p'
    requires NamedDims(NatToString(v) + ps, true).None?
    ensures DimsOfKey(NatToString(v) + ps, true) == HeightDims(v)
  {
    var d := NatToString(v);
    var k := d + ps;
    assert 'x' !in k by {
      assert forall i :: 0 <= i < |k| ==> k[i] == 'p' || IsAsciiDigit(k[i]);
    }
    TrimPs(d, ps);
    ParseNatToString(v, U32Max);
  }

  /** Dropping the trailing `p`s of digits followed by `p`s leaves the
      digits. */
  lemma {:induction false} TrimPs(d: string, ps: string)
    requires d != [] && AllDigits(d) && forall i :: 0 <= i < |ps| ==> ps[i] == 'p'
    ensures TrimEndChars(d + ps, {'p'}) == d
    decreases |ps|
  {
    if ps == [] {
      assert d + ps == d;
    } else {
      var k := d + ps;
      assert k[..|k| - 1] == d + ps[..|ps| - 1];
      TrimPs(d, ps[..|ps| - 1]);
    }
  }

  /* ------------------------------------------- agreement with the normaliser */

  /** The tracker size of an alias key, for the names the normaliser
      answers with. */
  lemma HeightTargetDims()
    ensures DimsOfKey("720p", true) == Dims(1280, 720) && DimsOfKey("900p", true) == Dims(1600, 900)
    ensures DimsOfKey("1080p", true) == Dims(1920, 1080) && DimsOfKey("1440p", true) == Dims(2560, 1440)
  {
  }

  lemma NamedTargetDims()
    ensures DimsOfKey("4k", true) == Dims(3840, 2160) && DimsOfKey("8k", true) == Dims(7680, 4320)
    ensures DimsOfKey("5k", true) == Dims(5120, 2880)
  {
    FourKDims();
    EightKDims();
    FiveKDims();
  }

  lemma FourKDims()
    ensures DimsOfKey("4k", true) == Dims(3840, 2160)
  {
  }

  lemma EightKDims()
    ensures DimsOfKey("8k", true) == Dims(7680, 4320)
  {
  }

  lemma FiveKDims()
    ensures DimsOfKey("5k", true) == Dims(5120, 2880)
  {
  }

  lemma WideTargetDims()
    ensures DimsOfKey("3440x1440", true) == Dims(3440, 1440)
  {
    WideDimensions();
  }

  lemma WideDimensions()
    ensures ParseDimensions("3440x1440") == Some(Dims(3440, 1440))
  {
    Digits3440();
    Digits1440();
    assert RenderDims(Dims(3440, 1440)) == "3440x1440";
    RenderParse(Dims(3440, 1440));
  }

  lemma Digits3440()
    ensures NatToString(3440) == "3440"
  {
    assert NatToString(3) == "3";
    assert NatToString(34) == "34";
    assert NatToString(344) == "344";
  }

  lemma Digits1440()
    ensures NatToString(1440) == "1440"
  {
    assert NatToString(1) == "1";
    assert NatToString(14) == "14";
    assert NatToString(144) == "144";
  }

  /** The key of each alias target. */
  lemma TargetKeys(r: string)
    requires AliasTarget(r)
    ensures var k := AsciiLower(r);
      (r == "4K" ==> k == "4k") && (r == "5K" ==> k == "5k") && (r == "8K" ==> k == "8k") &&
      (r != "4K" && r != "5K" && r != "8K" ==> k == r)
  {
    TargetShape(r);
    assert AsciiLower("4K") == "4k";
    assert AsciiLower("5K") == "5k";
    assert AsciiLower("8K") == "8k";
    if r != "4K" && r != "5K" && r != "8K" {
      AsciiLowerFixed(r);
    }
  }

  /** With the `5k` row added, every alias target converts to a real size;
      only `1080p` lands on 1920x1080. */
  lemma TargetDims(r: string)
    requires AliasTarget(r)
    ensures DimsOfKey(AsciiLower(r), true) != FallbackDims || r == "1080p"
  {
    TargetKeys(r);
    HeightTargetDims();
    NamedTargetDims();
    WideTargetDims();
  }

  /** `<h>p` outside the name table converts through the height table. */
  lemma LabelDims(v: nat)
    requires v <= U16Max && NamedDims(HeightLabel(v), true).None?
    ensures TrackerDims(HeightLabel(v)) == HeightDims(v)
  {
    assert HeightLabel(v) == NatToString(v) + "p";
    LabelKey(v);
    HeightKeyDims(v, "p");
  }

  /** `1080p` is the label of 1080. */
  lemma Label1080()
    ensures HeightLabel(1080) == "1080p"
  {
    assert NatToString(1) == "1";
    assert NatToString(10) == "10";
    assert NatToString(108) == "108";
    assert NatToString(1080) == "1080";
  }

  /** Every listed height but 1080 has its own size. */
  lemma ListedHeightDims(v: nat)
    requires ListedHeight(v) && v != 1080
    ensures HeightDims(v) != FallbackDims
  {
  }

  /** `<h>p` for a height with its own size converts to it; only `1080p`
      lands on 1920x1080. */
  lemma LabelNeverFallsBack(v: nat)
    requires v <= U16Max && (v == 1080 || HeightDims(v) != FallbackDims)
    ensures TrackerDims(HeightLabel(v)) == FallbackDims ==> HeightLabel(v) == "1080p"
  {
    var r := HeightLabel(v);
    if NamedDims(r, true).None? {
      LabelDims(v);
      if v == 1080 {
        Label1080();
      }
    } else {
      LabelKey(v);
      NamedFallback(r, true);
      assert r != "fhd" by {
        assert r[|r| - 1] == 'p';
      }
    }
  }

  /** Only `1080p` and `fhd` name 1920x1080 in the name table. */
  lemma NamedFallback(k: string, fiveK: bool)
    ensures NamedDims(k, fiveK) == Some(FallbackDims) ==> k == "1080p" || k == "fhd"
  {
  }

  /** With the `5k` row added, every alias target converts to a size of
      its own, except `1080p`. */
  lemma TargetNeverFallsBack(r: string)
    requires AliasTarget(r)
    ensures TrackerDims(r) == FallbackDims ==> r == "1080p"
  {
    TargetShape(r);
    KeyOfGraphic(r);
    TargetDims(r);
  }

  /** The corrected pair: whatever the corrected normaliser recognises, the
      corrected conversion sends as the size it names; only a name for
      1080p ends up at 1920x1080. */
  lemma RecognisedNeverFallsBack(s: string)
    requires NormalizeResolution(s).Some?
    ensures var r := NormalizeResolution(s).value;
      TrackerDims(r) == FallbackDims ==> r == "1080p"
  {
    NormalizedIsCanonical(s);
    CanonicalNeverFallsBack(NormalizeResolution(s).value);
  }

  lemma CanonicalNeverFallsBack(r: string)
    requires Canonical(r)
    ensures TrackerDims(r) == FallbackDims ==> r == "1080p"
  {
    if AliasTarget(r) {
      TargetNeverFallsBack(r);
    } else {
      var v: nat :| ListedHeight(v) && v != 2160 && r == HeightLabel(v);
      if v != 1080 {
        ListedHeightDims(v);
      }
      LabelNeverFallsBack(v);
    }
  }

  /** As written, `5K` is recognised by the normaliser but sent to the
      tracker as 1920x1080. */
  lemma AsWrittenFiveKFallsBack()
    ensures NormalizeResolutionAsWritten("5K") == Some("5K")
    ensures TrackerDimsAsWritten("5K") == FallbackDims
  {
    AsWrittenFiveKRecognised();
    AsWrittenFiveKDims();
  }

  lemma AsWrittenFiveKRecognised()
    ensures NormalizeResolutionAsWritten("5K") == Some("5K")
  {
    FiveKKey();
    FiveKNamesItself();
    FiveKLower();
  }

  lemma AsWrittenFiveKDims()
    ensures TrackerDimsAsWritten("5K") == FallbackDims
  {
    FiveKKey();
    FiveKKeyFallsBack();
  }

  /** The two conversions differ only on the key `5k`. */
  lemma ConversionsDifferOnlyAtFiveK(k: string)
    requires k != "5k"
    ensures DimsOfKey(k, false) == DimsOfKey(k, true)
  {
  }

  /** Among canonical names only `5K` has the key `5k`. */
  lemma FiveKKeyOnlyOfFiveK(r: string)
    requires Canonical(r)
    ensures ResolutionKey(r) == "5k" ==> r == "5K"
  {
    if AliasTarget(r) {
      TargetKeyFiveK(r);
    } else {
      var v: nat :| ListedHeight(v) && v != 2160 && r == HeightLabel(v);
      LabelKeyNotFiveK(v);
    }
  }

  lemma TargetKeyFiveK(r: string)
    requires AliasTarget(r)
    ensures ResolutionKey(r) == "5k" ==> r == "5K"
  {
    TargetShape(r);
    KeyOfGraphic(r);
    TargetKeys(r);
  }

  lemma LabelKeyNotFiveK(v: nat)
    requires ListedHeight(v)
    ensures ResolutionKey(HeightLabel(v)) != "5k"
  {
    LabelKey(v);
    var d := NatToString(v);
    assert HeightLabel(v) == d + "p";
    assert HeightLabel(v)[|HeightLabel(v)| - 1] == 'p';
  }

  /** The program as written: of everything the normaliser recognises, only
      a name for 1080p and `5K` are sent to the tracker as 1920x1080. */
  lemma AsWrittenRecognisedFallsBackOnlyAtFiveK(s: string)
    requires NormalizeResolutionAsWritten(s).Some?
    ensures var r := NormalizeResolutionAsWritten(s).value;
      TrackerDimsAsWritten(r) == FallbackDims ==> r == "1080p" || r == "5K"
  {
    CorrectionOnlyAt2160(s);
    Label2160();
    if NormalizeResolutionAsWritten(s) == NormalizeResolution(s) {
      NormalizedIsCanonical(s);
      CanonicalFallsBackAsWritten(NormalizeResolution(s).value);
    } else {
      Label2160Dims();
    }
  }

  lemma CanonicalFallsBackAsWritten(r: string)
    requires Canonical(r)
    ensures TrackerDimsAsWritten(r) == FallbackDims ==> r == "1080p" || r == "5K"
  {
    FiveKKeyOnlyOfFiveK(r);
    CanonicalNeverFallsBack(r);
    if ResolutionKey(r) != "5k" {
      ConversionsDifferOnlyAtFiveK(ResolutionKey(r));
    }
  }

  /** `2160p` is sent as 3840x2160. */
  lemma Label2160Dims()
    ensures TrackerDimsAsWritten("2160p") == Dims(3840, 2160)
  {
    Key2160();
    Key2160Dims();
  }

  lemma Key2160Dims()
    ensures DimsOfKey("2160p", false) == Dims(3840, 2160)
  {
  }

  lemma Key2160()
    ensures ResolutionKey("2160p") == "2160p"
  {
    Shape2160();
    KeyOfGraphic("2160p");
    AsciiLowerFixed("2160p");
  }

  lemma Shape2160()
    ensures AsciiGraphic("2160p") && NoAsciiUpper("2160p")
  {
    assert AllDigits("2160");
    DigitsThenPs("2160", "p");
    assert "2160" + "p" == "2160p";
  }

  /** The corrected conversion sends `5K` as 5120x2880. */
  lemma FiveKConverted()
    ensures TrackerDims("5K") == Dims(5120, 2880)
  {
    FiveKKey();
    NamedTargetDims();
  }

  lemma FiveKKey()
    ensures ResolutionKey("5K") == "5k"
  {
    FiveKNamesItself();
    KeyOfGraphic("5K");
    FiveKLower();
  }

  lemma FiveKLower()
    ensures AsciiLower("5K") == "5k"
  {
    assert AsciiLower("5K")[1] == 'k';
  }

  lemma FiveKKeyFallsBack()
    ensures DimsOfKey("5k", false) == FallbackDims
  {
    assert SplitOnce("5k", 'x').None?;
    assert TrimEndChars("5k", {'p'}) == "5k";
    ParseUnsignedNeedsDigits("5k", U32Max, 1);
  }

  /* ---------------------------------------------------------------- settings */

  /** `DEFAULT_API_URL`, the client's own fallback. */
  const LocalApiUrl: string := "http://localhost:8000"

  /** `normalize_base_url`: trimmed and without trailing `/`; blank input
      gives the local default. */
  function NormalizeBaseUrl(baseUrl: string): (r: string)
    ensures Trim(baseUrl) == [] ==> r == LocalApiUrl
    ensures Trim(baseUrl) != [] ==>
      StartsWith(Trim(baseUrl), r) && (r == [] || r[|r| - 1] != '/') &&
      forall i :: |r| <= i < |Trim(baseUrl)| ==> Trim(baseUrl)[i] == '/'
  {
    var t := Trim(baseUrl);
    if t == [] then LocalApiUrl else TrimEndChars(t, {'/'})
  }

  /** A trimmed URL not ending in `/` survives, whatever `/`s follow it. */
  lemma {:induction false} BaseUrlDropsSlashes(url: string, slashes: string)
    requires url != [] && IsTrimmed(url) && url[|url| - 1] != '/'
    requires forall i :: 0 <= i < |slashes| ==> slashes[i] == '/'
    ensures NormalizeBaseUrl(url + slashes) == url
  {
    var s := url + slashes;
    assert IsTrimmed(s);
    TrimOfTrimmed(s);
    TrimSlashes(url, slashes);
  }

  lemma {:induction false} TrimSlashes(url: string, slashes: string)
    requires url != [] && url[|url| - 1] != '/'
    requires forall i :: 0 <= i < |slashes| ==> slashes[i] == '/'
    ensures TrimEndChars(url + slashes, {'/'}) == url
    decreases |slashes|
  {
    if slashes == [] {
      assert url + slashes == url;
    } else {
      var s := url + slashes;
      assert s[..|s| - 1] == url + slashes[..|slashes| - 1];
      TrimSlashes(url, slashes[..|slashes| - 1]);
    }
  }

  /** A URL made only of `/`s is not blank, so it becomes the empty URL
      rather than the default. */
  lemma SlashOnlyBaseUrlIsEmpty()
    ensures NormalizeBaseUrl("/") == []
  {
    TrimOfTrimmed("/");
  }

  /** `parse_bool_value`, after trimming and ASCII lower-casing. */
  function ParseBoolValue(value: string): (r: Option<bool>)
    ensures var k := AsciiLower(Trim(value));
      (r == Some(true) <==> k in {"1", "true", "yes", "on"}) &&
      (r == Some(false) <==> k in {"0", "false", "no", "off"})
  {
    var k := AsciiLower(Trim(value));
    if k == "1" || k == "true" || k == "yes" || k == "on" then Some(true)
    else if k == "0" || k == "false" || k == "no" || k == "off" then Some(false)
    else None
  }

  /** Rust's `bool` text, and the words `true`/`false` in any case, read back. */
  lemma ParseBoolWords(b: bool, word: string)
    requires AsciiLower(word) == (if b then "true" else "false")
    ensures ParseBoolValue(word) == Some(b)
  {
    assert forall i :: 0 <= i < |word| ==> !IsWhitespace(word[i]) by {
      forall i | 0 <= i < |word|
        ensures !IsWhitespace(word[i])
      {
        assert 'a' <= AsciiLower(word)[i] <= 'z';
      }
    }
    TrimNoWhitespace(word);
  }

  /** The environment variables the client reads. */
  datatype ClientEnv = ClientEnv(
    apiUrl: Option<string>, timeoutSeconds: Option<string>, verifySsl: Option<string>, maxRetries: Option<string>)

  /** What `ApiClient` keeps. The HTTP client built from the timeout and
      the certificate setting is not modelled. */
  datatype ClientSettings = ClientSettings(
    baseUrl: string, timeoutSeconds: nat, verifySsl: bool, maxRetries: nat,
    consentPublicUse: bool, legalAttestation: bool)

  /** `ApiClient::new`: each environment variable that is set and valid
      wins over the configuration; public use comes from the consent, and
      the legal attestation needs both the terms and the retention notice. */
  function ClientFromEnv(env: ClientEnv, cfg: Config.Config): (c: ClientSettings)
    ensures c.timeoutSeconds >= 1
    ensures EnvNumber(env.timeoutSeconds, U64Max).Some? && EnvNumber(env.timeoutSeconds, U64Max).value > 0 ==>
      c.timeoutSeconds == EnvNumber(env.timeoutSeconds, U64Max).value
    ensures !(EnvNumber(env.timeoutSeconds, U64Max).Some? && EnvNumber(env.timeoutSeconds, U64Max).value > 0) ==>
      c.timeoutSeconds == MaxNat(cfg.api.timeoutSeconds, 1)
    ensures env.verifySsl.Some? && ParseBoolValue(env.verifySsl.value).Some? ==>
      c.verifySsl == ParseBoolValue(env.verifySsl.value).value
    ensures !(env.verifySsl.Some? && ParseBoolValue(env.verifySsl.value).Some?) ==> c.verifySsl == cfg.api.verifySsl
    ensures EnvNumber(env.maxRetries, U32Max).Some? ==> c.maxRetries == EnvNumber(env.maxRetries, U32Max).value
    ensures EnvNumber(env.maxRetries, U32Max).None? ==> c.maxRetries == cfg.api.maxRetries
    ensures env.apiUrl.Some? && Trim(env.apiUrl.value) != [] ==> c.baseUrl == NormalizeBaseUrl(env.apiUrl.value)
    ensures env.apiUrl.None? || Trim(env.apiUrl.value) == [] ==> c.baseUrl == NormalizeBaseUrl(cfg.api.baseUrl)
    ensures c.consentPublicUse == cfg.consent.consentPublicUse
    ensures c.legalAttestation == (cfg.consent.tosAccepted && cfg.consent.retentionAcknowledged)
    ensures c.consentPublicUse && c.legalAttestation <==> Config.IsComplete(cfg.consent)
  {
    var url := if env.apiUrl.Some? && Trim(env.apiUrl.value) != [] then env.apiUrl.value else cfg.api.baseUrl;
    var timeout :=
      match EnvNumber(env.timeoutSeconds, U64Max)
      case Some(t) => if t > 0 then t else MaxNat(cfg.api.timeoutSeconds, 1)
      case None => MaxNat(cfg.api.timeoutSeconds, 1);
    var verify :=
      match (if env.verifySsl.Some? then ParseBoolValue(env.verifySsl.value) else None)
      case Some(b) => b
      case None => cfg.api.verifySsl;
    var retries :=
      match EnvNumber(env.maxRetries, U32Max)
      case Some(n) => n
      case None => cfg.api.maxRetries;
    ClientSettings(
      NormalizeBaseUrl(url), timeout, verify, retries, cfg.consent.consentPublicUse,
      cfg.consent.tosAccepted && cfg.consent.retentionAcknowledged)
  }

  /** A numeric environment variable: set, and parsed as an unsigned
      number not above `max`. */
  function EnvNumber(value: Option<string>, max: nat): (r: Option<nat>)
    ensures r.Some? ==> value.Some? && r.value <= max
  {
    if value.Some? then ParseUnsigned(value.value, max) else None
  }

  function MaxNat(a: nat, b: nat): (r: nat)
    ensures r >= a && r >= b && (r == a || r == b)
  {
    if a >= b then a else b
  }

  /* ------------------------------------------------------------------ retry */

  function Pow2(e: nat): (r: nat)
    ensures r >= 1
  {
    if e == 0 then 1 else 2 * Pow2(e - 1)
  }

  /** `backoff_for_attempt`: 200 ms doubled per earlier attempt, at most
      four times, capped at 2 s. */
  function BackoffMs(attempt: nat): (ms: nat)
    ensures 200 <= ms <= 2000
  {
    var exponent := if attempt == 0 then 0 else if attempt - 1 > 4 then 4 else attempt - 1;
    var ms := 200 * Pow2(exponent);
    if ms > 2000 then 2000 else ms
  }

  /** The waits are 200, 400, 800 and 1600 ms, then 2 s from the fifth
      attempt on; attempt 0 waits as long as attempt 1. */
  lemma BackoffSchedule(attempt: nat)
    ensures BackoffMs(0) == 200 && BackoffMs(1) == 200 && BackoffMs(2) == 400
    ensures BackoffMs(3) == 800 && BackoffMs(4) == 1600
    ensures attempt >= 5 ==> BackoffMs(attempt) == 2000
  {
    assert Pow2(4) == 16;
  }

  /** A later attempt never waits less. */
  lemma BackoffMonotone(a: nat, b: nat)
    requires a <= b
    ensures BackoffMs(a) <= BackoffMs(b)
  {
    BackoffSchedule(a);
    BackoffSchedule(b);
  }

  /** `max_retries.saturating_add(1).max(1)`. */
  function MaxAttempts(maxRetries: nat): (n: nat)
    requires maxRetries <= U32Max
    ensures 1 <= n <= U32Max
    ensures maxRetries < U32Max ==> n == maxRetries + 1
  {
    if maxRetries + 1 > U32Max then U32Max else maxRetries + 1
  }

  /* ------------------------------------------------------------------ submit */

  /** `ApiError`. A failed request or an unreadable reply is `Network`;
      validation problems are kept as the list of problems found. */
  datatype ApiError =
    | Network
    | Api(status: nat, message: string)
    | ConsentRequired(hint: string)
    | Validation(issues: seq<Issue>)
    | Unreachable

  /** What one request brought back: a transport error (retryable when it
      timed out, failed to connect or could not be sent), or a status with
      the body decoded as a response (when it could be) and read as text
      (when it could be). */
  datatype Outcome =
    | TransportError(retryable: bool)
    | Reply(status: nat, decoded: Option<SubmissionResponse>, text: Option<string>)

  predicate IsSuccess(status: nat) { 200 <= status <= 299 }
  predicate IsServerError(status: nat) { 500 <= status <= 599 }

  /** Whether an attempt's outcome lets the loop try again. */
  predicate Retryable(o: Outcome)
  {
    (o.TransportError? && o.retryable) || (o.Reply? && IsServerError(o.status))
  }

  const ConsentHint: string :=
    "Run `fps-tracker start` (terminal) or `fps-tracker ui` (browser) and accept the consent terms before submitting."

  /** The result of a submission and how many requests were sent. */
  datatype Submitted = Submitted(result: Result<SubmissionResponse, ApiError>, sent: nat)

  /** The answer to attempt `a`, when the loop stops there. */
  function Settle(o: Outcome, a: nat): (r: Submitted)
    ensures r.sent == a && (r.result.Err? ==> r.result.error != Unreachable)
  {
    match o
    case TransportError(_) => Submitted(Err(Network), a)
    case Reply(status, decoded, text) =>
      if IsSuccess(status) then
        match decoded
        case None => Submitted(Err(Network), a)
        case Some(resp) =>
          if IsRejected(resp) then Submitted(Err(Api(422, RejectionSummary(resp))), a)
          else Submitted(Ok(resp), a)
      else Submitted(Err(Api(status, text.GetOr("Unknown error"))), a)
  }

  /** The retry loop from attempt `a` on: a retryable outcome before the
      last attempt moves to the next one; anything else settles. */
  function AttemptsFrom(outcomes: nat -> Outcome, maxAttempts: nat, a: nat): (r: Submitted)
    requires 1 <= a <= maxAttempts
    decreases maxAttempts - a
  {
    if a < maxAttempts && Retryable(outcomes(a)) then AttemptsFrom(outcomes, maxAttempts, a + 1)
    else Settle(outcomes(a), a)
  }

  /** `submit_benchmark`: invalid submissions and missing consent are
      refused before any request; otherwise the payload is posted up to
      `max_retries + 1` times. The delay between attempts is `BackoffMs`;
      the wait itself is not part of the model, since time is an input. */
  method SubmitBenchmark(client: ClientSettings, s: BenchmarkSubmission, outcomes: nat -> Outcome)
    returns (r: Result<SubmissionResponse, ApiError>, sent: nat)
    requires client.maxRetries <= U32Max
    ensures !Acceptable(s, Recognised(s.resolution)) ==>
      r == Err(Validation(Failing(ChecksOf(s, Recognised(s.resolution)), IssueCount))) && sent == 0
    ensures Acceptable(s, Recognised(s.resolution)) && !(client.consentPublicUse && client.legalAttestation) ==>
      r == Err(ConsentRequired(ConsentHint)) && sent == 0
    ensures Acceptable(s, Recognised(s.resolution)) && client.consentPublicUse && client.legalAttestation ==>
      Submitted(r, sent) == AttemptsFrom(outcomes, MaxAttempts(client.maxRetries), 1)
  {
    var checked := Validate(s);
    if checked.Err? {
      return Err(Validation(checked.error)), 0;
    }
    if !client.consentPublicUse || !client.legalAttestation {
      return Err(ConsentRequired(ConsentHint)), 0;
    }
    r, sent := PostWithRetries(outcomes, MaxAttempts(client.maxRetries));
  }

  /** The loop of `submit_benchmark` over attempts `1..=maxAttempts`. */
  method PostWithRetries(outcomes: nat -> Outcome, maxAttempts: nat)
    returns (r: Result<SubmissionResponse, ApiError>, sent: nat)
    requires maxAttempts >= 1
    ensures Submitted(r, sent) == AttemptsFrom(outcomes, maxAttempts, 1)
  {
    var attempt := 1;
    while attempt <= maxAttempts
      invariant 1 <= attempt <= maxAttempts
      invariant AttemptsFrom(outcomes, maxAttempts, attempt) == AttemptsFrom(outcomes, maxAttempts, 1)
      decreases maxAttempts - attempt
    {
      var o := outcomes(attempt);
      match o
      case TransportError(retryable) =>
        if attempt < maxAttempts && retryable {
          attempt := attempt + 1;
          continue;
        }
        return Err(Network), attempt;
      case Reply(status, decoded, text) =>
        if IsSuccess(status) {
          if decoded.None? {
            return Err(Network), attempt;
          }
          if IsRejected(decoded.value) {
            return Err(Api(422, RejectionSummary(decoded.value))), attempt;
          }
          return Ok(decoded.value), attempt;
        }
        if attempt < maxAttempts && IsServerError(status) {
          attempt := attempt + 1;
          continue;
        }
        return Err(Api(status, text.GetOr("Unknown error"))), attempt;
    }
    r, sent := Err(Unreachable), maxAttempts;
  }

  /** The loop sends at least one and at most `maxAttempts` requests, never
      ends in `Unreachable`, and every attempt before the last one sent was
      a retryable failure. */
  lemma {:induction false} AttemptsBounded(outcomes: nat -> Outcome, maxAttempts: nat, a: nat)
    requires 1 <= a <= maxAttempts
    ensures var r := AttemptsFrom(outcomes, maxAttempts, a);
      a <= r.sent <= maxAttempts && (r.result.Err? ==> r.result.error != Unreachable) &&
      forall i :: a <= i < r.sent ==> Retryable(outcomes(i))
    decreases maxAttempts - a
  {
    if a < maxAttempts && Retryable(outcomes(a)) {
      AttemptsBounded(outcomes, maxAttempts, a + 1);
    }
  }

  /** A success or a client error settles at once. */
  lemma SettlesOnFinalAnswer(outcomes: nat -> Outcome, maxAttempts: nat, a: nat)
    requires 1 <= a <= maxAttempts && !Retryable(outcomes(a))
    ensures AttemptsFrom(outcomes, maxAttempts, a) == Settle(outcomes(a), a)
  {
  }

  /** An accepted response comes from a successful status whose answer
      was not rejected. */
  lemma {:induction false} OkMeansAccepted(outcomes: nat -> Outcome, maxAttempts: nat, a: nat)
    requires 1 <= a <= maxAttempts
    ensures var r := AttemptsFrom(outcomes, maxAttempts, a);
      r.result.Ok? ==>
        var o := outcomes(r.sent);
        o.Reply? && IsSuccess(o.status) && o.decoded == Some(r.result.value) && !IsRejected(r.result.value)
    decreases maxAttempts - a
  {
    if a < maxAttempts && Retryable(outcomes(a)) {
      OkMeansAccepted(outcomes, maxAttempts, a + 1);
    }
  }

  /* ----------------------------------------------------------------- payload */

  datatype HardwarePayload = HardwarePayload(
    gpu: string, cpu: string, ramGb: nat, ramSpeed: Option<nat>, storageType: Option<string>,
    os: Option<string>, driverVersion: Option<string>)

  datatype SessionPayload = SessionPayload(
    game: string, resolution: string, qualityPreset: string, rayTracing: string, upscaling: string,
    upscalingMode: Option<string>, fpsAvg: F64, fps1Low: Option<F64>, fps01Low: Option<F64>,
    sessionDurationMinutes: Option<nat>)

  datatype TrackerPayload = TrackerPayload(
    hardware: HardwarePayload, sessions: seq<SessionPayload>, trackerVersion: Option<string>,
    sourceType: string, benchmarkTool: Option<string>, captureMethod: Option<string>,
    sceneTag: Option<string>, evidenceUrl: Option<string>, consentPublicUse: bool, legalAttestation: bool)

  /** The installed RAM (else the usable RAM) in whole GB, rounded and
      clamped to `[4, 512]`. */
  function RamGb(ram: RamInfo): (gb: nat)
    ensures 4 <= gb <= 512
  {
    var mb := ram.installedMb.GetOr(ram.usableMb);
    var g := Round(mb as real / 1024.0);
    ClampInt(if g > U32Max then U32Max else g, 4, 512)
  }

  /** A whole number of GB in range is sent as it is. */
  lemma RamGbOfWholeGb(ram: RamInfo, g: nat)
    requires 4 <= g <= 512 && ram.installedMb.GetOr(ram.usableMb) == g * 1024
    ensures RamGb(ram) == g
  {
    assert (g * 1024) as real / 1024.0 == g as real;
  }

  /** More RAM is never reported as less. */
  lemma RamGbMonotone(a: RamInfo, b: RamInfo)
    requires a.installedMb.GetOr(a.usableMb) <= b.installedMb.GetOr(b.usableMb)
    ensures RamGb(a) <= RamGb(b)
  {
    var x := a.installedMb.GetOr(a.usableMb) as real / 1024.0;
    var y := b.installedMb.GetOr(b.usableMb) as real / 1024.0;
    assert x <= y;
    assert Round(x) <= Round(y) by {
      assert Floor(x + 0.5) <= Floor(y + 0.5);
    }
  }

  /** The RAM speed, when it fits a `u32`, clamped to `[1600, 10000]`. */
  function RamSpeed(speedMhz: Option<nat>): (r: Option<nat>)
    ensures r.Some? <==> speedMhz.Some? && speedMhz.value <= U32Max
    ensures r.Some? ==> 1600 <= r.value <= 10000 && (1600 <= speedMhz.value <= 10000 ==> r.value == speedMhz.value)
  {
    if speedMhz.Some? && speedMhz.value <= U32Max then Some(ClampInt(speedMhz.value, 1600, 10000)) else None
  }

  /** The session length in whole minutes, rounded up, at least 1
      (saturating at the `u32` maximum). */
  function SessionMinutes(secs: real): (m: nat)
    ensures 1 <= m <= U32Max
    ensures secs <= 60.0 ==> m == 1
    ensures 60.0 < secs <= 60.0 * U32Max as real ==> (m - 1) as real * 60.0 < secs <= m as real * 60.0
  {
    var c := Ceil(secs / 60.0);
    var m := if c < 1 then 1 else c;
    if m > U32Max then U32Max else m
  }

  /** The upscaling mode, trimmed, when it is not blank. */
  function UpscalingMode(upscaling: Option<string>): (r: Option<string>)
    ensures r.Some? <==> upscaling.Some? && Trim(upscaling.value) != []
    ensures r.Some? ==> r.value == Trim(upscaling.value)
  {
    if upscaling.Some? && Trim(upscaling.value) != [] then Some(Trim(upscaling.value)) else None
  }

  /** The one session of the payload: the resolution as `WxH`, ray tracing
      as `On`/`Off`, the upscaling mode or `Off`, the length in minutes. */
  function SessionOf(s: BenchmarkSubmission): (p: SessionPayload)
    ensures ParseDimensions(p.resolution) == Some(TrackerDimsAsWritten(s.resolution))
    ensures p.upscaling == (if UpscalingMode(s.upscaling).Some? then UpscalingMode(s.upscaling).value else "Off")
    ensures p.rayTracing == (if s.rayTracing then "On" else "Off")
    ensures p.sessionDurationMinutes.Some? <==> s.durationSecs.Some?
  {
    var mode := UpscalingMode(s.upscaling);
    SessionPayload(
      s.game, ToTrackerResolution(s.resolution), s.preset, if s.rayTracing then "On" else "Off",
      mode.GetOr("Off"), mode, s.avgFps, s.fps1Low, s.fps01Low,
      if s.durationSecs.Some? then Some(SessionMinutes(s.durationSecs.value)) else None)
  }

  /** `to_tracker_submission_payload`: one session; the hardware block
      with the RAM figures clamped; `captured` when the submission holds
      capture data, else `manual_entry`. */
  function Payload(s: BenchmarkSubmission, consentPublicUse: bool, legalAttestation: bool, version: string)
    : (p: TrackerPayload)
    ensures p.sessions == [SessionOf(s)] && p.sourceType == "self_recorded"
    ensures p.captureMethod == Some(if s.sampleCount.Some? || s.durationSecs.Some? then "captured" else "manual_entry")
    ensures 4 <= p.hardware.ramGb <= 512
    ensures p.hardware.ramSpeed.Some? ==> 1600 <= p.hardware.ramSpeed.value <= 10000
    ensures p.consentPublicUse == consentPublicUse && p.legalAttestation == legalAttestation
  {
    var info := s.systemInfo;
    var os := if info.osVersion.Some? then info.os + " " + info.osVersion.value else info.os;
    TrackerPayload(
      HardwarePayload(info.gpu.name, info.cpu.name, RamGb(info.ram), RamSpeed(info.ram.speedMhz), None,
                      Some(os), info.gpu.driverVersion),
      [SessionOf(s)], Some(version), "self_recorded", None,
      Some(if s.sampleCount.Some? || s.durationSecs.Some? then "captured" else "manual_entry"),
      None, None, consentPublicUse, legalAttestation)
  }
}
