/** The hardware description a submission carries, and the pure parts of
    GPU and RAM detection: reading `lspci` lines, sysfs vendor ids,
    `nvidia-smi` fields and memory strings, estimating installed RAM and
    laying out its display. Running the probes themselves is not
    modelled; their outputs are inputs here. */
module Hardware {
  import opened Wrappers
  import opened Text
  import opened Float

  datatype GpuVendor = Nvidia | Amd | Intel | Unknown

  datatype GpuInfo = GpuInfo(
    name: string, vendor: GpuVendor, vramMb: Option<nat>, driverVersion: Option<string>,
    pciId: Option<string>, gpuClockMhz: Option<nat>, memoryClockMhz: Option<nat>,
    temperatureC: Option<nat>, utilizationPercent: Option<nat>)

  datatype CpuInfo = CpuInfo(
    name: string, cores: nat, threads: nat, frequencyMhz: Option<nat>, vendor: string,
    architecture: Option<string>, maxFrequencyMhz: Option<nat>)

  datatype RamInfo = RamInfo(
    installedMb: Option<nat>, usableMb: nat, speedMhz: Option<nat>, ramType: Option<string>,
    stickCount: Option<nat>, model: Option<string>)

  datatype SystemInfo = SystemInfo(gpu: GpuInfo, cpu: CpuInfo, ram: RamInfo, os: string, osVersion: Option<string>)

  /* ------------------------------------------------------------------ GPU */

  /** The GPU reported when every probe fails. */
  function UnknownGpu(): (g: GpuInfo)
    ensures g.name == "Unknown GPU" && g.vendor == Unknown
    ensures g.vramMb.None? && g.driverVersion.None? && g.pciId.None? && g.gpuClockMhz.None?
    ensures g.memoryClockMhz.None? && g.temperatureC.None? && g.utilizationPercent.None?
  {
    GpuInfo("Unknown GPU", Unknown, None, None, None, None, None, None, None)
  }

  /** `GpuInfo::detect`: the probes' outcomes in the order they are tried
      (`nvidia-smi`, then the platform's own); the first success wins. */
  function DetectGpu(probes: seq<Option<GpuInfo>>): (g: GpuInfo)
    ensures g == UnknownGpu() || exists i :: 0 <= i < |probes| && probes[i] == Some(g)
  {
    if probes == [] then UnknownGpu()
    else if probes[0].Some? then probes[0].value
    else DetectGpu(probes[1..])
  }

  /** The first probe that succeeds is the one reported. */
  lemma {:induction false} DetectGpuTakesFirstSuccess(probes: seq<Option<GpuInfo>>, i: nat)
    requires i < |probes| && probes[i].Some?
    requires forall j :: 0 <= j < i ==> probes[j].None?
    ensures DetectGpu(probes) == probes[i].value
  {
    if i > 0 {
      DetectGpuTakesFirstSuccess(probes[1..], i - 1);
    }
  }

  /** When every probe fails the GPU is unknown, with no optional detail. */
  lemma {:induction false} DetectGpuAllFailed(probes: seq<Option<GpuInfo>>)
    requires forall j :: 0 <= j < |probes| ==> probes[j].None?
    ensures DetectGpu(probes) == UnknownGpu()
  {
    if probes != [] {
      DetectGpuAllFailed(probes[1..]);
    }
  }

  /** The vendor named on an `lspci` line: NVIDIA first, then AMD, ATI or
      Radeon, then Intel. */
  function LspciVendor(line: string): (v: GpuVendor)
    ensures v == Nvidia <==> Contains(line, "NVIDIA")
    ensures v == Amd <==>
      (!Contains(line, "NVIDIA") && (Contains(line, "AMD") || Contains(line, "ATI") || Contains(line, "Radeon")))
    ensures v == Intel <==>
      (!Contains(line, "NVIDIA") && !(Contains(line, "AMD") || Contains(line, "ATI") || Contains(line, "Radeon")) &&
       Contains(line, "Intel"))
    ensures v == Unknown ==> !Contains(line, "Intel")
  {
    if Contains(line, "NVIDIA") then Nvidia
    else if Contains(line, "AMD") || Contains(line, "ATI") || Contains(line, "Radeon") then Amd
    else if Contains(line, "Intel") then Intel
    else Unknown
  }

  /** The device name on an `lspci` line: what follows the first `": "`,
      cut at the last `" (rev"`; the whole line when there is no `": "`. */
  function LspciName(line: string): (name: string)
    ensures Find(line, ": ").None? ==> name == line
    ensures Find(line, ": ").Some? ==>
      var after := line[Find(line, ": ").value + 2..];
      StartsWith(after, name) &&
      ((name == after && !Contains(after, " (rev")) ||
       (OccursAt(after, " (rev", |name|) && forall j :: |name| < j <= |after| ==> !OccursAt(after, " (rev", j)))
  {
    match Find(line, ": ")
    case None => line
    case Some(i) =>
      var after := line[i + 2..];
      match RFind(after, " (rev")
      case None => after
      case Some(j) => after[..j]
  }

  /** A line `<slot>: <name> (rev <r>)` gives back `<name>` when the slot
      holds no `": "` and the revision text holds no `" (rev"`. */
  lemma LspciNameOfLine(slot: string, name: string, rev: string)
    requires !Contains(slot, ": ") && !Contains(rev, " (rev")
    ensures LspciName(slot + ": " + name + " (rev" + rev) == name
  {
    var tail := name + " (rev" + rev;
    FirstSeparator(slot, tail);
    assert (slot + ": " + tail)[|slot| + 2..] == tail;
    LastRevision(name, rev);
    assert tail[..|name|] == name;
    assert slot + ": " + name + " (rev" + rev == slot + ": " + tail;
  }

  /** The first `": "` is the one right after a slot that holds none. */
  lemma FirstSeparator(slot: string, tail: string)
    requires !Contains(slot, ": ")
    ensures Find(slot + ": " + tail, ": ") == Some(|slot|)
  {
    var line := slot + ": " + tail;
    assert line[|slot|..|slot| + 2] == ": ";
    assert OccursAt(line, ": ", |slot|);
    forall j | 0 <= j < |slot| ensures !OccursAt(line, ": ", j) {
      if j + 2 <= |slot| {
        assert line[j..j + 2] == slot[j..j + 2];
        if OccursAt(line, ": ", j) {
          ContainsWitness(slot, ": ", j);
        }
      } else {
        assert line[j + 1] == ':';
        assert line[j..j + 2][1] == ':';
      }
    }
  }

  /** The last `" (rev"` is the one before a text that holds none. */
  lemma LastRevision(name: string, rev: string)
    requires !Contains(rev, " (rev")
    ensures RFind(name + " (rev" + rev, " (rev") == Some(|name|)
  {
    var t := name + " (rev" + rev;
    assert t[|name|..|name| + 5] == " (rev";
    assert OccursAt(t, " (rev", |name|);
    forall j | |name| < j <= |t| ensures !OccursAt(t, " (rev", j) {
      if j < |name| + 5 {
        assert t[j] != ' ';
        if j + 5 <= |t| {
          assert t[j..j + 5][0] == t[j];
        }
      } else {
        var k := j - |name| - 5;
        if OccursAt(t, " (rev", j) {
          assert t[j..j + 5] == rev[k..k + 5];
          ContainsWitness(rev, " (rev", k);
        }
      }
    }
  }

  /** The vendor named by a sysfs PCI vendor id. */
  function SysfsVendor(id: string): (v: GpuVendor)
    ensures v == Nvidia <==> Trim(id) == "0x10de"
    ensures v == Amd <==> Trim(id) == "0x1002"
    ensures v == Intel <==> Trim(id) == "0x8086"
  {
    var t := Trim(id);
    if t == "0x10de" then Nvidia
    else if t == "0x1002" then Amd
    else if t == "0x8086" then Intel
    else Unknown
  }

  /** The GPU name `nvidia-smi` reports, with `NVIDIA ` put in front when
      it does not already start with `NVIDIA`. */
  function NvidiaName(raw: string): (name: string)
    ensures StartsWith(name, "NVIDIA")
    ensures StartsWith(raw, "NVIDIA") ==> name == raw
  {
    if StartsWith(raw, "NVIDIA") then raw else "NVIDIA " + raw
  }

  /** Prefixing is done at most once. */
  lemma NvidiaNameIdempotent(raw: string)
    ensures NvidiaName(NvidiaName(raw)) == NvidiaName(raw)
  {
  }

  datatype SmiError = InvalidOutput

  /** The fields of the first `nvidia-smi` line (split at `", "`): the
      name, the VRAM (0 when it does not parse) and the driver version. */
  function NvidiaSmiFields(parts: seq<string>): (r: Result<(string, nat, string), SmiError>)
    ensures r.Err? <==> |parts| < 3
    ensures r.Ok? ==> StartsWith(r.value.0, "NVIDIA") && r.value.1 <= U64Max && r.value.2 == Trim(parts[2])
  {
    if |parts| < 3 then Err(InvalidOutput)
    else Ok((NvidiaName(Trim(parts[0])), ParseUnsigned(Trim(parts[1]), U64Max).GetOr(0), Trim(parts[2])))
  }

  const MemoryDigits: set<char> := {'0', '1', '2', '3', '4', '5', '6', '7', '8', '9'}

  /** The factor a memory unit stands for, in MB. */
  function UnitFactor(unit: string): (f: Option<real>)
    ensures f == Some(1024.0) <==> unit == "gb" || unit == "gib"
    ensures f == Some(1.0) <==> unit == "mb" || unit == "mib"
    ensures f.Some? ==> f.value == 1.0 || f.value == 1024.0
  {
    if unit == "gb" || unit == "gib" then Some(1024.0)
    else if unit == "mb" || unit == "mib" then Some(1.0)
    else None
  }

  /** `f64` multiplication by a positive factor. */
  function Times(x: F64, f: real): F64
    requires f > 0.0
  {
    match x
    case Finite(v) => Finite(v * f)
    case _ => x
  }

  /** The amount given as a number and a unit word, when the words start
      that way. */
  function AmountWithUnit(words: seq<string>): (mb: Option<nat>)
    ensures mb.Some? ==> mb.value <= U64Max
  {
    if |words| >= 2 && ParseF64(words[0]).Some? && UnitFactor(words[1]).Some? then
      Some(F64ToU64(Times(ParseF64(words[0]).value, UnitFactor(words[1]).value)))
    else None
  }

  /** All the digits of the text read as one number; 0 when there are
      none or they overflow. */
  function DigitsFallback(lower: string): (mb: nat)
    ensures mb <= U64Max
  {
    ParseUnsigned(KeepOnly(lower, MemoryDigits), U64Max).GetOr(0)
  }

  /** A memory amount such as `8 GB` or `8192 MB`, in MB: gigabytes are
      multiplied by 1024, megabytes kept; otherwise the digits of the text
      read as one number, 0 when there are none or too many. */
  function ParseMemoryString(s: string): (mb: nat)
    ensures mb <= U64Max
  {
    var lower := AsciiLower(s);
    AmountWithUnit(SplitWhitespace(lower)).GetOr(DigitsFallback(lower))
  }

  /** A word already in lower case. */
  predicate PlainWord(w: string) { w != [] && NoWhitespace(w) && NoAsciiUpper(w) }

  /** `<n> <unit>` is `n` times the unit's factor (so `<n> gb` is
      `n * 1024` MB and `<n> mb` is `n` MB), saturating at the `u64`
      maximum. */
  lemma MemoryWithUnit(n: nat, unit: string, f: real)
    requires PlainWord(unit) && UnitFactor(unit) == Some(f)
    ensures ParseMemoryString(NatToString(n) + " " + unit) == RealToU64(n as real * f)
  {
    var a := NatToString(n);
    AmountWords(a, unit);
    ParseF64OfNat(n);
    var words := [a, unit];
    assert words[0] == a && words[1] == unit;
    if f == 1.0 {
      assert Times(Finite(n as real), f) == Finite(n as real);
    } else {
      assert Times(Finite(n as real), f) == Finite(n as real * 1024.0);
    }
  }

  /** A number and a lower-case unit are read as those two words. */
  lemma AmountWords(a: string, unit: string)
    requires a != [] && AllDigits(a)
    requires PlainWord(unit)
    ensures var s := a + " " + unit; AsciiLower(s) == s && SplitWhitespace(s) == [a, unit]
  {
    var s := a + " " + unit;
    assert NoAsciiUpper(s);
    AsciiLowerFixed(s);
    assert NoWhitespace(a);
    assert s == a + [' '] + unit;
    FirstWord(a, ' ', unit);
    assert forall j :: 0 <= j < |unit| ==> unit[j] !in WhitespaceChars;
    assert SplitAny(unit, WhitespaceChars) == [unit];
    assert SplitWhitespace(unit) == [unit];
  }

  /* ------------------------------------------------------------------ RAM */

  /** The installed sizes, in GB, that usable memory is matched against. */
  const CommonSizesGb: seq<nat> := [4, 8, 16, 32, 64, 128]

  /** The first size whose window `[size - 1, size]` GB holds the usable
      amount. */
  function FirstCommonSize(sizes: seq<nat>, usableMb: nat): (r: Option<nat>)
    ensures r.Some? ==> r.value in sizes && (r.value - 1) * 1024 <= usableMb <= r.value * 1024
    ensures r.None? ==> forall k :: 0 <= k < |sizes| ==> !((sizes[k] - 1) * 1024 <= usableMb <= sizes[k] * 1024)
  {
    if sizes == [] then None
    else if (sizes[0] - 1) * 1024 <= usableMb <= sizes[0] * 1024 then Some(sizes[0])
    else FirstCommonSize(sizes[1..], usableMb)
  }

  /** `estimate_installed_from_usable`: the common size whose window holds
      the usable memory, else the usable amount rounded up to whole GB.
      The result is whole gigabytes and never below what is usable. */
  function EstimateInstalledFromUsable(usableMb: nat): (mb: nat)
    ensures mb % 1024 == 0 && mb >= usableMb
    ensures FirstCommonSize(CommonSizesGb, usableMb).None? ==> mb < usableMb + 1024
  {
    match FirstCommonSize(CommonSizesGb, usableMb)
    case Some(size) => size * 1024
    case None => (usableMb + 1023) / 1024 * 1024
  }

  /** An exact common size maps to itself. */
  lemma ExactSizeIsItself(k: nat)
    requires k < |CommonSizesGb|
    ensures EstimateInstalledFromUsable(CommonSizesGb[k] * 1024) == CommonSizesGb[k] * 1024
  {
    var u := CommonSizesGb[k] * 1024;
    var r := FirstCommonSize(CommonSizesGb, u);
    assert r.Some?;
    assert r.value == CommonSizesGb[k];
  }

  /** A usable amount within the GB below a common size is that size. */
  lemma WindowGivesSize(k: nat, usableMb: nat)
    requires k < |CommonSizesGb|
    requires (CommonSizesGb[k] - 1) * 1024 <= usableMb <= CommonSizesGb[k] * 1024
    ensures EstimateInstalledFromUsable(usableMb) == CommonSizesGb[k] * 1024
  {
    var r := FirstCommonSize(CommonSizesGb, usableMb);
    assert r.Some?;
  }

  /** SMBIOS memory-type codes 24, 26 and 34 are DDR3, DDR4 and DDR5;
      other codes give no type. */
  function SmbiosMemoryType(code: nat): (t: Option<string>)
    ensures t.Some? <==> code in {24, 26, 34}
  {
    if code == 24 then Some("DDR3")
    else if code == 26 then Some("DDR4")
    else if code == 34 then Some("DDR5")
    else None
  }

  /** The pieces of the RAM display line. The capacity is shown as both
      amounts when they differ by more than half a gigabyte. */
  datatype RamPart =
    | InstalledAndUsable(installedMb: nat, usableMb: nat)
    | InstalledOnly(installedMb: nat)
    | UsableOnly(usableMb: nat)
    | MemoryType(name: string)
    | Speed(mhz: nat)
    | Sticks(count: nat)
    | Model(text: string)

  function PartRank(p: RamPart): nat
  {
    match p
    case InstalledAndUsable(_, _) => 0
    case InstalledOnly(_) => 0
    case UsableOnly(_) => 0
    case MemoryType(_) => 1
    case Speed(_) => 2
    case Sticks(_) => 3
    case Model(_) => 4
  }

  /** The capacity part: both amounts when they differ by more than half
      a gigabyte, else the installed one; the usable one when nothing is
      known to be installed. */
  function CapacityPart(installedMb: Option<nat>, usableMb: nat): (p: RamPart)
    ensures PartRank(p) == 0
    ensures p.InstalledAndUsable? <==> installedMb.Some? && (installedMb.value - usableMb > 512 || usableMb - installedMb.value > 512)
    ensures p.UsableOnly? <==> installedMb.None?
  {
    match installedMb
    case Some(i) =>
      if i - usableMb > 512 || usableMb - i > 512 then InstalledAndUsable(i, usableMb) else InstalledOnly(i)
    case None => UsableOnly(usableMb)
  }

  /** Parts in strictly increasing rank. */
  predicate Ranked(ps: seq<RamPart>)
  {
    forall i :: 0 <= i < |ps| - 1 ==> PartRank(ps[i]) < PartRank(ps[i + 1])
  }

  /** Appending a part of higher rank keeps the order. */
  lemma RankedSnoc(ps: seq<RamPart>, p: RamPart)
    requires Ranked(ps) && ps != [] && PartRank(ps[|ps| - 1]) < PartRank(p)
    ensures Ranked(ps + [p])
  {
  }

  /** The display parts of `RamInfo::format`, before the `" | "` join:
      the capacity, then whichever of type, speed, stick count and model
      are known, in that order. */
  function RamParts(info: RamInfo): (r: seq<RamPart>)
    ensures r != [] && r[0] == CapacityPart(info.installedMb, info.usableMb) && Ranked(r)
    ensures |r| == 1 + (if info.ramType.Some? then 1 else 0) + (if info.speedMhz.Some? then 1 else 0)
                     + (if info.stickCount.Some? then 1 else 0) + (if info.model.Some? then 1 else 0)
  {
    var r0 := [CapacityPart(info.installedMb, info.usableMb)];
    var r1 := if info.ramType.Some? then RankedSnoc(r0, MemoryType(info.ramType.value)); r0 + [MemoryType(info.ramType.value)] else r0;
    var r2 := if info.speedMhz.Some? then RankedSnoc(r1, Speed(info.speedMhz.value)); r1 + [Speed(info.speedMhz.value)] else r1;
    var r3 := if info.stickCount.Some? then RankedSnoc(r2, Sticks(info.stickCount.value)); r2 + [Sticks(info.stickCount.value)] else r2;
    if info.model.Some? then RankedSnoc(r3, Model(info.model.value)); r3 + [Model(info.model.value)] else r3
  }

  /** The display line: the parts joined by `" | "`. Rendering the
      capacities with one or no decimal is left to `capacityText`. */
  function FormatRam(info: RamInfo, capacityText: RamPart -> string): string
  {
    Join(seq(|RamParts(info)|, i requires 0 <= i < |RamParts(info)| => RenderPart(RamParts(info)[i], capacityText)), " | ")
  }

  function RenderPart(p: RamPart, capacityText: RamPart -> string): string
  {
    match p
    case MemoryType(t) => t
    case Speed(s) => NatToString(s) + " MHz"
    case Sticks(n) => NatToString(n) + " stick(s)"
    case Model(m) => m
    case _ => capacityText(p)
  }
}
