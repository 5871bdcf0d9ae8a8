/** The known-games table: lookup by name, alias or a punctuation-free
    match key, the difficulty filter, and the process names suggested for
    capture targeting. */
module Games {
  import opened Wrappers
  import opened Text

  datatype Difficulty = Light | Medium | Heavy | Extreme

  /** One table entry; the free-text benchmark notes are not modelled. */
  datatype GameInfo = GameInfo(
    name: string, aliases: seq<string>, difficulty: Difficulty,
    hasBenchmark: bool, supportsRt: bool, supportsDlss: bool, supportsFsr: bool)

  const Cyberpunk2077: GameInfo :=
    GameInfo("Cyberpunk 2077", ["CP2077", "Cyberpunk"], Extreme, true, true, true, true)
  const AvatarFrontiersOfPandora: GameInfo :=
    GameInfo("Avatar: Frontiers of Pandora", ["Avatar", "AFOP"], Extreme, true, true, true, true)
  const AlanWake2: GameInfo :=
    GameInfo("Alan Wake 2", ["AW2"], Extreme, false, true, true, true)
  const HogwartsLegacy: GameInfo :=
    GameInfo("Hogwarts Legacy", ["Hogwarts"], Extreme, true, true, true, true)
  const BlackMythWukong: GameInfo :=
    GameInfo("Black Myth: Wukong", ["Wukong", "BMW"], Extreme, true, true, true, true)
  const RedDeadRedemption2: GameInfo :=
    GameInfo("Red Dead Redemption 2", ["RDR2", "Red Dead 2"], Heavy, true, false, true, false)
  const TheWitcher3: GameInfo :=
    GameInfo("The Witcher 3", ["Witcher 3", "TW3"], Heavy, false, true, true, true)
  const MicrosoftFlightSimulator2024: GameInfo :=
    GameInfo("Microsoft Flight Simulator 2024", ["MSFS", "Flight Sim", "MSFS2024"], Heavy, false, false, true, true)
  const Starfield: GameInfo :=
    GameInfo("Starfield", ["SF"], Heavy, false, false, true, true)
  const DyingLight2: GameInfo :=
    GameInfo("Dying Light 2", ["DL2"], Heavy, true, true, true, true)
  const HorizonZeroDawn: GameInfo :=
    GameInfo("Horizon Zero Dawn", ["HZD", "Horizon"], Heavy, true, false, true, true)
  const HorizonForbiddenWest: GameInfo :=
    GameInfo("Horizon Forbidden West", ["HFW"], Heavy, true, false, true, true)
  const Fortnite: GameInfo :=
    GameInfo("Fortnite", ["FN"], Medium, false, true, true, true)
  const ApexLegends: GameInfo :=
    GameInfo("Apex Legends", ["Apex"], Medium, false, false, false, false)
  const CallOfDutyWarzone: GameInfo :=
    GameInfo("Call of Duty: Warzone", ["Warzone", "WZ", "COD Warzone"], Medium, false, true, true, true)
  const EldenRing: GameInfo :=
    GameInfo("Elden Ring", ["ER"], Medium, false, true, false, false)
  const MonsterHunterWilds: GameInfo :=
    GameInfo("Monster Hunter Wilds", ["MHW", "MH Wilds"], Medium, false, true, true, true)
  const BaldurSGate3: GameInfo :=
    GameInfo("Baldur's Gate 3", ["BG3"], Medium, false, false, true, true)
  const CounterStrike2: GameInfo :=
    GameInfo("Counter-Strike 2", ["CS2", "CS", "Counter-Strike"], Light, false, false, false, true)
  const Valorant: GameInfo :=
    GameInfo("Valorant", ["Val"], Light, false, false, false, false)
  const LeagueOfLegends: GameInfo :=
    GameInfo("League of Legends", ["LoL", "League"], Light, false, false, false, false)
  const Dota2: GameInfo :=
    GameInfo("Dota 2", ["Dota"], Light, false, false, false, false)
  const MinecraftJava: GameInfo :=
    GameInfo("Minecraft Java", ["MC Java", "Minecraft"], Light, false, false, false, false)
  const MinecraftBedrockRTX: GameInfo :=
    GameInfo("Minecraft Bedrock (RTX)", ["MC Bedrock", "Minecraft RTX"], Extreme, true, true, true, false)
  const Overwatch2: GameInfo :=
    GameInfo("Overwatch 2", ["OW2", "Overwatch"], Light, false, false, false, true)

  /** `KNOWN_GAMES`, in table order. */
  const KnownGames: seq<GameInfo> := [
    Cyberpunk2077, AvatarFrontiersOfPandora, AlanWake2, HogwartsLegacy,
    BlackMythWukong, RedDeadRedemption2, TheWitcher3, MicrosoftFlightSimulator2024,
    Starfield, DyingLight2, HorizonZeroDawn, HorizonForbiddenWest,
    Fortnite, ApexLegends, CallOfDutyWarzone, EldenRing,
    MonsterHunterWilds, BaldurSGate3, CounterStrike2, Valorant,
    LeagueOfLegends, Dota2, MinecraftJava, MinecraftBedrockRTX,
    Overwatch2
  ]

  /** `process_name_suggestions`: the executable and process names to try
      for capture targeting, chosen by the entry's exact name; a name the
      `match` does not list has none. */
  function ProcessNameSuggestions(g: GameInfo): seq<string>
  {
    match g.name
    case "Cyberpunk 2077" => ["Cyberpunk2077.exe", "Cyberpunk2077", "Cyberpunk2077GOG.exe"]
    case "Avatar: Frontiers of Pandora" => ["AFOP.exe", "AvatarFrontiersOfPandora.exe", "AFOP"]
    case "Alan Wake 2" => ["AlanWake2.exe", "AlanWake2"]
    case "Hogwarts Legacy" => ["HogwartsLegacy.exe", "HogwartsLegacy"]
    case "Black Myth: Wukong" => ["BlackMythWukong.exe", "b1.exe", "BlackMythWukong"]
    case "Red Dead Redemption 2" => ["RDR2.exe", "RDR2"]
    case "The Witcher 3" => ["witcher3.exe", "witcher3", "witcher3_x64.exe"]
    case "Microsoft Flight Simulator 2024" => ["FlightSimulator.exe", "FlightSimulator", "Microsoft Flight Simulator"]
    case "Starfield" => ["Starfield.exe", "Starfield"]
    case "Dying Light 2" => ["DyingLightGame_x64_rwdi.exe", "DyingLightGame_x64_rwdi", "DyingLight2"]
    case "Horizon Zero Dawn" => ["HorizonZeroDawn.exe", "HorizonZeroDawn"]
    case "Horizon Forbidden West" => ["HorizonForbiddenWest.exe", "HorizonForbiddenWest"]
    case "Fortnite" => ["FortniteClient-Win64-Shipping.exe", "FortniteClient-Win64-Shipping", "FortniteLauncher.exe"]
    case "Apex Legends" => ["r5apex.exe", "r5apex"]
    case "Call of Duty: Warzone" => ["cod.exe", "ModernWarfare.exe", "cod", "iw8"]
    case "Elden Ring" => ["eldenring.exe", "eldenring"]
    case "Monster Hunter Wilds" => ["MonsterHunterWilds.exe", "MonsterHunterWilds"]
    case "Baldur's Gate 3" => ["bg3.exe", "bg3_dx11.exe", "bg3", "bg3_dx11"]
    case "Counter-Strike 2" => ["cs2.exe", "cs2", "hl2_linux"]
    case "Valorant" => ["VALORANT-Win64-Shipping.exe", "VALORANT-Win64-Shipping", "VALORANT"]
    case "League of Legends" => ["League of Legends.exe", "LeagueClient.exe", "LeagueofLegends"]
    case "Dota 2" => ["dota2.exe", "dota2", "dota2_linux"]
    case "Minecraft Java" => ["javaw.exe", "java.exe", "javaw", "java"]
    case "Minecraft Bedrock (RTX)" => ["Minecraft.Windows.exe", "Minecraft.Windows"]
    case "Overwatch 2" => ["Overwatch.exe", "Overwatch", "Overwatch2"]
    case _ => []
  }

  lemma ProcessNamesPresent0()
    ensures forall i :: 0 <= i < 9 ==> ProcessNameSuggestions(KnownGames[i]) != []
  {
  }

  lemma ProcessNamesPresent1()
    ensures forall i :: 9 <= i < 17 ==> ProcessNameSuggestions(KnownGames[i]) != []
  {
  }

  lemma ProcessNamesPresent2()
    ensures forall i :: 17 <= i < |KnownGames| ==> ProcessNameSuggestions(KnownGames[i]) != []
  {
  }

  /** Every entry suggests at least one process name; the first is the
      default hint. */
  lemma ProcessNamesPresent(i: nat)
    requires i < |KnownGames|
    ensures ProcessNameSuggestions(KnownGames[i]) != []
  {
    ProcessNamesPresent0();
    ProcessNamesPresent1();
    ProcessNamesPresent2();
  }

  /* ------------------------------------------------------------ match key */

  /** `normalize_match_key`: the ASCII letters and digits, lower-cased. */
  function MatchKey(s: string): string
  {
    if s == [] then []
    else
      var c := s[|s| - 1];
      MatchKey(s[..|s| - 1]) + (if IsAsciiAlphanumeric(c) then [ToAsciiLowerChar(c)] else [])
  }

  /** A key holds only lower-case letters and digits, no more of them than
      the input has characters. */
  lemma {:induction false} MatchKeyChars(s: string)
    ensures |MatchKey(s)| <= |s|
    ensures forall i :: 0 <= i < |MatchKey(s)| ==> IsAsciiDigit(MatchKey(s)[i]) || IsAsciiLowerCase(MatchKey(s)[i])
  {
    if s != [] {
      MatchKeyChars(s[..|s| - 1]);
    }
  }

  lemma {:induction false} MatchKeyAppend(a: string, b: string)
    ensures MatchKey(a + b) == MatchKey(a) + MatchKey(b)
  {
    if b != [] {
      assert (a + b)[..|a + b| - 1] == a + b[..|b| - 1];
      MatchKeyAppend(a, b[..|b| - 1]);
    } else {
      assert a + b == a;
    }
  }

  /** Lower-casing first does not change the key, so strings equal up to
      ASCII case have the same key. */
  lemma {:induction false} MatchKeyOfLower(s: string)
    ensures MatchKey(AsciiLower(s)) == MatchKey(s)
  {
    if s != [] {
      assert AsciiLower(s)[..|s| - 1] == AsciiLower(s[..|s| - 1]);
      MatchKeyOfLower(s[..|s| - 1]);
    }
  }

  /** A key is its own key. */
  lemma {:induction false} MatchKeyIdempotent(s: string)
    ensures MatchKey(MatchKey(s)) == MatchKey(s)
  {
    if s != [] {
      var c := s[|s| - 1];
      MatchKeyIdempotent(s[..|s| - 1]);
      MatchKeyAppend(MatchKey(s[..|s| - 1]), if IsAsciiAlphanumeric(c) then [ToAsciiLowerChar(c)] else []);
    }
  }

  predicate AllAlphanumeric(w: string) { forall i :: 0 <= i < |w| ==> IsAsciiAlphanumeric(w[i]) }

  predicate NoAlphanumeric(w: string) { forall i :: 0 <= i < |w| ==> !IsAsciiAlphanumeric(w[i]) }

  /** The key of a word of letters and digits is the word lower-cased. */
  lemma {:induction false} KeyOfAlnum(w: string)
    requires AllAlphanumeric(w)
    ensures MatchKey(w) == AsciiLower(w)
  {
    if w != [] {
      KeyOfAlnum(w[..|w| - 1]);
      assert AsciiLower(w) == AsciiLower(w[..|w| - 1]) + [ToAsciiLowerChar(w[|w| - 1])];
    }
  }

  lemma {:induction false} KeyOfSeparator(w: string)
    requires NoAlphanumeric(w)
    ensures MatchKey(w) == []
  {
    if w != [] {
      KeyOfSeparator(w[..|w| - 1]);
    }
  }

  /** A word, then separators, then the rest: the key is the word
      lower-cased followed by the key of the rest. */
  lemma KeyOfWord(w: string, sep: string, rest: string)
    requires AllAlphanumeric(w) && NoAlphanumeric(sep)
    ensures MatchKey(w + sep + rest) == AsciiLower(w) + MatchKey(rest)
  {
    MatchKeyAppend(w + sep, rest);
    MatchKeyAppend(w, sep);
    KeyOfAlnum(w);
    KeyOfSeparator(sep);
  }

  /* --------------------------------------------------------------- lookup */

  predicate AliasEqualsLower(aliases: seq<string>, lower: string)
  {
    aliases != [] && (AliasEqualsLower(aliases[..|aliases| - 1], lower) || AsciiLower(aliases[|aliases| - 1]) == lower)
  }

  predicate AliasHasKey(aliases: seq<string>, key: string)
  {
    aliases != [] && (AliasHasKey(aliases[..|aliases| - 1], key) || MatchKey(aliases[|aliases| - 1]) == key)
  }

  /** The closure given to `find`: the name or an alias equals the query
      ignoring case, or has the query's match key. */
  predicate Matches(g: GameInfo, query: string)
  {
    var lower := AsciiLower(query);
    var key := MatchKey(query);
    AsciiLower(g.name) == lower || AliasEqualsLower(g.aliases, lower) ||
    MatchKey(g.name) == key || AliasHasKey(g.aliases, key)
  }

  /** The match keys of an entry: its name's, then its aliases'. */
  function Keys(g: GameInfo): (r: seq<string>)
    ensures |r| == |g.aliases| + 1
  {
    [MatchKey(g.name)] + seq(|g.aliases|, k requires 0 <= k < |g.aliases| => MatchKey(g.aliases[k]))
  }

  lemma {:induction false} AliasLowerGivesKey(aliases: seq<string>, query: string)
    requires AliasEqualsLower(aliases, AsciiLower(query))
    ensures AliasHasKey(aliases, MatchKey(query))
  {
    var a := aliases[|aliases| - 1];
    if AsciiLower(a) == AsciiLower(query) {
      MatchKeyOfLower(a);
      MatchKeyOfLower(query);
    } else {
      AliasLowerGivesKey(aliases[..|aliases| - 1], query);
    }
  }

  lemma {:induction false} AliasHasKeyIff(aliases: seq<string>, key: string)
    ensures AliasHasKey(aliases, key) <==> exists k :: 0 <= k < |aliases| && MatchKey(aliases[k]) == key
  {
    if aliases != [] {
      var init := aliases[..|aliases| - 1];
      AliasHasKeyIff(init, key);
      if AliasHasKey(init, key) {
        var k :| 0 <= k < |init| && MatchKey(init[k]) == key;
        assert aliases[k] == init[k];
      }
      if exists k :: 0 <= k < |aliases| && MatchKey(aliases[k]) == key {
        var k :| 0 <= k < |aliases| && MatchKey(aliases[k]) == key;
        if k < |init| {
          assert init[k] == aliases[k];
        }
      }
    }
  }

  /** The keys of an entry are its name's and its aliases'. */
  lemma InKeys(g: GameInfo, key: string)
    ensures key in Keys(g) <==> key == MatchKey(g.name) || AliasHasKey(g.aliases, key)
  {
    var ks := Keys(g);
    AliasHasKeyIff(g.aliases, key);
    if key in ks && key != MatchKey(g.name) {
      var k :| 0 <= k < |ks| && ks[k] == key;
      assert ks[k] == MatchKey(g.aliases[k - 1]);
    }
    if AliasHasKey(g.aliases, key) {
      var k :| 0 <= k < |g.aliases| && MatchKey(g.aliases[k]) == key;
      assert ks[k + 1] == key;
    }
  }

  /** Matching is decided by the match keys alone: the case-insensitive
      comparisons never accept a query the key comparisons refuse. */
  lemma MatchesByKey(g: GameInfo, query: string)
    ensures Matches(g, query) <==> MatchKey(query) in Keys(g)
  {
    var lower := AsciiLower(query);
    if AsciiLower(g.name) == lower {
      MatchKeyOfLower(g.name);
      MatchKeyOfLower(query);
    }
    if AliasEqualsLower(g.aliases, lower) {
      AliasLowerGivesKey(g.aliases, query);
    }
    InKeys(g, MatchKey(query));
  }

  /** The index `Iterator::find` stops at: the first matching entry. */
  function FirstMatch(games: seq<GameInfo>, query: string): (r: Option<nat>)
    ensures r.Some? ==> r.value < |games| && Matches(games[r.value], query)
    ensures r.Some? ==> forall j :: 0 <= j < r.value ==> !Matches(games[j], query)
    ensures r.None? ==> forall j :: 0 <= j < |games| ==> !Matches(games[j], query)
  {
    if games == [] then None
    else
      var r := FirstMatch(games[..|games| - 1], query);
      if r.Some? then r
      else if Matches(games[|games| - 1], query) then Some(|games| - 1)
      else None
  }

  /** `GameInfo::find`. */
  function Find(query: string): (r: Option<GameInfo>)
    ensures r.Some? <==> exists i :: 0 <= i < |KnownGames| && Matches(KnownGames[i], query)
    ensures r.Some? ==> r.value in KnownGames && Matches(r.value, query)
  {
    var i := FirstMatch(KnownGames, query);
    if i.Some? then Some(KnownGames[i.value]) else None
  }

  lemma {:induction false} SameFirstMatch(games: seq<GameInfo>, a: string, b: string)
    requires forall g :: Matches(g, a) == Matches(g, b)
    ensures FirstMatch(games, a) == FirstMatch(games, b)
  {
    if games != [] {
      SameFirstMatch(games[..|games| - 1], a, b);
    }
  }

  /** Queries with the same key find the same entry: the lookup ignores
      case, spaces and punctuation. */
  lemma FindByKey(a: string, b: string)
    requires MatchKey(a) == MatchKey(b)
    ensures Find(a) == Find(b)
  {
    forall g ensures Matches(g, a) == Matches(g, b) {
      MatchesByKey(g, a);
      MatchesByKey(g, b);
    }
    SameFirstMatch(KnownGames, a, b);
  }

  /* -------------------------------------------------------- table integrity */

  /** The match keys of every entry, name first. */
  const TableKeys: seq<seq<string>> := [
    ["cyberpunk2077", "cp2077", "cyberpunk"],
    ["avatarfrontiersofpandora", "avatar", "afop"],
    ["alanwake2", "aw2"],
    ["hogwartslegacy", "hogwarts"],
    ["blackmythwukong", "wukong", "bmw"],
    ["reddeadredemption2", "rdr2", "reddead2"],
    ["thewitcher3", "witcher3", "tw3"],
    ["microsoftflightsimulator2024", "msfs", "flightsim", "msfs2024"],
    ["starfield", "sf"],
    ["dyinglight2", "dl2"],
    ["horizonzerodawn", "hzd", "horizon"],
    ["horizonforbiddenwest", "hfw"],
    ["fortnite", "fn"],
    ["apexlegends", "apex"],
    ["callofdutywarzone", "warzone", "wz", "codwarzone"],
    ["eldenring", "er"],
    ["monsterhunterwilds", "mhw", "mhwilds"],
    ["baldursgate3", "bg3"],
    ["counterstrike2", "cs2", "cs", "counterstrike"],
    ["valorant", "val"],
    ["leagueoflegends", "lol", "league"],
    ["dota2", "dota"],
    ["minecraftjava", "mcjava", "minecraft"],
    ["minecraftbedrockrtx", "mcbedrock", "minecraftrtx"],
    ["overwatch2", "ow2", "overwatch"]
  ]

  /** The match keys are the listed ones. */
  predicate KeysListed()
  {
    KeysAre(KnownGames, TableKeys)
  }

  predicate KeysAre(games: seq<GameInfo>, keys: seq<seq<string>>)
  {
    |keys| == |games| && forall i :: 0 <= i < |games| ==> Keys(games[i]) == keys[i]
  }

  /** No key of an entry is a key of an earlier entry. */
  predicate DistinctKeys(keys: seq<seq<string>>)
  {
    forall i, j, k :: 0 <= j < i < |keys| && 0 <= k < |keys[i]| ==> keys[i][k] !in keys[j]
  }

  lemma KeysDistinct0()
    ensures forall i, j, k :: 0 <= j < i < 9 && 0 <= k < |TableKeys[i]| ==> TableKeys[i][k] !in TableKeys[j]
  {
  }

  lemma KeysDistinct1()
    ensures forall i, j, k :: 0 <= j < i < 17 && 9 <= i && 0 <= k < |TableKeys[i]| ==> TableKeys[i][k] !in TableKeys[j]
  {
  }

  lemma KeysDistinct2()
    ensures forall i, j, k :: 0 <= j < i < |TableKeys| && 17 <= i && 0 <= k < |TableKeys[i]| ==> TableKeys[i][k] !in TableKeys[j]
  {
  }

  /** The listed keys of the table are distinct across entries. */
  lemma TableKeysDistinct()
    ensures DistinctKeys(TableKeys)
  {
    KeysDistinct0();
    KeysDistinct1();
    KeysDistinct2();
  }

  /** In a table whose entries have the listed keys, a query with a key of
      entry `i` and of no earlier entry finds entry `i`. */
  lemma FirstMatchOfKey(games: seq<GameInfo>, keys: seq<seq<string>>, i: nat, query: string)
    requires |games| == |keys| && i < |games|
    requires forall j :: 0 <= j <= i ==> Keys(games[j]) == keys[j]
    requires MatchKey(query) in keys[i]
    requires forall j :: 0 <= j < i ==> MatchKey(query) !in keys[j]
    ensures FirstMatch(games, query) == Some(i)
  {
    MatchesByKey(games[i], query);
    forall j | 0 <= j < i ensures !Matches(games[j], query) {
      MatchesByKey(games[j], query);
    }
  }

  /** In a table with distinct keys, every entry is found by its name and
      by each of its aliases. */
  lemma FindsEveryEntry(games: seq<GameInfo>, keys: seq<seq<string>>, i: nat)
    requires KeysAre(games, keys) && DistinctKeys(keys) && i < |games|
    ensures FirstMatch(games, games[i].name) == Some(i)
    ensures forall k :: 0 <= k < |games[i].aliases| ==> FirstMatch(games, games[i].aliases[k]) == Some(i)
  {
    var g := games[i];
    assert Keys(g)[0] == MatchKey(g.name);
    FirstMatchOfKey(games, keys, i, g.name);
    forall k | 0 <= k < |g.aliases| ensures FirstMatch(games, g.aliases[k]) == Some(i) {
      assert Keys(g)[k + 1] == MatchKey(g.aliases[k]);
      FirstMatchOfKey(games, keys, i, g.aliases[k]);
    }
  }

  /** Table integrity: with the listed keys, every entry is found by its
      own name, and by each of its aliases. */
  lemma FindsItself(i: nat)
    requires KeysListed()
    requires i < |KnownGames|
    ensures Find(KnownGames[i].name) == Some(KnownGames[i])
    ensures forall k :: 0 <= k < |KnownGames[i].aliases| ==> Find(KnownGames[i].aliases[k]) == Some(KnownGames[i])
  {
    TableKeysDistinct();
    FindsEveryEntry(KnownGames, TableKeys, i);
  }

  /* ----------------------------------------------------------- difficulty */

  /** The positions of the entries of one difficulty, ascending. */
  function DifficultyIndices(games: seq<GameInfo>, d: Difficulty): (r: seq<nat>)
    ensures forall k :: 0 <= k < |r| ==> r[k] < |games| && games[r[k]].difficulty == d
    ensures forall i :: 0 <= i < |games| && games[i].difficulty == d ==> i in r
    ensures forall k, l :: 0 <= k < l < |r| ==> r[k] < r[l]
  {
    if games == [] then []
    else
      var r := DifficultyIndices(games[..|games| - 1], d);
      if games[|games| - 1].difficulty == d then r + [|games| - 1] else r
  }

  /** The entries of one difficulty, in the order of `games`. */
  function Select(games: seq<GameInfo>, d: Difficulty): (r: seq<GameInfo>)
    ensures forall g :: g in r <==> g in games && g.difficulty == d
  {
    var idx := DifficultyIndices(games, d);
    var r := seq(|idx|, k requires 0 <= k < |idx| => games[idx[k]]);
    assert forall g :: g in games && g.difficulty == d ==> g in r by {
      forall g | g in games && g.difficulty == d ensures g in r {
        var i :| 0 <= i < |games| && games[i] == g;
        var k :| 0 <= k < |idx| && idx[k] == i;
        assert r[k] == g;
      }
    }
    r
  }

  /** `GameInfo::by_difficulty`. */
  function ByDifficulty(d: Difficulty): (r: seq<GameInfo>)
    ensures forall g :: g in r <==> g in KnownGames && g.difficulty == d
  {
    Select(KnownGames, d)
  }
}
