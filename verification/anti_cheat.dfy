/** Anti-cheat risk: the CLI's lookup-based level, the game card's table
    and the local API's table, and how they agree on the known games. */
module AntiCheat {
  import opened Wrappers
  import Games

  datatype Risk = Low | Medium | High

  /** The titles the CLI and the game card rate high. */
  predicate HighRiskTitle(name: string) { name == "Valorant" || name == "League of Legends" }

  /** The titles the CLI and the game card rate medium. */
  predicate MediumRiskTitle(name: string)
  {
    name == "Counter-Strike 2" || name == "Fortnite" || name == "Apex Legends" || name == "Call of Duty: Warzone"
  }

  /** The titles only the local API rates medium. */
  predicate RouteOnlyMediumTitle(name: string)
  {
    name == "PUBG: BATTLEGROUNDS" || name == "Tom Clancy's Rainbow Six Siege" || name == "Destiny 2" ||
    name == "The Finals" || name == "Delta Force" || name == "Marvel Rivals"
  }

  /** The `match game.name` inside `anti_cheat_risk_for_game_name`. */
  function RiskOfTitle(name: string): (r: Risk)
    ensures r == High <==> HighRiskTitle(name)
    ensures r == Medium <==> MediumRiskTitle(name)
  {
    match name
    case "Valorant" => High
    case "League of Legends" => High
    case "Counter-Strike 2" => Medium
    case "Fortnite" => Medium
    case "Apex Legends" => Medium
    case "Call of Duty: Warzone" => Medium
    case _ => Low
  }

  /** `anti_cheat_risk_for_game_name`: the entry the name finds decides;
      a name that finds nothing is medium risk. */
  function RiskForGameName(name: string): (r: Risk)
    ensures Games.Find(name).None? ==> r == Medium
    ensures r == High <==> Games.Find(name).Some? && HighRiskTitle(Games.Find(name).value.name)
  {
    match Games.Find(name)
    case None => Medium
    case Some(g) => RiskOfTitle(g.name)
  }

  /** `anti_cheat_risk_for_game`: no entry is medium risk. */
  function RiskForGame(info: Option<Games.GameInfo>): (r: Risk)
    ensures info.None? ==> r == Medium
    ensures info.Some? ==> r == RiskForGameName(info.value.name)
  {
    match info
    case None => Medium
    case Some(g) => RiskForGameName(g.name)
  }

  /** The game card's `anti_cheat_risk`, a table on the exact name. */
  function CardRisk(name: string): (r: Risk)
    ensures r == High <==> HighRiskTitle(name)
    ensures r == Medium <==> MediumRiskTitle(name)
  {
    if name == "Valorant" || name == "League of Legends" then High
    else if name == "Counter-Strike 2" || name == "Fortnite" || name == "Apex Legends" || name == "Call of Duty: Warzone" then Medium
    else Low
  }

  /** The local API's `game_anti_cheat_risk`, as the label it sends. */
  function RouteRisk(name: string): (r: string)
    ensures r == "high" <==> HighRiskTitle(name)
    ensures r == "medium" <==> MediumRiskTitle(name) || RouteOnlyMediumTitle(name)
    ensures r == "high" || r == "medium" || r == "low"
  {
    if name == "Valorant" || name == "League of Legends" then "high"
    else if name == "Counter-Strike 2" || name == "Fortnite" || name == "Apex Legends" || name == "Call of Duty: Warzone" ||
            name == "PUBG: BATTLEGROUNDS" || name == "Tom Clancy's Rainbow Six Siege" || name == "Destiny 2" ||
            name == "The Finals" || name == "Delta Force" || name == "Marvel Rivals" then "medium"
    else "low"
  }

  function Label(r: Risk): string
  {
    match r
    case Low => "low"
    case Medium => "medium"
    case High => "high"
  }

  /** The CLI's table and the game card's are the same table. */
  lemma TitleTablesAgree(name: string)
    ensures RiskOfTitle(name) == CardRisk(name)
  {
  }

  /** The local API agrees with the game card on every name it does not
      additionally rate medium. */
  lemma RouteAgreesWithCard(name: string)
    requires !RouteOnlyMediumTitle(name)
    ensures RouteRisk(name) == Label(CardRisk(name))
  {
  }

  lemma NotRouteOnly0()
    ensures forall i :: 0 <= i < 9 ==> !RouteOnlyMediumTitle(Games.KnownGames[i].name)
  {
  }

  lemma NotRouteOnly1()
    ensures forall i :: 9 <= i < 17 ==> !RouteOnlyMediumTitle(Games.KnownGames[i].name)
  {
  }

  lemma NotRouteOnly2()
    ensures forall i :: 17 <= i < |Games.KnownGames| ==> !RouteOnlyMediumTitle(Games.KnownGames[i].name)
  {
  }

  /** None of the known games is one of the titles only the local API
      lists. */
  lemma KnownGamesNotRouteOnly(i: nat)
    requires i < |Games.KnownGames|
    ensures !RouteOnlyMediumTitle(Games.KnownGames[i].name)
  {
    NotRouteOnly0();
    NotRouteOnly1();
    NotRouteOnly2();
  }

  /** With the table's listed keys, the three tables agree on the name of
      every known game. */
  lemma RiskTablesAgree(i: nat)
    requires Games.KeysListed()
    requires i < |Games.KnownGames|
    ensures RiskForGameName(Games.KnownGames[i].name) == CardRisk(Games.KnownGames[i].name)
    ensures RouteRisk(Games.KnownGames[i].name) == Label(CardRisk(Games.KnownGames[i].name))
  {
    Games.FindsItself(i);
    KnownGamesNotRouteOnly(i);
    RouteAgreesWithCard(Games.KnownGames[i].name);
  }
}
