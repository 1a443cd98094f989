/** The game-log table's rows, its fixed constants and the derived game identifier. */
module Rows {

  /**
   * A points cell as read from a player's log: a number, or a note such as
   * "Did Not Play" that stands where the number would be.
   */
  datatype Cell = Number(n: int) | Note(text: string)

  /**
   * One player's line in one game. `stats` holds the other statistic columns by
   * name; a column missing from the map is an empty cell.
   */
  datatype Row = Row(
    dateGame: string,
    teamId: string,
    oppId: string,
    gameLocation: string,
    gameResult: string,
    playerName: string,
    gameId: string,
    pts: Cell,
    stats: map<string, int>)

  /** The errors the table's operations raise. */
  datatype Failure =
    | EmptyQuery                  // every filter handed to query chaining was None
    | MissingIndexEntry(key: string)  // a log file's key has no name in the index
    | NoFilesMatched              // nothing to concatenate
    | UnknownStat(name: string)   // the statistic column does not exist

  /** Points values that mean the player produced no statistics in that game. */
  const InformationlessLogs: set<string> :=
    {"Did Not Play", "Inactive", "Did Not Dress", "Not With Team", "Player Suspended"}

  /** The statistic columns of a game log. */
  const Stats: seq<string> :=
    ["fg", "fga", "fg_pct", "fg3", "fg3a", "fg3_pct", "ft", "fta", "ft_pct", "orb", "drb", "trb",
     "ast", "stl", "blk", "tov", "pf", "pts", "game_score", "plus_minus"]

  /** The `game_location` marker of a team playing away. */
  const AwayMarker: string := "@"

  /** A row whose points cell is one of the informationless notes. */
  predicate Informationless(r: Row): (b: bool)
    ensures b <==> (r.pts == Note("Did Not Play") || r.pts == Note("Inactive") ||
                    r.pts == Note("Did Not Dress") || r.pts == Note("Not With Team") ||
                    r.pts == Note("Player Suspended"))
  {
    r.pts.Note? && r.pts.text in InformationlessLogs
  }

  /** The value a row contributes to a sum of column `stat`; an empty or textual cell adds 0. */
  function StatValue(r: Row, stat: string): (v: int)
    ensures v != 0 ==>
      (stat == "pts" && r.pts == Number(v)) || (stat != "pts" && stat in r.stats && r.stats[stat] == v)
    ensures stat == "pts" && r.pts.Number? ==> v == r.pts.n
    ensures stat != "pts" && stat in r.stats ==> v == r.stats[stat]
  {
    if stat == "pts" then (if r.pts.Number? then r.pts.n else 0)
    else if stat in r.stats then r.stats[stat]
    else 0
  }

  /** The home team of the row's game: the row's own team unless it is marked away. */
  function Home(r: Row): string
  {
    if r.gameLocation != AwayMarker then r.teamId else r.oppId
  }

  /** The away team of the row's game. */
  function Away(r: Row): string
  {
    if r.gameLocation != AwayMarker then r.oppId else r.teamId
  }

  /** `{date}-{home}-{away}`: the identifier of the physical game a row belongs to. */
  function GameId(r: Row): (id: string)
    ensures r.gameLocation != AwayMarker ==> id == r.dateGame + "-" + r.teamId + "-" + r.oppId
    ensures r.gameLocation == AwayMarker ==> id == r.dateGame + "-" + r.oppId + "-" + r.teamId
  {
    r.dateGame + "-" + Home(r) + "-" + Away(r)
  }

  /** The same two teams on the same date, seen from each side. */
  predicate SamePairing(a: Row, b: Row)
  {
    a.dateGame == b.dateGame && a.teamId == b.oppId && a.oppId == b.teamId
  }

  /** `b` is the opponent's line for `a`'s game: teams swapped, exactly one of them away. */
  predicate Mirrors(a: Row, b: Row)
  {
    SamePairing(a, b) && ((a.gameLocation == AwayMarker) != (b.gameLocation == AwayMarker))
  }

  /** A row and its mirror give the same game identifier. */
  lemma MirrorsShareGameId(a: Row, b: Row)
    requires Mirrors(a, b)
    ensures GameId(a) == GameId(b)
  {
  }

  /** The home team's code sits right after the date and its dash. */
  lemma HomeInGameId(r: Row)
    ensures |GameId(r)| >= |r.dateGame| + 1 + |Home(r)|
    ensures GameId(r)[|r.dateGame| + 1..|r.dateGame| + 1 + |Home(r)|] == Home(r)
  {
    var prefix := r.dateGame + "-";
    assert GameId(r) == prefix + Home(r) + ("-" + Away(r));
  }

  /**
   * For two distinct team codes of equal length (such as "BOS" and "LAL"), two lines
   * of the same pairing share an identifier exactly when one of them is marked away:
   * two unmarked lines (a neutral-site game) get different identifiers.
   */
  lemma GameIdAgreesIff(a: Row, b: Row)
    requires SamePairing(a, b)
    requires |a.teamId| == |a.oppId| && a.teamId != a.oppId
    ensures GameId(a) == GameId(b) <==> Mirrors(a, b)
  {
    if !Mirrors(a, b) {
      HomeInGameId(a);
      HomeInGameId(b);
      assert Home(a) != Home(b) && |Home(a)| == |Home(b)|;
    }
  }
}
