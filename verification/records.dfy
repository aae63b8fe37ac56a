/** The rows the toolkit passes around. The NBA API's tables are inputs to
    the model: a schedule row of the team game finder, a player row of a
    traditional box score, and the per-game record of one player that the
    fetch layer builds from them. A box-score cell may be missing (absent
    column or None), so those cells are `Option`s. */
module Records {
  import opened Prelude

  /** One row of the season schedule (GAME_ID, GAME_DATE, MATCHUP, WL, PTS, PLUS_MINUS).
      Dates are ISO strings, so text order is date order. */
  datatype GameRow = GameRow(
    gameId: string,
    gameDate: string,
    matchup: string,
    wl: string,
    pts: int,
    plusMinus: int)

  /** One player's line in a box score, as the box-score fetch returns it. */
  datatype BoxRow = BoxRow(
    personId: Option<int>,
    playerId: Option<int>,
    name: Option<string>,
    firstName: Option<string>,
    familyName: Option<string>,
    points: Option<int>,
    reboundsTotal: Option<int>,
    assists: Option<int>,
    steals: Option<int>,
    blocks: Option<int>,
    fieldGoalsMade: Option<int>,
    fieldGoalsAttempted: Option<int>,
    threePointersMade: Option<int>,
    threePointersAttempted: Option<int>,
    freeThrowsMade: Option<int>,
    freeThrowsAttempted: Option<int>,
    turnovers: Option<int>,
    minutes: Option<string>)

  /** One row of a player's game log. */
  datatype PlayerGame = PlayerGame(
    gameId: string,
    date: string,
    matchup: string,
    result: string,
    points: int,
    rebounds: int,
    assists: int,
    steals: int,
    blocks: int,
    fgMade: int,
    fgAttempted: int,
    fg3Made: int,
    fg3Attempted: int,
    ftMade: int,
    ftAttempted: int,
    turnovers: int,
    minutes: string,
    fgPct: real,
    fg3Pct: real,
    ftPct: real)
}
