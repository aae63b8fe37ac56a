/** Shot-chart normalisation: the raw shot-chart table becomes one clean
    row per shot, with a made/missed flag and a two-valued shot type. */
module Shots {
  import opened Prelude
  import opened Text

  /** One row of the raw shot-chart table. */
  datatype RawShot = RawShot(
    locX: int,
    locY: int,
    shotMadeFlag: int,
    shotType: string,
    shotZoneBasic: string,
    shotDistance: int,
    gameId: string,
    gameDate: string,
    playerId: int,
    playerName: string)

  /** The raw table, with the optional columns it may lack. */
  datatype RawShotTable = RawShotTable(
    rows: seq<RawShot>,
    hasGameDate: bool,
    hasPlayerId: bool,
    hasPlayerName: bool)

  datatype ShotType = TwoPoint | ThreePoint

  /** The label a shot type is stored under. */
  function Label(t: ShotType): (s: string)
    ensures s == "2PT" || s == "3PT"
  {
    match t
    case TwoPoint => "2PT"
    case ThreePoint => "3PT"
  }

  /** One clean shot row; the columns the table may lack are `Option`s. */
  datatype Shot = Shot(
    locX: int,
    locY: int,
    made: bool,
    shotType: ShotType,
    zone: string,
    distance: int,
    gameId: string,
    gameDate: Option<string>,
    playerId: Option<int>,
    playerName: Option<string>)

  /** The clean table, with the player columns present or not. */
  datatype ShotTable = ShotTable(rows: seq<Shot>, hasPlayerId: bool, hasPlayerName: bool)

  /** Three-pointer iff the raw type mentions "3PT". */
  function Classify(rawType: string): (t: ShotType)
    ensures t == ThreePoint <==> Contains(rawType, "3PT")
  {
    if Contains(rawType, "3PT") then ThreePoint else TwoPoint
  }

  /** One clean row: made iff the flag is 1; the game date only when the
      raw table has that column; no player columns yet. */
  function Normalise(raw: RawShot, hasGameDate: bool): (s: Shot)
    ensures s.made <==> raw.shotMadeFlag == 1
    ensures s.shotType == ThreePoint <==> Contains(raw.shotType, "3PT")
    ensures s.gameDate.Some? <==> hasGameDate
    ensures s.gameDate.Some? ==> s.gameDate.value == raw.gameDate
    ensures s.playerId.None? && s.playerName.None?
    ensures (s.locX, s.locY, s.zone, s.distance, s.gameId)
         == (raw.locX, raw.locY, raw.shotZoneBasic, raw.shotDistance, raw.gameId)
  {
    Shot(
      raw.locX, raw.locY,
      raw.shotMadeFlag == 1,
      Classify(raw.shotType),
      raw.shotZoneBasic, raw.shotDistance, raw.gameId,
      if hasGameDate then Some(raw.gameDate) else None,
      None, None)
  }

  /** `get_player_shots`: one clean row per raw row, in order; an empty
      raw table gives an empty table. */
  function PlayerShots(raw: RawShotTable): (r: seq<Shot>)
    ensures |r| == |raw.rows|
    ensures forall i :: 0 <= i < |r| ==> r[i] == Normalise(raw.rows[i], raw.hasGameDate)
  {
    seq(|raw.rows|, i requires 0 <= i < |raw.rows| => Normalise(raw.rows[i], raw.hasGameDate))
  }

  /** `get_team_shots`: the player's clean rows, plus the player id and
      name columns when the raw table has them. */
  function TeamShots(raw: RawShotTable): (r: ShotTable)
    ensures |r.rows| == |raw.rows|
    ensures r.hasPlayerId == (raw.rows != [] && raw.hasPlayerId)
    ensures r.hasPlayerName == (raw.rows != [] && raw.hasPlayerName)
    ensures forall i :: 0 <= i < |r.rows| ==>
      && r.rows[i].playerId == (if raw.hasPlayerId then Some(raw.rows[i].playerId) else None)
      && r.rows[i].playerName == (if raw.hasPlayerName then Some(raw.rows[i].playerName) else None)
      && r.rows[i].(playerId := None, playerName := None) == PlayerShots(raw)[i]
  {
    if raw.rows == [] then ShotTable([], false, false)
    else
      var base := PlayerShots(raw);
      var rows := seq(|base|, i requires 0 <= i < |base| =>
        base[i].(
          playerId := if raw.hasPlayerId then Some(raw.rows[i].playerId) else None,
          playerName := if raw.hasPlayerName then Some(raw.rows[i].playerName) else None));
      ShotTable(rows, raw.hasPlayerId, raw.hasPlayerName)
  }

  /** Every shot type is stored as "2PT" or "3PT", and "3PT" exactly for
      the raw types that mention it. */
  lemma ShotTypeLabels(raw: RawShotTable)
    ensures forall s :: s in PlayerShots(raw) ==> Label(s.shotType) in {"2PT", "3PT"}
    ensures forall i :: 0 <= i < |raw.rows| ==>
      (Label(PlayerShots(raw)[i].shotType) == "3PT" <==> Contains(raw.rows[i].shotType, "3PT"))
  {
  }

  /** The made shots are exactly the raw rows flagged 1. */
  function MadeCount(shots: seq<Shot>): nat {
    if shots == [] then 0 else (if shots[0].made then 1 else 0) + MadeCount(shots[1..])
  }

  function FlaggedCount(rows: seq<RawShot>): nat {
    if rows == [] then 0 else (if rows[0].shotMadeFlag == 1 then 1 else 0) + FlaggedCount(rows[1..])
  }

  lemma {:induction false} MadeCountMatchesFlags(rows: seq<RawShot>, hasGameDate: bool)
    ensures MadeCount(PlayerShots(RawShotTable(rows, hasGameDate, false, false))) == FlaggedCount(rows)
  {
    if rows != [] {
      var t, t' := RawShotTable(rows, hasGameDate, false, false), RawShotTable(rows[1..], hasGameDate, false, false);
      assert PlayerShots(t)[1..] == PlayerShots(t');
      MadeCountMatchesFlags(rows[1..], hasGameDate);
    }
  }
}
