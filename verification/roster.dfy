/** Roster efficiency: from the team's shot chart (which names the games)
    and those games' box scores, each player's games, points, field-goal
    and free-throw attempts are accumulated; players below a volume
    threshold are dropped; the rest get a true-shooting percentage and are
    ranked by field-goal attempts per game. */
module Roster {
  import opened Prelude
  import opened Text
  import opened Sorting
  import opened Records
  import opened Shots
  import opened Games

  // ---------------------------------------------------------------------
  // The games to look at

  /** `column.unique().tolist()`: each value once, in order of first appearance. */
  function Distinct(s: seq<string>): (r: seq<string>)
    ensures forall x :: x in r <==> x in s
    ensures forall i, j :: 0 <= i < j < |r| ==> r[i] != r[j]
  {
    if s == [] then []
    else
      var d := Distinct(s[..|s| - 1]);
      var last := s[|s| - 1];
      assert forall x :: x in s <==> x in s[..|s| - 1] || x == last;
      if last in d then d else d + [last]
  }

  /** `x` appears in `s` before any occurrence of `y`. */
  ghost predicate Before(s: seq<string>, x: string, y: string) {
    exists k :: 0 <= k < |s| && s[k] == x && y !in s[..k + 1]
  }

  /** `Distinct` keeps the order of first appearance: whatever it lists
      earlier turns up in `s` before anything it lists later. */
  lemma {:induction false} DistinctKeepsFirstAppearance(s: seq<string>)
    ensures forall i, j :: 0 <= i < j < |Distinct(s)| ==> Before(s, Distinct(s)[i], Distinct(s)[j])
  {
    if s != [] {
      var init := s[..|s| - 1];
      var last := s[|s| - 1];
      var d := Distinct(init);
      DistinctKeepsFirstAppearance(init);
      forall x, y | Before(init, x, y)
        ensures Before(s, x, y)
      {
        var k :| 0 <= k < |init| && init[k] == x && y !in init[..k + 1];
        assert s[..k + 1] == init[..k + 1];
        assert s[k] == x;
      }
      if last !in d {
        var r := d + [last];
        assert Distinct(s) == r;
        forall i, j | 0 <= i < j < |r|
          ensures Before(s, r[i], r[j])
        {
          if j < |d| {
            assert Before(init, d[i], d[j]);
          } else {
            assert d[i] in init;
            var k :| 0 <= k < |init| && init[k] == d[i];
            assert last !in init;
            assert s[..k + 1] == init[..k + 1];
            assert s[k] == d[i];
          }
        }
      }
    }
  }

  /** The game id of every shot. */
  function ShotGameIds(shots: seq<Shot>): (ids: seq<string>)
    ensures |ids| == |shots|
    ensures forall i :: 0 <= i < |shots| ==> ids[i] == shots[i].gameId
  {
    seq(|shots|, i requires 0 <= i < |shots| => shots[i].gameId)
  }

  /** The rows of all the listed games' box scores, game after game. */
  function AllRows(gameIds: seq<string>, boxes: map<string, seq<BoxRow>>): seq<BoxRow> {
    if gameIds == [] then []
    else AllRows(gameIds[..|gameIds| - 1], boxes) + BoxOf(boxes, gameIds[|gameIds| - 1])
  }

  /** One more game adds its box score's rows, and an empty one adds none. */
  lemma AllRowsStep(gameIds: seq<string>, g: nat, boxes: map<string, seq<BoxRow>>)
    requires g < |gameIds|
    ensures AllRows(gameIds[..g + 1], boxes) == AllRows(gameIds[..g], boxes) + BoxOf(boxes, gameIds[g])
    ensures BoxOf(boxes, gameIds[g]) == [] ==> AllRows(gameIds[..g + 1], boxes) == AllRows(gameIds[..g], boxes)
  {
    assert gameIds[..g + 1][..g] == gameIds[..g];
  }

  // ---------------------------------------------------------------------
  // Who a row belongs to, and what the rows add up to

  /** `row.get('personId') or row.get('playerId')`: a missing or zero
      personId falls back to playerId; no id at all skips the row. */
  function IdOf(row: BoxRow): (id: Option<int>)
    ensures row.personId.Some? && row.personId.value != 0 ==> id == row.personId
    ensures row.personId.None? || row.personId == Some(0) ==> id == row.playerId
  {
    if row.personId.Some? && row.personId.value != 0 then row.personId else row.playerId
  }

  /** The row's `name`, or else first and family name joined and stripped. */
  function NameOf(row: BoxRow): (n: string)
    ensures row.name.Some? ==> n == row.name.value
    ensures row.name.None? ==> n == Strip(row.firstName.GetOr("") + " " + row.familyName.GetOr(""))
  {
    if row.name.Some? then row.name.value
    else Strip(row.firstName.GetOr("") + " " + row.familyName.GetOr(""))
  }

  function PointsOf(row: BoxRow): int { row.points.GetOr(0) }
  function FgaOf(row: BoxRow): int { row.fieldGoalsAttempted.GetOr(0) }
  function FtaOf(row: BoxRow): int { row.freeThrowsAttempted.GetOr(0) }

  /** The player ids that occur in the rows, in order of first occurrence. */
  function Ids(rows: seq<BoxRow>): (ids: seq<int>)
    ensures forall i, j :: 0 <= i < j < |ids| ==> ids[i] != ids[j]
  {
    if rows == [] then []
    else
      var ids := Ids(rows[..|rows| - 1]);
      var id := IdOf(rows[|rows| - 1]);
      if id.Some? && id.value !in ids then ids + [id.value] else ids
  }

  /** The number of rows of player `id`. */
  function Count(rows: seq<BoxRow>, id: int): nat {
    if rows == [] then 0
    else Count(rows[..|rows| - 1], id) + (if IdOf(rows[|rows| - 1]) == Some(id) then 1 else 0)
  }

  /** The sum of one statistic over the rows of player `id`. */
  function Total(rows: seq<BoxRow>, id: int, stat: BoxRow -> int): int {
    if rows == [] then 0
    else Total(rows[..|rows| - 1], id, stat) + (if IdOf(rows[|rows| - 1]) == Some(id) then stat(rows[|rows| - 1]) else 0)
  }

  /** The name on the first row of player `id`. */
  function FirstName(rows: seq<BoxRow>, id: int): string {
    if rows == [] then ""
    else if id in Ids(rows[..|rows| - 1]) then FirstName(rows[..|rows| - 1], id)
    else if IdOf(rows[|rows| - 1]) == Some(id) then NameOf(rows[|rows| - 1])
    else ""
  }

  /** A player's running totals. */
  datatype Totals = Totals(playerId: int, name: string, games: nat, points: int, fga: int, fta: int)

  /** What the rows add up to for player `id`. */
  function Tally(rows: seq<BoxRow>, id: int): Totals {
    Totals(id, FirstName(rows, id), Count(rows, id), Total(rows, id, PointsOf), Total(rows, id, FgaOf), Total(rows, id, FtaOf))
  }

  /** Appending one row keeps the rows before it, and lists its id last
      when that id is new. */
  lemma SnocIds(rows: seq<BoxRow>, row: BoxRow)
    ensures (rows + [row])[..|rows|] == rows
    ensures Ids(rows + [row]) == if IdOf(row).Some? && IdOf(row).value !in Ids(rows) then Ids(rows) + [IdOf(row).value] else Ids(rows)
  {
    assert (rows + [row])[..|rows|] == rows;
  }

  /** Appending one row of player `id` adds that row to the player's
      count and totals; any other row leaves them unchanged. */
  lemma SnocTally(rows: seq<BoxRow>, row: BoxRow, id: int)
    ensures var rows', mine := rows + [row], IdOf(row) == Some(id);
            && Count(rows', id) == Count(rows, id) + (if mine then 1 else 0)
            && Total(rows', id, PointsOf) == Total(rows, id, PointsOf) + (if mine then PointsOf(row) else 0)
            && Total(rows', id, FgaOf) == Total(rows, id, FgaOf) + (if mine then FgaOf(row) else 0)
            && Total(rows', id, FtaOf) == Total(rows, id, FtaOf) + (if mine then FtaOf(row) else 0)
            && FirstName(rows', id) == if id in Ids(rows) then FirstName(rows, id) else if mine then NameOf(row) else ""
  {
    assert (rows + [row])[..|rows|] == rows;
  }

  /** A player is listed exactly when they have at least one row. */
  lemma {:induction false} ListedIffCounted(rows: seq<BoxRow>, id: int)
    ensures id in Ids(rows) <==> Count(rows, id) >= 1
  {
    if rows != [] {
      var init := rows[..|rows| - 1];
      assert rows == init + [rows[|rows| - 1]];
      ListedIffCounted(init, id);
      SnocIds(init, rows[|rows| - 1]);
      SnocTally(init, rows[|rows| - 1], id);
    }
  }

  /** Every row with an id has that id listed. */
  lemma {:induction false} RowListed(rows: seq<BoxRow>, row: BoxRow)
    requires row in rows && IdOf(row).Some?
    ensures IdOf(row).value in Ids(rows)
  {
    var init := rows[..|rows| - 1];
    assert rows == init + [rows[|rows| - 1]];
    SnocIds(init, rows[|rows| - 1]);
    if row != rows[|rows| - 1] {
      assert row in init;
      RowListed(init, row);
    }
  }

  /** Every row with an id is counted under that id, and every listed id has rows. */
  lemma IdsComplete(rows: seq<BoxRow>)
    ensures forall row :: row in rows && IdOf(row).Some? ==> IdOf(row).value in Ids(rows)
    ensures forall id :: id in Ids(rows) ==> Count(rows, id) >= 1
    ensures forall id :: id !in Ids(rows) ==> Count(rows, id) == 0
  {
    forall row | row in rows && IdOf(row).Some?
      ensures IdOf(row).value in Ids(rows)
    {
      RowListed(rows, row);
    }
    forall id
      ensures id in Ids(rows) <==> Count(rows, id) >= 1
    {
      ListedIffCounted(rows, id);
    }
  }

  /** A player without rows has nothing added up. */
  lemma {:induction false} AbsentTotalsZero(rows: seq<BoxRow>, id: int, stat: BoxRow -> int)
    requires id !in Ids(rows)
    ensures Total(rows, id, stat) == 0
  {
    if rows != [] {
      var init := rows[..|rows| - 1];
      assert id !in Ids(init);
      AbsentTotalsZero(init, id, stat);
    }
  }

  /** The map and key order of the accumulation loop agree with the rows seen so far. */
  ghost predicate Accumulated(stats: map<int, Totals>, order: seq<int>, seen: seq<BoxRow>) {
    && order == Ids(seen)
    && (forall id :: id in stats <==> id in order)
    && (forall id :: id in stats ==> stats[id] == Tally(seen, id))
  }

  // ---------------------------------------------------------------------
  // Efficiency and the ranking

  /** One entry of the result. */
  datatype Efficiency = Efficiency(playerId: int, name: string, tsPct: real, fgaPerGame: real, games: nat)

  /** True shooting: points over twice the shooting attempts (field goals
      plus 0.44 per free throw), as a percentage; 0 when there were none. */
  function TrueShooting(points: int, fga: int, fta: int): (ts: real)
    ensures var tsa := fga as real + 0.44 * fta as real;
            (tsa > 0.0 ==> ts * (2.0 * tsa) == points as real * 100.0)
            && (tsa <= 0.0 ==> ts == 0.0)
  {
    var tsa := fga as real + 0.44 * fta as real;
    if tsa > 0.0 then points as real / (2.0 * tsa) * 100.0 else 0.0
  }

  /** Scoring two points per field-goal attempt, with no free throws, is
      100% true shooting; no attempts at all is 0%. */
  lemma TrueShootingBenchmarks(fga: int)
    requires fga > 0
    ensures TrueShooting(2 * fga, fga, 0) == 100.0
    ensures TrueShooting(0, 0, 0) == 0.0
  {
    var tsa := fga as real + 0.44 * 0 as real;
    assert tsa == fga as real;
    assert (2 * fga) as real / (2.0 * tsa) == 1.0;
  }

  /** Attempts per game, for a player with at least one game. */
  function FgaPerGame(t: Totals): (f: real)
    requires t.games > 0
    ensures f * t.games as real == t.fga as real
    ensures t.fga >= 0 ==> f >= 0.0
  {
    t.fga as real / t.games as real
  }

  /** A player is listed when they played and average at least `minFga` attempts. */
  predicate Qualifies(t: Totals, minFga: real): (b: bool)
    ensures b <==> t.games > 0 && t.fga as real >= minFga * t.games as real
  {
    t.games > 0 && FgaPerGame(t) >= minFga
  }

  /** The result entry for a player's totals. */
  function EntryOf(t: Totals): (e: Efficiency)
    requires t.games > 0
    ensures e.playerId == t.playerId && e.name == t.name && e.games == t.games
    ensures e.fgaPerGame * t.games as real == t.fga as real
    ensures e.tsPct == TrueShooting(t.points, t.fga, t.fta)
  {
    Efficiency(t.playerId, t.name, TrueShooting(t.points, t.fga, t.fta), FgaPerGame(t), t.games)
  }

  /** The entries of the qualifying players among `ids`, in the order of `ids`. */
  function Entries(ids: seq<int>, rows: seq<BoxRow>, minFga: real): seq<Efficiency> {
    if ids == [] then []
    else
      var t := Tally(rows, ids[|ids| - 1]);
      Entries(ids[..|ids| - 1], rows, minFga) + (if Qualifies(t, minFga) then [EntryOf(t)] else [])
  }

  /** Every entry belongs to a listed, qualifying player and is that player's entry. */
  lemma {:induction false} EntriesSound(ids: seq<int>, rows: seq<BoxRow>, minFga: real)
    ensures forall e :: e in Entries(ids, rows, minFga) ==>
      && e.playerId in ids
      && Qualifies(Tally(rows, e.playerId), minFga)
      && e == EntryOf(Tally(rows, e.playerId))
  {
    if ids != [] {
      EntriesSound(ids[..|ids| - 1], rows, minFga);
    }
  }

  /** Every listed, qualifying player has an entry. */
  lemma {:induction false} EntriesComplete(ids: seq<int>, rows: seq<BoxRow>, minFga: real)
    ensures forall id :: id in ids && Qualifies(Tally(rows, id), minFga) ==> EntryOf(Tally(rows, id)) in Entries(ids, rows, minFga)
  {
    if ids != [] {
      EntriesComplete(ids[..|ids| - 1], rows, minFga);
      assert forall id :: id in ids ==> id in ids[..|ids| - 1] || id == ids[|ids| - 1];
    }
  }

  /** `a` has at least the attempts per game of `b`. */
  predicate AtLeastVolume(a: Efficiency, b: Efficiency) {
    a.fgaPerGame >= b.fgaPerGame
  }

  lemma AtLeastVolumeIsTotalPreorder()
    ensures TotalPreorder(AtLeastVolume)
  {
  }

  /** What `get_roster_efficiency` returns, before ranking: nothing when
      the shot chart is empty or has no player column; otherwise the
      qualifying players of the box scores of the shot chart's games, in
      order of first appearance. */
  function Expected(shots: ShotTable, boxes: map<string, seq<BoxRow>>, minFga: real): seq<Efficiency> {
    if shots.rows == [] || !shots.hasPlayerId then []
    else
      var rows := AllRows(Distinct(ShotGameIds(shots.rows)), boxes);
      Entries(Ids(rows), rows, minFga)
  }

  /** One more game for a player: the row's points and attempts added. */
  function AddRow(t: Totals, row: BoxRow): (t': Totals)
    ensures t'.playerId == t.playerId && t'.name == t.name && t'.games == t.games + 1
    ensures t'.points - t.points == PointsOf(row)
    ensures t'.fga - t.fga == FgaOf(row) && t'.fta - t.fta == FtaOf(row)
  {
    t.(games := t.games + 1, points := t.points + PointsOf(row), fga := t.fga + FgaOf(row), fta := t.fta + FtaOf(row))
  }

  /** One step of the accumulation loop keeps the map and key order in
      agreement with the rows seen. */
  lemma RecordRow(stats: map<int, Totals>, order: seq<int>, seen: seq<BoxRow>, row: BoxRow,
                  stats': map<int, Totals>, order': seq<int>)
    requires Accumulated(stats, order, seen)
    requires IdOf(row).None? ==> stats' == stats && order' == order
    requires IdOf(row).Some? ==>
      var id := IdOf(row).value;
      && order' == (if id in stats then order else order + [id])
      && stats' == stats[id := AddRow(if id in stats then stats[id] else Totals(id, NameOf(row), 0, 0, 0, 0), row)]
    ensures Accumulated(stats', order', seen + [row])
  {
    SnocIds(seen, row);
    IdsComplete(seen);
    var seen' := seen + [row];
    forall id | id in stats'
      ensures stats'[id] == Tally(seen', id)
    {
      SnocTally(seen, row, id);
      if IdOf(row) == Some(id) && id !in stats {
        assert id !in Ids(seen);
        assert Count(seen, id) == 0;
        AbsentTotalsZero(seen, id, PointsOf);
        AbsentTotalsZero(seen, id, FgaOf);
        AbsentTotalsZero(seen, id, FtaOf);
      }
    }
  }

  /** The accumulation over one box score: each row with a player id
      counts one game and adds its points and attempts to that player's
      totals, creating them, under the row's name, on the player's first row. */
  method AddBoxScore(stats0: map<int, Totals>, order0: seq<int>, ghost seen: seq<BoxRow>, box: seq<BoxRow>)
    returns (stats: map<int, Totals>, order: seq<int>)
    requires Accumulated(stats0, order0, seen)
    ensures Accumulated(stats, order, seen + box)
  {
    stats, order := stats0, order0;
    var j := 0;
    assert seen + box[..0] == seen;
    while j < |box|
      invariant 0 <= j <= |box|
      invariant Accumulated(stats, order, seen + box[..j])
    {
      var row := box[j];
      ghost var stats1, order1 := stats, order;
      var pid := IdOf(row);
      if pid.Some? {
        var id := pid.value;
        if id !in stats {
          stats := stats[id := Totals(id, NameOf(row), 0, 0, 0, 0)];
          order := order + [id];
        }
        var t := stats[id];
        stats := stats[id := AddRow(t, row)];
      }
      RecordRow(stats1, order1, seen + box[..j], row, stats, order);
      assert seen + box[..j + 1] == (seen + box[..j]) + [row];
      j := j + 1;
    }
    assert box[..j] == box;
  }

  /** The accumulation over the box scores of all the games, skipping
      the empty ones. */
  method AccumulateTotals(gameIds: seq<string>, boxes: map<string, seq<BoxRow>>)
    returns (stats: map<int, Totals>, order: seq<int>)
    ensures Accumulated(stats, order, AllRows(gameIds, boxes))
  {
    stats, order := map[], [];
    var g := 0;
    while g < |gameIds|
      invariant 0 <= g <= |gameIds|
      invariant Accumulated(stats, order, AllRows(gameIds[..g], boxes))
    {
      stats, order := AddGame(stats, order, gameIds, g, boxes);
      g := g + 1;
    }
    assert gameIds[..g] == gameIds;
  }

  /** One pass of the accumulation: the box score of game `g`, unless it is empty. */
  method AddGame(stats0: map<int, Totals>, order0: seq<int>, gameIds: seq<string>, g: nat, boxes: map<string, seq<BoxRow>>)
    returns (stats: map<int, Totals>, order: seq<int>)
    requires g < |gameIds| && Accumulated(stats0, order0, AllRows(gameIds[..g], boxes))
    ensures Accumulated(stats, order, AllRows(gameIds[..g + 1], boxes))
  {
    var box := BoxOf(boxes, gameIds[g]);
    AllRowsStep(gameIds, g, boxes);
    if box != [] {
      stats, order := AddBoxScore(stats0, order0, AllRows(gameIds[..g], boxes), box);
    } else {
      stats, order := stats0, order0;
    }
  }

  /** The result loop: every player with games whose attempts per game
      reach `minFga` gets an entry, in key order. */
  method QualifyingEntries(stats: map<int, Totals>, order: seq<int>, ghost rows: seq<BoxRow>, minFga: real)
    returns (entries: seq<Efficiency>)
    requires Accumulated(stats, order, rows)
    ensures entries == Entries(order, rows, minFga)
  {
    entries := [];
    assert forall id :: id in order ==> id in stats;
    var k := 0;
    while k < |order|
      invariant 0 <= k <= |order|
      invariant entries == Entries(order[..k], rows, minFga)
    {
      assert order[..k + 1][..k] == order[..k];
      assert order[k] in order;
      var t := stats[order[k]];
      assert t == Tally(rows, order[k]);
      if t.games != 0 {
        var fgaPerGame := t.fga as real / t.games as real;
        if fgaPerGame >= minFga {
          var tsa := t.fga as real + 0.44 * t.fta as real;
          var tsPct := if tsa > 0.0 then t.points as real / (2.0 * tsa) * 100.0 else 0.0;
          assert Efficiency(t.playerId, t.name, tsPct, fgaPerGame, t.games) == EntryOf(t);
          entries := entries + [Efficiency(t.playerId, t.name, tsPct, fgaPerGame, t.games)];
        }
      }
      k := k + 1;
    }
    assert order[..k] == order;
  }

  /** `get_roster_efficiency(last_n_games, min_fga)` on the fetched shot
      chart and box scores: totals per player over the box scores of the
      distinct games, the players averaging at least `minFga` attempts,
      ranked by attempts per game, highest first. */
  method RosterEfficiency(shots: ShotTable, boxes: map<string, seq<BoxRow>>, minFga: real)
    returns (result: seq<Efficiency>)
    ensures multiset(result) == multiset(Expected(shots, boxes, minFga))
    ensures SortedBy(result, AtLeastVolume)
  {
    if shots.rows == [] || !shots.hasPlayerId {
      return [];
    }
    var gameIds := Distinct(ShotGameIds(shots.rows));
    var stats, order := AccumulateTotals(gameIds, boxes);
    var entries := QualifyingEntries(stats, order, AllRows(gameIds, boxes), minFga);
    AtLeastVolumeIsTotalPreorder();
    result := SortDesc(entries, AtLeastVolume);
  }

  /** A player who appears in the box scores is ranked exactly when they
      average at least `minFga` attempts per game, with totals over all
      their rows and the name from their first row. */
  lemma RosterMembership(rows: seq<BoxRow>, minFga: real, id: int)
    requires id in Ids(rows)
    ensures Count(rows, id) >= 1
    ensures EntryOf(Tally(rows, id)) in Entries(Ids(rows), rows, minFga)
        <==> Total(rows, id, FgaOf) as real / Count(rows, id) as real >= minFga
  {
    IdsComplete(rows);
    EntriesSound(Ids(rows), rows, minFga);
    EntriesComplete(Ids(rows), rows, minFga);
  }

  /** No player has two entries. */
  ghost predicate DistinctPlayers(es: seq<Efficiency>) {
    forall i, j :: 0 <= i < j < |es| ==> es[i].playerId != es[j].playerId
  }

  /** Nobody is listed twice. */
  lemma {:induction false} EntriesDistinct(ids: seq<int>, rows: seq<BoxRow>, minFga: real)
    requires forall i, j :: 0 <= i < j < |ids| ==> ids[i] != ids[j]
    ensures DistinctPlayers(Entries(ids, rows, minFga))
  {
    if ids != [] {
      var init, last := ids[..|ids| - 1], ids[|ids| - 1];
      EntriesDistinct(init, rows, minFga);
      EntriesSound(init, rows, minFga);
      var es := Entries(init, rows, minFga);
      assert last !in init by {
        forall i | 0 <= i < |init|
          ensures init[i] != last
        {
          assert init[i] == ids[i];
        }
      }
      forall i | 0 <= i < |es|
        ensures es[i].playerId != last
      {
        assert es[i] in es;
      }
      var t := Tally(rows, last);
      if Qualifies(t, minFga) {
        var all := es + [EntryOf(t)];
        assert all == Entries(ids, rows, minFga);
        forall i, j | 0 <= i < j < |all|
          ensures all[i].playerId != all[j].playerId
        {
          if j == |es| {
            assert all[i] == es[i];
          } else {
            assert all[i] == es[i] && all[j] == es[j];
          }
        }
      }
    }
  }
}
