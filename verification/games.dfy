/** The data-shaping half of the fetch layer. The season schedule and the
    box scores the NBA API would return are inputs: the schedule as a
    sequence of rows, the box scores as a map from game id to player rows
    (a game missing from the map, or mapped to no rows, is a box score that
    came back empty or failed to load). */
module Games {
  import opened Prelude
  import opened Text
  import opened Sorting
  import opened Records

  // ---------------------------------------------------------------------
  // get_games

  /** `frame.head(n)`: the first `n` rows, or for a negative `n` all rows but the last `-n`. */
  function Head<T>(s: seq<T>, n: int): (r: seq<T>)
    ensures |r| == if n >= 0 then (if n <= |s| then n else |s|)
                   else (if |s| + n >= 0 then |s| + n else 0)
    ensures r == s[..|r|]
  {
    if n >= 0 then (if n <= |s| then s[..n] else s)
    else (if |s| + n >= 0 then s[..|s| + n] else [])
  }

  /** `a` was played on or after the day of `b`. */
  predicate LaterOrSame(a: GameRow, b: GameRow) {
    LexLe(b.gameDate, a.gameDate)
  }

  lemma LaterOrSameIsTotalPreorder()
    ensures TotalPreorder(LaterOrSame)
  {
    forall a: GameRow, b: GameRow
      ensures LaterOrSame(a, b) || LaterOrSame(b, a)
    {
      LexLeTotal(a.gameDate, b.gameDate);
    }
    forall a: GameRow, b: GameRow, c: GameRow | LaterOrSame(a, b) && LaterOrSame(b, c)
      ensures LaterOrSame(a, c)
    {
      LexLeTransitive(c.gameDate, b.gameDate, a.gameDate);
    }
  }

  /** The season's games newest first, cut to the first `lastN` when
      `lastN` is given and non-zero. */
  function GetGames(source: seq<GameRow>, lastN: Option<int>): (r: seq<GameRow>)
    ensures source == [] ==> r == []
    ensures SortedBy(r, LaterOrSame)
    ensures multiset(r) <= multiset(source)
    ensures lastN.None? || lastN == Some(0) ==> multiset(r) == multiset(source)
    ensures lastN.Some? && lastN.value != 0 ==> |r| == |Head(source, lastN.value)|
  {
    if source == [] then []
    else
      LaterOrSameIsTotalPreorder();
      var sorted := SortDesc(source, LaterOrSame);
      if lastN.Some? && lastN.value != 0 then
        var r := Head(sorted, lastN.value);
        SortedPrefix(sorted, |r|, LaterOrSame);
        r
      else sorted
  }

  /** Truncation keeps the most recent games: every game it keeps was
      played on or after the day of every game it drops. */
  lemma GetGamesKeepsMostRecent(source: seq<GameRow>, lastN: Option<int>)
    ensures var r := GetGames(source, lastN);
            forall x, y :: x in r && y in multiset(source) - multiset(r) ==> LaterOrSame(x, y)
  {
    if source != [] && lastN.Some? && lastN.value != 0 {
      LaterOrSameIsTotalPreorder();
      var sorted := SortDesc(source, LaterOrSame);
      var r := Head(sorted, lastN.value);
      assert r == GetGames(source, lastN);
      assert r == sorted[..|r|];
      SortedPrefixDominates(sorted, |r|, LaterOrSame);
    }
  }

  /** The game `get_games(last_n=1)` returns is from the latest date of the season. */
  lemma LatestIsNewest(source: seq<GameRow>)
    requires source != []
    ensures var games := GetGames(source, Some(1));
            |games| == 1 && games[0] in source && forall g :: g in source ==> LaterOrSame(games[0], g)
  {
    LaterOrSameIsTotalPreorder();
    var sorted := SortDesc(source, LaterOrSame);
    assert GetGames(source, Some(1)) == [sorted[0]];
    assert sorted[0] in multiset(source);
    SortedHeadLeads(sorted, LaterOrSame);
    assert forall g :: g in source ==> g in multiset(sorted);
  }

  // ---------------------------------------------------------------------
  // get_latest_game

  /** Where the game was played and against whom. */
  datatype Venue = Venue(isHome: bool, opponent: string)

  /** A home matchup reads "CHI vs. MIA", an away one "CHI @ BOS": home
      iff the text holds "vs.", and the opponent is what follows the last
      "vs." (home) or the last "@" (away), without surrounding whitespace. */
  function ParseMatchup(matchup: string): (v: Venue)
    ensures v.isHome <==> Contains(matchup, "vs.")
    ensures v.opponent == Strip(LastPiece(matchup, if v.isHome then "vs." else "@"))
    ensures !v.isHome && !Contains(matchup, "@") ==> v.opponent == Strip(matchup)
  {
    var isHome := Contains(matchup, "vs.");
    Venue(isHome, Strip(LastPiece(matchup, if isHome then "vs." else "@")))
  }

  /** A separator whose first character differs from the text's character
      at `j` does not occur at `j`. */
  lemma NotAt(s: string, sep: string, j: nat)
    requires j < |s| && sep != [] && s[j] != sep[0]
    ensures !OccursAt(s, sep, j)
  {
    if j + |sep| <= |s| {
      assert s[j..j + |sep|][0] == s[j];
    }
  }

  lemma HomeSeparatorFound()
    ensures FindFrom("CHI vs. MIA", "vs.", 0) == Some(4)
  {
    var s, sep := "CHI vs. MIA", "vs.";
    NotAt(s, sep, 0); NotAt(s, sep, 1); NotAt(s, sep, 2); NotAt(s, sep, 3);
    assert s[4..7] == sep;
  }

  lemma HomeSeparatorLast()
    ensures FindFrom("CHI vs. MIA", "vs.", 7) == None
  {
    var s, sep := "CHI vs. MIA", "vs.";
    NotAt(s, sep, 7); NotAt(s, sep, 8);
  }

  /** When the separator occurs once and is followed by a space and a
      name, the opponent is that name. */
  lemma OpponentAfter(matchup: string, sep: string, i: nat, opponent: string)
    requires sep != [] && FindFrom(matchup, sep, 0) == Some(i) && FindFrom(matchup, sep, i + |sep|).None?
    requires i + |sep| <= |matchup| && matchup[i + |sep|..] == [' '] + opponent
    requires opponent != [] && !IsSpace(opponent[0]) && !IsSpace(opponent[|opponent| - 1])
    ensures Strip(LastPiece(matchup, sep)) == opponent
  {
    OnlySeparatorPiece(matchup, sep, i);
    assert ([' '] + opponent)[1..] == opponent;
  }

  lemma HomeTail(matchup: string)
    requires matchup == "CHI vs. MIA"
    ensures matchup[7..] == [' '] + "MIA"
  {
  }

  lemma AwayTail(matchup: string)
    requires matchup == "CHI @ BOS"
    ensures matchup[5..] == [' '] + "BOS"
  {
  }

  /** The home game "CHI vs. MIA" is against MIA. */
  lemma HomeMatchupExample(matchup: string)
    requires matchup == "CHI vs. MIA"
    ensures ParseMatchup(matchup) == Venue(true, "MIA")
  {
    HomeSeparatorFound();
    HomeSeparatorLast();
    HomeTail(matchup);
    OpponentAfter(matchup, "vs.", 4, "MIA");
  }

  lemma AwayHasNoHomeSeparator()
    ensures FindFrom("CHI @ BOS", "vs.", 0) == None
  {
    var s, sep := "CHI @ BOS", "vs.";
    NotAt(s, sep, 0); NotAt(s, sep, 1); NotAt(s, sep, 2); NotAt(s, sep, 3);
    NotAt(s, sep, 4); NotAt(s, sep, 5); NotAt(s, sep, 6);
  }

  lemma AwaySeparatorFound()
    ensures FindFrom("CHI @ BOS", "@", 0) == Some(4)
    ensures FindFrom("CHI @ BOS", "@", 5) == None
  {
    var s, sep := "CHI @ BOS", "@";
    NotAt(s, sep, 0); NotAt(s, sep, 1); NotAt(s, sep, 2); NotAt(s, sep, 3);
    assert s[4..5] == sep;
    NotAt(s, sep, 5); NotAt(s, sep, 6); NotAt(s, sep, 7); NotAt(s, sep, 8);
  }

  /** The away game "CHI @ BOS" is against BOS. */
  lemma AwayMatchupExample(matchup: string)
    requires matchup == "CHI @ BOS"
    ensures ParseMatchup(matchup) == Venue(false, "BOS")
  {
    AwayHasNoHomeSeparator();
    AwaySeparatorFound();
    AwayTail(matchup);
    OpponentAfter(matchup, "@", 4, "BOS");
  }

  /** The most recent game, as the dict `get_latest_game` returns. */
  datatype LatestGame = LatestGame(
    gameId: string,
    date: string,
    matchup: string,
    isHome: bool,
    result: string,
    bullsScore: int,
    opponent: string,
    plusMinus: int)

  /** Raises when the season has no games; otherwise describes the newest one. */
  function GetLatestGame(source: seq<GameRow>): (r: Outcome<LatestGame>)
    ensures r.Raised? <==> source == []
    ensures r.Raised? ==> r.message == "No games found for the current season"
    ensures r.Ok? ==> exists g :: g in source && Describes(r.value, g)
    ensures r.Ok? ==> forall g :: g in source ==> LexLe(g.gameDate, r.value.date)
    ensures r.Ok? ==> ParseMatchup(r.value.matchup) == Venue(r.value.isHome, r.value.opponent)
  {
    match NewestRow(source)
    case None => Raised("No games found for the current season")
    case Some(row) =>
      var venue := ParseMatchup(row.matchup);
      var latest := LatestGame(row.gameId, row.gameDate, row.matchup, venue.isHome, row.wl, row.pts, venue.opponent, row.plusMinus);
      assert Describes(latest, row);
      Ok(latest)
  }

  /** `latest` reports the game `g`: its id, date, matchup, result, score
      and plus-minus. */
  predicate Describes(latest: LatestGame, g: GameRow) {
    && latest.gameId == g.gameId && latest.date == g.gameDate && latest.matchup == g.matchup
    && latest.result == g.wl && latest.bullsScore == g.pts && latest.plusMinus == g.plusMinus
  }

  /** The one row `get_games(last_n=1)` returns, if any: a game of the
      season from its latest date. */
  function NewestRow(source: seq<GameRow>): (r: Option<GameRow>)
    ensures r.None? <==> source == []
    ensures r.Some? ==> r.value in source && forall g :: g in source ==> LexLe(g.gameDate, r.value.gameDate)
  {
    var games := GetGames(source, Some(1));
    if source != [] then LatestIsNewest(source); Some(games[0])
    else None
  }

  // ---------------------------------------------------------------------
  // get_player_games

  /** `made / attempted * 100`, where zero attempts divide by 1 instead. */
  function Pct(made: int, attempted: int): (p: real)
    ensures attempted == 0 ==> p == made as real * 100.0
    ensures attempted != 0 ==> p * attempted as real == made as real * 100.0
  {
    made as real / (if attempted == 0 then 1 else attempted) as real * 100.0
  }

  /** With no more makes than attempts, a percentage lies in [0, 100]. */
  lemma PctBounds(made: int, attempted: int)
    requires 0 <= made <= attempted
    ensures 0.0 <= Pct(made, attempted) <= 100.0
  {
    if attempted != 0 {
      var q := made as real / attempted as real;
      assert q * attempted as real == made as real;
      assert q <= 1.0;
    }
  }

  /** The first row of the box score whose name matches `playerName`
      without regard to case. */
  function FindPlayer(box: seq<BoxRow>, playerName: string): (r: Option<BoxRow>)
    ensures r.Some? ==> r.value in box && NameMatches(r.value, playerName)
    ensures r.Some? ==> exists k :: FirstMatch(box, playerName, k) && box[k] == r.value
    ensures r.None? ==> forall row :: row in box ==> !NameMatches(row, playerName)
  {
    if box == [] then None
    else if NameMatches(box[0], playerName) then
      assert FirstMatch(box, playerName, 0);
      Some(box[0])
    else
      var r := FindPlayer(box[1..], playerName);
      FirstMatchInTail(box, playerName, r);
      r
  }

  /** Row `k` is the first row of the box score that matches the name. */
  predicate FirstMatch(box: seq<BoxRow>, playerName: string, k: int) {
    0 <= k < |box| && NameMatches(box[k], playerName)
    && forall j :: 0 <= j < k ==> !NameMatches(box[j], playerName)
  }

  /** Behind a first row that does not match, the first match of the rest
      is the first match of the whole box score. */
  lemma FirstMatchInTail(box: seq<BoxRow>, playerName: string, r: Option<BoxRow>)
    requires box != [] && !NameMatches(box[0], playerName)
    requires r.Some? ==> exists k :: FirstMatch(box[1..], playerName, k) && box[1..][k] == r.value
    ensures r.Some? ==> exists k :: FirstMatch(box, playerName, k) && box[k] == r.value
  {
    if r.Some? {
      var k :| FirstMatch(box[1..], playerName, k) && box[1..][k] == r.value;
      forall j | 0 <= j < k + 1
        ensures !NameMatches(box[j], playerName)
      {
        if j > 0 {
          assert box[j] == box[1..][j - 1];
        }
      }
      assert FirstMatch(box, playerName, k + 1);
    }
  }

  /** `box['name'].str.lower() == player_name.lower()` for one row; a row
      without a name matches nobody. */
  predicate NameMatches(row: BoxRow, playerName: string) {
    row.name.Some? && Lower(row.name.value) == Lower(playerName)
  }

  /** The box score of a game, empty when it could not be loaded. */
  function BoxOf(boxes: map<string, seq<BoxRow>>, gameId: string): seq<BoxRow> {
    if gameId in boxes then boxes[gameId] else []
  }

  /** The player's line in a game, with missing counts as 0, missing
      minutes as "0", and the three shooting percentages. */
  function PlayerGameOf(game: GameRow, p: BoxRow): (g: PlayerGame)
    ensures g.gameId == game.gameId && g.date == game.gameDate
    ensures g.matchup == game.matchup && g.result == game.wl
    ensures g.points == p.points.GetOr(0) && g.rebounds == p.reboundsTotal.GetOr(0) && g.assists == p.assists.GetOr(0)
    ensures g.steals == p.steals.GetOr(0) && g.blocks == p.blocks.GetOr(0) && g.turnovers == p.turnovers.GetOr(0)
    ensures g.fgMade == p.fieldGoalsMade.GetOr(0) && g.fgAttempted == p.fieldGoalsAttempted.GetOr(0)
    ensures g.fg3Made == p.threePointersMade.GetOr(0) && g.fg3Attempted == p.threePointersAttempted.GetOr(0)
    ensures g.ftMade == p.freeThrowsMade.GetOr(0) && g.ftAttempted == p.freeThrowsAttempted.GetOr(0)
    ensures g.minutes == p.minutes.GetOr("0")
    ensures g.fgPct == Pct(g.fgMade, g.fgAttempted)
    ensures g.fg3Pct == Pct(g.fg3Made, g.fg3Attempted)
    ensures g.ftPct == Pct(g.ftMade, g.ftAttempted)
  {
    var fgm, fga := p.fieldGoalsMade.GetOr(0), p.fieldGoalsAttempted.GetOr(0);
    var f3m, f3a := p.threePointersMade.GetOr(0), p.threePointersAttempted.GetOr(0);
    var ftm, fta := p.freeThrowsMade.GetOr(0), p.freeThrowsAttempted.GetOr(0);
    PlayerGame(
      game.gameId, game.gameDate, game.matchup, game.wl,
      p.points.GetOr(0), p.reboundsTotal.GetOr(0), p.assists.GetOr(0),
      p.steals.GetOr(0), p.blocks.GetOr(0),
      fgm, fga, f3m, f3a, ftm, fta,
      p.turnovers.GetOr(0), p.minutes.GetOr("0"),
      Pct(fgm, fga), Pct(f3m, f3a), Pct(ftm, fta))
  }

  /** The player's line in one game, if the game's box score lists them. */
  function Appearance(game: GameRow, boxes: map<string, seq<BoxRow>>, playerName: string): (r: seq<PlayerGame>)
    ensures |r| <= 1
    ensures r != [] ==> r[0].gameId == game.gameId && r[0].date == game.gameDate
  {
    match FindPlayer(BoxOf(boxes, game.gameId), playerName)
    case Some(p) => [PlayerGameOf(game, p)]
    case None => []
  }

  /** Every appearance of the player in `games`, in the order of `games`. */
  function Appearances(games: seq<GameRow>, boxes: map<string, seq<BoxRow>>, playerName: string): (r: seq<PlayerGame>)
    ensures |r| <= |games|
  {
    if games == [] then []
    else Appearances(games[..|games| - 1], boxes, playerName) + Appearance(games[|games| - 1], boxes, playerName)
  }

  /** Scanning fewer games finds an initial part of the appearances. */
  lemma {:induction false} AppearancesPrefix(games: seq<GameRow>, k: nat, boxes: map<string, seq<BoxRow>>, playerName: string)
    requires k <= |games|
    ensures var a := Appearances(games, boxes, playerName);
            var b := Appearances(games[..k], boxes, playerName);
            |b| <= |a| && b == a[..|b|]
    decreases |games| - k
  {
    if k < |games| {
      var init := games[..|games| - 1];
      assert init[..k] == games[..k];
      AppearancesPrefix(init, k, boxes, playerName);
    } else {
      assert games[..k] == games;
    }
  }

  lemma AppearancesStep(games: seq<GameRow>, i: nat, boxes: map<string, seq<BoxRow>>, playerName: string)
    requires i < |games|
    ensures Appearances(games[..i + 1], boxes, playerName)
         == Appearances(games[..i], boxes, playerName) + Appearance(games[i], boxes, playerName)
  {
    assert games[..i + 1][..i] == games[..i];
  }

  /** The first `n` elements, or all when there are fewer. */
  function Take<T>(s: seq<T>, n: nat): (r: seq<T>)
    ensures |r| == if n <= |s| then n else |s|
    ensures r == s[..|r|]
  {
    if n <= |s| then s[..n] else s
  }

  /** How many games the collection loop stops at: it checks the count only
      after adding a game, so a `lastN` below 1 still yields one game. */
  function Cap(lastN: int): (c: nat)
    ensures c >= 1 && c >= lastN
  {
    if lastN < 1 then 1 else lastN
  }

  /** `get_player_games(player_name, last_n)`: scans the newest
      `2 * lastN` games in order, skips games whose box score is empty or
      lacks the player, records the first row naming the player (any
      case), and stops as soon as `lastN` games are recorded. */
  method GetPlayerGames(playerName: string, lastN: int, schedule: seq<GameRow>, boxes: map<string, seq<BoxRow>>)
    returns (log: seq<PlayerGame>)
    ensures log == Take(Appearances(GetGames(schedule, Some(2 * lastN)), boxes, playerName), Cap(lastN))
    ensures |log| <= Cap(lastN)
  {
    var games := GetGames(schedule, Some(2 * lastN));
    log := CollectAppearances(games, boxes, playerName, lastN);
  }

  /** The collection loop over the chosen games, newest first. */
  method CollectAppearances(games: seq<GameRow>, boxes: map<string, seq<BoxRow>>, playerName: string, lastN: int)
    returns (log: seq<PlayerGame>)
    ensures log == Take(Appearances(games, boxes, playerName), Cap(lastN))
  {
    log := [];
    var i := 0;
    while i < |games|
      invariant 0 <= i <= |games|
      invariant log == Appearances(games[..i], boxes, playerName)
      invariant |log| < Cap(lastN)
    {
      var box := BoxOf(boxes, games[i].gameId);
      var found := if box != [] then FindPlayer(box, playerName) else None;
      ghost var next := Appearances(games[..i + 1], boxes, playerName);
      if found.Some? {
        var row := PlayerGameOf(games[i], found.value);
        Recorded(games, i, boxes, playerName, row);
        log := log + [row];
        assert log == next;
        if |log| >= lastN {
          CollectedEnough(games, i, boxes, playerName, Cap(lastN));
          return;
        }
      } else {
        Skipped(games, i, boxes, playerName);
        assert log == next;
      }
      i := i + 1;
    }
    assert games[..i] == games;
  }

  /** A game whose box score names the player adds that line to the scan. */
  lemma Recorded(games: seq<GameRow>, i: nat, boxes: map<string, seq<BoxRow>>, playerName: string, row: PlayerGame)
    requires i < |games|
    requires FindPlayer(BoxOf(boxes, games[i].gameId), playerName).Some?
    requires row == PlayerGameOf(games[i], FindPlayer(BoxOf(boxes, games[i].gameId), playerName).value)
    ensures Appearances(games[..i + 1], boxes, playerName) == Appearances(games[..i], boxes, playerName) + [row]
  {
    AppearancesStep(games, i, boxes, playerName);
  }

  /** A game with an empty box score, or one without the player, adds nothing. */
  lemma Skipped(games: seq<GameRow>, i: nat, boxes: map<string, seq<BoxRow>>, playerName: string)
    requires i < |games|
    requires BoxOf(boxes, games[i].gameId) == [] || FindPlayer(BoxOf(boxes, games[i].gameId), playerName).None?
    ensures Appearances(games[..i + 1], boxes, playerName) == Appearances(games[..i], boxes, playerName)
  {
    AppearancesStep(games, i, boxes, playerName);
    if BoxOf(boxes, games[i].gameId) == [] {
      assert FindPlayer(BoxOf(boxes, games[i].gameId), playerName).None?;
    }
  }

  /** Once the scan of `games[..i + 1]` has found `cap` appearances, they
      are the first `cap` appearances in all of `games`. */
  lemma CollectedEnough(games: seq<GameRow>, i: nat, boxes: map<string, seq<BoxRow>>, playerName: string, cap: nat)
    requires i < |games|
    requires |Appearances(games[..i + 1], boxes, playerName)| == cap
    ensures Appearances(games[..i + 1], boxes, playerName) == Take(Appearances(games, boxes, playerName), cap)
  {
    AppearancesPrefix(games, i + 1, boxes, playerName);
  }

  /** The log is newest first: its dates never increase. */
  ghost predicate NewestFirst(log: seq<PlayerGame>) {
    forall i, j :: 0 <= i < j < |log| ==> LexLe(log[j].date, log[i].date)
  }

  ghost predicate NoLaterThan(log: seq<PlayerGame>, date: string) {
    forall i :: 0 <= i < |log| ==> LexLe(date, log[i].date)
  }

  lemma {:induction false} AppearancesNewestFirst(games: seq<GameRow>, boxes: map<string, seq<BoxRow>>, playerName: string)
    requires SortedBy(games, LaterOrSame)
    ensures NewestFirst(Appearances(games, boxes, playerName))
    ensures games != [] ==> NoLaterThan(Appearances(games, boxes, playerName), games[|games| - 1].gameDate)
  {
    if games != [] {
      var init := games[..|games| - 1];
      var last := games[|games| - 1];
      var a := Appearances(init, boxes, playerName);
      AppearancesNewestFirst(init, boxes, playerName);
      if init != [] {
        assert games[|init| - 1] == init[|init| - 1];
        NoLaterThanLater(a, init[|init| - 1].gameDate, last.gameDate);
      }
      AppendNewest(a, Appearance(last, boxes, playerName), last.gameDate);
    }
  }

  /** A log no later than some day is no later than any earlier day. */
  lemma NoLaterThanLater(log: seq<PlayerGame>, later: string, earlier: string)
    requires NoLaterThan(log, later) && LexLe(earlier, later)
    ensures NoLaterThan(log, earlier)
  {
    forall i | 0 <= i < |log|
      ensures LexLe(earlier, log[i].date)
    {
      LexLeTransitive(earlier, later, log[i].date);
    }
  }

  /** Appending at most one game of day `date` to a newest-first log no
      later than `date` keeps it newest first. */
  lemma AppendNewest(a: seq<PlayerGame>, b: seq<PlayerGame>, date: string)
    requires NewestFirst(a) && NoLaterThan(a, date)
    requires |b| <= 1 && (b != [] ==> b[0].date == date)
    ensures NewestFirst(a + b) && NoLaterThan(a + b, date)
  {
    LexLeReflexive(date);
    var ab := a + b;
    forall i, j | 0 <= i < j < |ab|
      ensures LexLe(ab[j].date, ab[i].date)
    {
      if j >= |a| {
        assert ab[j].date == date;
      } else {
        assert ab[i] == a[i] && ab[j] == a[j];
      }
    }
  }

  /** The name match ignores case: two spellings that lower-case alike
      collect the same log. */
  lemma {:induction false} AppearancesIgnoreCase(games: seq<GameRow>, boxes: map<string, seq<BoxRow>>, name1: string, name2: string)
    requires Lower(name1) == Lower(name2)
    ensures Appearances(games, boxes, name1) == Appearances(games, boxes, name2)
  {
    if games != [] {
      AppearancesIgnoreCase(games[..|games| - 1], boxes, name1, name2);
      FindPlayerIgnoresCase(BoxOf(boxes, games[|games| - 1].gameId), name1, name2);
    }
  }

  lemma {:induction false} FindPlayerIgnoresCase(box: seq<BoxRow>, name1: string, name2: string)
    requires Lower(name1) == Lower(name2)
    ensures FindPlayer(box, name1) == FindPlayer(box, name2)
  {
    if box != [] {
      FindPlayerIgnoresCase(box[1..], name1, name2);
    }
  }

  /** A player named in no box score gets an empty log. */
  lemma {:induction false} UnknownPlayerHasNoGames(games: seq<GameRow>, boxes: map<string, seq<BoxRow>>, playerName: string)
    requires forall id, row :: id in boxes && row in boxes[id] && row.name.Some? ==> Lower(row.name.value) != Lower(playerName)
    ensures Appearances(games, boxes, playerName) == []
  {
    if games != [] {
      UnknownPlayerHasNoGames(games[..|games| - 1], boxes, playerName);
    }
  }
}
