/** Per-player statistics over a game log (newest game first): season
    averages, one game against those averages, the recent scoring trend,
    and the ranking of a box score's performers. */
module Stats {
  import opened Prelude
  import opened Numeric
  import opened Sorting
  import opened Records
  import Games

  // ---------------------------------------------------------------------
  // season_averages

  /** The averages of a game log. */
  datatype Averages = Averages(
    games: nat,
    points: real,
    rebounds: real,
    assists: real,
    steals: real,
    blocks: real,
    fgPct: real,
    fg3Pct: real)

  function Points(g: PlayerGame): real { g.points as real }
  function Rebounds(g: PlayerGame): real { g.rebounds as real }
  function Assists(g: PlayerGame): real { g.assists as real }
  function Steals(g: PlayerGame): real { g.steals as real }
  function Blocks(g: PlayerGame): real { g.blocks as real }
  function FgPct(g: PlayerGame): real { g.fgPct }
  function Fg3Pct(g: PlayerGame): real { g.fg3Pct }

  /** Nothing for an empty log (the empty dict); otherwise the number of
      games and the mean of each counting and percentage column. */
  function SeasonAverages(log: seq<PlayerGame>): (r: Option<Averages>)
    ensures r.None? <==> log == []
    ensures r.Some? ==>
      && r.value.games == |log|
      && r.value.points == Mean(Column(log, Points))
      && r.value.rebounds == Mean(Column(log, Rebounds))
      && r.value.assists == Mean(Column(log, Assists))
      && r.value.steals == Mean(Column(log, Steals))
      && r.value.blocks == Mean(Column(log, Blocks))
      && r.value.fgPct == Mean(Column(log, FgPct))
      && r.value.fg3Pct == Mean(Column(log, Fg3Pct))
  {
    if log == [] then None
    else
      Some(Averages(
        |log|,
        Mean(Column(log, Points)),
        Mean(Column(log, Rebounds)),
        Mean(Column(log, Assists)),
        Mean(Column(log, Steals)),
        Mean(Column(log, Blocks)),
        Mean(Column(log, FgPct)),
        Mean(Column(log, Fg3Pct))))
  }

  /** Reordering the games of a log does not change its averages. */
  lemma SeasonAveragesIgnoreOrder(a: seq<PlayerGame>, b: seq<PlayerGame>)
    requires multiset(a) == multiset(b)
    ensures SeasonAverages(a) == SeasonAverages(b)
  {
    assert |a| == |multiset(a)| == |b|;
    if a != [] {
      ColumnSumPermutation(a, b, Points);
      ColumnSumPermutation(a, b, Rebounds);
      ColumnSumPermutation(a, b, Assists);
      ColumnSumPermutation(a, b, Steals);
      ColumnSumPermutation(a, b, Blocks);
      ColumnSumPermutation(a, b, FgPct);
      ColumnSumPermutation(a, b, Fg3Pct);
    }
  }

  /** The scoring average lies between the player's worst and best game. */
  lemma PointsAverageWithinRange(log: seq<PlayerGame>)
    requires log != []
    ensures Min(Column(log, Points)) <= SeasonAverages(log).value.points <= Max(Column(log, Points))
  {
    MeanBetweenMinAndMax(Column(log, Points));
  }

  /** A player who scores the same in every game averages exactly that. */
  lemma ConstantPointsAverage(log: seq<PlayerGame>, p: int)
    requires log != []
    requires forall i :: 0 <= i < |log| ==> log[i].points == p
    ensures SeasonAverages(log).value.points == p as real
  {
    MeanOfConstant(Column(log, Points), p as real);
  }

  /** Games of 10, 20 and 30 points average 20 over 3 games. */
  lemma AverageOfTenTwentyThirty(log: seq<PlayerGame>)
    requires |log| == 3 && log[0].points == 10 && log[1].points == 20 && log[2].points == 30
    ensures SeasonAverages(log).value.points == 20.0
    ensures SeasonAverages(log).value.games == 3
  {
    var c := Column(log, Points);
    assert c == [10.0, 20.0, 30.0];
    assert c[1..][1..][1..] == [];
    assert Sum(c[1..][1..]) == 30.0;
    assert Sum(c) == 60.0;
  }

  // ---------------------------------------------------------------------
  // vs_average

  /** The stats compared against the averages. */
  const ComparedStats: set<string> := {"points", "rebounds", "assists"}

  /** For each of points, rebounds and assists: the game's value minus the
      average, a missing entry on either side counting as 0. */
  function VsAverage(game: map<string, real>, averages: map<string, real>): (r: map<string, real>)
    ensures r.Keys == ComparedStats
    ensures forall k :: k in r ==> GetOrZero(averages, k) + r[k] == GetOrZero(game, k)
  {
    map[
      "points" := GetOrZero(game, "points") - GetOrZero(averages, "points"),
      "rebounds" := GetOrZero(game, "rebounds") - GetOrZero(averages, "rebounds"),
      "assists" := GetOrZero(game, "assists") - GetOrZero(averages, "assists")]
  }

  /** The dict `season_averages` returns, keyed by stat name. */
  function AveragesTable(a: Averages): (d: map<string, real>)
    ensures d.Keys == {"games", "points", "rebounds", "assists", "steals", "blocks", "fg_pct", "fg3_pct"}
    ensures ComparedStats <= d.Keys
    ensures d["games"] == a.games as real && d["points"] == a.points
    ensures d["rebounds"] == a.rebounds && d["assists"] == a.assists
    ensures d["steals"] == a.steals && d["blocks"] == a.blocks
    ensures d["fg_pct"] == a.fgPct && d["fg3_pct"] == a.fg3Pct
  {
    map[
      "games" := a.games as real,
      "points" := a.points,
      "rebounds" := a.rebounds,
      "assists" := a.assists,
      "steals" := a.steals,
      "blocks" := a.blocks,
      "fg_pct" := a.fgPct,
      "fg3_pct" := a.fg3Pct]
  }

  /** One game's points, rebounds and assists, as a stats dict. */
  function GameTable(g: PlayerGame): (d: map<string, real>)
    ensures d.Keys == ComparedStats
  {
    map["points" := Points(g), "rebounds" := Rebounds(g), "assists" := Assists(g)]
  }

  /** A missing game stat counts as 0: 20 points against averages of
      15, 5 and 3 gives +5, -5 and -3. */
  lemma VsAverageWithMissingStats()
    ensures VsAverage(map["points" := 20.0], map["points" := 15.0, "rebounds" := 5.0, "assists" := 3.0])
      == map["points" := 5.0, "rebounds" := -5.0, "assists" := -3.0]
  {
  }

  /** Over a whole log, the points differences against the log's own
      averages cancel out: games above average balance those below. */
  lemma PointsDifferencesCancel(log: seq<PlayerGame>)
    requires log != []
    ensures Sum(PointsVsAverage(log, AveragesTable(SeasonAverages(log).value))) == 0.0
  {
    var a := SeasonAverages(log).value;
    PointsDifferencesAreDeviations(log, a);
    DeviationsFromMeanCancel(Column(log, Points));
  }

  /** The points entry of `vs_average` for every game of the log. */
  function PointsVsAverage(log: seq<PlayerGame>, averages: map<string, real>): (d: seq<real>)
    ensures |d| == |log|
  {
    seq(|log|, i requires 0 <= i < |log| => VsAverage(GameTable(log[i]), averages)["points"])
  }

  /** Against the averages `a`, the points differences are the deviations
      of the points column from `a.points`. */
  lemma PointsDifferencesAreDeviations(log: seq<PlayerGame>, a: Averages)
    ensures PointsVsAverage(log, AveragesTable(a)) == Deviations(Column(log, Points), a.points)
  {
    var diffs := PointsVsAverage(log, AveragesTable(a));
    forall i | 0 <= i < |log|
      ensures diffs[i] == Points(log[i]) - a.points
    {
      PointsDifference(log[i], a);
    }
  }

  /** A game's points difference is its points less the average points. */
  lemma PointsDifference(g: PlayerGame, a: Averages)
    ensures VsAverage(GameTable(g), AveragesTable(a))["points"] == Points(g) - a.points
  {
    assert GetOrZero(GameTable(g), "points") == Points(g);
    assert GetOrZero(AveragesTable(a), "points") == a.points;
  }

  // ---------------------------------------------------------------------
  // scoring_trend

  datatype Direction = Up | Down | Stable

  /** The trend dict. */
  datatype TrendReport = TrendReport(
    direction: Direction,
    average: real,
    recentAvg: real,
    high: real,
    low: real,
    lastGame: real)

  /** The result of `scoring_trend`: the empty dict, a report, or the
      TypeError that summing a text column raises. */
  datatype TrendOutcome = NoTrend | Trend(report: TrendReport) | RaisesTypeError

  /** What a game-log column holds. */
  datatype ColumnKind = Absent | Text | Numbers

  /** The columns of a game log and their kinds. */
  function KindOf(metric: string): (k: ColumnKind)
    ensures k == Numbers <==> metric in NumericColumns
  {
    if metric in NumericColumns then Numbers
    else if metric in {"game_id", "date", "matchup", "result", "minutes"} then Text
    else Absent
  }

  const NumericColumns: set<string> := {
    "points", "rebounds", "assists", "steals", "blocks",
    "fg_made", "fg_attempted", "fg3_made", "fg3_attempted",
    "ft_made", "ft_attempted", "turnovers", "fg_pct", "fg3_pct", "ft_pct"}

  /** A numeric cell of a game-log row, by column name. */
  function Stat(g: PlayerGame, metric: string): real
    requires metric in NumericColumns
  {
    match metric
    case "points" => g.points as real
    case "rebounds" => g.rebounds as real
    case "assists" => g.assists as real
    case "steals" => g.steals as real
    case "blocks" => g.blocks as real
    case "fg_made" => g.fgMade as real
    case "fg_attempted" => g.fgAttempted as real
    case "fg3_made" => g.fg3Made as real
    case "fg3_attempted" => g.fg3Attempted as real
    case "ft_made" => g.ftMade as real
    case "ft_attempted" => g.ftAttempted as real
    case "turnovers" => g.turnovers as real
    case "fg_pct" => g.fgPct
    case "fg3_pct" => g.fg3Pct
    case _ => g.ftPct
  }

  /** The fifteen numeric columns hold what `get_player_games` stores
      under those names: the box-score counts, a missing count as 0, and
      the three percentages computed from the made and attempted counts. */
  lemma LogColumnsFromBoxScore(game: GameRow, p: BoxRow)
    ensures var g := Games.PlayerGameOf(game, p);
      && Stat(g, "points") == p.points.GetOr(0) as real
      && Stat(g, "rebounds") == p.reboundsTotal.GetOr(0) as real
      && Stat(g, "assists") == p.assists.GetOr(0) as real
      && Stat(g, "steals") == p.steals.GetOr(0) as real
      && Stat(g, "blocks") == p.blocks.GetOr(0) as real
      && Stat(g, "fg_made") == p.fieldGoalsMade.GetOr(0) as real
      && Stat(g, "fg_attempted") == p.fieldGoalsAttempted.GetOr(0) as real
      && Stat(g, "fg3_made") == p.threePointersMade.GetOr(0) as real
      && Stat(g, "fg3_attempted") == p.threePointersAttempted.GetOr(0) as real
      && Stat(g, "ft_made") == p.freeThrowsMade.GetOr(0) as real
      && Stat(g, "ft_attempted") == p.freeThrowsAttempted.GetOr(0) as real
      && Stat(g, "turnovers") == p.turnovers.GetOr(0) as real
      && Stat(g, "fg_pct") == Games.Pct(p.fieldGoalsMade.GetOr(0), p.fieldGoalsAttempted.GetOr(0))
      && Stat(g, "fg3_pct") == Games.Pct(p.threePointersMade.GetOr(0), p.threePointersAttempted.GetOr(0))
      && Stat(g, "ft_pct") == Games.Pct(p.freeThrowsMade.GetOr(0), p.freeThrowsAttempted.GetOr(0))
  {
  }

  /** `values[:5] if len(values) >= 5 else values`. */
  function Recent(values: seq<real>): (r: seq<real>)
    ensures |r| == if |values| < 5 then |values| else 5
    ensures r == values[..|r|]
  {
    if |values| >= 5 then values[..5] else values
  }

  /** `values[5:10] if len(values) >= 10 else values[len(recent):]`: the
      games right after the recent window, at most five of them. */
  function Previous(values: seq<real>): (p: seq<real>)
    ensures var lo := |Recent(values)|;
            var hi := if |values| >= 10 then 10 else |values|;
            lo <= hi && p == values[lo..hi]
    ensures |p| <= 5
  {
    if |values| >= 10 then values[5..10] else values[|Recent(values)|..]
  }

  /** Up when the recent average beats the previous one by more than 10%,
      down when it trails by more than 10%, stable otherwise. */
  function Classify(recentAvg: real, previousAvg: real): (d: Direction)
    ensures d == Up <==> recentAvg > previousAvg * 1.1
    ensures d == Down <==> recentAvg <= previousAvg * 1.1 && recentAvg < previousAvg * 0.9
  {
    if recentAvg > previousAvg * 1.1 then Up
    else if recentAvg < previousAvg * 0.9 then Down
    else Stable
  }

  /** The report for a non-empty, newest-first list of values. An empty
      previous window compares the recent average with itself. */
  function TrendOfValues(values: seq<real>): (r: TrendReport)
    requires values != []
    ensures r.average == Mean(values)
    ensures r.recentAvg == Mean(Recent(values))
    ensures r.direction == Classify(r.recentAvg, if Previous(values) == [] then r.recentAvg else Mean(Previous(values)))
    ensures r.high in values && r.low in values
    ensures forall i :: 0 <= i < |values| ==> r.low <= values[i] <= r.high
    ensures r.lastGame == values[0]
  {
    var recent := Recent(values);
    var previous := Previous(values);
    var recentAvg := if recent != [] then Mean(recent) else 0.0;
    var previousAvg := if previous != [] then Mean(previous) else recentAvg;
    TrendReport(Classify(recentAvg, previousAvg), Mean(values), recentAvg, Max(values), Min(values), values[0])
  }

  /** `player_games[metric].tolist()` for a numeric column. */
  function MetricValues(log: seq<PlayerGame>, metric: string): (values: seq<real>)
    requires metric in NumericColumns
    ensures |values| == |log|
    ensures forall i :: 0 <= i < |log| ==> values[i] == Stat(log[i], metric)
  {
    seq(|log|, i requires 0 <= i < |log| => Stat(log[i], metric))
  }

  /** `scoring_trend(player_games, metric)`. */
  function ScoringTrend(log: seq<PlayerGame>, metric: string): (r: TrendOutcome)
    ensures r == NoTrend <==> log == [] || KindOf(metric) == Absent
    ensures r == RaisesTypeError <==> log != [] && KindOf(metric) == Text
    ensures r.Trend? ==> metric in NumericColumns && r.report == TrendOfValues(MetricValues(log, metric))
  {
    if log == [] || KindOf(metric) == Absent then NoTrend
    else if KindOf(metric) == Text then RaisesTypeError
    else Trend(TrendOfValues(MetricValues(log, metric)))
  }

  /** With five games or fewer there is no previous window, and for
      non-negative values the trend is stable. */
  lemma ShortLogIsStable(values: seq<real>)
    requires values != [] && |values| <= 5
    requires forall i :: 0 <= i < |values| ==> values[i] >= 0.0
    ensures TrendOfValues(values).direction == Stable
  {
    assert Recent(values) == values;
    assert Previous(values) == [];
    MeanBetweenMinAndMax(values);
    assert Min(values) >= 0.0;
  }

  /** With six to ten non-negative values, an upward trend puts the recent
      average above the overall one, and a downward trend below it. */
  lemma TrendAgreesWithAverage(values: seq<real>)
    requires 6 <= |values| <= 10
    requires forall i :: 0 <= i < |values| ==> values[i] >= 0.0
    ensures TrendOfValues(values).direction == Up ==> TrendOfValues(values).recentAvg > TrendOfValues(values).average
    ensures TrendOfValues(values).direction == Down ==> TrendOfValues(values).recentAvg < TrendOfValues(values).average
  {
    var recent, previous := Recent(values), Previous(values);
    assert values == recent + previous;
    MeanOfConcatenation(recent, previous);
    NonNegativeMean(previous);
    TrendAgainstMix(Mean(recent), Mean(previous), Mean(values), |recent| as real, |previous| as real);
  }

  lemma NonNegativeMean(s: seq<real>)
    requires s != []
    requires forall i :: 0 <= i < |s| ==> s[i] >= 0.0
    ensures Mean(s) >= 0.0
  {
    MeanBetweenMinAndMax(s);
  }

  /** When the overall average mixes the recent and previous averages with
      positive weights, the trend direction says on which side of the
      overall average the recent one lies. */
  lemma TrendAgainstMix(recentAvg: real, previousAvg: real, average: real, m: real, n: real)
    requires m > 0.0 && n > 0.0 && previousAvg >= 0.0
    requires average == (m * recentAvg + n * previousAvg) / (m + n)
    ensures Classify(recentAvg, previousAvg) == Up ==> recentAvg > average
    ensures Classify(recentAvg, previousAvg) == Down ==> recentAvg < average
  {
    ClassifyMovesAway(recentAvg, previousAvg);
    WeightedMeanOrder(recentAvg, previousAvg, m, n);
  }

  /** For a non-negative previous average, "up" means the recent average
      is higher and "down" that it is lower. */
  lemma ClassifyMovesAway(recentAvg: real, previousAvg: real)
    requires previousAvg >= 0.0
    ensures Classify(recentAvg, previousAvg) == Up ==> recentAvg > previousAvg
    ensures Classify(recentAvg, previousAvg) == Down ==> recentAvg < previousAvg
  {
  }

  /** The mean of a concatenation weighs the two parts' means by their lengths. */
  lemma MeanOfConcatenation(a: seq<real>, b: seq<real>)
    requires a != [] && b != []
    ensures Mean(a + b) == (|a| as real * Mean(a) + |b| as real * Mean(b)) / (|a| as real + |b| as real)
  {
    SumAppend(a, b);
    MeanTimesCount(a);
    MeanTimesCount(b);
    var total, n := Sum(a + b), |a + b| as real;
    assert n == |a| as real + |b| as real;
    assert Mean(a + b) == total / n;
    assert total == |a| as real * Mean(a) + |b| as real * Mean(b);
  }

  /** A mix of two values with positive weights lies strictly between them. */
  lemma WeightedMeanOrder(x: real, y: real, m: real, n: real)
    requires m > 0.0 && n > 0.0
    ensures x > y ==> x > (m * x + n * y) / (m + n)
    ensures x < y ==> x < (m * x + n * y) / (m + n)
  {
    assert x - (m * x + n * y) / (m + n) == n * (x - y) / (m + n);
  }

  // ---------------------------------------------------------------------
  // top_performers

  /** One entry of the ranking. */
  datatype Performer = Performer(
    playerId: int,
    name: string,
    firstName: string,
    lastName: string,
    points: int,
    rebounds: int,
    assists: int,
    steals: int,
    blocks: int,
    fgMade: int,
    fgAttempted: int)

  /** A box-score row as a ranking entry; a missing count is 0, a missing
      name 'Unknown', a missing first or last name empty. */
  function ToPerformer(row: BoxRow): (p: Performer)
    ensures p.playerId == row.personId.GetOr(0)
    ensures p.name == (if row.name.Some? then row.name.value else "Unknown")
    ensures p.firstName == row.firstName.GetOr("") && p.lastName == row.familyName.GetOr("")
    ensures row.points.None? ==> p.points == 0
    ensures row.reboundsTotal.None? ==> p.rebounds == 0
    ensures row.assists.None? ==> p.assists == 0
    ensures p.points == row.points.GetOr(0) && p.rebounds == row.reboundsTotal.GetOr(0) && p.assists == row.assists.GetOr(0)
    ensures p.steals == row.steals.GetOr(0) && p.blocks == row.blocks.GetOr(0)
    ensures p.fgMade == row.fieldGoalsMade.GetOr(0) && p.fgAttempted == row.fieldGoalsAttempted.GetOr(0)
  {
    Performer(
      row.personId.GetOr(0),
      row.name.GetOr("Unknown"),
      row.firstName.GetOr(""),
      row.familyName.GetOr(""),
      row.points.GetOr(0),
      row.reboundsTotal.GetOr(0),
      row.assists.GetOr(0),
      row.steals.GetOr(0),
      row.blocks.GetOr(0),
      row.fieldGoalsMade.GetOr(0),
      row.fieldGoalsAttempted.GetOr(0))
  }

  /** `a` ranks at least as high as `b`: the key (points, assists,
      rebounds) of `a` is not lexicographically below that of `b`. */
  predicate RanksAtLeast(a: Performer, b: Performer) {
    || a.points > b.points
    || (a.points == b.points && a.assists > b.assists)
    || (a.points == b.points && a.assists == b.assists && a.rebounds >= b.rebounds)
  }

  lemma RanksAtLeastIsTotalPreorder()
    ensures TotalPreorder(RanksAtLeast)
  {
  }

  /** The ranking: one entry per box-score row, best first. */
  method TopPerformers(box: seq<BoxRow>) returns (ranked: seq<Performer>)
    ensures |ranked| == |box|
    ensures multiset(ranked) == multiset(seq(|box|, i requires 0 <= i < |box| => ToPerformer(box[i])))
    ensures SortedBy(ranked, RanksAtLeast)
  {
    if box == [] {
      return [];
    }
    var performers: seq<Performer> := [];
    var i := 0;
    while i < |box|
      invariant 0 <= i <= |box|
      invariant performers == seq(i, j requires 0 <= j < i => ToPerformer(box[j]))
    {
      performers := performers + [ToPerformer(box[i])];
      i := i + 1;
    }
    RanksAtLeastIsTotalPreorder();
    ranked := SortDesc(performers, RanksAtLeast);
  }

  /** Whoever heads the ranking has at least as many points as anyone. */
  lemma TopScorerLeads(ranked: seq<Performer>, box: seq<BoxRow>)
    requires |ranked| == |box| && ranked != []
    requires multiset(ranked) == multiset(seq(|box|, i requires 0 <= i < |box| => ToPerformer(box[i])))
    requires SortedBy(ranked, RanksAtLeast)
    ensures forall i :: 0 <= i < |box| ==> box[i].points.GetOr(0) <= ranked[0].points
  {
    var mapped := seq(|box|, i requires 0 <= i < |box| => ToPerformer(box[i]));
    forall i | 0 <= i < |box|
      ensures box[i].points.GetOr(0) <= ranked[0].points
    {
      assert mapped[i] in multiset(ranked);
      var j :| 0 <= j < |ranked| && ranked[j] == mapped[i];
      if j > 0 {
        assert RanksAtLeast(ranked[0], ranked[j]);
      }
    }
  }
}
