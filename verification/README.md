# Chicago Bulls analytics — a verified model of its core

The Bulls analytics toolkit pulls a season's games, box scores and shot
charts from the NBA stats service. It turns them into per-player game logs,
season averages, trends and rankings, and draws charts and social-media
graphics from them. This project models the logic of that toolkit in Dafny
and proves what the code promises about it. The network calls, the plotting
and the image drawing stay outside the model: their inputs and outputs
become plain values.

Modules, one per file:

- `Prelude` (`prelude.dfy`): `Option` and `Outcome`. `Outcome` is either a
  value or a raised exception carrying its message.
- `Text` (`text.dfy`): the Python string operations the code relies on.
  These are `in`, `lower()`, `upper()`, `strip()`, `split(sep)[-1]`,
  slicing and string ordering.
- `Numeric` (`numeric.dfy`): sums, means, maxima and minima of real
  columns, with their algebra.
- `Sorting` (`sorting.dfy`): a descending insertion sort over any total
  preorder, proved sorted and a permutation.
- `Records` (`records.dfy`): the rows of the schedule, the box score and
  the player game log.
- `Stats` (`stats.dfy`): `bulls/analysis/stats.py`. Season averages, the
  game-against-average comparison, the scoring trend and the top
  performers of a box score.
- `Games` (`games.dfy`): the data half of `bulls/data/fetch.py` for games.
  It covers `get_games` (sort newest first, then `head`),
  `get_latest_game` (parsing the matchup), and `get_player_games` (its
  scan loop over box scores and its percentage columns).
- `Shots` (`shots.dfy`): shot-chart normalisation in `get_player_shots`
  and `get_team_shots`.
- `Roster` (`roster.dfy`): `get_roster_efficiency`. The totals
  accumulated over the box scores, the attempts filter, true shooting and
  the ranking by volume.
- `Charts` (`charts.dfy`): the computations inside `bulls/viz/charts.py`.
  These are the zone centres, date-label shortening, the oldest-first
  reversal, bar highlight and win/loss colours, the average line, and the
  radar chart's metric filter and normalisation.
- `Graphic` (`instagram.dfy`): the layout arithmetic of `create_graphic`
  in `bulls/viz/instagram.py`.

Data-frame columns become record fields. A column that may be missing
becomes an `Option` field or a table-level flag. `get(key, 0) or 0`
becomes `GetOr(0)`. Averages and percentages are `real`. Python's `//`
with a positive divisor is Dafny's `/`, which rounds down the same way.

## Model

| member | source | states |
|---|---|---|
| Stats.SeasonAverages | bulls/analysis/stats.py:21-33 | An empty log has no averages. Otherwise the game count is the log's length and each average is the mean of its column. |
| Stats.SeasonAveragesIgnoreOrder | bulls/analysis/stats.py:24-33 | Two logs holding the same games in any order have the same averages. |
| Stats.PointsAverageWithinRange | bulls/analysis/stats.py:26 | The scoring average lies between the worst and the best game. |
| Stats.ConstantPointsAverage | bulls/analysis/stats.py:26 | A player who scores p in every game averages exactly p. |
| Stats.AverageOfTenTwentyThirty | tests/test_analysis.py:44-58 | Games of 10, 20 and 30 points give 3 games at an average of 20. |
| Stats.VsAverage | bulls/analysis/stats.py:56-60 | The result has exactly the keys points, rebounds and assists. For each, average plus difference equals the game value, a missing value counting as 0. |
| Stats.AveragesTable | bulls/analysis/stats.py:24-33 | The averages dict has exactly the eight keys games, points, rebounds, assists, steals, blocks, fg_pct and fg3_pct. Each holds the matching season average, and games holds the game count. |
| Stats.GameTable | bulls/analysis/stats.py:57-59 | A game's stats dict has exactly the three compared keys. |
| Stats.VsAverageWithMissingStats | tests/test_analysis.py:84-93 | 20 points against averages of 15/5/3 gives +5, -5 and -3. |
| Stats.PointsVsAverage | bulls/analysis/stats.py:57 | There is one points difference per game of the log. |
| Stats.PointsDifference | bulls/analysis/stats.py:57 | A game's points difference is its points less the average points. |
| Stats.PointsDifferencesAreDeviations | bulls/analysis/stats.py:57 | The points differences over a log are the deviations of its points column from the average. |
| Stats.PointsDifferencesCancel | bulls/analysis/stats.py:26 | Against the log's own averages, the points differences of all its games sum to zero. |
| Stats.LogColumnsFromBoxScore | bulls/data/fetch.py:181-214 | Each of the fifteen numeric columns that `scoring_trend` can read holds what `get_player_games` stores under that name. That is the box-score count (a missing one as 0), or the percentage computed from the made and attempted counts. |
| Stats.MetricValues | bulls/analysis/stats.py:85 | The metric's values, one per game and in log order. |
| Stats.Recent | bulls/analysis/stats.py:89 | This is the first five values, or all of them when there are fewer. |
| Stats.Previous | bulls/analysis/stats.py:90 | This is values 5-9 of a log of ten or more; otherwise whatever follows the recent window. It never holds more than five. |
| Stats.Classify | bulls/analysis/stats.py:95-100 | "up" iff recent > 1.1 × previous. "down" iff not up and recent < 0.9 × previous. Otherwise "stable". |
| Stats.TrendOfValues | bulls/analysis/stats.py:85-109 | The average is the mean and the recent average is the mean of the recent window. The direction compares against the previous window's mean, or against the recent mean when that window is empty. High and low are values that bound all the others. The last game is the newest value. |
| Stats.ScoringTrend | bulls/analysis/stats.py:82-109 | The empty dict iff the log is empty or lacks the column. A TypeError iff a non-empty log's column holds text. Otherwise it is the report on that column's values. |
| Stats.ShortLogIsStable | bulls/analysis/stats.py:89-100 | With five non-negative values or fewer there is no previous window, and the trend is stable. |
| Stats.TrendAgreesWithAverage | bulls/analysis/stats.py:86-100 | Take six to ten non-negative values. An upward trend puts the recent average above the overall average, and a downward one below it. |
| Stats.TrendAgainstMix | bulls/analysis/stats.py:86-100 | The overall average may be any positive mix of the recent and previous averages. "Up" puts the recent average above that mix, and "down" below it. |
| Stats.ClassifyMovesAway | bulls/analysis/stats.py:95-100 | For a non-negative previous average, "up" means the recent one is larger and "down" means it is smaller. |
| Stats.ToPerformer | bulls/analysis/stats.py:133-145 | Every field is the row's value or its default. The id defaults to 0, the name to "Unknown", the first and last names to "", and each count to 0. |
| Stats.RanksAtLeastIsTotalPreorder | bulls/analysis/stats.py:148 | The (points, assists, rebounds) ranking key compares every pair and is transitive. |
| Stats.TopPerformers | bulls/analysis/stats.py:127-150 | One entry per box-score row: a permutation of the rows' entries, sorted by (points, assists, rebounds) from highest to lowest. An empty box score gives an empty list. |
| Stats.TopScorerLeads | bulls/analysis/stats.py:148 | The head of the ranking has at least as many points as every row of the box score. |
| Sorting.SortDesc | bulls/analysis/stats.py:148 | The sorted list is a permutation of its input, in descending order of the key. |
| Games.Head | bulls/data/fetch.py:58-59 | `head(n)` is the first n rows, or all of them. A negative n drops the last -n rows. |
| Games.LaterOrSameIsTotalPreorder | bulls/data/fetch.py:56 | Ordering by game date (string order) is total and transitive. |
| Games.GetGames | bulls/data/fetch.py:48-61 | An empty schedule gives nothing. The result is sorted newest first and drawn from the schedule. Without `last_n` (or with 0) it is the whole schedule reordered. Otherwise it is as long as `head(last_n)`. |
| Sorting.SortedPrefix | bulls/data/fetch.py:58-59 | A leading slice of a sorted list is sorted and part of the list. |
| Games.GetGamesKeepsMostRecent | bulls/data/fetch.py:56-59 | Every kept game is no older than every game that truncation dropped. |
| Games.LatestIsNewest | bulls/data/fetch.py:78 | The game `get_games(last_n=1)` returns is from the latest date of the season. |
| Games.NewestRow | bulls/data/fetch.py:78-83 | There is no row iff the season has no games. Otherwise the row is a game of the season with the latest date. |
| Games.GetLatestGame | bulls/data/fetch.py:78-102 | Raises "No games found for the current season" iff the season is empty. Otherwise it describes a game of the latest date, with home/opponent as the matchup parses. |
| Games.ParseMatchup | bulls/data/fetch.py:85-91 | Home iff the matchup contains "vs.". The opponent is the stripped text after the last "vs." (home) or "@" (away), and the whole stripped matchup when neither occurs. |
| Text.LastPiece | bulls/data/fetch.py:89-91 | `split(sep)[-1]` is the suffix after the last separator found scanning left to right without overlap. It holds no separator. It is the whole text when the separator is absent; otherwise the separator stands just before it. |
| Text.Strip | bulls/data/fetch.py:89-91 | `strip()` is the middle part of the text. Only whitespace is removed around it, and it neither starts nor ends with whitespace. |
| Games.OpponentAfter | bulls/data/fetch.py:89-91 | If the separator occurs once and is followed by a space and a name, the parsed opponent is that name. |
| Games.HomeMatchupExample | bulls/data/fetch.py:86-89 | "CHI vs. MIA" is a home game against MIA. |
| Games.AwayMatchupExample | bulls/data/fetch.py:90-91 | "CHI @ BOS" is an away game against BOS. |
| Games.Pct | bulls/data/fetch.py:211-214 | Percentage = made / attempted × 100, with zero attempts replaced by 1. |
| Games.PctBounds | bulls/data/fetch.py:212-214 | With no more makes than attempts, a percentage lies in [0, 100]. |
| Games.FindPlayer | bulls/data/fetch.py:177-180 | The row found is the first one whose name matches case-insensitively. None means that no row's name matches. |
| Text.Lower | bulls/data/fetch.py:177 | `lower()` lower-cases each character and keeps the length. |
| Games.PlayerGameOf | bulls/data/fetch.py:181-214 | The log row takes its id, date, matchup and result from the game. Each count is the box-score value, or 0 when missing. Minutes default to "0". The three percentages are computed from the made and attempted counts. |
| Games.Appearance | bulls/data/fetch.py:171-199 | A game yields at most one row, carrying that game's id and date. |
| Games.Appearances | bulls/data/fetch.py:169-199 | Scanning the games yields at most one row per game. |
| Games.AppearancesPrefix | bulls/data/fetch.py:169-202 | Scanning fewer games finds a leading part of the appearances. |
| Games.Take | bulls/data/fetch.py:201-202 | The first n elements, or all of them. |
| Games.Cap | bulls/data/fetch.py:201-202 | The loop stops at no fewer than `last_n` rows and never before the first. |
| Games.Recorded | bulls/data/fetch.py:179-199 | A game whose box score names the player appends exactly that player's line. |
| Games.Skipped | bulls/data/fetch.py:173-179 | An empty box score, or one without the player, adds nothing. |
| Games.CollectedEnough | bulls/data/fetch.py:201-202 | Stopping once enough rows are found gives the leading rows of the full scan. |
| Games.CollectAppearances | bulls/data/fetch.py:169-206 | The loop's log is the first `Cap(last_n)` appearances in scan order. |
| Games.GetPlayerGames | bulls/data/fetch.py:165-216 | The log is the first `Cap(last_n)` appearances in the newest `2 × last_n` games, and no longer than that cap. |
| Games.AppearancesNewestFirst | bulls/data/fetch.py:165-169 | Over games sorted newest first, the player's log is newest first too. |
| Games.FindPlayerIgnoresCase | bulls/data/fetch.py:177 | Two spellings of a name that lower-case alike find the same row. |
| Games.AppearancesIgnoreCase | bulls/data/fetch.py:177 | Two spellings of a name that lower-case alike get the same log. |
| Games.UnknownPlayerHasNoGames | bulls/data/fetch.py:177-179 | A player named in no box score gets an empty log. |
| Shots.Label | bulls/data/fetch.py:271 | A shot type is stored as "2PT" or "3PT". |
| Shots.Classify | bulls/data/fetch.py:271 | A shot is a three-pointer iff its raw type mentions "3PT". |
| Shots.Normalise | bulls/data/fetch.py:267-276 | A clean row is made iff its flag is 1 and keeps the location, zone, distance and game. It has a game date iff the raw table has that column. |
| Shots.PlayerShots | bulls/data/fetch.py:267-276 | One clean row per raw row, in order. |
| Shots.TeamShots | bulls/data/fetch.py:334-349 | The player rows plus the player id and name columns, each exactly when the raw table has it. No rows means no columns. |
| Shots.ShotTypeLabels | bulls/data/fetch.py:271 | Every stored type is "2PT" or "3PT", and "3PT" exactly for raw types mentioning it. |
| Shots.MadeCountMatchesFlags | bulls/data/fetch.py:270 | The made shots are as many as the raw rows flagged 1. |
| Roster.Distinct | bulls/data/fetch.py:457 | `unique()` holds each value of the input once and nothing else. |
| Roster.DistinctKeepsFirstAppearance | bulls/data/fetch.py:457 | `unique()` keeps the order of first appearance: a value it lists earlier occurs in the input before any occurrence of a value it lists later. |
| Roster.ShotGameIds | bulls/data/fetch.py:457 | The game id of every shot, in order. |
| Roster.AllRowsStep | bulls/data/fetch.py:462-465 | One more game adds its box score's rows, and an empty box score adds none. |
| Roster.NameOf | bulls/data/fetch.py:473 | The row's `name` when present. Otherwise the first and family names, each defaulting to "", joined by a space and stripped. |
| Roster.IdOf | bulls/data/fetch.py:468-470 | The id is `personId` when present and non-zero, otherwise `playerId`. |
| Roster.Ids | bulls/data/fetch.py:475-483 | The player ids are listed without repeats. |
| Roster.SnocIds | bulls/data/fetch.py:475-483 | A row adds its id to the key order only when the id is new. |
| Roster.SnocTally | bulls/data/fetch.py:485-488 | A row adds one game and its points, attempts and free throws to its own player only. The player's name is the first one seen. |
| Roster.ListedIffCounted | bulls/data/fetch.py:475-485 | A player is listed iff they have at least one row. |
| Roster.RowListed | bulls/data/fetch.py:468-483 | Every row with an id has that id listed. |
| Roster.IdsComplete | bulls/data/fetch.py:462-488 | Every row with an id is listed under it. Listed players have rows, and unlisted ones have none. |
| Roster.AbsentTotalsZero | bulls/data/fetch.py:475-488 | A player without rows has nothing added up. |
| Roster.AddRow | bulls/data/fetch.py:485-488 | One more game adds the row's points and attempts and keeps id and name. |
| Roster.RecordRow | bulls/data/fetch.py:467-488 | One step of the row loop keeps the map and key order equal to the tallies of the rows seen. |
| Roster.AddBoxScore | bulls/data/fetch.py:467-488 | After a box score, the map and key order are the tallies of all rows seen. |
| Roster.AddGame | bulls/data/fetch.py:462-488 | After game g, the totals are the tallies of the first g + 1 games' rows; an empty box score changes nothing. |
| Roster.AccumulateTotals | bulls/data/fetch.py:462-488 | The accumulated map and key order are the tallies of all rows of all games. |
| Roster.TrueShooting | bulls/data/fetch.py:503-505 | TS% = points / (2 × (FGA + 0.44 × FTA)) × 100, and 0 with no attempts. |
| Roster.TrueShootingBenchmarks | bulls/data/fetch.py:503-505 | Two points per shot with no free throws is 100%. No attempts is 0%. |
| Roster.FgaPerGame | bulls/data/fetch.py:496 | Attempts per game times games gives the attempts, and it is never negative for non-negative attempts. |
| Roster.Qualifies | bulls/data/fetch.py:492-500 | A player qualifies iff they have games and their attempts reach `min_fga` per game. |
| Roster.EntryOf | bulls/data/fetch.py:496-513 | The entry keeps id, name and games, with attempts per game × games = attempts and TS% from the totals. |
| Roster.QualifyingEntries | bulls/data/fetch.py:491-513 | The result loop keeps, in key order, the entry of every player averaging at least `min_fga` attempts. |
| Roster.EntriesSound | bulls/data/fetch.py:491-513 | Every entry is the entry of a listed player who qualifies. |
| Roster.EntriesComplete | bulls/data/fetch.py:491-513 | Every listed player who qualifies has an entry. |
| Roster.EntriesDistinct | bulls/data/fetch.py:492-513 | No player is listed twice. |
| Roster.AtLeastVolumeIsTotalPreorder | bulls/data/fetch.py:516 | Ordering by attempts per game is total and transitive. |
| Roster.RosterEfficiency | bulls/data/fetch.py:453-518 | The result is a permutation of the qualifying players' entries, sorted by attempts per game from highest to lowest. Shots without a player column give nothing. |
| Roster.RosterMembership | bulls/data/fetch.py:475-513 | A player in the box scores has a game, and has an entry exactly when they qualify. |
| Charts.ExactZone | bulls/viz/charts.py:744-756 | An exact match names that zone. No match means no zone has that name. |
| Charts.ExactZoneFindsItsZone | bulls/viz/charts.py:744-756 | No two zones share a name, so a zone's own name finds that zone. |
| Charts.ExactZoneCenters | bulls/viz/charts.py:744-756 | Each zone's own name is drawn at that zone's table centre. |
| Charts.ZoneCenter | bulls/viz/charts.py:744-776 | An exact name gives its table centre. Any name gets one of the seven centres (centre court is Mid-Range's). |
| Charts.FirstFiringIsFirst | bulls/viz/charts.py:759-773 | The partial match chosen is the first rule that fires; no earlier rule fires. |
| Charts.RulesAreTheTests | bulls/viz/charts.py:760-773 | The seven rules fire exactly on the seven keyword tests, "and" and "or" as written. |
| Charts.KeywordsFollowRules | bulls/viz/charts.py:759-776 | The if/elif chain gives the first firing rule's centre, or centre court. |
| Charts.KeywordCenter | bulls/viz/charts.py:759-776 | The if/elif chain as written: "restricted" is tested first, and every outcome is one of the seven centres. Charts.KeywordsFollowRules shows it is the first firing rule's centre. |
| Charts.ZoneCenterFollowsRules | bulls/viz/charts.py:758-776 | A name that is not exact is placed by the first rule firing on its lower-cased form. |
| Charts.ZoneNamesCapitalised | bulls/viz/charts.py:744-752 | Every zone name starts with a capital letter. |
| Charts.PartialMatchIgnoresCase | bulls/viz/charts.py:759 | A non-exact name and its lower-cased form are placed alike. |
| Charts.LowerIdempotent | bulls/viz/charts.py:759 | Lower-casing twice is lower-casing once. |
| Charts.ShortLabel | bulls/viz/charts.py:67 | A tick longer than five characters becomes characters 5-9; a shorter one stays as it is. |
| Charts.ShortLabelIdempotent | bulls/viz/charts.py:67 | Shortening a shortened label changes nothing. |
| Charts.ShortDateLabel | bulls/viz/charts.py:67 | "2026-01-10" is shown as "01-10". |
| Charts.AxisLabels | bulls/viz/charts.py:63-67 | Date axes get shortened labels, one per tick, and other axes keep theirs. |
| Charts.DateAxisLabelsShort | bulls/viz/charts.py:66-67 | Date labels are at most five characters, and shortening them again changes nothing. |
| Charts.Reverse | bulls/viz/charts.py:46 | Element i of the oldest-first data is element n-1-i of the input. |
| Charts.ReverseInvolution | bulls/viz/charts.py:46 | Reversing twice gives the data back. |
| Charts.ReverseSameElements | bulls/viz/charts.py:46 | Reversal keeps the same rows. |
| Charts.BarColors | bulls/viz/charts.py:52-54 | Every bar has the colour, and the last one is red when highlighted. |
| Charts.OnlyLatestBarHighlighted | bulls/viz/charts.py:52-54 | A bar differs from the colour iff it is the last bar and highlighting is on, and then it is Bulls red. |
| Charts.AverageLine | bulls/viz/charts.py:72-73 | There is a line iff there is data. It is drawn at the mean sum/len, which lies between the lowest and the highest bar. |
| Charts.AverageLineIgnoresOrder | bulls/viz/charts.py:72-73 | The line is the same before and after reversal. |
| Charts.WinIsW | bulls/viz/charts.py:309 | `upper() == 'W'` holds exactly for "W" and "w". |
| Charts.WinLossColors | bulls/viz/charts.py:307-312 | A bar is green iff its game was a win and red iff not. |
| Charts.MarkerOf | bulls/viz/charts.py:386-395 | No marker without a result column; otherwise up for a win. |
| Charts.MarkersAgreeWithBars | bulls/viz/charts.py:386-395 | With results, the marker is up exactly for "W"/"w" and down otherwise. |
| Charts.KeptMetricsMembership | bulls/viz/charts.py:470-474 | A metric is kept iff it was asked for and every player has it. |
| Charts.KeptMetricsBounds | bulls/viz/charts.py:470-474 | No more metrics are kept than were asked for, and all are kept when every player has them. |
| Charts.AvailableMetrics | bulls/viz/charts.py:470-474 | The filter loop keeps the metrics every player has, in the requested order. |
| Charts.MetricColumn | bulls/viz/charts.py:494 | Every player's value of the metric, missing as 0. |
| Charts.ScaleOf | bulls/viz/charts.py:494 | The scale is the largest value of the metric when that is non-zero, and 1 when it is 0. It is never 0. |
| Charts.Scales | bulls/viz/charts.py:491-494 | One scale per metric. |
| Charts.PlayerValues | bulls/viz/charts.py:496-502 | One value per metric. Without normalising, entry k is the player's value of metric k (0 when missing). With normalising and a positive scale, entry k times the metric's scale is 100 times that value. With a scale that is not positive, the entry is 0. |
| Charts.Closed | bulls/viz/charts.py:503 | The polygon repeats its first value at the end. |
| Charts.Normalised | bulls/viz/charts.py:501 | For a positive scale, the normalised value times the scale is 100 × the value. Otherwise it is 0. |
| Charts.NormalisedWithinRange | bulls/viz/charts.py:501 | With non-negative values, every normalised value lies in [0, 100]. |
| Charts.PeakHolderReachesHundred | bulls/viz/charts.py:494-501 | The player with the largest positive value is drawn at 100. |
| Charts.RadarWithinRange | bulls/viz/charts.py:496-503 | With non-negative data, every point of every normalised polygon lies in [0, 100]. |
| Charts.SeriesOf | bulls/viz/charts.py:497-503 | The per-player loop yields the closed polygon of that player's values. |
| Charts.AllSeries | bulls/viz/charts.py:496-503 | One closed polygon per player, in order. |
| Charts.RadarChart | bulls/viz/charts.py:461-503 | "No player data" iff there are no players. "No metrics available" iff none of the metrics is shared. Otherwise each player gets a closed polygon. |
| Graphic.CentredMargins | bulls/viz/instagram.py:84 | Centring leaves margins that differ by at most one pixel. |
| Graphic.AccentBar | bulls/viz/instagram.py:89-93 | The line's width is the smaller of title + 40 and canvas - 100. It is centred on the canvas and drawn 20 above the cursor. |
| Graphic.AccentOverhangsTitle | bulls/viz/instagram.py:89-93 | When there is room, the line overhangs the title by about 20 on each side. |
| Graphic.PerRow | bulls/viz/instagram.py:134-152 | A row holds at least one stat and never more than there are. |
| Graphic.GridRows | bulls/viz/instagram.py:150-161 | The grid has two rows. The first holds the first `(n + 1) // 2` stats and the second no more than that. |
| Graphic.SlotsDistinct | bulls/viz/instagram.py:156-157 | No two stats share a row and column. |
| Graphic.CentresIncrease | bulls/viz/instagram.py:135-160 | Within a row, later stats are centred further right. |
| Graphic.CentreOnCanvas | bulls/viz/instagram.py:135-160 | Every stat is centred on the canvas. |
| Graphic.RowSlot | bulls/viz/instagram.py:135-148 | The single-row loop body places stat i at `(width // (n + 1)) * (i + 1)`. |
| Graphic.GridSlot | bulls/viz/instagram.py:152-172 | The grid loop body places stat i at its row and column of the grid. |
| Graphic.PlaceRow | bulls/viz/instagram.py:134-148 | Up to three stats: one slot per stat, at its place in the single row. |
| Graphic.PlaceGrid | bulls/viz/instagram.py:150-172 | Four or more stats: one slot per stat, at its place in the grid. |
| Graphic.PlaceStats | bulls/viz/instagram.py:134-172 | Each stat gets exactly its row or grid slot. |
| Graphic.StatRowsBelowTop | bulls/viz/instagram.py:161-172 | A value is drawn on the stats' top or 120 below it, centred on its column, with its caption 65 below. |
| Graphic.SectionsTopToBottom | bulls/viz/instagram.py:79-130 | The sections follow from the top down: title, subtitle, image, name, stats. |
| Graphic.CreateGraphic | bulls/viz/instagram.py:79-177 | Every element is placed at its centred x and the cursor's y for the sections present. The footer is 50 above the bottom. |

## Left out

- The NBA stats service, HTTP requests, retries and the schedule, box-score and shot-chart endpoints. Their results are inputs (a schedule, a map from game id to box score, a raw shot table).
- A box score that fails to load (an exception caught in the loops) is modelled as an empty box score.
- `get_box_score`'s own team filter and its name column are not part of this model. A box-score row's name is an input.
- `get_league_shots` and the analysis functions outside `stats.py` are not part of this model.
- matplotlib and Pillow drawing: figures, fonts, file saving, the radar's `np.linspace` angles and colour cycling, and the `/255` colour scaling. Text widths that Pillow measures are inputs.
- Rounding to one decimal (`round(…, 1)`), NaN and floating-point error. Averages and ratios are exact reals.
- `int(...)` truncation of non-integer counts. Counts are integers already.
- `lower()`/`upper()` cover ASCII letters only.
- A box-score cell is an `Option`, so a missing column and a None/NaN cell are the same. Python's `row.get('name', 'Unknown')`, `row.get('personId', 0)` and `p.get('minutes', '0')` return a present None/NaN cell unchanged; the model substitutes the default in both cases.
- bar_chart's default colour is Bulls red itself (bulls/viz/charts.py:18), so with default arguments highlighting the last bar changes nothing visible. Charts.OnlyLatestBarHighlighted is stated for the other colours.
- Games.GetGames: pandas' `sort_values` is not stable. The contract states sorted, part of the schedule, and length; it does not fix the order among games of the same date.
- Stats.TopPerformers: the model sorts stably, but stability among equal keys is not stated. Only sortedness and permutation are.
- Roster.RosterEfficiency: the same for equal attempts per game. The model also sorts on the unrounded attempts per game, where the source sorts on the value rounded to one decimal, so players within 0.05 may be ordered differently.
- Roster.RosterEfficiency: `result.sort` works in place on a list; it is modelled on values.
- The line chart and rolling-efficiency chart drawing beyond their shared date labels and win/loss markers.
- Stats.ScoringTrend: `values[0] if values else 0` and `if recent else 0` only matter for an empty list, which the empty check before them already excludes.
- Graphic.CreateGraphic: a stats dict is `None` or a list of widths; `None` and empty both mean no stats section.
- Charts.FirstFiring, Charts.AllOccur and Charts.Fires define the zone rules; their meaning is stated by the lemmas about them.
