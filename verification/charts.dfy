/** The computations inside the chart functions that do not depend on the
    plotting library: where a shot zone is drawn, how date labels are
    shortened, the order and colours of bars, the average line, the
    win/loss markers and the radar chart's metric filter and scaling. */
module Charts {
  import opened Prelude
  import opened Text
  import opened Numeric

  /** A court position, in the half-court coordinates of the shot chart. */
  datatype Point = Point(x: int, y: int)

  /** A colour as an RGB triple in 0..255. */
  datatype Rgb = Rgb(r: int, g: int, b: int)

  const BullsRed := Rgb(206, 17, 65)
  const WinGreen := Rgb(34, 197, 94)
  const LossRed := Rgb(239, 68, 68)

  // ---------------------------------------------------------------------
  // Shot-zone centres
  // ---------------------------------------------------------------------

  /** The seven zones the shot-chart data names. */
  datatype Zone = RestrictedArea | PaintNonRA | MidRange | LeftCorner3 | RightCorner3 | AboveTheBreak3 | Backcourt

  /** The name a zone goes by in the data. */
  function ZoneName(z: Zone): string {
    match z
    case RestrictedArea => "Restricted Area"
    case PaintNonRA => "In The Paint (Non-RA)"
    case MidRange => "Mid-Range"
    case LeftCorner3 => "Left Corner 3"
    case RightCorner3 => "Right Corner 3"
    case AboveTheBreak3 => "Above the Break 3"
    case Backcourt => "Backcourt"
  }

  /** Where a zone is drawn. */
  function Center(z: Zone): Point {
    match z
    case RestrictedArea => Point(0, 0)
    case PaintNonRA => Point(0, 70)
    case MidRange => Point(0, 200)
    case LeftCorner3 => Point(-180, 50)
    case RightCorner3 => Point(180, 50)
    case AboveTheBreak3 => Point(0, 300)
    case Backcourt => Point(0, 400)
  }

  /** Where a zone nobody recognises is drawn. */
  const CenterCourt := Point(0, 200)

  /** `zone_name in zone_centers`: the zone whose name is exactly `name`. */
  function ExactZone(name: string): (r: Option<Zone>)
    ensures r.Some? ==> ZoneName(r.value) == name
    ensures r.None? ==> forall z :: ZoneName(z) != name
  {
    if name == "Restricted Area" then Some(RestrictedArea)
    else if name == "In The Paint (Non-RA)" then Some(PaintNonRA)
    else if name == "Mid-Range" then Some(MidRange)
    else if name == "Left Corner 3" then Some(LeftCorner3)
    else if name == "Right Corner 3" then Some(RightCorner3)
    else if name == "Above the Break 3" then Some(AboveTheBreak3)
    else if name == "Backcourt" then Some(Backcourt)
    else None
  }

  /** No two zones share a name, so looking a zone's name up finds that zone. */
  lemma ExactZoneFindsItsZone(z: Zone)
    ensures ExactZone(ZoneName(z)) == Some(z)
  {
    var r := ExactZone(ZoneName(z));
    assert r.Some?;
    if r.value != z {
      NamesDiffer(r.value, z);
    }
  }

  /** Two different zones have different names: they differ in length or in
      their first character. */
  lemma NamesDiffer(a: Zone, b: Zone)
    requires a != b
    ensures ZoneName(a) != ZoneName(b)
  {
    var x, y := ZoneName(a), ZoneName(b);
    if |x| == |y| {
      assert x[0] != y[0];
    }
  }

  /** The partial matches on the lower-cased name, tried in order. */
  function KeywordCenter(lower: string): (p: Point)
    ensures Contains(lower, "restricted") ==> p == Center(RestrictedArea)
    ensures exists z :: p == Center(z)
  {
    if Contains(lower, "restricted") then Center(RestrictedArea)
    else if Contains(lower, "paint") && Contains(lower, "non") then Center(PaintNonRA)
    else if Contains(lower, "mid") || Contains(lower, "range") then Center(MidRange)
    else if Contains(lower, "left") && Contains(lower, "corner") then Center(LeftCorner3)
    else if Contains(lower, "right") && Contains(lower, "corner") then Center(RightCorner3)
    else if Contains(lower, "above") || Contains(lower, "break") then Center(AboveTheBreak3)
    else if Contains(lower, "backcourt") then Center(Backcourt)
    else assert CenterCourt == Center(MidRange); CenterCourt
  }

  /** `_get_zone_center`: the table entry for an exact zone name, otherwise
      the first keyword test on the lower-cased name that succeeds, otherwise
      center court. Every answer is the centre of some zone. */
  function ZoneCenter(zoneName: string): (p: Point)
    ensures ExactZone(zoneName).Some? ==> p == Center(ExactZone(zoneName).value)
    ensures exists z :: p == Center(z)
  {
    assert Center(MidRange) == CenterCourt;
    match ExactZone(zoneName)
    case Some(z) => Center(z)
    case None => KeywordCenter(Lower(zoneName))
  }

  /** Each zone's own name is drawn at that zone's centre. */
  lemma ExactZoneCenters(z: Zone)
    ensures ZoneCenter(ZoneName(z)) == Center(z)
  {
    ExactZoneFindsItsZone(z);
  }

  /** A keyword rule for names outside the table: it fires when every word
      of one of its alternatives occurs in the lower-cased name. */
  datatype Rule = Rule(alternatives: seq<seq<string>>, zone: Zone)

  /** The keyword rules, in the order they are tried. */
  const PartialRules: seq<Rule> := [
    Rule([["restricted"]], RestrictedArea),
    Rule([["paint", "non"]], PaintNonRA),
    Rule([["mid"], ["range"]], MidRange),
    Rule([["left", "corner"]], LeftCorner3),
    Rule([["right", "corner"]], RightCorner3),
    Rule([["above"], ["break"]], AboveTheBreak3),
    Rule([["backcourt"]], Backcourt)]

  predicate AllOccur(lower: string, words: seq<string>) {
    forall k :: 0 <= k < |words| ==> Contains(lower, words[k])
  }

  predicate Fires(rule: Rule, lower: string) {
    exists k :: 0 <= k < |rule.alternatives| && AllOccur(lower, rule.alternatives[k])
  }

  /** The zone of the first rule at or after index `k` that fires on `lower`, if any. */
  function FirstFiring(rules: seq<Rule>, k: nat, lower: string): Option<Zone>
    requires k <= |rules|
    decreases |rules| - k
  {
    if k == |rules| then None
    else if Fires(rules[k], lower) then Some(rules[k].zone)
    else FirstFiring(rules, k + 1, lower)
  }

  /** The answer names the zone of a rule that fires with no earlier rule
      firing, and there is no answer only when no rule fires. */
  lemma {:induction false} FirstFiringIsFirst(rules: seq<Rule>, k: nat, lower: string)
    requires k <= |rules|
    ensures var r := FirstFiring(rules, k, lower);
            && (r.Some? ==> exists j :: k <= j < |rules| && Fires(rules[j], lower) && rules[j].zone == r.value
                                        && forall i :: k <= i < j ==> !Fires(rules[i], lower))
            && (r.None? ==> forall j :: k <= j < |rules| ==> !Fires(rules[j], lower))
    decreases |rules| - k
  {
    if k < |rules| && !Fires(rules[k], lower) {
      FirstFiringIsFirst(rules, k + 1, lower);
    }
  }

  /** The centre a table of rules assigns to a lower-cased name. */
  function RuleCenter(lower: string): Point {
    match FirstFiring(PartialRules, 0, lower)
    case Some(z) => Center(z)
    case None => CenterCourt
  }

  lemma FiresOne(lower: string, w: string, zone: Zone)
    ensures Fires(Rule([[w]], zone), lower) <==> Contains(lower, w)
  {
    assert [[w]][0] == [w] && [w][0] == w;
  }

  lemma FiresBoth(lower: string, v: string, w: string, zone: Zone)
    ensures Fires(Rule([[v, w]], zone), lower) <==> Contains(lower, v) && Contains(lower, w)
  {
    assert [[v, w]][0] == [v, w] && [v, w][0] == v && [v, w][1] == w;
  }

  lemma FiresEither(lower: string, v: string, w: string, zone: Zone)
    ensures Fires(Rule([[v], [w]], zone), lower) <==> Contains(lower, v) || Contains(lower, w)
  {
    assert [[v], [w]][0] == [v] && [[v], [w]][1] == [w] && [v][0] == v && [w][0] == w;
  }

  /** Each rule fires on exactly the names its keyword test accepts. */
  lemma RulesAreTheTests(lower: string)
    ensures Fires(PartialRules[0], lower) <==> Contains(lower, "restricted")
    ensures Fires(PartialRules[1], lower) <==> Contains(lower, "paint") && Contains(lower, "non")
    ensures Fires(PartialRules[2], lower) <==> Contains(lower, "mid") || Contains(lower, "range")
    ensures Fires(PartialRules[3], lower) <==> Contains(lower, "left") && Contains(lower, "corner")
    ensures Fires(PartialRules[4], lower) <==> Contains(lower, "right") && Contains(lower, "corner")
    ensures Fires(PartialRules[5], lower) <==> Contains(lower, "above") || Contains(lower, "break")
    ensures Fires(PartialRules[6], lower) <==> Contains(lower, "backcourt")
  {
    FiresOne(lower, "restricted", RestrictedArea);
    FiresBoth(lower, "paint", "non", PaintNonRA);
    FiresEither(lower, "mid", "range", MidRange);
    FiresBoth(lower, "left", "corner", LeftCorner3);
    FiresBoth(lower, "right", "corner", RightCorner3);
    FiresEither(lower, "above", "break", AboveTheBreak3);
    FiresOne(lower, "backcourt", Backcourt);
  }

  /** The if-chain is the rule table read top to bottom: the first rule
      that fires decides. */
  lemma KeywordsFollowRules(lower: string)
    ensures KeywordCenter(lower) == RuleCenter(lower)
  {
    var rs := PartialRules;
    RulesAreTheTests(lower);
    assert FirstFiring(rs, 6, lower) == if Fires(rs[6], lower) then Some(Backcourt) else None;
    assert FirstFiring(rs, 4, lower) == if Fires(rs[4], lower) then Some(RightCorner3)
                                        else if Fires(rs[5], lower) then Some(AboveTheBreak3)
                                        else FirstFiring(rs, 6, lower);
    assert FirstFiring(rs, 2, lower) == if Fires(rs[2], lower) then Some(MidRange)
                                        else if Fires(rs[3], lower) then Some(LeftCorner3)
                                        else FirstFiring(rs, 4, lower);
    assert FirstFiring(rs, 0, lower) == if Fires(rs[0], lower) then Some(RestrictedArea)
                                        else if Fires(rs[1], lower) then Some(PaintNonRA)
                                        else FirstFiring(rs, 2, lower);
  }

  /** A name outside the table lands where the first rule that fires on its
      lower-cased spelling puts it. */
  lemma ZoneCenterFollowsRules(zoneName: string)
    requires ExactZone(zoneName).None?
    ensures ZoneCenter(zoneName) == RuleCenter(Lower(zoneName))
  {
    KeywordsFollowRules(Lower(zoneName));
  }

  /** Every exact zone name starts with a capital letter. */
  lemma ZoneNamesCapitalised(z: Zone)
    ensures ZoneName(z) != [] && 'A' <= ZoneName(z)[0] <= 'Z'
  {
  }

  /** A lower-cased name is never one of the exact names, so a name outside
      the table lands where its lower-cased spelling does: the keyword tests
      do not care about case. */
  lemma PartialMatchIgnoresCase(zoneName: string)
    requires ExactZone(zoneName).None?
    ensures ExactZone(Lower(zoneName)).None?
    ensures ZoneCenter(zoneName) == ZoneCenter(Lower(zoneName))
  {
    var lower := Lower(zoneName);
    if ExactZone(lower).Some? {
      ZoneNamesCapitalised(ExactZone(lower).value);
      assert false;
    }
    LowerIdempotent(zoneName);
  }

  lemma LowerIdempotent(s: string)
    ensures Lower(Lower(s)) == Lower(s)
  {
  }

  // ---------------------------------------------------------------------
  // Axis labels
  // ---------------------------------------------------------------------

  /** A label longer than five characters keeps characters 5 to 10 (the
      month and day of an ISO date); a shorter one is kept as it is. */
  function ShortLabel(tick: string): (r: string)
    ensures |r| <= 5 || r == tick
    ensures |tick| > 5 ==> r == tick[5..if |tick| < 10 then |tick| else 10]
    ensures |tick| <= 5 ==> r == tick
  {
    if |tick| > 5 then Slice(tick, 5, 10) else tick
  }

  /** Shortening a label twice changes nothing more. */
  lemma ShortLabelIdempotent(tick: string)
    ensures ShortLabel(ShortLabel(tick)) == ShortLabel(tick)
  {
  }

  lemma ShortDateLabel()
    ensures ShortLabel("2026-01-10") == "01-10"
  {
    assert "2026-01-10"[5..10] == "01-10";
  }

  /** The tick labels of a chart: shortened when the x column's name
      mentions "date" in any case, otherwise unchanged. */
  function AxisLabels(xName: string, labels: seq<string>): (r: seq<string>)
    ensures |r| == |labels|
    ensures Contains(Lower(xName), "date") ==> forall i :: 0 <= i < |r| ==> r[i] == ShortLabel(labels[i])
    ensures !Contains(Lower(xName), "date") ==> r == labels
  {
    if Contains(Lower(xName), "date") then
      seq(|labels|, i requires 0 <= i < |labels| => ShortLabel(labels[i]))
    else labels
  }

  /** On a date axis every label is at most five characters long, and the
      labels are a fixed point of shortening. */
  lemma DateAxisLabelsShort(xName: string, labels: seq<string>)
    requires Contains(Lower(xName), "date")
    ensures forall i :: 0 <= i < |labels| ==> |AxisLabels(xName, labels)[i]| <= 5
    ensures AxisLabels(xName, AxisLabels(xName, labels)) == AxisLabels(xName, labels)
  {
    var once := AxisLabels(xName, labels);
    forall i | 0 <= i < |labels|
      ensures |once[i]| <= 5
      ensures AxisLabels(xName, once)[i] == once[i]
    {
      ShortLabelIdempotent(labels[i]);
    }
  }

  // ---------------------------------------------------------------------
  // Bar order, highlight and average
  // ---------------------------------------------------------------------

  /** `data.iloc[::-1]`: the rows in reverse, so a newest-first log is
      plotted oldest first. */
  function Reverse<T>(s: seq<T>): (r: seq<T>)
    ensures |r| == |s|
    ensures forall i :: 0 <= i < |s| ==> r[i] == s[|s| - 1 - i]
  {
    if s == [] then [] else Reverse(s[1..]) + [s[0]]
  }

  lemma ReverseInvolution<T>(s: seq<T>)
    ensures Reverse(Reverse(s)) == s
  {
  }

  lemma {:induction false} ReverseSameElements<T>(s: seq<T>)
    ensures multiset(Reverse(s)) == multiset(s)
  {
    if s != [] {
      ReverseSameElements(s[1..]);
      assert s == [s[0]] + s[1..];
    }
  }

  /** The bar colours: every bar in the chart colour, the last (most recent)
      one in Bulls red when highlighting is on and there are bars. */
  function BarColorsSpec(n: nat, color: Rgb, highlightLast: bool): seq<Rgb> {
    var plain := seq(n, _ => color);
    if highlightLast && n > 0 then plain[..n - 1] + [BullsRed] else plain
  }

  /** Fills a colour array and then overwrites its last slot. */
  method BarColors(n: nat, color: Rgb, highlightLast: bool) returns (colors: seq<Rgb>)
    ensures colors == BarColorsSpec(n, color, highlightLast)
  {
    var a := new Rgb[n](_ => color);
    if highlightLast && n > 0 {
      a[n - 1] := BullsRed;
    }
    colors := a[..];
    assert colors == BarColorsSpec(n, color, highlightLast);
  }

  /** Only the bar of the most recent game, which is plotted last, can
      differ from the chart colour, and it does exactly when highlighting. */
  lemma OnlyLatestBarHighlighted<T>(data: seq<T>, color: Rgb, highlightLast: bool)
    requires color != BullsRed
    ensures var colors := BarColorsSpec(|data|, color, highlightLast);
            && |colors| == |data|
            && (forall i :: 0 <= i < |data| ==> (colors[i] != color <==> highlightLast && i == |data| - 1))
            && (forall i :: 0 <= i < |data| ==> colors[i] == color || colors[i] == BullsRed)
            && (data != [] ==> Reverse(data)[|data| - 1] == data[0])
  {
    var colors := BarColorsSpec(|data|, color, highlightLast);
    forall i | 0 <= i < |data|
      ensures colors[i] != color <==> highlightLast && i == |data| - 1
      ensures colors[i] == color || colors[i] == BullsRed
    {
      if highlightLast && i < |data| - 1 {
        assert colors[i] == seq(|data|, _ => color)[..|data| - 1][i];
      }
    }
  }

  /** The dashed average line: drawn only for a non-empty column, at
      sum/len, which lies between the shortest and the tallest bar. */
  function AverageLine(values: seq<real>): (r: Option<real>)
    ensures r.Some? <==> values != []
    ensures r.Some? ==> r.value == Mean(values)
    ensures r.Some? ==> Min(values) <= r.value <= Max(values)
  {
    if values == [] then None
    else
      MeanBetweenMinAndMax(values);
      Some(Mean(values))
  }

  /** Plotting oldest first does not move the average line. */
  lemma AverageLineIgnoresOrder(values: seq<real>)
    ensures AverageLine(Reverse(values)) == AverageLine(values)
  {
    ReverseSameElements(values);
    SumPermutation(Reverse(values), values);
  }

  // ---------------------------------------------------------------------
  // Win/loss colours and markers
  // ---------------------------------------------------------------------

  /** A row counts as a win when the result column exists and its value,
      upper-cased, is "W". */
  predicate IsWin(hasResult: bool, value: string) {
    hasResult && Upper(value) == "W"
  }

  /** Upper-casing turns only "W" and "w" into "W". */
  lemma WinIsW(value: string)
    ensures Upper(value) == "W" <==> value == "W" || value == "w"
  {
    if Upper(value) == "W" {
      assert |value| == 1;
      assert UpperChar(value[0]) == 'W';
      assert value == [value[0]];
    }
    if value == "w" {
      assert Upper(value)[0] == UpperChar('w') == 'W';
    }
  }

  /** One colour per plotted row: green for a win, red otherwise. */
  method WinLossColors(results: seq<string>, hasResult: bool) returns (colors: seq<Rgb>)
    ensures |colors| == |results|
    ensures forall i :: 0 <= i < |results| ==> (colors[i] == WinGreen <==> IsWin(hasResult, results[i]))
    ensures forall i :: 0 <= i < |results| ==> (colors[i] == LossRed <==> !IsWin(hasResult, results[i]))
  {
    colors := [];
    var i := 0;
    while i < |results|
      invariant 0 <= i <= |results| && |colors| == i
      invariant forall j :: 0 <= j < i ==> colors[j] == (if IsWin(hasResult, results[j]) then WinGreen else LossRed)
    {
      if hasResult && Upper(results[i]) == "W" {
        colors := colors + [WinGreen];
      } else {
        colors := colors + [LossRed];
      }
      i := i + 1;
    }
  }

  datatype Marker = WinTriangle | LossTriangle

  /** The marker on the rolling-efficiency line: none without a result
      column, an upward triangle for a win, a downward one otherwise. */
  function MarkerOf(hasResult: bool, value: string): (m: Option<Marker>)
    ensures m.None? <==> !hasResult
    ensures m == Some(WinTriangle) <==> IsWin(hasResult, value)
  {
    if hasResult then (if Upper(value) == "W" then Some(WinTriangle) else Some(LossTriangle))
    else None
  }

  /** Where there is a result column, the marker and the bar agree: an
      upward triangle exactly on the green bars. */
  lemma MarkersAgreeWithBars(hasResult: bool, value: string)
    requires hasResult
    ensures MarkerOf(hasResult, value) == Some(WinTriangle) <==> (value == "W" || value == "w")
    ensures MarkerOf(hasResult, value) == Some(LossTriangle) <==> !(value == "W" || value == "w")
  {
    WinIsW(value);
  }

  // ---------------------------------------------------------------------
  // Radar chart
  // ---------------------------------------------------------------------

  /** One player's entry: the metric values by name. */
  type PlayerStats = map<string, real>

  const DefaultMetrics: seq<string> := ["points", "rebounds", "assists", "steals", "fg_pct"]

  predicate EveryoneHas(players: seq<PlayerStats>, metric: string) {
    forall i :: 0 <= i < |players| ==> metric in players[i]
  }

  /** The metrics every player has, in the order they were asked for. */
  function KeptMetrics(metrics: seq<string>, players: seq<PlayerStats>): seq<string> {
    if metrics == [] then []
    else
      var last := metrics[|metrics| - 1];
      KeptMetrics(metrics[..|metrics| - 1], players) + (if EveryoneHas(players, last) then [last] else [])
  }

  /** A metric survives the filter exactly when it was asked for and every
      player has it. */
  lemma {:induction false} KeptMetricsMembership(metrics: seq<string>, players: seq<PlayerStats>, m: string)
    ensures m in KeptMetrics(metrics, players) <==> m in metrics && EveryoneHas(players, m)
  {
    if metrics != [] {
      var init := metrics[..|metrics| - 1];
      KeptMetricsMembership(init, players, m);
      assert metrics == init + [metrics[|metrics| - 1]];
    }
  }

  /** The filter keeps a sub-sequence: never more metrics than asked for,
      and all of them when every player has every metric. */
  lemma {:induction false} KeptMetricsBounds(metrics: seq<string>, players: seq<PlayerStats>)
    ensures |KeptMetrics(metrics, players)| <= |metrics|
    ensures (forall k :: 0 <= k < |metrics| ==> EveryoneHas(players, metrics[k]))
            ==> KeptMetrics(metrics, players) == metrics
  {
    if metrics != [] {
      var init := metrics[..|metrics| - 1];
      KeptMetricsBounds(init, players);
      assert metrics == init + [metrics[|metrics| - 1]];
    }
  }

  /** The loop that builds `available_metrics`. */
  method AvailableMetrics(metrics: seq<string>, players: seq<PlayerStats>) returns (available: seq<string>)
    ensures available == KeptMetrics(metrics, players)
  {
    available := [];
    var k := 0;
    while k < |metrics|
      invariant 0 <= k <= |metrics|
      invariant available == KeptMetrics(metrics[..k], players)
    {
      assert metrics[..k + 1][..k] == metrics[..k];
      var everyone := true;
      var i := 0;
      while i < |players|
        invariant 0 <= i <= |players|
        invariant everyone <==> forall j :: 0 <= j < i ==> metrics[k] in players[j]
      {
        everyone := everyone && metrics[k] in players[i];
        i := i + 1;
      }
      if everyone {
        available := available + [metrics[k]];
      }
      k := k + 1;
    }
    assert metrics[..|metrics|] == metrics;
  }

  function MetricColumn(players: seq<PlayerStats>, metric: string): (c: seq<real>)
    ensures |c| == |players|
    ensures forall i :: 0 <= i < |players| ==> c[i] == GetOrZero(players[i], metric)
  {
    seq(|players|, i requires 0 <= i < |players| => GetOrZero(players[i], metric))
  }

  /** `max(p.get(m, 0) for p in players) or 1`: the largest value, with a
      largest value of zero replaced by one. */
  function ScaleOf(players: seq<PlayerStats>, metric: string): (s: real)
    requires players != []
    ensures s != 0.0
    ensures s == 1.0 || s in MetricColumn(players, metric)
    ensures forall i :: 0 <= i < |players| ==> GetOrZero(players[i], metric) <= s || s == 1.0
    ensures Max(MetricColumn(players, metric)) != 0.0 ==> s == Max(MetricColumn(players, metric))
    ensures Max(MetricColumn(players, metric)) == 0.0 ==> s == 1.0
  {
    var peak := Max(MetricColumn(players, metric));
    if peak == 0.0 then 1.0 else peak
  }

  /** `(val / max) * 100` when the scale is positive, 0 otherwise. */
  function Normalised(value: real, scale: real): (r: real)
    ensures scale > 0.0 ==> r * scale == value * 100.0
    ensures scale <= 0.0 ==> r == 0.0
  {
    if scale > 0.0 then value / scale * 100.0 else 0.0
  }

  /** One player's radar values for the kept metrics, scaled or raw. */
  function PlayerValues(player: PlayerStats, players: seq<PlayerStats>, metrics: seq<string>, normalize: bool): (v: seq<real>)
    requires players != []
    ensures |v| == |metrics|
    ensures !normalize ==> forall k :: 0 <= k < |metrics| ==> v[k] == GetOrZero(player, metrics[k])
    ensures normalize ==> forall k :: 0 <= k < |metrics| && ScaleOf(players, metrics[k]) > 0.0 ==>
              v[k] * ScaleOf(players, metrics[k]) == GetOrZero(player, metrics[k]) * 100.0
    ensures normalize ==> forall k :: 0 <= k < |metrics| && ScaleOf(players, metrics[k]) <= 0.0 ==> v[k] == 0.0
  {
    seq(|metrics|, k requires 0 <= k < |metrics| =>
      if normalize then Normalised(GetOrZero(player, metrics[k]), ScaleOf(players, metrics[k]))
      else GetOrZero(player, metrics[k]))
  }

  /** The values with the first one repeated at the end, closing the polygon. */
  function Closed(values: seq<real>): (r: seq<real>)
    ensures |r| == |values| + (if values == [] then 0 else 1)
    ensures r[..|values|] == values
    ensures values != [] ==> r[|values|] == values[0]
  {
    values + values[..if values == [] then 0 else 1]
  }

  /** What `radar_chart` draws: a placeholder without players or without a
      shared metric, otherwise one closed series per player. */
  datatype Radar = NoPlayerData | NoMetricsAvailable | Plot(metrics: seq<string>, series: seq<seq<real>>)

  /** For non-negative values, the scaled value of any player lies in 0..100. */
  lemma NormalisedWithinRange(players: seq<PlayerStats>, metric: string, i: nat)
    requires i < |players|
    requires forall j :: 0 <= j < |players| ==> GetOrZero(players[j], metric) >= 0.0
    ensures 0.0 <= Normalised(GetOrZero(players[i], metric), ScaleOf(players, metric)) <= 100.0
  {
    var col := MetricColumn(players, metric);
    var peak := Max(col);
    var v := GetOrZero(players[i], metric);
    assert col[i] == v;
    if peak == 0.0 {
      assert v == 0.0;
    } else {
      assert peak > 0.0;
      DivideBounds(v, peak, 0.0, 1.0);
    }
  }

  /** The player holding a metric's positive maximum is drawn at 100. */
  lemma PeakHolderReachesHundred(players: seq<PlayerStats>, metric: string, i: nat)
    requires i < |players|
    requires GetOrZero(players[i], metric) > 0.0
    requires forall j :: 0 <= j < |players| ==> GetOrZero(players[j], metric) <= GetOrZero(players[i], metric)
    ensures Normalised(GetOrZero(players[i], metric), ScaleOf(players, metric)) == 100.0
  {
    var col := MetricColumn(players, metric);
    var peak := Max(col);
    assert col[i] == GetOrZero(players[i], metric);
    assert peak == GetOrZero(players[i], metric);
  }

  /** On normalised charts with non-negative values every plotted point of
      every series lies in 0..100. */
  lemma RadarWithinRange(players: seq<PlayerStats>, metrics: seq<string>, i: nat)
    requires i < |players|
    requires forall k, j :: 0 <= k < |metrics| && 0 <= j < |players| ==> GetOrZero(players[j], metrics[k]) >= 0.0
    ensures forall x :: x in Closed(PlayerValues(players[i], players, metrics, true)) ==> 0.0 <= x <= 100.0
  {
    var values := PlayerValues(players[i], players, metrics, true);
    forall k | 0 <= k < |metrics|
      ensures 0.0 <= values[k] <= 100.0
    {
      NormalisedWithinRange(players, metrics[k], i);
    }
  }

  /** One player's values, built metric by metric as the source's inner loop does. */
  method SeriesOf(player: PlayerStats, players: seq<PlayerStats>, metrics: seq<string>, scales: seq<real>, normalize: bool)
    returns (values: seq<real>)
    requires players != [] && |scales| == |metrics|
    requires forall k :: 0 <= k < |metrics| ==> scales[k] == ScaleOf(players, metrics[k])
    ensures values == Closed(PlayerValues(player, players, metrics, normalize))
  {
    values := [];
    var k := 0;
    while k < |metrics|
      invariant 0 <= k <= |metrics|
      invariant values == PlayerValues(player, players, metrics, normalize)[..k]
    {
      var v := if metrics[k] in player then player[metrics[k]] else 0.0;
      if normalize {
        v := if scales[k] > 0.0 then v / scales[k] * 100.0 else 0.0;
      }
      values := values + [v];
      k := k + 1;
    }
    assert values == PlayerValues(player, players, metrics, normalize);
    values := values + values[..if values == [] then 0 else 1];
  }

  /** The loop that computes each kept metric's scale. */
  method Scales(players: seq<PlayerStats>, metrics: seq<string>) returns (scales: seq<real>)
    requires players != []
    ensures |scales| == |metrics|
    ensures forall k :: 0 <= k < |metrics| ==> scales[k] == ScaleOf(players, metrics[k])
  {
    scales := [];
    var k := 0;
    while k < |metrics|
      invariant 0 <= k <= |metrics| && |scales| == k
      invariant forall j :: 0 <= j < k ==> scales[j] == ScaleOf(players, metrics[j])
    {
      scales := scales + [ScaleOf(players, metrics[k])];
      k := k + 1;
    }
  }

  /** The loop over the players: one closed series each. */
  method AllSeries(players: seq<PlayerStats>, metrics: seq<string>, scales: seq<real>, normalize: bool)
    returns (series: seq<seq<real>>)
    requires players != [] && |scales| == |metrics|
    requires forall k :: 0 <= k < |metrics| ==> scales[k] == ScaleOf(players, metrics[k])
    ensures |series| == |players|
    ensures forall i :: 0 <= i < |players| ==> series[i] == Closed(PlayerValues(players[i], players, metrics, normalize))
  {
    series := [];
    var i := 0;
    while i < |players|
      invariant 0 <= i <= |players| && |series| == i
      invariant forall j :: 0 <= j < i ==> series[j] == Closed(PlayerValues(players[j], players, metrics, normalize))
    {
      var values := SeriesOf(players[i], players, metrics, scales, normalize);
      series := series + [values];
      i := i + 1;
    }
  }

  /** `radar_chart` without the drawing: the filter, the per-metric scales
      and one closed series per player. */
  method RadarChart(players: seq<PlayerStats>, requested: Option<seq<string>>, normalize: bool) returns (r: Radar)
    ensures r == NoPlayerData <==> players == []
    ensures r == NoMetricsAvailable <==> players != [] && KeptMetrics(requested.GetOr(DefaultMetrics), players) == []
    ensures r.Plot? ==> && players != []
                        && r.metrics == KeptMetrics(requested.GetOr(DefaultMetrics), players)
                        && r.metrics != []
                        && |r.series| == |players|
                        && forall i :: 0 <= i < |players| ==> r.series[i] == Closed(PlayerValues(players[i], players, r.metrics, normalize))
  {
    var metrics := if requested.Some? then requested.value else DefaultMetrics;
    if players == [] {
      return NoPlayerData;
    }
    var available := AvailableMetrics(metrics, players);
    if available == [] {
      return NoMetricsAvailable;
    }
    var scales := Scales(players, available);
    var series := AllSeries(players, available, scales, normalize);
    r := Plot(available, series);
  }
}
