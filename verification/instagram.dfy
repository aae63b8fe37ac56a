/** The layout arithmetic of `create_graphic`: a vertical cursor moved down
    section by section (title, accent line, subtitle, player image and
    name, stats) and the integer placement of the stats in one row or a
    two-row grid. Text is measured by the caller: every width is an input. */
module Graphic {
  import opened Prelude

  /** The top-left corner at which a text or an image is drawn. */
  datatype Placement = Placement(x: int, y: int)

  /** The red bar under the title, the rectangle `[x, y, x + width, y + 4]`. */
  datatype Accent = Accent(x: int, y: int, width: int)

  /** The measured widths of one stat's value text and of its caption. */
  datatype StatWidths = StatWidths(valueWidth: int, captionWidth: int)

  /** Where one stat is drawn: the centre of its column, its row, and the
      corners of its value and of its caption. */
  datatype StatSlot = StatSlot(centre: int, row: nat, value: Placement, caption: Placement)

  /** Everything `create_graphic` places; absent sections are `None`. */
  datatype Layout = Layout(
    title: Placement,
    accent: Option<Accent>,
    subtitle: Option<Placement>,
    image: Option<Placement>,
    name: Option<Placement>,
    stats: seq<StatSlot>,
    footer: Placement)

  const TitleTop := 80
  const ImageSize := 250
  const RowSpacing := 120
  const CaptionDrop := 65

  /** `(width - text_width) // 2`; with a positive divisor Dafny's division
      rounds down exactly as Python's `//` does. */
  function Centred(width: int, textWidth: int): int {
    (width - textWidth) / 2
  }

  /** Centring leaves margins on the left and right that differ by at most
      one pixel, the left one never the larger. */
  lemma CentredMargins(width: int, textWidth: int)
    ensures var left := Centred(width, textWidth);
            var right := width - (left + textWidth);
            left <= right <= left + 1
  {
  }

  /** The accent line: as wide as the title plus 40, but at least 100
      narrower than the canvas, centred, 20 above the cursor. */
  function AccentBar(width: int, titleWidth: int, cursor: int): (a: Accent)
    ensures a.width <= titleWidth + 40 && a.width <= width - 100
    ensures a.width == titleWidth + 40 || a.width == width - 100
    ensures a.y == cursor - 20
    ensures a.x == Centred(width, a.width)
  {
    var lineWidth := if titleWidth + 40 <= width - 100 then titleWidth + 40 else width - 100;
    Accent(Centred(width, lineWidth), cursor - 20, lineWidth)
  }

  /** When the title leaves room, the line overhangs it by about 20 pixels
      on each side. */
  lemma AccentOverhangsTitle(width: int, titleWidth: int, cursor: int)
    requires titleWidth + 40 <= width - 100
    ensures var a := AccentBar(width, titleWidth, cursor);
            var titleX := Centred(width, titleWidth);
            a.x + 20 <= titleX <= a.x + 21
            && titleX + titleWidth <= a.x + a.width - 19
  {
  }

  // ---------------------------------------------------------------------
  // Stat placement
  // ---------------------------------------------------------------------

  /** How many stats share a row: all of them up to three, otherwise
      half of them rounded up. */
  function PerRow(n: nat): (k: nat)
    ensures n > 0 ==> 0 < k <= n
  {
    if n <= 3 then n else (n + 1) / 2
  }

  /** The row of stat `i`: always 0 up to three stats, `i // stats_per_row` beyond. */
  function SlotRow(n: nat, i: nat): nat
    requires i < n
  {
    if n <= 3 then 0 else i / PerRow(n)
  }

  /** The x centre of stat `i`: column `c` of a row with `k` columns is at
      `(width // (k + 1)) * (c + 1)`. */
  function SlotCentre(width: int, n: nat, i: nat): int
    requires i < n
  {
    if n <= 3 then (width / (n + 1)) * (i + 1)
    else (width / (PerRow(n) + 1)) * (i % PerRow(n) + 1)
  }

  /** The column of stat `i` within its row. */
  function SlotColumn(n: nat, i: nat): nat
    requires i < n
  {
    if n <= 3 then i else i % PerRow(n)
  }

  /** Stat `i` in full: value text centred on its column at the row's top,
      caption 65 below it. */
  function SlotOf(width: int, n: nat, top: int, i: nat, w: StatWidths): StatSlot
    requires i < n
  {
    var x := SlotCentre(width, n, i);
    var y := top + RowSpacing * SlotRow(n, i);
    StatSlot(x, SlotRow(n, i), Placement(x - w.valueWidth / 2, y), Placement(x - w.captionWidth / 2, y + CaptionDrop))
  }

  /** The grid has two rows at most: the first `PerRow(n)` stats fill row 0
      and the rest, never more, go to row 1. */
  lemma GridRows(n: nat, i: nat)
    requires 4 <= n && i < n
    ensures SlotRow(n, i) == 0 || SlotRow(n, i) == 1
    ensures SlotRow(n, i) == 0 <==> i < PerRow(n)
    ensures SlotRow(n, i) == 1 ==> SlotColumn(n, i) == i - PerRow(n)
    ensures n - PerRow(n) <= PerRow(n)
  {
    var k := PerRow(n);
    assert 2 * k >= n;
    if i >= k {
      assert i - k < k;
    }
  }

  /** Columns run left to right: within a row, a later stat is centred
      strictly further right, provided the canvas has a pixel per gap. */
  lemma CentresIncrease(width: int, n: nat, i: nat, j: nat)
    requires i < j < n
    requires SlotRow(n, i) == SlotRow(n, j)
    requires width >= PerRow(n) + 1
    ensures SlotCentre(width, n, i) < SlotCentre(width, n, j)
  {
    var k := PerRow(n);
    var spacing := width / (k + 1);
    assert spacing >= 1;
    if n > 3 {
      GridRows(n, i);
      GridRows(n, j);
      if SlotRow(n, i) == 0 {
        assert i % k == i && j % k == j;
      } else {
        assert i % k == i - k && j % k == j - k;
      }
    }
    MultiplyStrictly(spacing, SlotColumn(n, i) + 1, SlotColumn(n, j) + 1);
  }

  lemma MultiplyStrictly(s: int, a: int, b: int)
    requires s >= 1 && a < b
    ensures s * a < s * b
  {
  }

  /** Every centre lies on the canvas. */
  lemma CentreOnCanvas(width: int, n: nat, i: nat)
    requires i < n && width > 0
    ensures 0 <= SlotCentre(width, n, i) < width
  {
    var k := PerRow(n);
    var spacing := width / (k + 1);
    var c := SlotColumn(n, i);
    if n > 3 {
      GridRows(n, i);
    }
    assert c < k;
    assert spacing * (k + 1) <= width;
    assert 0 <= spacing;
    CentreBelowWidth(width, spacing, k, c + 1);
  }

  lemma CentreBelowWidth(width: int, spacing: int, k: nat, m: nat)
    requires width > 0 && spacing >= 0 && spacing * (k + 1) <= width && 1 <= m <= k
    ensures 0 <= spacing * m < width
  {
    assert spacing * m <= spacing * k;
    if spacing == 0 {
    } else {
      assert spacing * k < spacing * (k + 1);
    }
  }

  /** No two stats share a place: different stats differ in row or column. */
  lemma SlotsDistinct(n: nat, i: nat, j: nat)
    requires i < n && j < n && i != j
    ensures SlotRow(n, i) != SlotRow(n, j) || SlotColumn(n, i) != SlotColumn(n, j)
  {
    if n > 3 && SlotRow(n, i) == SlotRow(n, j) {
      GridRows(n, i);
      GridRows(n, j);
      var k := PerRow(n);
      if SlotRow(n, i) == 0 {
        assert i % k == i && j % k == j;
      } else {
        assert i % k == i - k && j % k == j - k;
      }
    }
  }

  // ---------------------------------------------------------------------
  // The vertical cursor
  // ---------------------------------------------------------------------

  /** The cursor after the title and the optional subtitle. */
  function AfterSubtitle(hasSubtitle: bool): int {
    TitleTop + 90 + (if hasSubtitle then 60 else 0)
  }

  /** The top of the player section's name, after the optional image. */
  function NameTop(hasSubtitle: bool, hasImage: bool, hasName: bool): int {
    AfterSubtitle(hasSubtitle) + (if hasImage || hasName then 40 else 0) + (if hasImage then ImageSize + 30 else 0)
  }

  /** The top of the first row of stats. */
  function StatsTop(hasSubtitle: bool, hasImage: bool, hasName: bool): int {
    NameTop(hasSubtitle, hasImage, hasName) + (if hasName then 70 else 0) + 30
  }

  /** `create_graphic`'s placement, with the cursor moved down section by
      section. An empty subtitle or name is `None`; `stats` is `None` or
      empty when there are no stats. */
  method CreateGraphic(
    width: int, height: int,
    titleWidth: int, subtitleWidth: Option<int>,
    hasImage: bool, nameWidth: Option<int>,
    stats: Option<seq<StatWidths>>,
    footerWidth: int, accentLine: bool)
    returns (layout: Layout)
    ensures layout.title == Placement(Centred(width, titleWidth), TitleTop)
    ensures layout.accent == (if accentLine then Some(AccentBar(width, titleWidth, TitleTop + 90)) else None)
    ensures layout.subtitle == (if subtitleWidth.Some? then Some(Placement(Centred(width, subtitleWidth.value), TitleTop + 90)) else None)
    ensures layout.image == (if hasImage then Some(Placement(Centred(width, ImageSize), AfterSubtitle(subtitleWidth.Some?) + 40)) else None)
    ensures layout.name == (if nameWidth.Some? then Some(Placement(Centred(width, nameWidth.value), NameTop(subtitleWidth.Some?, hasImage, true))) else None)
    ensures stats.None? ==> layout.stats == []
    ensures stats.Some? ==> |layout.stats| == |stats.value|
    ensures stats.Some? ==> forall i :: 0 <= i < |stats.value| ==>
              layout.stats[i] == SlotOf(width, |stats.value|, StatsTop(subtitleWidth.Some?, hasImage, nameWidth.Some?), i, stats.value[i])
    ensures layout.footer == Placement(Centred(width, footerWidth), height - 50)
  {
    var cursor := TitleTop;
    var title := Placement((width - titleWidth) / 2, cursor);
    cursor := cursor + 90;

    var accent := None;
    if accentLine {
      var lineY := cursor - 20;
      var lineWidth := if titleWidth + 40 <= width - 100 then titleWidth + 40 else width - 100;
      accent := Some(Accent((width - lineWidth) / 2, lineY, lineWidth));
    }

    var subtitle := None;
    if subtitleWidth.Some? {
      subtitle := Some(Placement((width - subtitleWidth.value) / 2, cursor));
      cursor := cursor + 60;
    }

    var image := None;
    var name := None;
    if hasImage || nameWidth.Some? {
      cursor := cursor + 40;
      if hasImage {
        image := Some(Placement((width - ImageSize) / 2, cursor));
        cursor := cursor + ImageSize + 30;
      }
      if nameWidth.Some? {
        name := Some(Placement((width - nameWidth.value) / 2, cursor));
        cursor := cursor + 70;
      }
    }

    var slots := [];
    if stats.Some? && stats.value != [] {
      cursor := cursor + 30;
      assert cursor == StatsTop(subtitleWidth.Some?, hasImage, nameWidth.Some?);
      slots := PlaceStats(width, cursor, stats.value);
    }

    var footer := Placement((width - footerWidth) / 2, height - 50);
    layout := Layout(title, accent, subtitle, image, name, slots, footer);
  }

  /** The two stat loops: one row for up to three stats, a two-row grid
      with `(n + 1) // 2` columns beyond. */
  method PlaceStats(width: int, top: int, stats: seq<StatWidths>) returns (slots: seq<StatSlot>)
    ensures |slots| == |stats|
    ensures forall i :: 0 <= i < |stats| ==> slots[i] == SlotOf(width, |stats|, top, i, stats[i])
  {
    if |stats| <= 3 {
      slots := PlaceRow(width, top, stats);
    } else {
      slots := PlaceGrid(width, top, stats);
    }
  }

  /** Up to three stats, evenly spaced on one row. */
  method PlaceRow(width: int, top: int, stats: seq<StatWidths>) returns (slots: seq<StatSlot>)
    requires |stats| <= 3
    ensures |slots| == |stats|
    ensures forall i :: 0 <= i < |stats| ==> slots[i] == SlotOf(width, |stats|, top, i, stats[i])
  {
    var n := |stats|;
    slots := [];
    var spacing := width / (n + 1);
    var i := 0;
    while i < n
      invariant 0 <= i <= n && |slots| == i
      invariant forall j :: 0 <= j < i ==> slots[j] == SlotOf(width, n, top, j, stats[j])
    {
      var x := spacing * (i + 1);
      var value := Placement(x - stats[i].valueWidth / 2, top);
      var caption := Placement(x - stats[i].captionWidth / 2, top + CaptionDrop);
      RowSlot(width, n, top, i, stats[i]);
      slots := slots + [StatSlot(x, 0, value, caption)];
      i := i + 1;
    }
  }

  /** Stat `i` of a single row, as the row loop places it. */
  lemma RowSlot(width: int, n: nat, top: int, i: nat, w: StatWidths)
    requires n <= 3 && i < n
    ensures var x := (width / (n + 1)) * (i + 1);
            SlotOf(width, n, top, i, w)
            == StatSlot(x, 0, Placement(x - w.valueWidth / 2, top), Placement(x - w.captionWidth / 2, top + CaptionDrop))
  {
  }

  /** Stat `i` of the grid, as the grid loop places it. */
  lemma GridSlot(width: int, n: nat, top: int, i: nat, w: StatWidths)
    requires 3 < n && i < n
    ensures var perRow := (n + 1) / 2;
            var x := (width / (perRow + 1)) * (i % perRow + 1);
            var y := top + i / perRow * RowSpacing;
            SlotOf(width, n, top, i, w)
            == StatSlot(x, i / perRow, Placement(x - w.valueWidth / 2, y), Placement(x - w.captionWidth / 2, y + CaptionDrop))
  {
  }

  /** More than three stats, in a grid of `(n + 1) // 2` columns. */
  method PlaceGrid(width: int, top: int, stats: seq<StatWidths>) returns (slots: seq<StatSlot>)
    requires |stats| > 3
    ensures |slots| == |stats|
    ensures forall i :: 0 <= i < |stats| ==> slots[i] == SlotOf(width, |stats|, top, i, stats[i])
  {
    var n := |stats|;
    slots := [];
    var perRow := (n + 1) / 2;
    var i := 0;
    while i < n
      invariant 0 <= i <= n && |slots| == i
      invariant forall j :: 0 <= j < i ==> slots[j] == SlotOf(width, n, top, j, stats[j])
    {
      var row := i / perRow;
      var col := i % perRow;
      var spacing := width / (perRow + 1);
      var x := spacing * (col + 1);
      var y := top + row * RowSpacing;
      var value := Placement(x - stats[i].valueWidth / 2, y);
      var caption := Placement(x - stats[i].captionWidth / 2, y + CaptionDrop);
      GridSlot(width, n, top, i, stats[i]);
      slots := slots + [StatSlot(x, row, value, caption)];
      i := i + 1;
    }
  }

  /** The cursor only moves down: each section present starts at or below
      the end of the one above it, and the stats start below everything. */
  lemma SectionsTopToBottom(hasSubtitle: bool, hasImage: bool, hasName: bool)
    ensures TitleTop < TitleTop + 90 <= AfterSubtitle(hasSubtitle)
    ensures hasSubtitle ==> AfterSubtitle(hasSubtitle) == TitleTop + 90 + 60
    ensures hasImage ==> AfterSubtitle(hasSubtitle) + 40 + ImageSize < NameTop(hasSubtitle, hasImage, hasName)
    ensures AfterSubtitle(hasSubtitle) <= NameTop(hasSubtitle, hasImage, hasName)
    ensures NameTop(hasSubtitle, hasImage, hasName) + (if hasName then 70 else 0) < StatsTop(hasSubtitle, hasImage, hasName)
  {
  }

  /** Every stat value is drawn at or below the stats' top and its caption
      65 below it; the second grid row sits 120 below the first. */
  lemma StatRowsBelowTop(width: int, n: nat, top: int, i: nat, w: StatWidths)
    requires i < n
    ensures var s := SlotOf(width, n, top, i, w);
            && (s.value.y == top || s.value.y == top + RowSpacing)
            && s.caption.y == s.value.y + CaptionDrop
            && s.value.x + w.valueWidth / 2 == s.centre
  {
    if n > 3 {
      GridRows(n, i);
    }
  }
}
