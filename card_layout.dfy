/**
  The layout logic of the card view, free of the view's state: the bounds-proportional corner
  metrics, the rank label text, the pip-row table and the two-pass fit of the pip glyph, the
  rows of pips a rank draws, the corner label origins, and what one draw of the card emits.
  Text measurement is a parameter; drawing is a sequence of draw commands.
 */
module CardLayout {
  import opened Wrappers
  import opened Geometry
  import Decimal
  import PlayingCard

  const CornerFontSizeToBoundsHeight: real := 0.085
  const CornerRadiusToBoundsHeight: real := 0.06
  const CornerOffsetToCornerRadius: real := 0.33
  const FaceCardImageSizeToBoundsSize: real := 0.75

  /** The rounding radius of the card's outline: well under half the height, so the roundings stay apart. */
  function CornerRadius(bounds: Rect): (radius: real)
    ensures bounds.size.height > 0.0 ==> 0.0 < radius < bounds.size.height / 2.0
  {
    bounds.size.height * CornerRadiusToBoundsHeight
  }

  /** How far the corner labels sit from the edges: a third of the radius, so inside the rounding. */
  function CornerOffset(bounds: Rect): (offset: real)
    ensures bounds.size.height > 0.0 ==> 0.0 < offset < CornerRadius(bounds)
  {
    CornerRadius(bounds) * CornerOffsetToCornerRadius
  }

  /** The font size of the corner labels. */
  function CornerFontSize(bounds: Rect): (fontSize: real)
    ensures bounds.size.height > 0.0 ==> CornerRadius(bounds) < fontSize
  {
    bounds.size.height * CornerFontSizeToBoundsHeight
  }

  /** The corner metrics follow the bounds' height in proportion, whatever the width and origin. */
  lemma CornerMetricsProportional(bounds: Rect, other: Rect, k: real)
    requires other.size.height == k * bounds.size.height
    ensures CornerRadius(other) == k * CornerRadius(bounds)
    ensures CornerOffset(other) == k * CornerOffset(bounds)
    ensures CornerFontSize(other) == k * CornerFontSize(bounds)
  {
  }

  /** The text shown for a rank number: "A", 2 to 10, "J", "Q", "K", or "?" for anything else. */
  function RankString(rank: int): (s: string)
    ensures s == "?" <==> !(1 <= rank <= 13)
  {
    if rank == 1 then "A"
    else if 2 <= rank <= 10 then
      var digits := Decimal.IntToString(rank);
      assert Decimal.IsDigit(digits[0]);
      digits
    else if rank == 11 then "J"
    else if rank == 12 then "Q"
    else if rank == 13 then "K"
    else "?"
  }

  /** The view's rank text agrees with the card model: a rank's order shows as its description. */
  lemma RankStringOfOrder(r: PlayingCard.Rank)
    requires PlayingCard.IsCanonical(r)
    ensures RankString(PlayingCard.Order(r)) == PlayingCard.RankDescription(r)
  {
  }

  /** Each rank number from 1 to 13 shows as the description of the canonical rank of that order. */
  lemma RankStringOfCanonicalRank(n: int)
    requires 1 <= n <= 13
    ensures PlayingCard.Order(PlayingCard.CanonicalRanks()[n - 1]) == n
    ensures RankString(n) == PlayingCard.RankDescription(PlayingCard.CanonicalRanks()[n - 1])
  {
    PlayingCard.CanonicalRanksInOrder();
    var r := PlayingCard.CanonicalRanks()[n - 1];
    PlayingCard.CanonicalRanksExactly(r);
    RankStringOfOrder(r);
  }

  /** The corner label text: the rank text on the first line, the suit glyph after it. */
  function CornerText(rank: int, suit: string): (text: string)
    ensures var n := |RankString(rank)|;
      && |text| == n + 1 + |suit| && text[..n] == RankString(rank) && text[n] == '\n' && text[n + 1..] == suit
      && forall i :: 0 <= i < n ==> text[i] != '\n'
  {
    var rankText := RankString(rank);
    assert forall i :: 0 <= i < |rankText| ==> rankText[i] != '\n' by {
      if 2 <= rank <= 10 {
        assert Decimal.AllDigits(rankText);
      }
    }
    rankText + "\n" + suit
  }

  /**
    Pips per row for each rank number, indexed by the rank itself: index 0 is a placeholder,
    index 1 is the ace's single pip, index 10 the ten's five rows of two.
   */
  const PipsPerRowForRank: seq<seq<int>> :=
    [[0], [1], [1, 1], [1, 1, 1], [2, 2], [2, 1, 2], [2, 2, 2], [2, 1, 2, 2], [2, 2, 2, 2],
     [2, 2, 1, 2, 2], [2, 2, 2, 2, 2]]

  function Sum(s: seq<int>): int {
    if s == [] then 0 else Sum(s[..|s| - 1]) + s[|s| - 1]
  }

  /** Pip counts the row loop draws: 0, 1 or 2 pips. */
  predicate DrawableCounts(rows: seq<int>) {
    forall i :: 0 <= i < |rows| ==> 0 <= rows[i] <= 2
  }

  /** The sum of a row list of up to five entries, written out. */
  lemma SumOfShortRow(rows: seq<int>)
    requires 1 <= |rows| <= 5
    ensures Sum(rows) == rows[0] + (if |rows| > 1 then rows[1] else 0) + (if |rows| > 2 then rows[2] else 0)
      + (if |rows| > 3 then rows[3] else 0) + (if |rows| > 4 then rows[4] else 0)
  {
    var n := |rows|;
    assert rows[..1][..0] == [];
    assert n >= 2 ==> rows[..2][..1] == rows[..1];
    assert n >= 3 ==> rows[..3][..2] == rows[..2];
    assert n >= 4 ==> rows[..4][..3] == rows[..3];
    assert n >= 5 ==> rows[..5][..4] == rows[..4];
    assert rows[..n] == rows;
  }

  /** Every rank from 1 to 10 has its number of pips across one to five rows. */
  lemma PipTableShape()
    ensures |PipsPerRowForRank| == 11
    ensures Sum(PipsPerRowForRank[0]) == 0
    ensures forall rank :: 1 <= rank < 11 ==> Sum(PipsPerRowForRank[rank]) == rank
    ensures forall rank :: 0 <= rank < 11 ==>
      1 <= |PipsPerRowForRank[rank]| <= 5 && DrawableCounts(PipsPerRowForRank[rank])
  {
    forall rank | 0 <= rank < 11
      ensures Sum(PipsPerRowForRank[rank]) == rank
    {
      SumOfShortRow(PipsPerRowForRank[rank]);
    }
  }

  function MaxInt(a: int, b: int): int {
    if a >= b then a else b
  }

  /** `reduce(0) { max($1.count, $0) }`: the most rows any entry of the table has. */
  function MaxRowCount(table: seq<seq<int>>): (m: nat)
    ensures forall i :: 0 <= i < |table| ==> |table[i]| <= m
    ensures m == 0 || exists i :: 0 <= i < |table| && |table[i]| == m
  {
    if table == [] then 0
    else MaxInt(|table[|table| - 1]|, MaxRowCount(table[..|table| - 1]))
  }

  /** `row.max()`: the largest entry of a row, or none for an empty row. */
  function MaxEntry(row: seq<int>): (m: Option<int>)
    ensures m.None? <==> row == []
    ensures m.Some? ==> m.value in row && forall j :: 0 <= j < |row| ==> row[j] <= m.value
  {
    if row == [] then None
    else match MaxEntry(row[..|row| - 1])
      case None => Some(row[|row| - 1])
      case Some(m) => Some(MaxInt(row[|row| - 1], m))
  }

  /** `reduce(0) { max($1.max() ?? 0, $0) }`: the most pips any row of the table has. */
  function MaxPipsInRow(table: seq<seq<int>>): (m: nat)
    ensures forall i, j :: 0 <= i < |table| && 0 <= j < |table[i]| ==> table[i][j] <= m
    ensures m == 0 || exists i, j :: 0 <= i < |table| && 0 <= j < |table[i]| && table[i][j] == m
  {
    if table == [] then 0
    else
      var rowMax := match MaxEntry(table[|table| - 1]) case Some(v) => v case None => 0;
      MaxInt(rowMax, MaxPipsInRow(table[..|table| - 1]))
  }

  /** The table's widest pattern has five rows, and no row has more than two pips. */
  lemma PipTableMaxima()
    ensures MaxRowCount(PipsPerRowForRank) == 5
    ensures MaxPipsInRow(PipsPerRowForRank) == 2
    ensures TableGridSize(PipsPerRowForRank) == PipGridSize(5.0, 2.0)
  {
    PipTableShape();
  }

  /** Text measurement: the size a string takes when set in the body font at a given size. */
  type Measure = (string, real) -> Size

  /**
    Why the glyph fit gets no finite font size, where floating point would give an infinite or
    undefined one: an empty table leaves no cell, a glyph measuring zero height at the row
    spacing divides by zero, and so does a zero-width glyph against a negative column width.
   */
  datatype FitError = EmptyPipTable | ZeroMeasuredHeight | ZeroWidthRatio

  /** A suit glyph set at a font size, with the size it measures. */
  datatype PipString = PipString(fontSize: real, box: Size)

  /**
    The pip cell grid: as many rows as the table's longest pattern and as many columns as its
    widest row, converted to floating point as `createPipString` does.
   */
  datatype PipGridSize = PipGridSize(rowCount: real, columnCount: real)

  function TableGridSize(table: seq<seq<int>>): PipGridSize {
    PipGridSize(MaxRowCount(table) as real, MaxPipsInRow(table) as real)
  }

  /** A grid with at least one row and at least one column, so that a cell can be sized. */
  predicate SizesCells(grid: PipGridSize) {
    grid.rowCount > 0.0 && grid.columnCount > 0.0
  }

  /** The height each pip row gets when the rectangle holds the most rows any pattern uses. */
  function PipRowSpacing(grid: PipGridSize, pipRect: Rect): real
    requires SizesCells(grid)
  {
    pipRect.size.height / grid.rowCount
  }

  /** The width each pip gets when a row holds the most pips any row has. */
  function PipColumnWidth(grid: PipGridSize, pipRect: Rect): real
    requires SizesCells(grid)
  {
    pipRect.size.width / grid.columnCount
  }

  /** A pip rectangle with positive sides has cells with positive sides. */
  lemma PipCellPositive(grid: PipGridSize, pipRect: Rect)
    requires SizesCells(grid)
    requires pipRect.size.width > 0.0 && pipRect.size.height > 0.0
    ensures PipRowSpacing(grid, pipRect) > 0.0 && PipColumnWidth(grid, pipRect) > 0.0
  {
  }

  /**
    Whether the first pass gets a finite font size: the grid has cells, and the glyph set at the
    row spacing measures a non-zero height. A zero row spacing is no obstacle: the spacing
    divided by an infinite ratio is 0.
   */
  predicate FirstPassDefined(grid: PipGridSize, pipRect: Rect, suit: string, measure: Measure) {
    && SizesCells(grid)
    && measure(suit, PipRowSpacing(grid, pipRect)).height != 0.0
  }

  /**
    The first pass: the glyph set at the row spacing measures some height; the font size is
    the row spacing divided by how many times that height exceeds the spacing, which is 0 when
    the spacing is 0 (the ratio is then infinite).
   */
  function HeightFittedFontSize(grid: PipGridSize, pipRect: Rect, suit: string, measure: Measure): (fontSize: real)
    requires FirstPassDefined(grid, pipRect, suit, measure)
    ensures PipRowSpacing(grid, pipRect) == 0.0 ==> fontSize == 0.0
    ensures PipRowSpacing(grid, pipRect) != 0.0 ==>
      fontSize * (measure(suit, PipRowSpacing(grid, pipRect)).height / PipRowSpacing(grid, pipRect)) == PipRowSpacing(grid, pipRect)
  {
    var spacing := PipRowSpacing(grid, pipRect);
    if spacing == 0.0 then 0.0
    else
      var ratio := measure(suit, spacing).height / spacing;
      assert ratio != 0.0 by {
        assert ratio * spacing == measure(suit, spacing).height;
      }
      spacing / ratio
  }

  /**
    The second pass: a font size whose glyph measures `width` across is divided by how many
    times that exceeds the column width; one that already fits is kept. Against a zero column
    width the ratio is infinite and the size becomes 0; a zero width against a negative column
    width makes the ratio zero, and there is no finite size.
   */
  function ShrinkToColumn(fontSize: real, width: real, columnWidth: real): (r: Result<real, FitError>)
    ensures r.Success? && width <= columnWidth ==> r.value == fontSize
    ensures r.Success? && width > columnWidth && fontSize > 0.0 && columnWidth > 0.0
      ==> 0.0 < r.value < fontSize
    ensures width > columnWidth && columnWidth == 0.0 ==> r == Success(0.0)
    ensures r.Failure? <==> width > columnWidth && width == 0.0
  {
    if width > columnWidth then
      if columnWidth == 0.0 then Success(0.0)
      else if width == 0.0 then Failure(ZeroWidthRatio)
      else
        var ratio := width / columnWidth;
        if fontSize > 0.0 && columnWidth > 0.0 then
          assert ratio > 1.0 by {
            assert ratio * columnWidth == width;
          }
          assert fontSize / ratio * ratio == fontSize;
          Success(fontSize / ratio)
        else Success(fontSize / ratio)
    else Success(fontSize)
  }

  /**
    `createPipString(thatFits:)`: sizes the suit glyph to one cell of the pip rectangle, first
    by height, then, if it is then too wide, shrinks it by how many times it is too wide.
   */
  function CreatePipString(grid: PipGridSize, pipRect: Rect, suit: string, measure: Measure): (r: Result<PipString, FitError>)
    ensures r.Success? <==> (
      && FirstPassDefined(grid, pipRect, suit, measure)
      && !(measure(suit, HeightFittedFontSize(grid, pipRect, suit, measure)).width == 0.0 && PipColumnWidth(grid, pipRect) < 0.0))
    ensures r.Success? ==> r.value.box == measure(suit, r.value.fontSize)
    ensures r.Success? && measure(suit, HeightFittedFontSize(grid, pipRect, suit, measure)).width <= PipColumnWidth(grid, pipRect)
      ==> r.value.fontSize == HeightFittedFontSize(grid, pipRect, suit, measure)
    ensures r.Success? && PipColumnWidth(grid, pipRect) > 0.0 && HeightFittedFontSize(grid, pipRect, suit, measure) > 0.0
      ==> 0.0 < r.value.fontSize <= HeightFittedFontSize(grid, pipRect, suit, measure)
    ensures r == Failure(EmptyPipTable) <==> !SizesCells(grid)
  {
    if !SizesCells(grid) then Failure(EmptyPipTable)
    else if measure(suit, PipRowSpacing(grid, pipRect)).height == 0.0 then Failure(ZeroMeasuredHeight)
    else
      var fontSize := HeightFittedFontSize(grid, pipRect, suit, measure);
      match ShrinkToColumn(fontSize, measure(suit, fontSize).width, PipColumnWidth(grid, pipRect))
      case Failure(e) => Failure(e)
      case Success(fitted) => Success(PipString(fitted, measure(suit, fitted)))
  }

  function MinReal(a: real, b: real): real {
    if a <= b then a else b
  }

  /**
    For a glyph a points wide per point of font size, the second pass reaches the smaller of
    the size it starts from and the size that fills the column, and the glyph then fits the
    column; any height proportional to the size shrinks with it.
   */
  lemma WidthPassArithmetic(first: real, columnWidth: real, a: real, b: real)
    requires first > 0.0 && columnWidth > 0.0 && a > 0.0 && b > 0.0
    ensures ShrinkToColumn(first, a * first, columnWidth) == Success(MinReal(first, columnWidth / a))
    ensures 0.0 < MinReal(first, columnWidth / a) <= first
    ensures a * MinReal(first, columnWidth / a) <= columnWidth
    ensures b * MinReal(first, columnWidth / a) <= b * first
  {
    assert a * (columnWidth / a) == columnWidth;
    if a * first > columnWidth {
      var ratio := (a * first) / columnWidth;
      assert ratio * columnWidth == a * first;
      assert first / ratio == columnWidth / a by {
        assert (columnWidth / a) * ratio == first;
      }
      assert ShrinkToColumn(first, a * first, columnWidth) == Success(first / ratio);
      assert columnWidth / a < first;
    }
  }

  /** Glyph metrics proportional to the font size: a by b per point, whatever the text. */
  function ProportionalMeasure(a: real, b: real): Measure {
    (text: string, fontSize: real) => Size(a * fontSize, b * fontSize)
  }

  lemma ProportionalMeasureApplies(a: real, b: real, text: string, fontSize: real)
    ensures ProportionalMeasure(a, b)(text, fontSize) == Size(a * fontSize, b * fontSize)
  {
  }

  /** Under proportional metrics the first pass sets the glyph exactly as tall as the row spacing. */
  lemma FirstPassUnderProportionalMetrics(grid: PipGridSize, pipRect: Rect, suit: string, a: real, b: real)
    requires SizesCells(grid)
    requires a > 0.0 && b > 0.0
    requires pipRect.size.width > 0.0 && pipRect.size.height > 0.0
    ensures FirstPassDefined(grid, pipRect, suit, ProportionalMeasure(a, b))
    ensures HeightFittedFontSize(grid, pipRect, suit, ProportionalMeasure(a, b)) == PipRowSpacing(grid, pipRect) / b
    ensures b * (PipRowSpacing(grid, pipRect) / b) == PipRowSpacing(grid, pipRect)
  {
    PipCellPositive(grid, pipRect);
    var spacing := PipRowSpacing(grid, pipRect);
    ProportionalMeasureApplies(a, b, suit, spacing);
    assert (b * spacing) / spacing == b;
  }

  /** Once the first pass is defined, the outcome is the second pass's font size and its box. */
  lemma CreatePipStringAfterFirstPass(grid: PipGridSize, pipRect: Rect, suit: string, measure: Measure, fitted: real)
    requires FirstPassDefined(grid, pipRect, suit, measure)
    requires var first := HeightFittedFontSize(grid, pipRect, suit, measure);
      ShrinkToColumn(first, measure(suit, first).width, PipColumnWidth(grid, pipRect)) == Success(fitted)
    ensures CreatePipString(grid, pipRect, suit, measure) == Success(PipString(fitted, measure(suit, fitted)))
  {
  }

  /** The largest font size at which a glyph of a by b per point fits one cell of the pip rectangle. */
  function LargestFittingFontSize(grid: PipGridSize, pipRect: Rect, a: real, b: real): real
    requires SizesCells(grid) && a > 0.0 && b > 0.0
  {
    MinReal(PipRowSpacing(grid, pipRect) / b, PipColumnWidth(grid, pipRect) / a)
  }

  /**
    With glyph metrics proportional to the font size (a by b per point), the two passes find
    the largest font size at which the glyph fits one cell, and the glyph then fits it.
   */
  lemma FitUnderProportionalMetrics(grid: PipGridSize, pipRect: Rect, suit: string, a: real, b: real)
    requires SizesCells(grid)
    requires a > 0.0 && b > 0.0
    requires pipRect.size.width > 0.0 && pipRect.size.height > 0.0
    ensures CreatePipString(grid, pipRect, suit, ProportionalMeasure(a, b))
      == Success(PipString(LargestFittingFontSize(grid, pipRect, a, b), ProportionalMeasure(a, b)(suit, LargestFittingFontSize(grid, pipRect, a, b))))
    ensures 0.0 < LargestFittingFontSize(grid, pipRect, a, b)
    ensures b * LargestFittingFontSize(grid, pipRect, a, b) <= PipRowSpacing(grid, pipRect)
    ensures a * LargestFittingFontSize(grid, pipRect, a, b) <= PipColumnWidth(grid, pipRect)
  {
    PipCellPositive(grid, pipRect);
    FirstPassUnderProportionalMetrics(grid, pipRect, suit, a, b);
    var first := PipRowSpacing(grid, pipRect) / b;
    WidthPassArithmetic(first, PipColumnWidth(grid, pipRect), a, b);
    ProportionalMeasureApplies(a, b, suit, first);
    CreatePipStringAfterFirstPass(grid, pipRect, suit, ProportionalMeasure(a, b), LargestFittingFontSize(grid, pipRect, a, b));
  }

  datatype DrawCommand =
    | FillRoundedRect(rect: Rect, cornerRadius: real)
    | DrawText(text: string, fontSize: real, rect: Rect)
    | DrawImage(name: string, rect: Rect)

  /** Where the pip rows go: the glyph, the first row's rectangle and the distance between rows. */
  datatype PipRows = PipRows(suit: string, fontSize: real, firstRow: Rect, rowSpacing: real)

  /** A rectangle moved down by `dy`, as `pipRect.origin.y += pipRowSpacing` does. */
  function MoveDown(r: Rect, dy: real): Rect {
    Rect(Point(r.origin.x, r.origin.y + dy), r.size)
  }

  /** The rectangle of row `row`: the first row's, moved down one row spacing per row above it. */
  function RowRect(layout: PipRows, row: nat): Rect {
    if row == 0 then layout.firstRow else MoveDown(RowRect(layout, row - 1), layout.rowSpacing)
  }

  /** Row `row` lies `row` spacings below the first, level with it across and of its size. */
  lemma {:induction false} RowRectOffset(layout: PipRows, row: nat)
    ensures MinY(RowRect(layout, row)) == MinY(layout.firstRow) + row as real * layout.rowSpacing
    ensures MinX(RowRect(layout, row)) == MinX(layout.firstRow)
    ensures RowRect(layout, row).size == layout.firstRow.size
  {
    if row > 0 {
      RowRectOffset(layout, row - 1);
      var k := (row - 1) as real;
      assert k * layout.rowSpacing + layout.rowSpacing == (k + 1.0) * layout.rowSpacing;
    }
  }

  /** Rows advance by one spacing each, so with a positive spacing they go top to bottom. */
  lemma RowsAdvance(layout: PipRows, i: nat, j: nat)
    requires i <= j
    ensures MinY(RowRect(layout, j)) - MinY(RowRect(layout, i)) == (j - i) as real * layout.rowSpacing
    ensures layout.rowSpacing > 0.0 && i < j ==> MinY(RowRect(layout, i)) < MinY(RowRect(layout, j))
    ensures MinX(RowRect(layout, j)) == MinX(RowRect(layout, i)) && RowRect(layout, j).size == RowRect(layout, i).size
  {
    RowRectOffset(layout, i);
    RowRectOffset(layout, j);
    var d := (j - i) as real;
    assert j as real * layout.rowSpacing - i as real * layout.rowSpacing == d * layout.rowSpacing;
    assert layout.rowSpacing > 0.0 && i < j ==> d * layout.rowSpacing > 0.0;
  }

  /** One row: one glyph in the whole row, two in its halves, none for any other count. */
  function RowDraws(pipCount: int, layout: PipRows, rowRect: Rect): (draws: seq<DrawCommand>)
    ensures |draws| == if pipCount == 1 || pipCount == 2 then pipCount else 0
  {
    if pipCount == 1 then [DrawText(layout.suit, layout.fontSize, rowRect)]
    else if pipCount == 2 then
      [DrawText(layout.suit, layout.fontSize, LeftHalf(rowRect)), DrawText(layout.suit, layout.fontSize, RightHalf(rowRect))]
    else []
  }

  /** The draws of the first `n` rows, top row first. */
  function PipGrid(rows: seq<int>, n: nat, layout: PipRows): (draws: seq<DrawCommand>)
    requires n <= |rows|
    ensures forall c :: c in draws ==> c.DrawText? && c.text == layout.suit && c.fontSize == layout.fontSize
  {
    if n == 0 then []
    else PipGrid(rows, n - 1, layout) + RowDraws(rows[n - 1], layout, RowRect(layout, n - 1))
  }

  /** The first `n` rows draw as many glyphs as their pip counts add up to. */
  lemma {:induction false} PipGridLength(rows: seq<int>, n: nat, layout: PipRows)
    requires n <= |rows| && DrawableCounts(rows)
    ensures |PipGrid(rows, n, layout)| == Sum(rows[..n])
  {
    if n > 0 {
      PipGridLength(rows, n - 1, layout);
      assert rows[..n][..n - 1] == rows[..n - 1];
    }
  }

  /** Drawing more rows only appends: the draws of the first `m` rows begin those of the first `n`. */
  lemma {:induction false} PipGridPrefix(rows: seq<int>, m: nat, n: nat, layout: PipRows)
    requires m <= n <= |rows|
    ensures PipGrid(rows, m, layout) <= PipGrid(rows, n, layout)
    decreases n
  {
    if m < n {
      PipGridPrefix(rows, m, n - 1, layout);
    }
  }

  /**
    Row `i`'s glyphs come right after those of the rows above it (as many as their pip counts
    add up to) and are that row's draws: one in the row rectangle, or one in each half of it,
    the row lying `i` spacings down.
   */
  lemma PipGridRow(rows: seq<int>, n: nat, layout: PipRows, i: nat)
    requires n <= |rows| && i < n
    ensures |PipGrid(rows, i + 1, layout)| <= |PipGrid(rows, n, layout)|
    ensures PipGrid(rows, n, layout)[|PipGrid(rows, i, layout)|..|PipGrid(rows, i + 1, layout)|]
      == RowDraws(rows[i], layout, RowRect(layout, i))
  {
    PipGridPrefix(rows, i + 1, n, layout);
    var above := PipGrid(rows, i, layout);
    var row := RowDraws(rows[i], layout, RowRect(layout, i));
    var all := PipGrid(rows, n, layout);
    assert PipGrid(rows, i + 1, layout) == above + row;
    assert all[..|above| + |row|] == above + row;
  }

  /**
    The rectangle the pips are laid out in: the bounds inset by the corner offset, then by
    the corner label's width across and half its height down, clear of the labels.
   */
  function PipRect(bounds: Rect, rank: int, suit: string, measure: Measure): (pipRect: Rect)
    ensures MidX(pipRect) == MidX(bounds) && MidY(pipRect) == MidY(bounds)
    ensures var corner := measure(CornerText(rank, suit), CornerFontSize(bounds));
      && pipRect.size.width == bounds.size.width - 2.0 * CornerOffset(bounds) - 2.0 * corner.width
      && pipRect.size.height == bounds.size.height - 2.0 * CornerOffset(bounds) - corner.height
  {
    var corner := measure(CornerText(rank, suit), CornerFontSize(bounds));
    InsetBy(InsetBy(bounds, CornerOffset(bounds), CornerOffset(bounds)), corner.width, corner.height / 2.0)
  }

  /**
    The rows for a rank's pattern: the pip rectangle's height split evenly among the rank's
    rows, each row as tall as the glyph and centred in its share.
   */
  function PipRowsFor(pipRect: Rect, rowCount: nat, suit: string, pip: PipString): (layout: PipRows)
    requires rowCount > 0
    ensures layout.suit == suit && layout.fontSize == pip.fontSize
    ensures layout.rowSpacing * rowCount as real == pipRect.size.height
    ensures layout.firstRow.size == Size(pipRect.size.width, pip.box.height) && MinX(layout.firstRow) == MinX(pipRect)
    ensures MidY(layout.firstRow) == MinY(pipRect) + layout.rowSpacing / 2.0
  {
    var rowSpacing := pipRect.size.height / rowCount as real;
    var firstRow := Rect(
      Point(pipRect.origin.x, pipRect.origin.y + (rowSpacing - pip.box.height) / 2.0),
      Size(pipRect.size.width, pip.box.height));
    PipRows(suit, pip.fontSize, firstRow, rowSpacing)
  }

  /** What `drawPips` draws for a rank number: the table's pattern, if the rank indexes it. */
  function PipDrawing(bounds: Rect, rank: int, suit: string, measure: Measure): (draws: seq<DrawCommand>)
    ensures forall c :: c in draws ==> c.DrawText? && c.text == suit
  {
    if 0 <= rank < |PipsPerRowForRank| then
      var rows := PipsPerRowForRank[rank];
      var pipRect := PipRect(bounds, rank, suit, measure);
      match CreatePipString(TableGridSize(PipsPerRowForRank), pipRect, suit, measure)
      case Success(pip) =>
        PipTableShape();
        PipGrid(rows, |rows|, PipRowsFor(pipRect, |rows|, suit, pip))
      case Failure(_) => []
    else []
  }

  /** One entry of the table: its row counts add up to its index, each 0, 1 or 2. */
  lemma PipTableEntry(rank: int)
    requires 0 <= rank <= 10
    ensures |PipsPerRowForRank| == 11
    ensures |PipsPerRowForRank[rank]| > 0
    ensures DrawableCounts(PipsPerRowForRank[rank])
    ensures Sum(PipsPerRowForRank[rank]) == rank
  {
    PipTableShape();
  }

  /**
    A rank indexing the table draws as many suit glyphs as its row counts add up to, which is
    the rank itself from 1 to 10; any other rank number, the placeholder 0 and the faces
    included, draws none.
   */
  lemma PipDrawingCount(bounds: Rect, rank: int, suit: string, measure: Measure)
    ensures !(1 <= rank <= 10) ==> PipDrawing(bounds, rank, suit, measure) == []
    ensures 1 <= rank <= 10 && CreatePipString(TableGridSize(PipsPerRowForRank), PipRect(bounds, rank, suit, measure), suit, measure).Success?
      ==> |PipDrawing(bounds, rank, suit, measure)| == Sum(PipsPerRowForRank[rank]) == rank
  {
    if 0 <= rank <= 10 {
      PipTableEntry(rank);
      var rows := PipsPerRowForRank[rank];
      var pipRect := PipRect(bounds, rank, suit, measure);
      match CreatePipString(TableGridSize(PipsPerRowForRank), pipRect, suit, measure)
      case Success(pip) =>
        PipGridLength(rows, |rows|, PipRowsFor(pipRect, |rows|, suit, pip));
        assert rows[..|rows|] == rows;
      case Failure(_) =>
    } else {
      assert rank < 0 || rank >= |PipsPerRowForRank| by {
        PipTableShape();
      }
    }
  }

  /** With a zero row spacing and a column of non-negative width, the fit gives font size 0. */
  lemma ZeroSpacingFit(grid: PipGridSize, pipRect: Rect, suit: string, measure: Measure)
    requires SizesCells(grid) && PipRowSpacing(grid, pipRect) == 0.0 && PipColumnWidth(grid, pipRect) >= 0.0
    requires measure(suit, 0.0).height != 0.0
    ensures CreatePipString(grid, pipRect, suit, measure) == Success(PipString(0.0, measure(suit, 0.0)))
  {
    assert HeightFittedFontSize(grid, pipRect, suit, measure) == 0.0;
    var w := measure(suit, 0.0).width;
    var c := PipColumnWidth(grid, pipRect);
    assert ShrinkToColumn(0.0, w, c) == Success(0.0) by {
      if w > c && c > 0.0 {
        assert 0.0 / (w / c) == 0.0;
      }
    }
  }

  /**
    A pip rectangle with no height still gets its glyphs: the row spacing is 0, the first pass
    gives font size 0, and a rank from 1 to 10 draws rank-many glyphs at that size.
   */
  lemma ZeroHeightPipRectStillDraws(bounds: Rect, rank: int, suit: string, measure: Measure)
    requires 1 <= rank <= 10
    requires PipRect(bounds, rank, suit, measure).size.height == 0.0
    requires PipRect(bounds, rank, suit, measure).size.width >= 0.0
    requires measure(suit, 0.0).height != 0.0
    ensures |PipDrawing(bounds, rank, suit, measure)| == rank
    ensures forall c :: c in PipDrawing(bounds, rank, suit, measure) ==> c.DrawText? && c.fontSize == 0.0
  {
    var pipRect := PipRect(bounds, rank, suit, measure);
    var grid := TableGridSize(PipsPerRowForRank);
    PipTableMaxima();
    ZeroSpacingFit(grid, pipRect, suit, measure);
    PipDrawingCount(bounds, rank, suit, measure);
    PipTableEntry(rank);
    var rows := PipsPerRowForRank[rank];
    var layout := PipRowsFor(pipRect, |rows|, suit, PipString(0.0, measure(suit, 0.0)));
    assert PipDrawing(bounds, rank, suit, measure) == PipGrid(rows, |rows|, layout);
  }

  /** Row i of a pattern is centred in the i-th share of the pip rectangle, level with it across. */
  lemma PipRowsCentred(pipRect: Rect, rowCount: nat, suit: string, pip: PipString, i: nat)
    requires rowCount > 0
    ensures var layout := PipRowsFor(pipRect, rowCount, suit, pip);
      && MidY(RowRect(layout, i)) == MinY(pipRect) + (i as real + 0.5) * layout.rowSpacing
      && RowRect(layout, i).size == Size(pipRect.size.width, pip.box.height)
      && MinX(RowRect(layout, i)) == MinX(pipRect)
  {
    RowRectOffset(PipRowsFor(pipRect, rowCount, suit, pip), i);
  }

  /** Where `layoutSubviews` puts the upper-left label: the bounds' origin, moved in by the corner offset. */
  function UpperLeftLabelOrigin(bounds: Rect): (origin: Point)
    ensures origin == InsetBy(bounds, CornerOffset(bounds), CornerOffset(bounds)).origin
  {
    OffsetBy(bounds.origin, CornerOffset(bounds), CornerOffset(bounds))
  }

  /**
    Where it puts the lower-right label: the bounds' far corner, moved in by the corner offset
    and then back by the label's own size.
   */
  function LowerRightLabelOrigin(bounds: Rect, labelSize: Size): (origin: Point)
    ensures var inset := InsetBy(bounds, CornerOffset(bounds), CornerOffset(bounds));
      origin.x + labelSize.width == MaxX(inset) && origin.y + labelSize.height == MaxY(inset)
  {
    OffsetBy(OffsetBy(Point(MaxX(bounds), MaxY(bounds)), -CornerOffset(bounds), -CornerOffset(bounds)),
      -labelSize.width, -labelSize.height)
  }

  /**
    Two labels of one size, placed in the two corners, are point-symmetric about the card's
    centre, as the rotated lower-right label is meant to mirror the upper-left one.
   */
  lemma CornerLabelsPlacement(bounds: Rect, labelSize: Size)
    ensures var upper := Rect(UpperLeftLabelOrigin(bounds), labelSize);
      var lower := Rect(LowerRightLabelOrigin(bounds, labelSize), labelSize);
      && MidX(upper) + MidX(lower) == 2.0 * MidX(bounds)
      && MidY(upper) + MidY(lower) == 2.0 * MidY(bounds)
  {
  }

  /** A 300 by 400 card: corner radius 24, corner offset 7.92, corner font size 34. */
  lemma CornerMetricsExample()
    ensures var bounds := Rect(Point(0.0, 0.0), Size(300.0, 400.0));
      && CornerRadius(bounds) == 24.0
      && CornerOffset(bounds) == 7.92
      && CornerFontSize(bounds) == 34.0
  {
  }

  /** On a 300 by 400 card at the origin, the upper-left label goes at (7.92, 7.92). */
  lemma UpperLeftLabelExample()
    ensures UpperLeftLabelOrigin(Rect(Point(0.0, 0.0), Size(300.0, 400.0))) == Point(7.92, 7.92)
  {
    assert CornerOffset(Rect(Point(0.0, 0.0), Size(300.0, 400.0))) == 7.92;
  }

  /** On the same card, a 20 by 30 lower-right label goes at (272.08, 362.08). */
  lemma LowerRightLabelExample()
    ensures LowerRightLabelOrigin(Rect(Point(0.0, 0.0), Size(300.0, 400.0)), Size(20.0, 30.0)) == Point(272.08, 362.08)
  {
    assert CornerOffset(Rect(Point(0.0, 0.0), Size(300.0, 400.0))) == 7.92;
  }

  /** The asset drawn on the back of a face-down card. */
  const CardBackImageName: string := "cardback"

  /** The artwork looked up for a face-up card: the rank text followed by the suit glyph. */
  function FaceCardImageName(rank: int, suit: string): (name: string)
    ensures |name| == |RankString(rank)| + |suit| && name[..|RankString(rank)|] == RankString(rank) && name[|RankString(rank)|..] == suit
    ensures name != CardBackImageName
  {
    var rankText := RankString(rank);
    assert rankText[0] != 'c' by {
      if 2 <= rank <= 10 {
        assert Decimal.IsDigit(rankText[0]);
      }
    }
    assert (rankText + suit)[0] == rankText[0];
    rankText + suit
  }

  /** What one draw of the view reads: its bounds and the card it shows. */
  datatype CardState = CardState(bounds: Rect, rank: int, suit: string, isFaceUp: bool, faceCardScale: real)

  /**
    `draw(_:)`: a white rounded rectangle, then, face up, the rank's artwork scaled about the
    centre if the assets have it and the pips otherwise; face down, the card back if the
    assets have it. `assets` is the set of image names that load.
   */
  function CardDrawing(card: CardState, assets: set<string>, measure: Measure): (draws: seq<DrawCommand>)
    ensures |draws| >= 1 && draws[0] == FillRoundedRect(card.bounds, CornerRadius(card.bounds))
  {
    var substrate := FillRoundedRect(card.bounds, CornerRadius(card.bounds));
    if card.isFaceUp then
      var name := FaceCardImageName(card.rank, card.suit);
      if name in assets then [substrate, DrawImage(name, Zoom(card.bounds, card.faceCardScale))]
      else [substrate] + PipDrawing(card.bounds, card.rank, card.suit, measure)
    else if CardBackImageName in assets then [substrate, DrawImage(CardBackImageName, card.bounds)]
    else [substrate]
  }

  /**
    A face-down card shows only the card back, drawn over the whole bounds, when the asset
    loads, and nothing over the substrate otherwise: never a pip or the rank's artwork.
   */
  lemma FaceDownShowsOnlyBack(card: CardState, assets: set<string>, measure: Measure)
    requires !card.isFaceUp
    ensures var draws := CardDrawing(card, assets, measure);
      && (CardBackImageName in assets <==> |draws| == 2)
      && (CardBackImageName in assets ==> draws[1] == DrawImage(CardBackImageName, card.bounds))
      && |draws| <= 2
      && forall c :: c in draws ==> !c.DrawText?
  {
  }

  /**
    A face-up card whose artwork loads shows it and nothing else, centred on the card and
    scaled by the face card scale in both directions.
   */
  lemma FaceArtCentredAndScaled(card: CardState, assets: set<string>, measure: Measure)
    requires card.isFaceUp && FaceCardImageName(card.rank, card.suit) in assets
    ensures var draws := CardDrawing(card, assets, measure);
      && |draws| == 2
      && draws[1].DrawImage?
      && draws[1].name == FaceCardImageName(card.rank, card.suit)
      && MidX(draws[1].rect) == MidX(card.bounds) && MidY(draws[1].rect) == MidY(card.bounds)
      && draws[1].rect.size.width == card.bounds.size.width * card.faceCardScale
      && draws[1].rect.size.height == card.bounds.size.height * card.faceCardScale
  {
  }

  /**
    A face-up card from ace to ten without artwork draws one suit glyph per pip over the
    substrate, so as many draws after the substrate as the rank, once the glyph fit succeeds.
   */
  lemma FaceUpPipCard(card: CardState, assets: set<string>, measure: Measure)
    requires card.isFaceUp && FaceCardImageName(card.rank, card.suit) !in assets
    requires 1 <= card.rank <= 10
    requires CreatePipString(TableGridSize(PipsPerRowForRank), PipRect(card.bounds, card.rank, card.suit, measure), card.suit, measure).Success?
    ensures var draws := CardDrawing(card, assets, measure);
      && |draws| == card.rank + 1
      && forall k :: 1 <= k < |draws| ==> draws[k].DrawText? && draws[k].text == card.suit
  {
    PipDrawingCount(card.bounds, card.rank, card.suit, measure);
    var draws := CardDrawing(card, assets, measure);
    var pips := PipDrawing(card.bounds, card.rank, card.suit, measure);
    assert draws == [draws[0]] + pips;
    forall k | 1 <= k < |draws|
      ensures draws[k].DrawText? && draws[k].text == card.suit
    {
      assert draws[k] == pips[k - 1];
      assert pips[k - 1] in pips;
    }
  }

  /**
    A face-up jack, queen or king, or any rank number outside 1 to 10, whose artwork does not
    load shows only the white substrate: there is no pip pattern for it.
   */
  lemma FaceUpWithoutArtOrPattern(card: CardState, assets: set<string>, measure: Measure)
    requires card.isFaceUp && FaceCardImageName(card.rank, card.suit) !in assets
    requires !(1 <= card.rank <= 10)
    ensures CardDrawing(card, assets, measure) == [FillRoundedRect(card.bounds, CornerRadius(card.bounds))]
  {
    PipDrawingCount(card.bounds, card.rank, card.suit, measure);
  }
}
