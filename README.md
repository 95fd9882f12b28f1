# PlayingCard: a verified model of the card model and the card view's layout

This project models the logic of an iOS app that shows one playing card.

- **The card value model** (`PlayingCard.swift`):
  - a `Suit` with its glyph raw value and the canonical list of four suits;
  - a `Rank` that is the ace, a numeric rank or a face, with its `order` and its `description`;
  - the canonical list of thirteen ranks, which `Rank.all` builds with a loop;
  - a card's `description`.
- **The card view** (`PlayingCardView.swift`):
  - the view's state, and the redisplay and relayout requests its property observers raise;
  - the pinch handler that rescales the face artwork;
  - the corner metrics that are proportional to the bounds;
  - the rank text;
  - the pip-row table;
  - the two-pass fit of the pip glyph into one cell of the pip grid;
  - the row loop that draws the pips;
  - the placement of the two corner labels;
  - the face-up/face-down branches of `draw(_:)`;
  - the `CGPoint`/`CGRect` helpers `offsetBy`, `zoom(by:)`, `leftHalf` and `rightHalf`.

Geometry uses exact `real`s. Text measurement (`NSAttributedString.size()` in the body font) is a parameter `measure: (string, real) -> Size`. Image lookup (`UIImage(named:)`) is a parameter `assets`: the set of image names that load. A drawing is the sequence of draw commands it issues: a filled rounded rectangle, a string drawn in a rectangle, or an image drawn in a rectangle.

Files:

- `wrappers.dfy`: the `Option` and `Result` datatypes.
- `decimal.dfy`: Swift's `String(_: Int)` rendering and its inverse.
- `playing_card.dfy`: suits, ranks and cards.
- `geometry.dfy`: points, sizes, rectangles and the view's rectangle helpers.
- `card_layout.dfy`: the view's layout logic as functions, and the lemmas about it.
- `card_view.dfy`: the pinch handler on values, and the view as a class whose methods change its fields and its labels step by step.
  - `Draw` and `DrawPips` are proved equal to `CardDrawing` and `PipDrawing` of `card_layout.dfy`. The row loop `DrawPipRows` is proved equal to `PipGrid`.
  - `ConfigureCorner` and `LayoutSubviews` are proved to set the labels from `CornerText`, `CornerFontSize` and the label origins of `card_layout.dfy`.
  - `AdjustFaceCardScale` is proved against `PinchUpdate`, which is in `card_view.dfy`.
  - The setters and `TraitCollectionDidChange` are stated directly: the field they set, and the redisplay and relayout flags they raise.

The model follows the code as written:

- `order` is total. A face kind other than "J", "Q" or "K" has order 0.
- A numeric rank's order is its pip count, whatever that count is.
- `drawPips` indexes the pip table by the rank number itself. Index 0 holds the placeholder `[0]` and index 1 holds the ace's `[1]`.
- The placeholder row has count 0, so it draws nothing. A rank number of 0 therefore draws no pips.
- `createPipString` divides by measured sizes and grid counts. Where a `CGFloat` quotient is 0 because it divides by an infinite ratio, the model computes that 0. Where the font size would be infinite or undefined, the model reports a `FitError`. See "## Left out".

## Model

| member | source | states |
|---|---|---|
| Decimal.IntToString | PlayingCard/PlayingCard.swift:40 | `String(pips)`: at least one character, a leading '-' exactly for negative numbers, and only digits otherwise |
| Decimal.NatRoundTrip | PlayingCard/PlayingCard.swift:40 | reading back the digits of a natural number gives that number |
| Decimal.IntRoundTrip | PlayingCard/PlayingCard.swift:40 | parsing the rendering of any integer gives the integer back |
| Decimal.IntToStringInjective | PlayingCard/PlayingCardView.swift:174 | distinct integers render to distinct strings |
| PlayingCard.RawValue | PlayingCard/PlayingCard.swift:21-28 | each suit's raw value is its symbol followed by the emoji variation selector |
| PlayingCard.SuitRawValueRoundTrip | PlayingCard/PlayingCard.swift:21-28 | `Suit(rawValue:)` finds every suit from its raw value, and a string names a suit exactly when it is that suit's raw value |
| PlayingCard.AllSuits | PlayingCard/PlayingCard.swift:30 | `Suit.all` has four entries, contains every suit, and its glyphs are pairwise distinct |
| PlayingCard.Order | PlayingCard/PlayingCard.swift:50-65 | a canonical rank has an order between 1 and 13; a face has order 0 exactly when its kind is not J, Q or K |
| PlayingCard.AllRanks | PlayingCard/PlayingCard.swift:67-76 | the loop builds exactly ace, numeric 2 to 10, then J, Q, K |
| PlayingCard.CanonicalRanksInOrder | PlayingCard/PlayingCard.swift:50-76 | `Rank.all` has 13 ranks, and the rank at index i has order i + 1 |
| PlayingCard.CanonicalRanksExactly | PlayingCard/PlayingCard.swift:67-76 | a rank is in `Rank.all` exactly when it is canonical |
| PlayingCard.OrderBijective | PlayingCard/PlayingCard.swift:50-65 | on canonical ranks, order is one-to-one and takes every value from 1 to 13 |
| PlayingCard.RankDescription | PlayingCard/PlayingCard.swift:35-44 | a numeric rank's description parses back to its pip count; the description is "A" exactly for the ace and for a face of kind "A" |
| PlayingCard.RankDescriptionRoundTrip | PlayingCard/PlayingCard.swift:35-44 | a rank's description determines the rank: "A", a decimal number, or the face kind |
| PlayingCard.CanonicalHasDistinctDescription | PlayingCard/PlayingCard.swift:35-48 | the description of every canonical rank is unambiguous |
| PlayingCard.CardDescription | PlayingCard/PlayingCard.swift:13-15 | the description is the two-character suit glyph, a space, then the rank's description |
| PlayingCard.CardDescriptionRoundTrip | PlayingCard/PlayingCard.swift:13-15 | a card's description is its suit glyph, a space and its rank description, and it determines the card |
| Geometry.OffsetBy | PlayingCard/PlayingCardView.swift:183-187 | the offset point differs from the point by exactly dx across and dy down |
| Geometry.OffsetByComposes | PlayingCard/PlayingCardView.swift:183-187 | offsets add up, and an offset is undone by its negation |
| Geometry.InsetBy | PlayingCard/PlayingCardView.swift:103 | `insetBy` keeps the centre and moves each edge inwards by the inset |
| Geometry.Zoom | PlayingCard/PlayingCardView.swift:190-196 | `zoom(by:)` keeps the centre and scales both sides by the factor |
| Geometry.ZoomIdentityAndComposition | PlayingCard/PlayingCardView.swift:190-196 | zooming by 1 is the identity, and zooming by a then b is zooming by a·b |
| Geometry.LeftHalf | PlayingCard/PlayingCardView.swift:198-201 | the left half has half the width and the full height, and shares the rectangle's left, top and bottom edges |
| Geometry.RightHalf | PlayingCard/PlayingCardView.swift:203-206 | the right half has half the width and the full height; it starts where the left half ends and ends at the rectangle's right edge |
| Geometry.HalvesTile | PlayingCard/PlayingCardView.swift:198-206 | a point is in the rectangle exactly when it is in one of the halves, and it is never in both |
| CardLayout.CornerRadius | PlayingCard/PlayingCardView.swift:159-161 | for a card of positive height, the radius is positive and less than half the height |
| CardLayout.CornerOffset | PlayingCard/PlayingCardView.swift:159-165 | for a card of positive height, the corner offset is positive and less than the corner radius |
| CardLayout.CornerFontSize | PlayingCard/PlayingCardView.swift:167-169 | for a card of positive height, the corner font size exceeds the corner radius |
| CardLayout.CornerMetricsProportional | PlayingCard/PlayingCardView.swift:152-169 | radius, offset and font size scale with the bounds' height and nothing else |
| CardLayout.CornerMetricsExample | PlayingCard/PlayingCardView.swift:152-169 | for a 300×400 card, the radius is 24, the offset 7.92 and the font size 34 |
| CardLayout.UpperLeftLabelExample | PlayingCard/PlayingCardView.swift:57 | on a 300×400 card at the origin, the upper-left label goes at (7.92, 7.92) |
| CardLayout.LowerRightLabelExample | PlayingCard/PlayingCardView.swift:64-66 | on the same card, a 20×30 lower-right label goes at (272.08, 362.08) |
| CardLayout.RankString | PlayingCard/PlayingCardView.swift:171-180 | `rankString` is "?" exactly when the rank number is outside 1 to 13 |
| CardLayout.RankStringOfOrder | PlayingCard/PlayingCardView.swift:171-180 | for every canonical rank, the rank text of its order is its description |
| CardLayout.RankStringOfCanonicalRank | PlayingCard/PlayingCardView.swift:171-180 | each number from 1 to 13 shows as the description of the canonical rank of that order |
| CardLayout.CornerText | PlayingCard/PlayingCardView.swift:78-80 | the corner text is the rank text, a line break, then the suit; the rank text has no line break, so the first line is exactly the rank text |
| CardLayout.PipTableShape | PlayingCard/PlayingCardView.swift:84 | the table has 11 entries; entry 0 sums to 0 and entry r sums to r for r from 1 to 10; every entry has one to five rows of 0, 1 or 2 pips |
| CardLayout.PipTableEntry | PlayingCard/PlayingCardView.swift:84 | one entry's rows are non-empty, drawable, and add up to its index |
| CardLayout.MaxRowCount | PlayingCard/PlayingCardView.swift:87 | the reduce yields an upper bound on the entries' row counts, and it is attained unless it is 0 |
| CardLayout.MaxEntry | PlayingCard/PlayingCardView.swift:88 | `max()` is none exactly for an empty row; otherwise it is an element of the row that bounds every other |
| CardLayout.MaxPipsInRow | PlayingCard/PlayingCardView.swift:88 | the reduce yields an upper bound on every pip count of the table, and it is attained unless it is 0 |
| CardLayout.PipTableMaxima | PlayingCard/PlayingCardView.swift:84-88 | the table's maxima are 5 rows and 2 pips, so the grid is 5 rows by 2 columns |
| CardLayout.PipCellPositive | PlayingCard/PlayingCardView.swift:89 | a pip rectangle with positive sides has cells with positive sides |
| CardLayout.HeightFittedFontSize | PlayingCard/PlayingCardView.swift:89-91 | with a non-zero row spacing, the first pass's font size times the measured-height ratio is the row spacing; with a zero row spacing the font size is 0 |
| CardLayout.ShrinkToColumn | PlayingCard/PlayingCardView.swift:93-98 | a glyph that fits keeps its font size; one that is too wide gets a strictly smaller positive size; against a zero column width the size becomes 0; the step fails exactly when a zero width exceeds a negative column width |
| CardLayout.CreatePipString | PlayingCard/PlayingCardView.swift:86-99 | the fit succeeds exactly when the grid has cells, the glyph measures a non-zero height at the row spacing, and the second pass does not divide by a zero ratio; a fitted glyph's box is its measured size; its size is the height-fitted size when that fits the column, and otherwise at most that size; an empty grid is reported as `EmptyPipTable` |
| CardLayout.WidthPassArithmetic | PlayingCard/PlayingCardView.swift:93-98 | for widths proportional to the font size, the second pass reaches the smaller of the starting size and the size that fills the column, and the glyph then fits the column |
| CardLayout.FirstPassUnderProportionalMetrics | PlayingCard/PlayingCardView.swift:89-92 | for heights proportional to the font size, the first pass makes the glyph exactly as tall as the row spacing |
| CardLayout.CreatePipStringAfterFirstPass | PlayingCard/PlayingCardView.swift:92-98 | once the first pass is defined, the result is the second pass's font size with its measured box |
| CardLayout.FitUnderProportionalMetrics | PlayingCard/PlayingCardView.swift:86-99 | for proportional glyph metrics, the two passes find the largest font size at which the glyph fits one cell |
| CardLayout.ZeroSpacingFit | PlayingCard/PlayingCardView.swift:89-98 | with a zero row spacing and a column of non-negative width, the fit gives font size 0 |
| CardLayout.RowRectOffset | PlayingCard/PlayingCardView.swift:107-118 | after k rows the cursor has moved down by exactly k row spacings, and the row keeps its x and its size |
| CardLayout.RowsAdvance | PlayingCard/PlayingCardView.swift:108-119 | rows j and i are (j − i) spacings apart, so with a positive spacing the rows go top to bottom |
| CardLayout.RowDraws | PlayingCard/PlayingCardView.swift:109-117 | a row draws as many glyphs as its count when that is 1 or 2, and none otherwise |
| CardLayout.PipGrid | PlayingCard/PlayingCardView.swift:108-119 | every draw of the rows is the suit glyph as text, in the fitted font size |
| CardLayout.PipGridLength | PlayingCard/PlayingCardView.swift:108-119 | the first n rows draw as many glyphs as their counts add up to |
| CardLayout.PipGridPrefix | PlayingCard/PlayingCardView.swift:108-119 | drawing more rows only appends draws |
| CardLayout.PipGridRow | PlayingCard/PlayingCardView.swift:109-118 | row i's draws follow those of the rows above it: one glyph in the row rectangle, or one in each half, i spacings down |
| CardLayout.PipRect | PlayingCard/PlayingCardView.swift:103 | the pip rectangle has the card's centre, and is narrower by twice the offset and twice the label width and shorter by twice the offset and the label height |
| CardLayout.PipRowsFor | PlayingCard/PlayingCardView.swift:105-107 | the rows split the pip rectangle's height evenly; the first row is as tall as the glyph, as wide as the pip rectangle, and centred in the first share |
| CardLayout.PipRowsCentred | PlayingCard/PlayingCardView.swift:105-118 | row i is centred in the i-th share of the pip rectangle, level with it across and as tall as the glyph |
| CardLayout.PipDrawing | PlayingCard/PlayingCardView.swift:101-120 | every draw of the pips is the suit glyph set as text |
| CardLayout.PipDrawingCount | PlayingCard/PlayingCardView.swift:101-120 | a rank from 1 to 10 draws exactly as many glyphs as its table entry adds up to, which is the rank; any other rank number draws none |
| CardLayout.ZeroHeightPipRectStillDraws | PlayingCard/PlayingCardView.swift:101-119 | a pip rectangle of zero height still gets rank-many glyphs, at font size 0 |
| CardLayout.UpperLeftLabelOrigin | PlayingCard/PlayingCardView.swift:57 | the upper-left label's origin is the top-left corner of the bounds inset by the corner offset |
| CardLayout.LowerRightLabelOrigin | PlayingCard/PlayingCardView.swift:64-66 | the lower-right label ends at the bottom-right corner of the bounds inset by the corner offset |
| CardLayout.CornerLabelsPlacement | PlayingCard/PlayingCardView.swift:53-66 | two labels of one size in the two corners are point-symmetric about the card's centre |
| CardLayout.FaceCardImageName | PlayingCard/PlayingCardView.swift:130 | the artwork name is the rank text followed by the suit, and it is never the card back's name |
| CardLayout.CardDrawing | PlayingCard/PlayingCardView.swift:123-128 | every draw begins with the white rounded rectangle over the bounds, with the corner radius |
| CardLayout.FaceDownShowsOnlyBack | PlayingCard/PlayingCardView.swift:135-139 | a face-down card draws the card back over the bounds exactly when that asset loads, and never a glyph |
| CardLayout.FaceArtCentredAndScaled | PlayingCard/PlayingCardView.swift:129-131 | face up with artwork, the card draws the artwork named by rank text and suit, centred and scaled by the face card scale |
| CardLayout.FaceUpPipCard | PlayingCard/PlayingCardView.swift:129-134 | face up without artwork, a rank from 1 to 10 draws the substrate and then rank-many suit glyphs |
| CardLayout.FaceUpWithoutArtOrPattern | PlayingCard/PlayingCardView.swift:129-134 | face up without artwork, any other rank number draws only the substrate |
| CardView.Label.constructor | PlayingCard/PlayingCardView.swift:34-39 | a new label has no text and a zero frame, and is shown |
| CardView.PinchActs | PlayingCard/PlayingCardView.swift:21-22 | the handler acts only in the `.changed` and `.ended` states |
| CardView.PinchUpdate | PlayingCard/PlayingCardView.swift:20-28 | in `.changed` or `.ended` the scale is multiplied by the recogniser's scale, which becomes 1; in any other state neither changes |
| CardView.PinchUpdateIdempotent | PlayingCard/PlayingCardView.swift:20-28 | handling again with nothing new pinched changes nothing |
| CardView.ApplyPinchIsProduct | PlayingCard/PlayingCardView.swift:20-28 | successive increments multiply the face card scale by their product |
| CardView.PinchExample | PlayingCard/PlayingCardView.swift:18-27 | pinches of 1.2 then 1.5 take the initial 0.75 to 1.35 |
| CardView.PlayingCardView.constructor | PlayingCard/PlayingCardView.swift:14-18 | a new view shows the queen of hearts face up, with artwork at 0.75 of the bounds and two distinct labels |
| CardView.PlayingCardView.SetRank | PlayingCard/PlayingCardView.swift:14 | setting the rank requests a redisplay and a relayout |
| CardView.PlayingCardView.SetSuit | PlayingCard/PlayingCardView.swift:15 | setting the suit requests a redisplay and a relayout |
| CardView.PlayingCardView.SetFaceUp | PlayingCard/PlayingCardView.swift:16 | turning the card over requests a redisplay and a relayout |
| CardView.PlayingCardView.SetFaceCardScale | PlayingCard/PlayingCardView.swift:18 | setting the face card scale requests a redisplay only |
| CardView.PlayingCardView.TraitCollectionDidChange | PlayingCard/PlayingCardView.swift:48-51 | a trait change requests a redisplay and a relayout |
| CardView.PlayingCardView.AdjustFaceCardScale | PlayingCard/PlayingCardView.swift:20-28 | the new face card scale and recogniser scale are those of `PinchUpdate`; a redisplay is requested exactly when the handler acts |
| CardView.PlayingCardView.ConfigureCorner | PlayingCard/PlayingCardView.swift:41-46 | the label shows the rank text over the suit in the corner font size, is sized to fit that text, and is hidden exactly when the card is face down |
| CardView.PlayingCardView.LayoutSubviews | PlayingCard/PlayingCardView.swift:53-67 | both labels show the corner text in the corner font size, sized to fit it, and are hidden exactly when the card is face down; one sits against the top-left and the other against the bottom-right of the inset bounds, point-symmetric about the centre |
| CardView.PlayingCardView.DrawPips | PlayingCard/PlayingCardView.swift:82-121 | the pips drawn are `PipDrawing` of the view's state, so the counts, glyphs and positions above hold for them |
| CardView.PlayingCardView.DrawPipRows | PlayingCard/PlayingCardView.swift:108-119 | the row loop draws exactly `PipGrid` of the rows, with the cursor at row i's rectangle before row i |
| CardView.PlayingCardView.Draw | PlayingCard/PlayingCardView.swift:123-140 | a draw issues exactly `CardDrawing` of the view's state |

## Left out

- `PlayingCard/ViewController.swift` is not part of this model. It only wires gestures to the view and to a deck that is not in the repository.
- UIKit drawing primitives are not modelled: clipping, colour, `UIBezierPath` and `UIImage.draw`. Drawing is the sequence of commands issued.
- The display cycle is not modelled. `setNeedsDisplay()` and `setNeedsLayout()` only raise the flags `needsDisplay` and `needsLayout`.
- Fonts and `UIFontMetrics` are not modelled. Text measurement is the `measure` parameter, and a string keeps only its text and font size. Paragraph alignment is not modelled.
- The asset bundle and the trait collection are not modelled. `assets` stands for the image names that load.
- The `CGAffineTransform` rotation of the lower-right label is not modelled; only the label's frame origin is.
- `numberOfLines` and `addSubview` are not modelled.
- The corner labels are not created lazily. The constructor creates both, because a class constant must be set in the constructor.
- `CGFloat` rounding is not modelled; geometry is exact.
- CardLayout.CreatePipString: three cases reach an infinite or NaN `CGFloat` font size. They are an empty pip table, a glyph measuring zero height at the row spacing, and a zero-width glyph against a negative column width. The model reports each as a `FitError` instead.
- CardLayout.ShrinkToColumn: the zero-width case above is a `FitError`. The source divides by a zero ratio there and gets an infinite or NaN size.
- CardView.PlayingCardView.DrawPips: after a `FitError` the model draws no pips. The source still runs its row loop with the infinite or NaN font size, and issues one draw per pip of the rank's pattern.
- CardLayout.PipDrawingCount and CardLayout.FaceUpPipCard: the pip count is stated only when the glyph fit succeeds.
- CardLayout.FitUnderProportionalMetrics: it characterises the fit only for glyph metrics proportional to the font size; for other metrics, `CardLayout.CreatePipString` states bounds only.
- Geometry.InsetBy: `CGRect` standardisation, and the null rectangle that `insetBy` returns when the insets exceed the size, are not modelled.
- The card's `description` goes through string interpolation of the suit's and rank's own `description`. It is modelled directly as raw value, space and rank description, which is what that interpolation yields.
- The commented-out drawing code at the end of `draw(_:)` is not modelled.
