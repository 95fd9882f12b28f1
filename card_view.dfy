/**
  The card view itself: the state it keeps (rank, suit, face-up flag, face card scale, the two
  corner labels and the redisplay and relayout flags its property observers raise), the pinch
  handler that rescales the face artwork, the corner label layout and the two drawing
  routines, written as the step-by-step code they are and proved against the layout
  functions of `CardLayout`.
 */
module CardView {
  import opened Wrappers
  import opened Geometry
  import PlayingCard
  import opened CardLayout

  /** A corner label: its text, the font size it is set in, its frame and whether it is hidden. */
  class Label {
    var text: string
    var fontSize: real
    var frame: Rect
    var isHidden: bool

    /** A new label: no text, a zero frame, shown. */
    constructor ()
      ensures text == "" && fontSize == 0.0 && !isHidden
      ensures frame == Rect(Point(0.0, 0.0), Size(0.0, 0.0))
    {
      text := "";
      fontSize := 0.0;
      frame := Rect(Point(0.0, 0.0), Size(0.0, 0.0));
      isHidden := false;
    }
  }

  /** The states a gesture recogniser reports. */
  datatype GestureState = Possible | Began | Changed | Ended | Cancelled | Failed

  /** A pinch recogniser: its state and the scale pinched since it was last reset. */
  class PinchGestureRecogniser {
    var state: GestureState
    var scale: real

    constructor (state: GestureState, scale: real)
      ensures this.state == state && this.scale == scale
    {
      this.state := state;
      this.scale := scale;
    }
  }

  /** Whether the pinch handler acts in a state: only while the pinch changes and when it ends. */
  predicate PinchActs(state: GestureState) {
    state == Changed || state == Ended
  }

  /**
    The pinch handler on values: the face card scale and the recogniser's scale after one call,
    from those before it.
   */
  function PinchUpdate(faceCardScale: real, state: GestureState, recogniserScale: real): (after: (real, real))
    ensures PinchActs(state) ==> after == (faceCardScale * recogniserScale, 1.0)
    ensures !PinchActs(state) ==> after == (faceCardScale, recogniserScale)
  {
    if PinchActs(state) then (faceCardScale * recogniserScale, 1.0) else (faceCardScale, recogniserScale)
  }

  /** Calling the handler again before the recogniser reports any further pinch changes nothing. */
  lemma PinchUpdateIdempotent(faceCardScale: real, state: GestureState, recogniserScale: real)
    ensures var (f, r) := PinchUpdate(faceCardScale, state, recogniserScale);
      PinchUpdate(f, state, r) == (f, r)
  {
  }

  /** The product of the pinch increments reported one after another. */
  function Product(increments: seq<real>): real {
    if increments == [] then 1.0 else Product(increments[..|increments| - 1]) * increments[|increments| - 1]
  }

  /**
    A pinch reported as increments while it changes: each call folds in the scale pinched
    since the previous call and resets the recogniser, which then reports the next increment.
   */
  function ApplyPinch(faceCardScale: real, increments: seq<real>): real {
    if increments == [] then faceCardScale
    else PinchUpdate(ApplyPinch(faceCardScale, increments[..|increments| - 1]), Changed, increments[|increments| - 1]).0
  }

  /**
    However a pinch is cut into increments, the face card scale ends up multiplied by their
    product: the resets to 1 make the handler compose the increments rather than compound them.
   */
  lemma {:induction false} ApplyPinchIsProduct(faceCardScale: real, increments: seq<real>)
    ensures ApplyPinch(faceCardScale, increments) == faceCardScale * Product(increments)
  {
    if increments != [] {
      var prefix := increments[..|increments| - 1];
      var last := increments[|increments| - 1];
      ApplyPinchIsProduct(faceCardScale, prefix);
      assert ApplyPinch(faceCardScale, increments) == (faceCardScale * Product(prefix)) * last;
      assert (faceCardScale * Product(prefix)) * last == faceCardScale * (Product(prefix) * last);
    }
  }

  /** A pinch of 1.2 followed by one of 1.5 turns the initial scale 0.75 into 1.35. */
  lemma PinchExample()
    ensures ApplyPinch(FaceCardImageSizeToBoundsSize, [1.2, 1.5]) == 1.35
  {
    ApplyPinchIsProduct(FaceCardImageSizeToBoundsSize, [1.2, 1.5]);
    assert [1.2, 1.5][..1] == [1.2];
    assert [1.2][..0] == [];
  }

  /** The card view: the card it shows, how it scales face artwork, and its two corner labels. */
  class PlayingCardView {
    var bounds: Rect
    var rank: int
    var suit: string
    var isFaceUp: bool
    var faceCardScale: real
    /** Raised by `setNeedsDisplay()`: the view is to be drawn again. */
    var needsDisplay: bool
    /** Raised by `setNeedsLayout()`: the subviews are to be laid out again. */
    var needsLayout: bool
    const upperLeftLabel: Label
    const lowerRightLabel: Label

    /** The two corner labels are two distinct labels. */
    predicate Valid()
      reads this
    {
      upperLeftLabel != lowerRightLabel
    }

    /**
      A new view: the queen of hearts, face up, artwork at three quarters of the bounds, with
      both labels created; a new view has yet to be laid out and drawn.
     */
    constructor (bounds: Rect)
      ensures Valid()
      ensures this.bounds == bounds && rank == 12 && suit == PlayingCard.RawValue(PlayingCard.Hearts)
      ensures isFaceUp && faceCardScale == FaceCardImageSizeToBoundsSize
      ensures needsDisplay && needsLayout
      ensures fresh(upperLeftLabel) && fresh(lowerRightLabel)
    {
      this.bounds := bounds;
      rank := 12;
      suit := PlayingCard.RawValue(PlayingCard.Hearts);
      isFaceUp := true;
      faceCardScale := FaceCardImageSizeToBoundsSize;
      needsDisplay := true;
      needsLayout := true;
      upperLeftLabel := new Label();
      lowerRightLabel := new Label();
    }

    /** What a draw reads of the view. */
    function State(): (card: CardState)
      reads this
      ensures card.bounds == bounds && card.rank == rank && card.suit == suit
      ensures card.isFaceUp == isFaceUp && card.faceCardScale == faceCardScale
    {
      CardState(bounds, rank, suit, isFaceUp, faceCardScale)
    }

    /** Setting the rank asks for a redraw and a relayout. */
    method SetRank(rank: int)
      modifies this`rank, this`needsDisplay, this`needsLayout
      ensures this.rank == rank && needsDisplay && needsLayout
    {
      this.rank := rank;
      needsDisplay := true;
      needsLayout := true;
    }

    /** Setting the suit asks for a redraw and a relayout. */
    method SetSuit(suit: string)
      modifies this`suit, this`needsDisplay, this`needsLayout
      ensures this.suit == suit && needsDisplay && needsLayout
    {
      this.suit := suit;
      needsDisplay := true;
      needsLayout := true;
    }

    /** Turning the card over asks for a redraw and a relayout, the labels being shown only face up. */
    method SetFaceUp(isFaceUp: bool)
      modifies this`isFaceUp, this`needsDisplay, this`needsLayout
      ensures this.isFaceUp == isFaceUp && needsDisplay && needsLayout
    {
      this.isFaceUp := isFaceUp;
      needsDisplay := true;
      needsLayout := true;
    }

    /** Setting the face card scale asks for a redraw only. */
    method SetFaceCardScale(faceCardScale: real)
      modifies this`faceCardScale, this`needsDisplay
      ensures this.faceCardScale == faceCardScale && needsDisplay
    {
      this.faceCardScale := faceCardScale;
      needsDisplay := true;
    }

    /** A change of text size or other trait asks for a redraw and a relayout. */
    method TraitCollectionDidChange()
      modifies this`needsDisplay, this`needsLayout
      ensures needsDisplay && needsLayout
    {
      needsDisplay := true;
      needsLayout := true;
    }

    /**
      `adjustFaceCardScale(withPinchHandlerRecogniser:)`: while the pinch changes and when it
      ends, multiplies the face card scale by the recogniser's scale (asking for a redraw) and
      resets that scale to 1; in any other state it does nothing.
     */
    method AdjustFaceCardScale(recogniser: PinchGestureRecogniser)
      modifies this`faceCardScale, this`needsDisplay, recogniser`scale
      ensures (faceCardScale, recogniser.scale)
        == PinchUpdate(old(faceCardScale), recogniser.state, old(recogniser.scale))
      ensures needsDisplay == (old(needsDisplay) || PinchActs(recogniser.state))
    {
      match recogniser.state
      case Changed | Ended =>
        faceCardScale := faceCardScale * recogniser.scale;
        needsDisplay := true;
        recogniser.scale := 1.0;
      case _ =>
    }

    /**
      `configureCorner(label:)`: the corner text in the corner font size, the frame shrunk to
      nothing and then sized to fit the text, hidden when the card is face down.
     */
    method ConfigureCorner(corner: Label, measure: Measure)
      modifies corner
      ensures corner.text == CornerText(rank, suit) && corner.fontSize == CornerFontSize(bounds)
      ensures corner.frame == Rect(old(corner.frame.origin), measure(corner.text, corner.fontSize))
      ensures corner.isHidden == !isFaceUp
    {
      corner.text := CornerText(rank, suit);
      corner.fontSize := CornerFontSize(bounds);
      corner.frame := Rect(corner.frame.origin, Size(0.0, 0.0));
      corner.frame := Rect(corner.frame.origin, measure(corner.text, corner.fontSize));
      corner.isHidden := !isFaceUp;
    }

    /**
      `layoutSubviews()`: both labels configured, the upper-left one moved in from the top-left
      corner by the corner offset, the lower-right one moved in from the bottom-right corner
      by the offset and its own size. The two frames are then point-symmetric about the
      card's centre, on the bounds inset by the corner offset.
     */
    method LayoutSubviews(measure: Measure)
      requires Valid()
      modifies upperLeftLabel, lowerRightLabel
      ensures Valid()
      ensures var labelSize := measure(CornerText(rank, suit), CornerFontSize(bounds));
        && upperLeftLabel.frame == Rect(UpperLeftLabelOrigin(bounds), labelSize)
        && lowerRightLabel.frame == Rect(LowerRightLabelOrigin(bounds, labelSize), labelSize)
      ensures var inset := InsetBy(bounds, CornerOffset(bounds), CornerOffset(bounds));
        && MinX(upperLeftLabel.frame) == MinX(inset) && MinY(upperLeftLabel.frame) == MinY(inset)
        && MaxX(lowerRightLabel.frame) == MaxX(inset) && MaxY(lowerRightLabel.frame) == MaxY(inset)
      ensures MidX(upperLeftLabel.frame) + MidX(lowerRightLabel.frame) == 2.0 * MidX(bounds)
      ensures MidY(upperLeftLabel.frame) + MidY(lowerRightLabel.frame) == 2.0 * MidY(bounds)
      ensures upperLeftLabel.text == lowerRightLabel.text == CornerText(rank, suit)
      ensures upperLeftLabel.fontSize == lowerRightLabel.fontSize == CornerFontSize(bounds)
      ensures upperLeftLabel.isHidden == lowerRightLabel.isHidden == !isFaceUp
    {
      ConfigureCorner(upperLeftLabel, measure);
      upperLeftLabel.frame := Rect(UpperLeftLabelOrigin(bounds), upperLeftLabel.frame.size);
      ConfigureCorner(lowerRightLabel, measure);
      var labelSize := lowerRightLabel.frame.size;
      lowerRightLabel.frame := Rect(LowerRightLabelOrigin(bounds, labelSize), labelSize);
      CornerLabelsPlacement(bounds, labelSize);
    }

    /**
      `drawPips()`: for a rank indexing the pip table, fits the glyph, narrows the pip rectangle
      to the glyph's height centred in the first row's share, and walks the rows down, drawing
      each row's glyphs and moving one row spacing down after each.
     */
    method DrawPips(measure: Measure) returns (draws: seq<DrawCommand>)
      ensures draws == PipDrawing(bounds, rank, suit, measure)
    {
      draws := [];
      if 0 <= rank < |PipsPerRowForRank| {
        var pipsPerRow := PipsPerRowForRank[rank];
        var pipRect := PipRect(bounds, rank, suit, measure);
        var pipString := CreatePipString(TableGridSize(PipsPerRowForRank), pipRect, suit, measure);
        if pipString.Success? {
          assert |pipsPerRow| > 0 by {
            PipTableShape();
          }
          var pip := pipString.value;
          ghost var layout := PipRowsFor(pipRect, |pipsPerRow|, suit, pip);
          var pipRowSpacing := pipRect.size.height / |pipsPerRow| as real;
          pipRect := Rect(pipRect.origin, Size(pipRect.size.width, pip.box.height));
          pipRect := Rect(Point(pipRect.origin.x, pipRect.origin.y + (pipRowSpacing - pipRect.size.height) / 2.0), pipRect.size);
          draws := DrawPipRows(pipsPerRow, pip, pipRect, pipRowSpacing, layout);
        }
      }
    }

    /** The row loop of `drawPips`: each row's glyphs, then one row spacing down. */
    method DrawPipRows(pipsPerRow: seq<int>, pip: PipString, firstRow: Rect, pipRowSpacing: real, ghost layout: PipRows)
      returns (draws: seq<DrawCommand>)
      requires layout == PipRows(suit, pip.fontSize, firstRow, pipRowSpacing)
      ensures draws == PipGrid(pipsPerRow, |pipsPerRow|, layout)
    {
      draws := [];
      var pipRect := firstRow;
      var i := 0;
      while i < |pipsPerRow|
        invariant 0 <= i <= |pipsPerRow|
        invariant draws == PipGrid(pipsPerRow, i, layout)
        invariant pipRect == RowRect(layout, i)
      {
        var pipCount := pipsPerRow[i];
        if pipCount == 1 {
          draws := draws + [DrawText(suit, pip.fontSize, pipRect)];
        } else if pipCount == 2 {
          draws := draws + [DrawText(suit, pip.fontSize, LeftHalf(pipRect)), DrawText(suit, pip.fontSize, RightHalf(pipRect))];
        }
        pipRect := MoveDown(pipRect, pipRowSpacing);
        i := i + 1;
      }
    }

    /**
      `draw(_:)`: the white rounded substrate, then the face artwork, the pips, or the card
      back, as the card's side and the loadable assets decide.
     */
    method Draw(assets: set<string>, measure: Measure) returns (draws: seq<DrawCommand>)
      ensures draws == CardDrawing(State(), assets, measure)
    {
      draws := [FillRoundedRect(bounds, CornerRadius(bounds))];
      if isFaceUp {
        var name := FaceCardImageName(rank, suit);
        if name in assets {
          draws := draws + [DrawImage(name, Zoom(bounds, faceCardScale))];
        } else {
          var pips := DrawPips(measure);
          draws := draws + pips;
        }
      } else if CardBackImageName in assets {
        draws := draws + [DrawImage(CardBackImageName, bounds)];
      }
    }
  }
}
