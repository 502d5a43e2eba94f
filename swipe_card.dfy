/**
 * The swipe card's drag handling: the pose (offset, rotation, scale) the card takes while
 * dragged, the release that either swipes it away or puts it back, and the opacity of the
 * NOPE and LIKE indicators. Sizes are `real`; floating-point rounding is not modelled.
 */
module SwipeCard {
  import opened SwipeDeck

  /** A `CGSize`. */
  datatype Size = Size(width: real, height: real)

  const Zero := Size(0.0, 0.0)

  /** A release must move the card further than this, either way, to count as a swipe. */
  const SwipeThreshold: real := 100.0

  function Abs(x: real): (r: real)
    ensures r >= 0.0 && (r == x || r == -x)
  {
    if x < 0.0 then -x else x
  }

  /** `abs(translation.width) > swipeThreshold`. */
  predicate IsSwipe(dx: real) {
    Abs(dx) > SwipeThreshold
  }

  /** The direction of a release: right exactly when the card moved right. */
  function DirectionOf(dx: real): (d: SwipeDirection)
    ensures d == Right <==> dx > 0.0
  {
    if dx > 0.0 then Right else Left
  }

  /** The NOPE indicator's opacity: visible only while the card is left of centre. */
  function NopeOpacity(dx: real): (o: real)
    ensures o >= 0.0
    ensures o > 0.0 <==> dx < 0.0
  {
    if dx < 0.0 then -dx / 50.0 else 0.0
  }

  /** The LIKE indicator's opacity: visible only while the card is right of centre. */
  function LikeOpacity(dx: real): (o: real)
    ensures o >= 0.0
    ensures o > 0.0 <==> dx > 0.0
  {
    if dx > 0.0 then dx / 50.0 else 0.0
  }

  /**
   * At most one indicator shows; at a release that swipes, the one showing is the one
   * of the swipe's direction, and it is at full opacity.
   */
  lemma IndicatorMatchesSwipe(dx: real)
    ensures NopeOpacity(dx) == 0.0 || LikeOpacity(dx) == 0.0
    ensures IsSwipe(dx) && DirectionOf(dx) == Right ==> LikeOpacity(dx) >= 1.0 && NopeOpacity(dx) == 0.0
    ensures IsSwipe(dx) && DirectionOf(dx) == Left ==> NopeOpacity(dx) >= 1.0 && LikeOpacity(dx) == 0.0
  {
  }

  /** One card of the deck and its gesture state. */
  class SwipeCardView {
    const isTopCard: bool
    /** The screen width less 40. */
    const cardWidth: real
    var offset: Size
    var rotation: real
    var scale: real

    constructor (isTopCard: bool, cardWidth: real)
      ensures this.isTopCard == isTopCard && this.cardWidth == cardWidth
      ensures offset == Zero && rotation == 0.0 && scale == 1.0
    {
      this.isTopCard := isTopCard;
      this.cardWidth := cardWidth;
      offset := Zero;
      rotation := 0.0;
      scale := 1.0;
    }

    /** `onChanged`: the top card follows the finger, tilting and shrinking with the distance. */
    method OnDragChanged(translation: Size)
      modifies this
      ensures isTopCard ==> offset == translation
      ensures isTopCard ==> rotation == translation.width / 20.0 && scale == 1.0 - Abs(translation.width) / 1000.0
      ensures isTopCard ==> scale <= 1.0 && (rotation > 0.0 <==> translation.width > 0.0)
      ensures !isTopCard ==> offset == old(offset) && rotation == old(rotation) && scale == old(scale)
    {
      if isTopCard {
        offset := translation;
        rotation := translation.width / 20.0;
        scale := 1.0 - Abs(translation.width) / 1000.0;
      }
    }

    /**
     * `onEnded` and `handleSwipeEnd`: returns the calls made to `onSwipe` (one for a swipe
     * of the top card, none otherwise).
     */
    method OnDragEnded(translation: Size) returns (swipes: seq<SwipeDirection>)
      modifies this
      ensures |swipes| <= 1
      ensures |swipes| == 1 <==> isTopCard && IsSwipe(translation.width)
      ensures |swipes| == 1 ==> swipes[0] == DirectionOf(translation.width)
      // a swipe throws the card two widths off the side it went to, keeping its height
      ensures swipes != [] ==> offset.height == translation.height
      ensures swipes == [Right] ==> offset.width == 2.0 * cardWidth && rotation == 20.0 && scale == 0.8
      ensures swipes == [Left] ==> offset.width == -2.0 * cardWidth && rotation == -20.0 && scale == 0.8
      // a short release of the top card puts it back
      ensures isTopCard && !IsSwipe(translation.width) ==> offset == Zero && rotation == 0.0 && scale == 1.0
      ensures !isTopCard ==> offset == old(offset) && rotation == old(rotation) && scale == old(scale)
    {
      swipes := [];
      if isTopCard {
        var dx := translation.width;
        if Abs(dx) > SwipeThreshold {
          var direction := if dx > 0.0 then Right else Left;
          offset := Size(if dx > 0.0 then cardWidth * 2.0 else -cardWidth * 2.0, translation.height);
          rotation := if dx > 0.0 then 20.0 else -20.0;
          scale := 0.8;
          swipes := [direction];
        } else {
          offset := Zero;
          rotation := 0.0;
          scale := 1.0;
        }
      }
    }
  }
}
