/**
 * The generic swipe hook: touch-start records a point, touch-end records
 * another, classifies the gesture by its dominant axis and calls at most
 * one of the four optional handlers. A handler is modelled by its presence
 * in `handlers`; the call is the returned direction.
 */
module Swipe {
  import opened Wrappers
  import opened Arithmetic

  const DefaultThreshold: real := 50.0

  datatype Direction = Left | Right | Up | Down

  datatype Point = Point(x: real, y: real)

  /** The hook's options; an absent threshold means 50 pixels. */
  datatype SwipeOptions = SwipeOptions(threshold: Option<real>, handlers: set<Direction>)

  /** When a gesture counts as a swipe in direction `d`: horizontal gestures
      move strictly more along x (a tie is vertical), and the movement along
      the dominant axis exceeds the threshold in that direction's sense. */
  predicate IsSwipe(d: Direction, deltaX: real, deltaY: real, threshold: real) {
    match d
    case Left => Abs(deltaX) > Abs(deltaY) && Abs(deltaX) > threshold && deltaX > 0.0
    case Right => Abs(deltaX) > Abs(deltaY) && Abs(deltaX) > threshold && deltaX < 0.0
    case Up => Abs(deltaX) <= Abs(deltaY) && Abs(deltaY) > threshold && deltaY > 0.0
    case Down => Abs(deltaX) <= Abs(deltaY) && Abs(deltaY) > threshold && deltaY < 0.0
  }

  /** The handler called for displacement (`deltaX`, `deltaY`) = start minus end: exactly the swipe's own handler, when present. */
  function Dispatch(deltaX: real, deltaY: real, threshold: real, handlers: set<Direction>): (r: Option<Direction>)
    ensures forall d :: r == Some(d) <==> IsSwipe(d, deltaX, deltaY, threshold) && d in handlers
  {
    if Abs(deltaX) > Abs(deltaY) then
      if Abs(deltaX) > threshold then
        if deltaX > 0.0 && Left in handlers then Some(Left)
        else if deltaX < 0.0 && Right in handlers then Some(Right)
        else None
      else None
    else
      if Abs(deltaY) > threshold then
        if deltaY > 0.0 && Up in handlers then Some(Up)
        else if deltaY < 0.0 && Down in handlers then Some(Down)
        else None
      else None
  }

  /** A gesture is a swipe in at most one direction. */
  lemma SwipeDirectionUnique(d: Direction, e: Direction, deltaX: real, deltaY: real, threshold: real)
    requires IsSwipe(d, deltaX, deltaY, threshold) && IsSwipe(e, deltaX, deltaY, threshold)
    ensures d == e
  {
  }

  /** A missing handler does not fall through: no call is made at all. */
  lemma MissingHandlerCallsNothing(d: Direction, deltaX: real, deltaY: real, threshold: real, handlers: set<Direction>)
    requires IsSwipe(d, deltaX, deltaY, threshold) && d !in handlers
    ensures Dispatch(deltaX, deltaY, threshold, handlers) == None
  {
    if Dispatch(deltaX, deltaY, threshold, handlers).Some? {
      var e := Dispatch(deltaX, deltaY, threshold, handlers).value;
      SwipeDirectionUnique(d, e, deltaX, deltaY, threshold);
    }
  }

  /** Movement along the dominant axis at or below the threshold calls nothing. */
  lemma ShortGestureCallsNothing(deltaX: real, deltaY: real, threshold: real, handlers: set<Direction>)
    requires Abs(deltaX) > Abs(deltaY) ==> Abs(deltaX) <= threshold
    requires Abs(deltaX) <= Abs(deltaY) ==> Abs(deltaY) <= threshold
    ensures Dispatch(deltaX, deltaY, threshold, handlers) == None
  {
  }

  /** A diagonal with equal travel on both axes is never a horizontal swipe. */
  lemma TieIsVertical(deltaX: real, deltaY: real, threshold: real, handlers: set<Direction>)
    requires Abs(deltaX) == Abs(deltaY)
    ensures Dispatch(deltaX, deltaY, threshold, handlers) != Some(Left)
    ensures Dispatch(deltaX, deltaY, threshold, handlers) != Some(Right)
  {
  }

  class SwipeRecognizer {
    const threshold: real
    const handlers: set<Direction>
    var touchStart: Point
    var touchEnd: Point

    constructor (options: SwipeOptions)
      ensures threshold == options.threshold.GetOr(DefaultThreshold)
      ensures handlers == options.handlers
      ensures touchStart == Point(0.0, 0.0) && touchEnd == Point(0.0, 0.0)
    {
      threshold := options.threshold.GetOr(DefaultThreshold);
      handlers := options.handlers;
      touchStart := Point(0.0, 0.0);
      touchEnd := Point(0.0, 0.0);
    }

    /** Record where the touch began; no handler is called. */
    method TouchStart(p: Point)
      modifies this`touchStart
      ensures touchStart == p
    {
      touchStart := p;
    }

    /** Record where the touch ended and return the handler called, if any. */
    method TouchEnd(p: Point) returns (called: Option<Direction>)
      modifies this`touchEnd
      ensures touchEnd == p
      ensures forall d :: called == Some(d) <==>
                IsSwipe(d, touchStart.x - p.x, touchStart.y - p.y, threshold) && d in handlers
    {
      touchEnd := p;
      var deltaX := touchStart.x - touchEnd.x;
      var deltaY := touchStart.y - touchEnd.y;
      called := Dispatch(deltaX, deltaY, threshold, handlers);
    }
  }
}
