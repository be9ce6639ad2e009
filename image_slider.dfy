/**
 * The photo slider: which of `count` images is shown, the direction hint
 * for the transition, hover and touch flags, the recorded touch start, the
 * measured image dimensions and the single-shot auto-advance timer.
 * Each handler is one method; the auto-play effect that React runs after a
 * render whose dependencies changed is folded into the handler that caused
 * the render. The timer is a pending flag plus a count of timers armed, so a
 * fresh delay window shows as a new count; `FireAutoPlay` is the timer firing.
 */
module ImageSlider {
  import opened Wrappers
  import opened Arithmetic

  const DefaultAutoPlay: bool := true
  const DefaultAutoPlayDelay: int := 5000
  /** Horizontal travel, in pixels, a touch must exceed to change image. */
  const MinSwipeDistance: real := 30.0
  /** Horizontal travel, in pixels, past which a touch move blocks page scrolling. */
  const ScrollLockDistance: real := 10.0
  const FallbackRatio: real := 16.0 / 9.0

  // ---------------------------------------------------------------------
  // Index arithmetic

  /** The image after `i`, wrapping from the last to the first. */
  function NextIndex(i: int, n: int): (r: int)
    requires 0 <= i < n
    ensures 0 <= r < n
    ensures r == if i == n - 1 then 0 else i + 1
  {
    (i + 1) % n
  }

  /** The image before `i`, wrapping from the first to the last. */
  function PrevIndex(i: int, n: int): (r: int)
    requires 0 <= i < n
    ensures 0 <= r < n
    ensures r == if i == 0 then n - 1 else i - 1
  {
    (i - 1 + n) % n
  }

  /** Going back undoes going forward, and the other way round. */
  lemma NextPrevInverse(i: int, n: int)
    requires 0 <= i < n
    ensures PrevIndex(NextIndex(i, n), n) == i
    ensures NextIndex(PrevIndex(i, n), n) == i
  {
  }

  /** The index after `k` forward steps from `i`. */
  function Advance(i: int, k: nat, n: int): (r: int)
    requires 0 <= i < n
    ensures 0 <= r < n
  {
    if k == 0 then i else NextIndex(Advance(i, k - 1, n), n)
  }

  /** The index after `k` backward steps from `i`. */
  function Retreat(i: int, k: nat, n: int): (r: int)
    requires 0 <= i < n
    ensures 0 <= r < n
  {
    if k == 0 then i else PrevIndex(Retreat(i, k - 1, n), n)
  }

  lemma {:induction false} AdvanceIsModular(i: int, k: nat, n: int)
    requires 0 <= i < n
    ensures Advance(i, k, n) == (i + k) % n
  {
    if k == 0 {
      ModUnique(i, n, 0, i);
    } else {
      AdvanceIsModular(i, k - 1, n);
      ModSucc(i + k - 1, n);
    }
  }

  lemma {:induction false} RetreatIsModular(i: int, k: nat, n: int)
    requires 0 <= i < n
    ensures Retreat(i, k, n) == (i - k) % n
  {
    if k == 0 {
      ModUnique(i, n, 0, i);
    } else {
      RetreatIsModular(i, k - 1, n);
      ModPred(i - k + 1, n);
    }
  }

  /** `n` steps either way around `n` images come back to the start. */
  lemma FullCycle(i: int, n: int)
    requires 0 <= i < n
    ensures Advance(i, n, n) == i
    ensures Retreat(i, n, n) == i
  {
    AdvanceIsModular(i, n, n);
    RetreatIsModular(i, n, n);
    ModUnique(i + n, n, 1, i);
    ModUnique(i - n, n, -1, i);
  }

  // ---------------------------------------------------------------------
  // Input decisions

  /** The direction hint for selecting dot `target` while `current` is shown. */
  function DotDirection(target: int, current: int): (d: int)
    ensures d == 1 <==> target > current
    ensures d == -1 <==> target <= current
  {
    if target > current then 1 else -1
  }

  /** What a gesture or a key asks of the slider. */
  datatype Nav = Stay | Forward | Backward

  /** Release of a touch that started at `startX` and ended at `endX`. */
  function TouchEndNavigation(startX: real, endX: real): (nav: Nav)
    ensures nav == Forward <==> startX - endX > MinSwipeDistance
    ensures nav == Backward <==> startX - endX < -MinSwipeDistance
    ensures nav == Stay <==> -MinSwipeDistance <= startX - endX <= MinSwipeDistance
  {
    var deltaX := startX - endX;
    if Abs(deltaX) > MinSwipeDistance then
      if deltaX > 0.0 then Forward else Backward
    else Stay
  }

  /** Keyboard navigation: the two arrow keys and nothing else. */
  function KeyNavigation(key: string): (nav: Nav)
    ensures nav == Backward <==> key == "ArrowLeft"
    ensures nav == Forward <==> key == "ArrowRight"
    ensures nav == Stay <==> key != "ArrowLeft" && key != "ArrowRight"
  {
    if key == "ArrowLeft" then Backward
    else if key == "ArrowRight" then Forward
    else Stay
  }

  /** The auto-advance timer is armed only while auto-play is on and the slider is neither hovered nor touched. */
  predicate AutoPlayArmed(autoPlay: bool, hovered: bool, touching: bool): (r: bool)
    ensures !autoPlay ==> !r
    ensures hovered || touching ==> !r
    ensures autoPlay && !hovered && !touching ==> r
  {
    autoPlay && !hovered && !touching
  }

  // ---------------------------------------------------------------------
  // Aspect ratio

  datatype Dimension = Dimension(width: real, height: real, aspectRatio: real)

  /** The result of probing one image: its natural size, or a failed load. */
  datatype LoadOutcome = Loaded(naturalWidth: nat, naturalHeight: nat) | LoadFailed

  const FallbackDimension: Dimension := Dimension(16.0, 9.0, 16.0 / 9.0)

  predicate Measurable(o: LoadOutcome) {
    o.Loaded? ==> o.naturalHeight > 0
  }

  /** One probe's entry; a failed load contributes 16:9 instead of being dropped. */
  function DimensionOf(o: LoadOutcome): (d: Dimension)
    requires Measurable(o)
    ensures o.Loaded? ==> d.width == o.naturalWidth as real && d.height == o.naturalHeight as real
    ensures o.Loaded? ==> d.aspectRatio * (o.naturalHeight as real) == o.naturalWidth as real
    ensures o.LoadFailed? ==> d == FallbackDimension && d.aspectRatio == FallbackRatio
  {
    match o
    case Loaded(w, h) => Dimension(w as real, h as real, (w as real) / (h as real))
    case LoadFailed => FallbackDimension
  }

  /** All probes' entries, in image order. */
  function DimensionsOf(outcomes: seq<LoadOutcome>): (ds: seq<Dimension>)
    requires forall i :: 0 <= i < |outcomes| ==> Measurable(outcomes[i])
    ensures |ds| == |outcomes|
    ensures forall i :: 0 <= i < |ds| ==> ds[i] == DimensionOf(outcomes[i])
  {
    seq(|outcomes|, i requires 0 <= i < |outcomes| => DimensionOf(outcomes[i]))
  }

  /** The largest ratio: at least every entry's, and equal to one of them. */
  function MaxRatio(ds: seq<Dimension>): (r: real)
    requires |ds| > 0
    ensures forall i :: 0 <= i < |ds| ==> ds[i].aspectRatio <= r
    ensures exists i :: 0 <= i < |ds| && ds[i].aspectRatio == r
  {
    if |ds| == 1 then ds[0].aspectRatio
    else
      var rest := MaxRatio(ds[1..]);
      assert forall i :: 1 <= i < |ds| ==> ds[i] == ds[1..][i - 1];
      if ds[0].aspectRatio > rest then ds[0].aspectRatio else rest
  }

  /** The display ratio: 16:9 until dimensions exist, then the widest image's. */
  function StableAspectRatio(ds: seq<Dimension>): (r: real)
    ensures |ds| == 0 ==> r == FallbackRatio
    ensures forall i :: 0 <= i < |ds| ==> ds[i].aspectRatio <= r
    ensures |ds| > 0 ==> exists i :: 0 <= i < |ds| && ds[i].aspectRatio == r
  {
    if |ds| == 0 then FallbackRatio else MaxRatio(ds)
  }

  /** A failed load still counts, as 16:9, so the ratio is at least 16:9. */
  lemma FailedLoadCounts(outcomes: seq<LoadOutcome>, k: int)
    requires forall i :: 0 <= i < |outcomes| ==> Measurable(outcomes[i])
    requires 0 <= k < |outcomes| && outcomes[k].LoadFailed?
    ensures StableAspectRatio(DimensionsOf(outcomes)) >= FallbackRatio
  {
    assert DimensionsOf(outcomes)[k].aspectRatio == FallbackRatio;
  }

  /** Images of ratio 16:9, 4:3 and 1:1 are shown in a 16:9 box. */
  lemma RatioExample()
    ensures StableAspectRatio(DimensionsOf([Loaded(1600, 900), Loaded(800, 600), Loaded(500, 500)])) == 16.0 / 9.0
  {
    var ds := DimensionsOf([Loaded(1600, 900), Loaded(800, 600), Loaded(500, 500)]);
    assert ds[0].aspectRatio == 16.0 / 9.0;
    assert ds[1].aspectRatio == 4.0 / 3.0;
    assert ds[2].aspectRatio == 1.0;
  }

  // ---------------------------------------------------------------------
  // The widget

  class Slider {
    const count: nat
    const autoPlay: bool
    const autoPlayDelay: int
    var currentIndex: int
    var direction: int
    var isHovered: bool
    var isTouching: bool
    var touchStartX: real
    var touchStartY: real
    var imageDimensions: seq<Dimension>
    var timerPending: bool
    var timersArmed: nat
    var mounted: bool

    ghost predicate Valid()
      reads this
    {
      && 0 <= currentIndex < count
      && (direction == -1 || direction == 0 || direction == 1)
      && (timerPending ==> mounted && AutoPlayArmed(autoPlay, isHovered, isTouching))
    }

    /** The auto-play effect after a render from index `i0`, hover `h0` and touch `t0`:
        when one of them changed, the old timer is cleared and a fresh one armed
        exactly when the arming condition holds; otherwise the timer is untouched. */
    ghost predicate EffectRan(i0: int, h0: bool, t0: bool, pending0: bool, armed0: nat)
      reads this
    {
      if mounted && (currentIndex != i0 || isHovered != h0 || isTouching != t0) then
        && timerPending == AutoPlayArmed(autoPlay, isHovered, isTouching)
        && timersArmed == (if timerPending then armed0 + 1 else armed0)
      else
        timerPending == pending0 && timersArmed == armed0
    }

    /** Mount: the first image, no direction, and the timer armed when auto-play is on. */
    constructor (count: nat, autoPlay: Option<bool>, autoPlayDelay: Option<int>)
      requires count >= 1
      ensures Valid() && mounted
      ensures this.count == count
      ensures this.autoPlay == autoPlay.GetOr(DefaultAutoPlay)
      ensures this.autoPlayDelay == autoPlayDelay.GetOr(DefaultAutoPlayDelay)
      ensures currentIndex == 0 && direction == 0 && !isHovered && !isTouching
      ensures touchStartX == 0.0 && touchStartY == 0.0 && imageDimensions == []
      ensures timerPending == this.autoPlay
      ensures timersArmed == if this.autoPlay then 1 else 0
    {
      this.count := count;
      var enabled := autoPlay.GetOr(DefaultAutoPlay);
      this.autoPlay := enabled;
      this.autoPlayDelay := autoPlayDelay.GetOr(DefaultAutoPlayDelay);
      currentIndex, direction := 0, 0;
      isHovered, isTouching := false, false;
      touchStartX, touchStartY := 0.0, 0.0;
      imageDimensions := [];
      mounted := true;
      timerPending := enabled;
      timersArmed := if enabled then 1 else 0;
    }

    method RunAutoPlayEffect(i0: int, h0: bool, t0: bool)
      requires 0 <= currentIndex < count
      requires direction == -1 || direction == 0 || direction == 1
      requires timerPending ==> mounted && AutoPlayArmed(autoPlay, h0, t0)
      modifies this`timerPending, this`timersArmed
      ensures Valid()
      ensures EffectRan(i0, h0, t0, old(timerPending), old(timersArmed))
    {
      if mounted && (currentIndex != i0 || isHovered != h0 || isTouching != t0) {
        timerPending := false;
        if AutoPlayArmed(autoPlay, isHovered, isTouching) {
          timerPending := true;
          timersArmed := timersArmed + 1;
        }
      }
    }

    /** Apply a navigation request to index and direction, without the effect. */
    method Navigate(nav: Nav)
      requires 0 <= currentIndex < count
      modifies this`currentIndex, this`direction
      ensures 0 <= currentIndex < count
      ensures nav == Forward ==> direction == 1 && currentIndex == NextIndex(old(currentIndex), count)
      ensures nav == Backward ==> direction == -1 && currentIndex == PrevIndex(old(currentIndex), count)
      ensures nav == Stay ==> direction == old(direction) && currentIndex == old(currentIndex)
    {
      match nav
      case Forward =>
        direction := 1;
        currentIndex := NextIndex(currentIndex, count);
      case Backward =>
        direction := -1;
        currentIndex := PrevIndex(currentIndex, count);
      case Stay =>
    }

    /** The next-image button. */
    method Next()
      requires Valid() && mounted
      modifies this`currentIndex, this`direction, this`timerPending, this`timersArmed
      ensures Valid()
      ensures direction == 1 && currentIndex == NextIndex(old(currentIndex), count)
      ensures EffectRan(old(currentIndex), isHovered, isTouching, old(timerPending), old(timersArmed))
    {
      var i0 := currentIndex;
      Navigate(Forward);
      RunAutoPlayEffect(i0, isHovered, isTouching);
    }

    /** The previous-image button. */
    method Prev()
      requires Valid() && mounted
      modifies this`currentIndex, this`direction, this`timerPending, this`timersArmed
      ensures Valid()
      ensures direction == -1 && currentIndex == PrevIndex(old(currentIndex), count)
      ensures EffectRan(old(currentIndex), isHovered, isTouching, old(timerPending), old(timersArmed))
    {
      var i0 := currentIndex;
      Navigate(Backward);
      RunAutoPlayEffect(i0, isHovered, isTouching);
    }

    /** One of the dots, for image `index`. */
    method DotClick(index: int)
      requires Valid() && mounted
      requires 0 <= index < count
      modifies this`currentIndex, this`direction, this`timerPending, this`timersArmed
      ensures Valid()
      ensures currentIndex == index
      ensures direction == DotDirection(index, old(currentIndex))
      ensures EffectRan(old(currentIndex), isHovered, isTouching, old(timerPending), old(timersArmed))
    {
      var i0 := currentIndex;
      direction := DotDirection(index, currentIndex);
      currentIndex := index;
      RunAutoPlayEffect(i0, isHovered, isTouching);
    }

    method MouseEnter()
      requires Valid() && mounted
      modifies this`isHovered, this`timerPending, this`timersArmed
      ensures Valid() && isHovered
      ensures EffectRan(currentIndex, old(isHovered), isTouching, old(timerPending), old(timersArmed))
    {
      var h0 := isHovered;
      isHovered := true;
      RunAutoPlayEffect(currentIndex, h0, isTouching);
    }

    method MouseLeave()
      requires Valid() && mounted
      modifies this`isHovered, this`timerPending, this`timersArmed
      ensures Valid() && !isHovered
      ensures EffectRan(currentIndex, old(isHovered), isTouching, old(timerPending), old(timersArmed))
    {
      var h0 := isHovered;
      isHovered := false;
      RunAutoPlayEffect(currentIndex, h0, isTouching);
    }

    /** A finger goes down at (`x`, `y`). */
    method TouchStart(x: real, y: real)
      requires Valid() && mounted
      modifies this`isTouching, this`touchStartX, this`touchStartY, this`timerPending, this`timersArmed
      ensures Valid() && isTouching
      ensures touchStartX == x && touchStartY == y
      ensures EffectRan(currentIndex, isHovered, old(isTouching), old(timerPending), old(timersArmed))
    {
      var t0 := isTouching;
      isTouching := true;
      touchStartX, touchStartY := x, y;
      RunAutoPlayEffect(currentIndex, isHovered, t0);
    }

    /** The finger moves to (`x`, `y`): the default scrolling is blocked for a
        mostly-horizontal move beyond the lock distance; nothing else happens. */
    method TouchMove(x: real, y: real) returns (preventDefault: bool)
      ensures preventDefault <==>
                Abs(x - touchStartX) > Abs(y - touchStartY) && Abs(x - touchStartX) > ScrollLockDistance
    {
      var deltaX := Abs(x - touchStartX);
      var deltaY := Abs(y - touchStartY);
      preventDefault := deltaX > deltaY && deltaX > ScrollLockDistance;
    }

    /** The finger lifts at horizontal position `x`. */
    method TouchEnd(x: real)
      requires Valid() && mounted
      modifies this`isTouching, this`currentIndex, this`direction, this`timerPending, this`timersArmed
      ensures Valid() && !isTouching
      ensures TouchEndNavigation(touchStartX, x) == Forward ==>
                direction == 1 && currentIndex == NextIndex(old(currentIndex), count)
      ensures TouchEndNavigation(touchStartX, x) == Backward ==>
                direction == -1 && currentIndex == PrevIndex(old(currentIndex), count)
      ensures TouchEndNavigation(touchStartX, x) == Stay ==>
                direction == old(direction) && currentIndex == old(currentIndex)
      ensures EffectRan(old(currentIndex), isHovered, old(isTouching), old(timerPending), old(timersArmed))
    {
      var i0, t0 := currentIndex, isTouching;
      isTouching := false;
      Navigate(TouchEndNavigation(touchStartX, x));
      RunAutoPlayEffect(i0, isHovered, t0);
    }

    method KeyDown(key: string)
      requires Valid() && mounted
      modifies this`currentIndex, this`direction, this`timerPending, this`timersArmed
      ensures Valid()
      ensures key == "ArrowLeft" ==> direction == -1 && currentIndex == PrevIndex(old(currentIndex), count)
      ensures key == "ArrowRight" ==> direction == 1 && currentIndex == NextIndex(old(currentIndex), count)
      ensures key != "ArrowLeft" && key != "ArrowRight" ==>
                direction == old(direction) && currentIndex == old(currentIndex)
      ensures EffectRan(old(currentIndex), isHovered, isTouching, old(timerPending), old(timersArmed))
    {
      var i0 := currentIndex;
      Navigate(KeyNavigation(key));
      RunAutoPlayEffect(i0, isHovered, isTouching);
    }

    /** The auto-advance timer fires: exactly a move to the next image. A
        cleared timer never fires, so without a pending timer nothing happens. */
    method FireAutoPlay()
      requires Valid()
      modifies this`currentIndex, this`direction, this`timerPending, this`timersArmed
      ensures Valid()
      ensures !old(timerPending) ==>
                currentIndex == old(currentIndex) && direction == old(direction)
                && !timerPending && timersArmed == old(timersArmed)
      ensures old(timerPending) ==> direction == 1 && currentIndex == NextIndex(old(currentIndex), count)
      ensures old(timerPending) && count == 1 ==> !timerPending && timersArmed == old(timersArmed)
      ensures old(timerPending) && count > 1 ==> timerPending && timersArmed == old(timersArmed) + 1
    {
      if timerPending {
        var i0 := currentIndex;
        timerPending := false;
        Navigate(Forward);
        RunAutoPlayEffect(i0, isHovered, isTouching);
      }
    }

    /** All image probes have settled; results arriving after unmount are dropped. */
    method ImagesLoaded(outcomes: seq<LoadOutcome>)
      requires Valid()
      requires |outcomes| == count
      requires forall i :: 0 <= i < |outcomes| ==> Measurable(outcomes[i])
      modifies this`imageDimensions
      ensures Valid()
      ensures imageDimensions == if mounted then DimensionsOf(outcomes) else old(imageDimensions)
    {
      if mounted {
        imageDimensions := DimensionsOf(outcomes);
      }
    }

    /** Teardown clears the pending timer. */
    method Unmount()
      requires Valid()
      modifies this`mounted, this`timerPending
      ensures Valid() && !mounted && !timerPending
    {
      mounted := false;
      timerPending := false;
    }
  }

  /** Three images, a 4000 ms delay, and a hover before the timer fires: the
      timer is cleared, so firing it changes nothing, and leaving arms a fresh one. */
  method HoverPausesAutoPlay() returns (shown: int, armed: nat)
    ensures shown == 1 && armed == 3
  {
    var slider := new Slider(3, Some(true), Some(4000));
    assert slider.timerPending && slider.timersArmed == 1;
    slider.MouseEnter();
    assert !slider.timerPending;
    slider.FireAutoPlay();
    assert slider.currentIndex == 0;
    slider.MouseLeave();
    assert slider.timerPending && slider.timersArmed == 2;
    slider.FireAutoPlay();
    shown, armed := slider.currentIndex, slider.timersArmed;
  }
}
