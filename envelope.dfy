/**
 * The opening envelope: a one-way `isOpening` latch and the single delayed
 * `onOpen` call it schedules. The timeout is the `pendingDelay` field, the
 * delay it was scheduled with, and `FireTimer` is its expiry; `onOpenCalls`
 * counts the calls made to the parent's `onOpen`. The reduced-motion media
 * query is an input: its value on mount and its change events.
 */
module Envelope {
  import opened Wrappers

  /** Milliseconds the opening animation plays before `onOpen`. */
  const EnvelopeOpenDelay: nat := 1200

  /** The delay before `onOpen`: none when reduced motion is preferred. */
  function OpenDelay(prefersReducedMotion: bool): (d: nat)
    ensures d == 0 <==> prefersReducedMotion
    ensures !prefersReducedMotion ==> d == EnvelopeOpenDelay
  {
    if prefersReducedMotion then 0 else EnvelopeOpenDelay
  }

  /** The keys that open the envelope: Enter and Space. */
  predicate IsOpenKey(key: string) {
    key == "Enter" || key == " "
  }

  /** Only the exact `key` names count: not the legacy "Spacebar", not another case, not other keys. */
  lemma OpenKeysExactly()
    ensures IsOpenKey("Enter") && IsOpenKey(" ")
    ensures !IsOpenKey("Spacebar") && !IsOpenKey("enter") && !IsOpenKey("Escape") && !IsOpenKey("")
  {
  }

  class Envelope {
    var isOpening: bool
    var prefersReducedMotion: bool
    var pendingDelay: Option<nat>
    var onOpenCalls: nat
    var mounted: bool

    /** `onOpen` is scheduled or made only after the latch is set, and at most once in all. */
    ghost predicate Valid()
      reads this
    {
      && (!isOpening ==> pendingDelay.None? && onOpenCalls == 0)
      && onOpenCalls + (if pendingDelay.Some? then 1 else 0) <= 1
      && (!mounted ==> pendingDelay.None?)
    }

    constructor (reducedMotionOnMount: bool)
      ensures Valid() && mounted
      ensures !isOpening && pendingDelay.None? && onOpenCalls == 0
      ensures prefersReducedMotion == reducedMotionOnMount
    {
      isOpening := false;
      prefersReducedMotion := reducedMotionOnMount;
      pendingDelay := None;
      onOpenCalls := 0;
      mounted := true;
    }

    /** The media query reports a change. */
    method ReducedMotionChanged(matches: bool)
      requires Valid()
      modifies this`prefersReducedMotion
      ensures Valid() && prefersReducedMotion == matches
    {
      prefersReducedMotion := matches;
    }

    /** A click: the first one sets the latch and schedules one `onOpen`; later ones do nothing. */
    method HandleOpen()
      requires Valid() && mounted
      modifies this`isOpening, this`pendingDelay
      ensures Valid() && isOpening
      ensures old(isOpening) ==> pendingDelay == old(pendingDelay)
      ensures !old(isOpening) ==> pendingDelay == Some(OpenDelay(prefersReducedMotion))
    {
      if isOpening {
        return;
      }
      isOpening := true;
      pendingDelay := Some(OpenDelay(prefersReducedMotion));
    }

    /** A key press: Enter or Space opens a closed envelope, with the default action
        prevented; every other key, and every key once opening, is ignored. */
    method HandleKeyDown(key: string) returns (preventDefault: bool)
      requires Valid() && mounted
      modifies this`isOpening, this`pendingDelay
      ensures Valid()
      ensures preventDefault <==> IsOpenKey(key) && !old(isOpening)
      ensures preventDefault ==> isOpening && pendingDelay == Some(OpenDelay(prefersReducedMotion))
      ensures !preventDefault ==> isOpening == old(isOpening) && pendingDelay == old(pendingDelay)
    {
      preventDefault := IsOpenKey(key) && !isOpening;
      if preventDefault {
        HandleOpen();
      }
    }

    /** The scheduled timeout expires and calls `onOpen`; a cleared one never fires. */
    method FireTimer()
      requires Valid()
      modifies this`pendingDelay, this`onOpenCalls
      ensures Valid() && pendingDelay.None?
      ensures onOpenCalls == if old(pendingDelay).Some? then old(onOpenCalls) + 1 else old(onOpenCalls)
    {
      if pendingDelay.Some? {
        pendingDelay := None;
        onOpenCalls := onOpenCalls + 1;
      }
    }

    /** Teardown clears a pending timeout, so `onOpen` is not called afterwards. */
    method Unmount()
      requires Valid()
      modifies this`mounted, this`pendingDelay
      ensures Valid() && !mounted && pendingDelay.None?
    {
      mounted := false;
      pendingDelay := None;
    }
  }

  /** Two clicks and two timer expiries still call `onOpen` once, after 1200 ms. */
  method DoubleClickOpensOnce() returns (calls: nat)
    ensures calls == 1
  {
    var envelope := new Envelope(false);
    envelope.HandleOpen();
    assert envelope.pendingDelay == Some(1200);
    envelope.HandleOpen();
    envelope.FireTimer();
    envelope.FireTimer();
    assert envelope.isOpening;
    calls := envelope.onOpenCalls;
  }
}
