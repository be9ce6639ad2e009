/**
 * The countdown hook: a held `TimeLeft` record, recomputed from the target
 * Date and the clock on mount and on every interval tick. An invalid
 * target leaves the record as it is; a passed target resets it to zeros.
 * The clock reading is the parameter `now`; the one-second interval is the
 * `IntervalTick` method, called by whoever drives time.
 */
module UseCountdown {
  import opened Wrappers
  import opened JsValues
  import opened TimeLeftCalc

  /** One run of the tick computation: `None` when the update is skipped. */
  function NextTimeLeft(target: Value, now: int): (r: Option<TimeLeft>)
    ensures r.None? <==> !IsValidDate(target)
    ensures r.Some? ==> InRange(r.value)
    ensures r.Some? && target.time.value > now ==>
              Millis(r.value) <= target.time.value - now < Millis(r.value) + MsPerSecond
    ensures r.Some? && target.time.value <= now ==> r.value == Zero
  {
    if !IsValidDate(target) then None
    else
      var difference := target.time.value - now;
      if difference > 0 then Some(Breakdown(difference)) else Some(Zero)
  }

  /** Once the target instant is reached, every later tick shows zeros. */
  lemma StaysZeroAfterEvent(t: int, now: int, later: int)
    requires t <= now <= later
    ensures NextTimeLeft(DateObj(Some(t)), now) == NextTimeLeft(DateObj(Some(t)), later) == Some(Zero)
  {
  }

  class Countdown {
    var target: Value
    var timeLeft: TimeLeft
    var intervalRunning: bool

    ghost predicate Valid()
      reads this
    {
      InRange(timeLeft)
    }

    /** Mount: the state starts at zeros and one tick runs at once, before the first interval tick. */
    constructor (target: Value, now: int)
      ensures Valid()
      ensures this.target == target && intervalRunning
      ensures timeLeft == NextTimeLeft(target, now).GetOr(Zero)
    {
      this.target := target;
      timeLeft := Zero;
      intervalRunning := true;
      new;
      CalculateTimeLeft(now);
    }

    /** One tick: recompute from the target, or keep the record when the target is invalid. */
    method CalculateTimeLeft(now: int)
      requires Valid()
      modifies this`timeLeft
      ensures Valid()
      ensures timeLeft == NextTimeLeft(target, now).GetOr(old(timeLeft))
    {
      var next := NextTimeLeft(target, now);
      if next.Some? {
        timeLeft := next.value;
      }
    }

    /** The interval fires; once it is cleared nothing happens. */
    method IntervalTick(now: int)
      requires Valid()
      modifies this`timeLeft
      ensures Valid()
      ensures timeLeft == if intervalRunning then NextTimeLeft(target, now).GetOr(old(timeLeft)) else old(timeLeft)
    {
      if intervalRunning {
        CalculateTimeLeft(now);
      }
    }

    /** A new target Date: the effect restarts, ticking once at once from the held record. */
    method ChangeTarget(newTarget: Value, now: int)
      requires Valid() && intervalRunning
      modifies this`target, this`timeLeft
      ensures Valid() && target == newTarget
      ensures timeLeft == NextTimeLeft(newTarget, now).GetOr(old(timeLeft))
    {
      target := newTarget;
      CalculateTimeLeft(now);
    }

    /** Teardown clears the interval. */
    method Unmount()
      requires Valid()
      modifies this`intervalRunning
      ensures Valid() && !intervalRunning
    {
      intervalRunning := false;
    }
  }
}
