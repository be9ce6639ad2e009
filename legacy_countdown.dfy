/**
 * The earlier countdown component. It writes its record only while the
 * difference is positive, so there is no reset once the target has passed,
 * and a NaN difference (an Invalid Date) also writes nothing.
 */
module LegacyCountdown {
  import opened Wrappers
  import opened JsValues
  import opened TimeLeftCalc
  import UseCountdown
  import CountdownView

  /** One run of the legacy tick; `targetTime` is `+targetDate`, `None` standing for NaN. */
  function LegacyNextTimeLeft(targetTime: Option<int>, now: int): (r: Option<TimeLeft>)
    ensures r.Some? <==> targetTime.Some? && targetTime.value > now
    ensures r.Some? ==> InRange(r.value)
    ensures r.Some? ==> Millis(r.value) <= targetTime.value - now < Millis(r.value) + MsPerSecond
  {
    if targetTime.Some? && targetTime.value - now > 0 then Some(Breakdown(targetTime.value - now))
    else None
  }

  /** Before the event both versions compute the same record. */
  lemma AgreesWithHookBeforeEvent(t: int, now: int)
    requires t > now
    ensures LegacyNextTimeLeft(Some(t), now) == UseCountdown.NextTimeLeft(DateObj(Some(t)), now)
  {
  }

  /** After the event the hook resets to zeros while the legacy tick keeps whatever was shown. */
  lemma DiffersAfterEvent(t: int, now: int, shown: TimeLeft)
    requires t <= now
    ensures LegacyNextTimeLeft(Some(t), now).GetOr(shown) == shown
    ensures UseCountdown.NextTimeLeft(DateObj(Some(t)), now).GetOr(shown) == Zero
  {
  }

  /** The day caption as the legacy file holds it: "Días" encoded twice,
      which the page shows as `D`, U+00C3, U+00AD, `as`. */
  const DaysCaptionAsWritten: string := "D\U{c3}\U{ad}as"

  /** The caption as written is not the word the newer component shows. */
  lemma DaysCaptionMisencoded()
    ensures DaysCaptionAsWritten != CountdownView.Labels[0]
    ensures |DaysCaptionAsWritten| == |CountdownView.Labels[0]| + 1
    ensures DaysCaptionAsWritten[1] != CountdownView.Labels[0][1]
  {
  }

  /** The legacy boxes, value text and caption, days first; the padding rule
      is the newer one's and the day caption is the intended "Días". */
  function LegacyUnits(t: TimeLeft): (r: seq<(string, string)>)
    ensures |r| == 4
    ensures forall k :: 0 <= k < 4 ==> r[k].1 == CountdownView.Labels[k]
    ensures forall k :: 0 <= k < 4 ==> r[k].0 == CountdownView.Pad(CountdownView.Fields(t)[k])
    ensures forall k :: 0 <= k < 4 ==>
              CountdownView.AllDigits(r[k].0) && CountdownView.ParseDecimal(r[k].0) == CountdownView.Fields(t)[k]
  {
    var boxes := CountdownView.Units(t);
    seq(4, k requires 0 <= k < 4 => (boxes[k].text, boxes[k].caption))
  }

  class Countdown {
    const targetTime: Option<int>
    var timeLeft: TimeLeft
    var intervalRunning: bool

    ghost predicate Valid()
      reads this
    {
      InRange(timeLeft)
    }

    /** Mount: zeros, then one tick at once. */
    constructor (targetTime: Option<int>, now: int)
      ensures Valid()
      ensures this.targetTime == targetTime && intervalRunning
      ensures timeLeft == LegacyNextTimeLeft(targetTime, now).GetOr(Zero)
    {
      this.targetTime := targetTime;
      timeLeft := Zero;
      intervalRunning := true;
      new;
      CalculateTimeLeft(now);
    }

    method CalculateTimeLeft(now: int)
      requires Valid()
      modifies this`timeLeft
      ensures Valid()
      ensures timeLeft == LegacyNextTimeLeft(targetTime, now).GetOr(old(timeLeft))
    {
      timeLeft := LegacyNextTimeLeft(targetTime, now).GetOr(timeLeft);
    }

    method IntervalTick(now: int)
      requires Valid()
      modifies this`timeLeft
      ensures Valid()
      ensures timeLeft == if intervalRunning then LegacyNextTimeLeft(targetTime, now).GetOr(old(timeLeft)) else old(timeLeft)
    {
      if intervalRunning {
        CalculateTimeLeft(now);
      }
    }

    method Unmount()
      requires Valid()
      modifies this`intervalRunning
      ensures Valid() && !intervalRunning
    {
      intervalRunning := false;
    }
  }
}
