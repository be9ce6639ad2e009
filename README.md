# Invitation page widgets, modelled in Dafny

This project models the small rules under a one-page animated invitation.
It covers:

- the countdown to the event: the hook and the earlier component, with its display;
- the photo slider's state machine and its stable aspect ratio;
- the generic swipe recogniser;
- the validators for the event date and details;
- the envelope that opens once.

Everything is sequential. The clock, the media query and the image probes
are parameters. Timers are explicit methods: a tick, a timer firing, an unmount.

Modules:

| file | module | models |
|---|---|---|
| `time_left.dfy` | `TimeLeftCalc` | the days/hours/minutes/seconds breakdown both countdowns share |
| `use_countdown.dfy` | `UseCountdown` | `src/hooks/useCountdown.ts`: the held record, the tick, the reset and the invalid-date skip |
| `legacy_countdown.dfy` | `LegacyCountdown` | `components/Countdown.tsx`: the tick with no reset, and its unit boxes |
| `countdown_view.dfy` | `CountdownView` | `src/components/Countdown.tsx`: two-digit padding, unit order, captions, aria-labels |
| `image_slider.dfy` | `ImageSlider` | `src/components/ImageSlider.tsx`: navigation, touch, keys, auto-play timer, aspect ratio |
| `swipe.dfy` | `Swipe` | `src/hooks/useSwipe.ts`: gesture classification and handler dispatch |
| `date_validation.dfy` | `DateValidation` | `src/utils/dateValidation.ts` |
| `envelope.dfy` | `Envelope` | `src/components/Envelope.tsx`: the opening latch and its delayed `onOpen` |
| `js_values.dfy` | `JsValues` | JavaScript values, truthiness and `typeof`, as the validators and the hook see them |
| `arith.dfy`, `wrappers.dfy` | `Arithmetic`, `Wrappers` | division facts; `Option` |

Modelling choices:

- Times are integer milliseconds, because `Date.getTime()` yields integers.
  `TimeLeftCalc.BreakdownMatchesSource` proves that the source's
  `Math.floor((d / k) % m)` expressions, evaluated in exact reals with
  JavaScript's truncating `%`, equal the integer breakdown.
- A React state update plus the effects it triggers is one method.
  The slider's auto-play effect depends on `currentIndex`, `autoPlay`,
  `autoPlayDelay`, `isHovered` and `isTouching`. Props are fixed for the life
  of an instance here, so the effect runs again only when `currentIndex`,
  `isHovered` or `isTouching` changed. When it runs, it clears the old timer and
  arms a new one if `autoPlay && !isHovered && !isTouching` holds
  (`Slider.EffectRan`). `timersArmed` counts armed timers, so a fresh delay
  window shows as a new count.
- One consequence is modelled and proved in `Slider.FireAutoPlay`. With a single
  image, the index does not change when the timer fires. So the effect does not
  run again, and auto-advance stops after one firing.
- Touch coordinates and aspect ratios are exact `real`s.

Two behaviours worth knowing:

- The slider's comment calls 30 px the minimum swipe distance, but the test is
  strict: `Math.abs(deltaX) > 30`. Exactly 30 px changes nothing
  (`ImageSlider.TouchEndNavigation`).
- The hook resets to zeros once the target has passed. The earlier component
  keeps its last record (`LegacyCountdown.DiffersAfterEvent`).

## Model

| member | source | states |
|---|---|---|
| `TimeLeftCalc.Breakdown` | src/hooks/useCountdown.ts:34-40 | for a positive difference: hours < 24, minutes and seconds < 60, and the record accounts for the difference to within one second |
| `TimeLeftCalc.BreakdownUnique` | src/hooks/useCountdown.ts:36-39 | any in-range record that accounts for the difference to within a second is the breakdown |
| `TimeLeftCalc.SourceFields` | src/hooks/useCountdown.ts:36-39 | for a non-negative difference the source's four `Math.floor` expressions are integer division and remainder of the milliseconds by a day, an hour (mod 24), a minute (mod 60) and a second (mod 60) |
| `TimeLeftCalc.JsRemainderNonNegative` | src/hooks/useCountdown.ts:37-39 | for a non-negative dividend and positive divisor b, JavaScript's `%` lies in [0, b) |
| `TimeLeftCalc.JsRemainderNonPositive` | src/hooks/useCountdown.ts:37-39 | for a negative dividend and positive divisor b, JavaScript's `%` lies in (−b, 0]: the result takes the dividend's sign |
| `TimeLeftCalc.JsRemainderIgnoresDivisorSign` | src/hooks/useCountdown.ts:37-39 | `a % -b` equals `a % b` |
| `TimeLeftCalc.JsRemainderFollowsDividend` | src/hooks/useCountdown.ts:37-39 | three instances against Dafny's Euclidean `%`: −7 % 3 is −1 (Euclidean gives 2), 7 % −3 is 1, and 7.5 % 2 is 1.5 |
| `TimeLeftCalc.BreakdownMatchesSource` | components/Countdown.tsx:27-30 | the source's floor/remainder expressions on real quotients equal the integer breakdown |
| `TimeLeftCalc.BreakdownExample` | src/hooks/useCountdown.ts:36-39 | 90061000 ms is 1 day, 1 hour, 1 minute, 1 second |
| `JsValues.IsValidDate` | src/hooks/useCountdown.ts:27 | false for every non-Date; a Date passes exactly when it is not an Invalid Date; a passing value is truthy with `typeof` "object" |
| `UseCountdown.NextTimeLeft` | src/hooks/useCountdown.ts:24-48 | an invalid target skips the update; a future target gives the in-range breakdown; otherwise all zeros |
| `UseCountdown.StaysZeroAfterEvent` | src/hooks/useCountdown.ts:41-44 | from the target instant on, every tick gives zeros |
| `UseCountdown.Countdown.constructor` | src/hooks/useCountdown.ts:16-51 | state starts at zeros, one tick runs at once, the interval is running |
| `UseCountdown.Countdown.CalculateTimeLeft` | src/hooks/useCountdown.ts:24-48 | new record is the tick's result, or the old one for an invalid target; stays in range |
| `UseCountdown.Countdown.IntervalTick` | src/hooks/useCountdown.ts:51-53 | a tick while the interval runs; nothing once cleared |
| `UseCountdown.Countdown.ChangeTarget` | src/hooks/useCountdown.ts:50-54 | a new target restarts the effect with an immediate tick |
| `UseCountdown.Countdown.Unmount` | src/hooks/useCountdown.ts:53 | the interval is cleared |
| `LegacyCountdown.LegacyNextTimeLeft` | components/Countdown.tsx:22-33 | writes a record exactly when the difference is positive (not for NaN); that record is in range and accounts for the difference |
| `LegacyCountdown.AgreesWithHookBeforeEvent` | components/Countdown.tsx:25-31 | before the event the legacy tick equals the hook's |
| `LegacyCountdown.DiffersAfterEvent` | components/Countdown.tsx:25-32 | after the event the legacy tick keeps what was shown while the hook shows zeros |
| `LegacyCountdown.Countdown.constructor` | components/Countdown.tsx:19-36 | zeros, then one immediate tick |
| `LegacyCountdown.Countdown.CalculateTimeLeft` | components/Countdown.tsx:22-33 | new record only for a positive difference, otherwise unchanged |
| `LegacyCountdown.Countdown.IntervalTick` | components/Countdown.tsx:36-38 | a tick while the interval runs |
| `LegacyCountdown.Countdown.Unmount` | components/Countdown.tsx:38 | the interval is cleared |
| `LegacyCountdown.LegacyUnits` | components/Countdown.tsx:42-47 | four boxes in the order days, hours, minutes, seconds; each text is `Pad` of its field, as TimeUnit renders it at components/Countdown.tsx:11, and denotes that field; captions Días/Hrs/Min/Seg |
| `LegacyCountdown.DaysCaptionMisencoded` | components/Countdown.tsx:43 | the day caption as written is not "Días" |
| `CountdownView.DecimalRoundTrip` | src/components/Countdown.tsx:41 | the decimal text of a number parses back to it |
| `CountdownView.Pad` | src/components/Countdown.tsx:22 | a non-negative value is shown as digits that parse back to it, led by "0" exactly when it is below ten |
| `CountdownView.PadBelowTen` | src/components/Countdown.tsx:22 | 0..9 is shown as "0" followed by its digit |
| `CountdownView.PadTenOrMore` | components/Countdown.tsx:11 | values of 10 or more are plain decimal with no leading zero |
| `CountdownView.PadTwoDigits` | src/components/Countdown.tsx:22 | for 0..99 the text has length 2 and parses back to the value |
| `CountdownView.Box` | src/components/Countdown.tsx:14-27 | a box's text is `Pad` of its value, so it denotes the value; the caption is the unit's label; the aria-label starts with the unpadded value |
| `CountdownView.Units` | src/components/Countdown.tsx:38-57 | days, hours, minutes, seconds in that order; each text is `Pad` of its field and denotes it; captions Días/Hrs/Min/Seg; aria-labels "n días/horas/minutos/segundos restantes" |
| `ImageSlider.NextIndex` | src/components/ImageSlider.tsx:85 | stays in [0, N); the successor, wrapping from last to first |
| `ImageSlider.PrevIndex` | src/components/ImageSlider.tsx:90 | stays in [0, N); the predecessor, wrapping from first to last |
| `ImageSlider.NextPrevInverse` | src/components/ImageSlider.tsx:83-91 | prev undoes next and next undoes prev |
| `ImageSlider.AdvanceIsModular` | src/components/ImageSlider.tsx:85 | k nexts from i land on (i + k) mod N |
| `ImageSlider.RetreatIsModular` | src/components/ImageSlider.tsx:90 | k prevs from i land on (i - k) mod N |
| `ImageSlider.FullCycle` | src/components/ImageSlider.tsx:83-91 | N nexts, or N prevs, return to the start |
| `ImageSlider.DotDirection` | src/components/ImageSlider.tsx:94 | direction is 1 exactly when the dot is past the current index, otherwise -1 |
| `ImageSlider.TouchEndNavigation` | src/components/ImageSlider.tsx:118-129 | next iff start − end > 30, prev iff < −30, nothing within ±30 |
| `ImageSlider.KeyNavigation` | src/components/ImageSlider.tsx:133-139 | ArrowLeft is prev, ArrowRight is next, any other key nothing |
| `ImageSlider.AutoPlayArmed` | src/components/ImageSlider.tsx:72 | no timer when auto-play is off or while hovered or touched; a timer otherwise |
| `ImageSlider.DimensionOf` | src/components/ImageSlider.tsx:45-54 | a loaded image keeps its natural width and height, and its ratio times its height is its width; a failed load gives 16 × 9 with ratio 16/9 |
| `ImageSlider.DimensionsOf` | src/components/ImageSlider.tsx:40-58 | one entry per image, in image order |
| `ImageSlider.MaxRatio` | src/components/ImageSlider.tsx:67 | at least every entry's ratio and equal to one of them |
| `ImageSlider.StableAspectRatio` | src/components/ImageSlider.tsx:65-68 | 16/9 when nothing is loaded, otherwise the maximum ratio |
| `ImageSlider.FailedLoadCounts` | src/components/ImageSlider.tsx:52-54 | a failed load keeps the ratio at least 16/9 |
| `ImageSlider.RatioExample` | src/components/ImageSlider.tsx:65-68 | ratios 16/9, 4/3, 1 give 16/9 |
| `ImageSlider.Slider.constructor` | src/components/ImageSlider.tsx:17-32 | defaults autoPlay = true and delay 5000; index 0, direction 0; timer armed iff auto-play |
| `ImageSlider.Slider.RunAutoPlayEffect` | src/components/ImageSlider.tsx:71-81 | when a dependency changed: old timer cleared, a new one armed iff autoPlay ∧ ¬hovered ∧ ¬touching |
| `ImageSlider.Slider.Next` | src/components/ImageSlider.tsx:83-86 | direction 1, index advanced, effect applied, invariant kept |
| `ImageSlider.Slider.Prev` | src/components/ImageSlider.tsx:88-91 | direction -1, index moved back, effect applied |
| `ImageSlider.Slider.DotClick` | src/components/ImageSlider.tsx:93-96 | index becomes the dot's, direction by the dot rule |
| `ImageSlider.Slider.MouseEnter` | src/components/ImageSlider.tsx:170 | hovered; the pending timer is cleared |
| `ImageSlider.Slider.MouseLeave` | src/components/ImageSlider.tsx:171 | not hovered; a fresh timer when the arming condition holds |
| `ImageSlider.Slider.TouchStart` | src/components/ImageSlider.tsx:99-103 | start point recorded, touching set |
| `ImageSlider.Slider.TouchMove` | src/components/ImageSlider.tsx:105-113 | default prevented iff \|dx\| > \|dy\| and \|dx\| > 10; no state changes |
| `ImageSlider.Slider.TouchEnd` | src/components/ImageSlider.tsx:115-130 | touching cleared; next, prev or nothing by the swipe rule |
| `ImageSlider.Slider.KeyDown` | src/components/ImageSlider.tsx:133-139 | arrow keys navigate, other keys change nothing |
| `ImageSlider.Slider.FireAutoPlay` | src/components/ImageSlider.tsx:74-76 | a pending timer's firing is exactly next; re-armed only when the index changed |
| `ImageSlider.Slider.ImagesLoaded` | src/components/ImageSlider.tsx:38-62 | the dimensions become the probes' entries while mounted |
| `ImageSlider.Slider.Unmount` | src/components/ImageSlider.tsx:78-80 | the pending timer is cleared |
| `ImageSlider.HoverPausesAutoPlay` | src/components/ImageSlider.tsx:71-81 | with three images: a hover clears the timer so its firing moves nothing; leaving arms a fresh one, whose firing shows image 1 and arms a third |
| `Swipe.Dispatch` | src/hooks/useSwipe.ts:34-56 | the call made is d exactly when the gesture is a swipe in direction d and d's handler is present |
| `Swipe.SwipeDirectionUnique` | src/hooks/useSwipe.ts:38-54 | a gesture is a swipe in at most one direction |
| `Swipe.MissingHandlerCallsNothing` | src/hooks/useSwipe.ts:41-54 | a swipe whose handler is absent calls no handler at all |
| `Swipe.ShortGestureCallsNothing` | src/hooks/useSwipe.ts:40-49 | dominant-axis movement at or below the threshold calls nothing |
| `Swipe.TieIsVertical` | src/hooks/useSwipe.ts:38 | equal travel on both axes never calls a horizontal handler |
| `Swipe.SwipeRecognizer.constructor` | src/hooks/useSwipe.ts:16-19 | threshold defaults to 50; both points start at (0, 0) |
| `Swipe.SwipeRecognizer.TouchStart` | src/hooks/useSwipe.ts:21-26 | records the start point and calls nothing |
| `Swipe.SwipeRecognizer.TouchEnd` | src/hooks/useSwipe.ts:28-57 | records the end point; the call is the swipe's own present handler |
| `DateValidation.IsValidFutureDate` | src/utils/dateValidation.ts:6-25 | false for non-Dates and Invalid Dates; otherwise true iff strictly after now |
| `DateValidation.IsObjectLike` | src/utils/dateValidation.ts:35 | passes exactly Date objects and plain objects |
| `DateValidation.IsRequiredFutureDate` | src/utils/dateValidation.ts:40 | passes exactly valid Dates strictly after now |
| `DateValidation.IsRequiredString` | src/utils/dateValidation.ts:45 | passes exactly non-empty strings |
| `DateValidation.FirstRejection` | src/utils/dateValidation.ts:32-55 | each rejection occurs iff every earlier check passed and its own failed |
| `DateValidation.ValidateEventDetails` | src/utils/dateValidation.ts:32-60 | true iff a plain object with a future Date `date` and non-empty string `name` and `address` |
| `Envelope.OpenDelay` | src/components/Envelope.tsx:44 | 0 exactly under reduced motion, otherwise 1200 |
| `Envelope.OpenKeysExactly` | src/components/Envelope.tsx:52 | Enter and Space open; "Spacebar", "enter", Escape and the empty key do not |
| `Envelope.Envelope.constructor` | src/components/Envelope.tsx:11-19 | not opening, nothing scheduled, reduced-motion flag from the media query |
| `Envelope.Envelope.ReducedMotionChanged` | src/components/Envelope.tsx:21-23 | the flag follows the media query |
| `Envelope.Envelope.HandleOpen` | src/components/Envelope.tsx:38-48 | first call sets the latch and schedules one onOpen with that delay; later calls change nothing |
| `Envelope.Envelope.HandleKeyDown` | src/components/Envelope.tsx:50-56 | Enter or Space on a closed envelope opens it and prevents the default; other keys are ignored |
| `Envelope.Envelope.FireTimer` | src/components/Envelope.tsx:45-47 | a pending timeout calls onOpen once; onOpen is called at most once in all |
| `Envelope.Envelope.Unmount` | src/components/Envelope.tsx:30-36 | a pending timeout is cleared, so onOpen is not called afterwards |
| `Envelope.DoubleClickOpensOnce` | src/components/Envelope.tsx:38-48 | two clicks and two timer expiries call onOpen exactly once |

## Findings

| source | as written | input that shows it | evidently intended | confidence | as-written member | corrected member |
|---|---|---|---|---|---|---|
| components/Countdown.tsx:43 | the day caption literal is "Días" encoded as UTF-8 twice, read back as `D`, U+00C3, U+00AD, `as` | any render of the legacy countdown | the caption "Días", as in src/components/Countdown.tsx:40 | high (not executed) | `LegacyCountdown.DaysCaptionMisencoded` | `LegacyCountdown.LegacyUnits` |

## Left out

- Page markup, styling, framer-motion variants and the slider's `slideVariants`: presentation only.
- The timeline layout and the decorative components: presentation only.
- `window.matchMedia`: reduced motion is an input. `Envelope.Envelope.constructor` takes the value the mount effect reads, and `ReducedMotionChanged` stands for the change listener.
- Real time: `setInterval` and `setTimeout` become explicit tick, fire and unmount methods.
  The slider's `autoPlayDelay` is kept as a field. It is not used to schedule anything.
- The asynchronous `Image` probes in the slider and in `src/hooks/useImageDimensions.ts`: only their settled results are modelled (`ImagesLoaded`).
- ImageSlider.Slider.constructor: an empty `images` list is excluded (`count >= 1`). The source does not guard it: the render reads `images[currentIndex].src` of `undefined` (src/components/ImageSlider.tsx:196) and `% images.length` yields NaN, so it throws.
- ImageSlider.DimensionOf: a loaded image must report a positive natural height. A zero height gives an Infinity or NaN ratio in JavaScript, which is not modelled.
- IEEE-754 rounding in the countdown division and in `naturalWidth / naturalHeight`: exact integers and reals are used.
- The earlier countdown's target is `+targetDate`, a number or NaN. Non-Date targets are not modelled, because the legacy component does not check for them.
- Console logging and the `try`/`catch` blocks: every function is total, so the "never throws" promise holds by construction. Property getters that could throw are not modelled.
- Prop changes: props are fixed for the life of an instance. A change to the slider's `autoPlay`, `autoPlayDelay` or `images`, to the swipe hook's options, or to the earlier countdown's `targetDate` is not modelled, although the source's effects re-run on `autoPlay`, `autoPlayDelay` and `images` (src/components/ImageSlider.tsx:62, 81) and on `targetDate` (components/Countdown.tsx:39). Only the hook's target change is modelled (`UseCountdown.Countdown.ChangeTarget`).
- React batching across separate events: each handler here runs to completion and renders before the next one runs.
- `src/constants.ts` URL-parameter configuration, `constants.ts`, `types.ts`, `App.tsx`, `src/App.tsx` and `components/Envelope.tsx` are not part of this model.
