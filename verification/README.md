# Image carousel controller

A Dafny model of the image slider of `ise/01-2026/assets/js/slider.js`: an
auto-advancing carousel whose indicators can be clicked or activated with
Enter/Space, whose section reacts to ArrowLeft/ArrowRight, and whose
auto-play pauses on hover, on focus and while the page is hidden.

The model has three modules:

- `SlideMath` (`slide_math.dfy`): the pure arithmetic. JavaScript's `%` is
  written out as a truncating remainder (`JsRem`), the wrap-around steps of
  `nextSlide` and of the ArrowLeft handler are `Next` and `Prev`, the track
  offset `-(currentSlide * 100) / totalSlides` is kept as an exact `real`
  (`OffsetOf`), and `Rendered(m, i)` is the list of indicator states that
  `goToSlide(i)` leaves behind.
- `AutoPlay` (`auto_play.dfy`): the timers as values. A `TimerState` holds the
  controller's `autoPlayInterval` handle, the set of intervals the browser
  still has live, the next handle the browser hands out, and the number of
  one-shot restarts scheduled by `setTimeout` and not yet fired. `Stopped`,
  `Started`, `Paused` and `Resumed` are what `stopAutoPlay`, `startAutoPlay`,
  a manual navigation and a firing restart do to them.
- `Slider` (`slider.dfy`): the controller itself as the class `Carousel`,
  whose fields are the closure variables of `initSlider` (`currentSlide`,
  `autoPlayInterval`, `totalSlides`), the indicator array, the track offset
  and the timers; one method per inner function and per event handler. Each
  method's postcondition ties the new state to the old one through the
  functions above. `InitSlider` is the guard and set-up of `initSlider`.

Timers are events, not durations: the browser firing the interval is
`IntervalTick(id)`, allowed only for a live interval, and the 8000 ms
cooldown ending is `RestartTimeoutFires()`, allowed while a restart is
pending.

Two properties of the code shape the model:

- Every `setTimeout` handle is dropped (lines 73, 82, 103, 108), so the
  one-shot restarts accumulate and none is ever cancelled. The first one to
  fire sets auto-play running even when a later navigation's cooldown has
  not run out. `PausedTimesPending`, `EarlyRestart` and
  `RapidClicksExample` state this.
- Indicators and slides are queried separately (lines 16-17), so their
  counts may differ. The model keeps `n` (slides) and `indicators.Length`
  apart: a click on an indicator with no slide moves nothing but still
  pauses auto-play. A slide with no indicator leaves every indicator
  inactive.

## Model

| member | source | states |
|---|---|---|
| `SlideMath.JsRem` | ise/01-2026/assets/js/slider.js:49 | JavaScript's `%` for a positive divisor: `a == n*q + r` with `q` truncated toward zero, `r` in `[0, n)` for `a >= 0` and in `(-n, 0]` for `a <= 0` |
| `SlideMath.JsRemNonNegative` | ise/01-2026/assets/js/slider.js:100 | on a dividend that is not negative (as `currentSlide - 1 + totalSlides` always is) JavaScript's `%` equals Dafny's |
| `SlideMath.Next` | ise/01-2026/assets/js/slider.js:48-50 | the `nextSlide` target lies in `[0, n)`; it is `c + 1`, or `0` from the last slide |
| `SlideMath.Prev` | ise/01-2026/assets/js/slider.js:100 | the ArrowLeft target lies in `[0, n)`; it is `c - 1`, or `n - 1` from slide 0 |
| `SlideMath.PrevNextInverse` | ise/01-2026/assets/js/slider.js:100-106 | ArrowLeft undoes ArrowRight and ArrowRight undoes ArrowLeft |
| `SlideMath.Advance` | ise/01-2026/assets/js/slider.js:48-51 | any number of `nextSlide` calls keeps the cursor in `[0, n)` |
| `SlideMath.ModSucc` | ise/01-2026/assets/js/slider.js:49 | adding one to a non-negative number moves its remainder modulo `n` one step, wrapping from `n - 1` to 0 |
| `SlideMath.AdvanceClosedForm` | ise/01-2026/assets/js/slider.js:48-51 | the cursor after `k` ticks from `c` is `(c + k) % n` |
| `SlideMath.AdvanceNoWrap` | ise/01-2026/assets/js/slider.js:48-51 | before passing the last slide, `k` advances add `k` to the cursor |
| `SlideMath.AdvanceCompose` | ise/01-2026/assets/js/slider.js:48-51 | `j` advances followed by `k` advances are `j + k` advances |
| `SlideMath.AdvanceFullCycle` | ise/01-2026/assets/js/slider.js:48-51 | `n` successive `nextSlide` calls return the cursor to where it started |
| `SlideMath.OffsetOf` | ise/01-2026/assets/js/slider.js:35-36 | the track offset of a valid cursor is the exact quotient `-(c * 100) / n` (its product with `n` is `-(c * 100)`) and lies in `(-100, 0]` percent |
| `SlideMath.OffsetOfFirst` | ise/01-2026/assets/js/slider.js:35 | slide 0 is shown with the track untranslated |
| `SlideMath.OffsetDecreasing` | ise/01-2026/assets/js/slider.js:35 | a later slide translates the track strictly further left, so distinct slides get distinct offsets |
| `SlideMath.Rendered` | ise/01-2026/assets/js/slider.js:39-44 | after `goToSlide(i)` each of the `m` indicators is active exactly when its index is `i`, with `aria-selected` equal to active and `tabindex` 0 when active, -1 otherwise |
| `SlideMath.RenderedActiveCount` | ise/01-2026/assets/js/slider.js:39-44 | after `goToSlide(i)` exactly one indicator is active when `i < m` and none when `i >= m` |
| `SlideMath.RenderedExclusive` | ise/01-2026/assets/js/slider.js:39-44 | two active indicators after `goToSlide(i)` are the same one, the one at `i` |
| `AutoPlay.Initial` | ise/01-2026/assets/js/slider.js:24 | before auto-play first starts no interval is held or live and nothing is pending |
| `AutoPlay.Stopped` | ise/01-2026/assets/js/slider.js:60-65 | `stopAutoPlay` leaves auto-play stopped with no live interval and the pending restarts untouched |
| `AutoPlay.Started` | ise/01-2026/assets/js/slider.js:54-57 | `startAutoPlay` leaves exactly one live interval, the held one, and the previously held interval is no longer live |
| `AutoPlay.Paused` | ise/01-2026/assets/js/slider.js:71-73 | a manual navigation stops auto-play, leaves no live interval and adds exactly one pending restart |
| `AutoPlay.Resumed` | ise/01-2026/assets/js/slider.js:73 | a firing restart uses up one pending restart and leaves auto-play running with exactly one live interval |
| `AutoPlay.AtMostOneInterval` | ise/01-2026/assets/js/slider.js:54-65 | under the timer invariant at most one interval is live, and one is live exactly while running |
| `AutoPlay.StopIdempotent` | ise/01-2026/assets/js/slider.js:60-65 | stopping twice is stopping once |
| `AutoPlay.PausedTimesPending` | ise/01-2026/assets/js/slider.js:69-83 | after `k > 0` manual navigations in a row exactly `k` more restarts are pending: none is cancelled |
| `AutoPlay.EarlyRestart` | ise/01-2026/assets/js/slider.js:69-109 | with two restarts pending the first sets auto-play running while the second is still pending, and the second then replaces the interval |
| `Slider.Carousel.constructor` | ise/01-2026/assets/js/slider.js:14-26 | after the guard: cursor 0, indicators as in the markup, track untouched, no timer yet |
| `Slider.Carousel.GoToSlide` | ise/01-2026/assets/js/slider.js:29-45 | out of range: cursor, offset and every indicator unchanged; in range: cursor is the target, offset is `OffsetOf`, indicators are `Rendered`; the timers never change |
| `Slider.Carousel.NextSlide` | ise/01-2026/assets/js/slider.js:48-51 | the cursor becomes `Next` of the old one, with offset and indicators rendered for it |
| `Slider.Carousel.StartAutoPlay` | ise/01-2026/assets/js/slider.js:54-57 | the timers become `Started` of the old ones; the cursor and track stay |
| `Slider.Carousel.StopAutoPlay` | ise/01-2026/assets/js/slider.js:60-65 | the timers become `Stopped` of the old ones; the cursor and track stay |
| `Slider.Carousel.PauseForCooldown` | ise/01-2026/assets/js/slider.js:71-73 | the timers become `Paused` of the old ones |
| `Slider.Carousel.OnIndicatorClick` | ise/01-2026/assets/js/slider.js:69-74 | if the clicked index names a slide, the cursor, track offset and indicators are those of `goToSlide` for it, otherwise all three are unchanged; in both cases auto-play pauses with one more pending restart |
| `Slider.Carousel.OnIndicatorKeyDown` | ise/01-2026/assets/js/slider.js:77-84 | Enter and Space act as a click; any other key leaves cursor, offset, indicators and timers unchanged |
| `Slider.Carousel.OnSectionKeyDown` | ise/01-2026/assets/js/slider.js:97-110 | with a section, ArrowLeft moves to `Prev` and ArrowRight to `Next`, each rendering offset and indicators for the new cursor and pausing with one more pending restart; other keys, or no section, leave cursor, offset, indicators and timers unchanged |
| `Slider.Carousel.OnMouseEnter` | ise/01-2026/assets/js/slider.js:89-90 | with a section, auto-play stops and cursor and offset stay; without one nothing changes |
| `Slider.Carousel.OnMouseLeave` | ise/01-2026/assets/js/slider.js:91 | with a section, auto-play restarts and cursor and offset stay; without one nothing changes |
| `Slider.Carousel.OnFocusIn` | ise/01-2026/assets/js/slider.js:92 | with a section, auto-play stops and cursor and offset stay; without one nothing changes |
| `Slider.Carousel.OnFocusOut` | ise/01-2026/assets/js/slider.js:93 | with a section, auto-play restarts and cursor and offset stay; without one nothing changes |
| `Slider.Carousel.OnVisibilityChange` | ise/01-2026/assets/js/slider.js:116-122 | hidden stops auto-play, visible restarts it; cursor and offset stay |
| `Slider.Carousel.IntervalTick` | ise/01-2026/assets/js/slider.js:56 | only a live interval fires; it advances the cursor to `Next`, renders offset and indicators for it, and leaves the timers as they were |
| `Slider.Carousel.RestartTimeoutFires` | ise/01-2026/assets/js/slider.js:73 | the timers become `Resumed` of the old ones |
| `Slider.InitSlider` | ise/01-2026/assets/js/slider.js:14-26 | no controller and no timer when the track or the indicators are missing; otherwise cursor 0, markup untouched, and auto-play running with one live interval (line 113) |
| `Slider.WrapAroundExample` | ise/01-2026/assets/js/slider.js:48-51 | with three slides, from slide 2 three ticks visit 0, 1, 2, and ArrowLeft from slide 0 reaches slide 2 |
| `Slider.RapidClicksExample` | ise/01-2026/assets/js/slider.js:69-83 | a click and an Enter in quick succession leave two restarts pending; the first to fire sets auto-play running with one still pending |

## Left out

- Slider.InitSlider: requires at least one slide whenever the guard passes. The guard on line 19 tests the track and the indicators but not the slides, so markup with indicators and no slides gets through. Then `totalSlides` is 0, and the first interval tick computes `(0 + 1) % 0`, which is NaN in JavaScript. NaN passes the range test of `goToSlide` (line 30) and deactivates every indicator. The model does not represent NaN.
- Finding the elements in the page and registering the listeners (lines 8-12, 15-17, 88, 97) are not modelled. Only their effect is kept: whether the track, the indicators and the section exist. Each handler is a method.
- `preventDefault` on Space and on the arrow keys has no effect on the modelled state and is left out.
- One keydown on an indicator inside the section runs the indicator handler and then the section handler, because the event bubbles. The model has the two handlers as separate methods, and a caller runs them in that order. Focus moving onto a clicked indicator likewise reaches the model as a separate `OnFocusIn`.
- The CSS string `translateX(...%)` and JavaScript's floating-point division (line 36) are not modelled. The offset is kept as an exact `real`.
- Wall-clock time is not modelled: the 4000 ms period and the 8000 ms cooldown (lines 26, 56, 73) become the events `IntervalTick` and `RestartTimeoutFires`. The one-shot restarts are counted, not identified by handle.
- Lazy loading of slide images (lines 125-130) is a browser performance hint and is left out.
- The other contents of the indicator elements are not modelled. Only their `active` class, `aria-selected` and `tabindex` are kept.
