/**
 * The carousel controller built by `initSlider`: the cursor `currentSlide`,
 * the track's transform, the indicator controls, and the auto-play timers,
 * with one method per function or event handler of the controller.
 */
module Slider {
  import opened SlideMath
  import opened AutoPlay

  /** The keys the two keydown handlers distinguish (`KeyboardEvent.key`). */
  datatype Key = Enter | Space | ArrowLeft | ArrowRight | OtherKey

  class Carousel {
    const n: int                         // totalSlides: the number of slides in the markup
    const indicators: array<Indicator>   // the indicator controls, in document order
    const hasSection: bool               // whether the enclosing `.slider-section` exists

    var cursor: int                      // currentSlide
    var trackOffset: Option<real>        // the track's translateX; None until goToSlide sets it
    var autoPlayInterval: Option<nat>    // the handle held by the controller
    var liveIntervals: set<nat>          // the browser's live repeating intervals
    var nextTimerId: nat                 // the handle the browser returns next
    var pendingRestarts: nat             // one-shot restarts scheduled and not yet fired

    /** The timer fields as one value, described in module AutoPlay. */
    ghost function Timers(): TimerState
      reads this
    {
      TimerState(autoPlayInterval, liveIntervals, nextTimerId, pendingRestarts)
    }

    /** The controller's invariant: a valid cursor and no leaked interval. */
    ghost predicate Valid()
      reads this
    {
      n > 0 && 0 <= cursor < n && TimersOk(Timers())
    }

    /** The state right after the guard of `initSlider`, before auto-play starts. */
    constructor (marks: seq<Indicator>, slideCount: int, section: bool)
      requires slideCount > 0
      ensures Valid() && fresh(indicators)
      ensures n == slideCount && indicators[..] == marks && hasSection == section
      ensures cursor == 0 && trackOffset == None && Timers() == Initial()
    {
      n := slideCount;
      hasSection := section;
      indicators := new Indicator[|marks|](k requires 0 <= k < |marks| => marks[k]);
      cursor := 0;
      trackOffset := None;
      autoPlayInterval, liveIntervals, nextTimerId, pendingRestarts := None, {}, 1, 0;
    }

    /**
     * `goToSlide`: an index outside the slides is ignored; otherwise the cursor
     * moves there, the track is translated to show that slide, and every
     * indicator is marked active, selected and focusable exactly when its
     * index is the new cursor.
     */
    method GoToSlide(i: int)
      requires Valid()
      modifies this, indicators
      ensures Valid() && Timers() == old(Timers())
      ensures 0 <= i < n ==>
        cursor == i && trackOffset == Some(OffsetOf(i, n)) &&
        indicators[..] == Rendered(indicators.Length, i)
      ensures !(0 <= i < n) ==>
        cursor == old(cursor) && trackOffset == old(trackOffset) &&
        indicators[..] == old(indicators[..])
    {
      if i < 0 || i >= n {
        return;
      }
      cursor := i;
      trackOffset := Some(OffsetOf(cursor, n));
      var k := 0;
      while k < indicators.Length
        invariant 0 <= k <= indicators.Length
        invariant forall j :: 0 <= j < k ==> indicators[j] == Marked(j, cursor)
        modifies indicators
      {
        var isActive := k == cursor;
        indicators[k] := Indicator(isActive, isActive, if isActive then 0 else -1);
        k := k + 1;
      }
      assert indicators[..] == Rendered(indicators.Length, i);
    }

    /** `nextSlide`: go to the following slide, wrapping from the last to the first. */
    method NextSlide()
      requires Valid()
      modifies this, indicators
      ensures Valid() && Timers() == old(Timers())
      ensures cursor == Next(old(cursor), n)
      ensures trackOffset == Some(OffsetOf(cursor, n))
      ensures indicators[..] == Rendered(indicators.Length, cursor)
    {
      var next := Next(cursor, n);
      GoToSlide(next);
    }

    /** `startAutoPlay`: replace any interval by a new one. */
    method StartAutoPlay()
      requires Valid()
      modifies this
      ensures Valid() && Timers() == Started(old(Timers()))
      ensures cursor == old(cursor) && trackOffset == old(trackOffset)
    {
      StopAutoPlay();
      liveIntervals := liveIntervals + {nextTimerId};
      autoPlayInterval := Some(nextTimerId);
      nextTimerId := nextTimerId + 1;
    }

    /** `stopAutoPlay`: clear the held interval, if there is one. */
    method StopAutoPlay()
      requires Valid()
      modifies this
      ensures Valid() && Timers() == Stopped(old(Timers()))
      ensures cursor == old(cursor) && trackOffset == old(trackOffset)
    {
      if autoPlayInterval.Some? {
        liveIntervals := liveIntervals - {autoPlayInterval.value};
        autoPlayInterval := None;
      }
    }

    /** The tail of every manual navigation: stop, and schedule one restart. */
    method PauseForCooldown()
      requires Valid()
      modifies this
      ensures Valid() && Timers() == Paused(old(Timers()))
      ensures cursor == old(cursor) && trackOffset == old(trackOffset)
    {
      StopAutoPlay();
      pendingRestarts := pendingRestarts + 1;
    }

    /** A click on the indicator at `index`. */
    method OnIndicatorClick(index: int)
      requires Valid() && 0 <= index < indicators.Length
      modifies this, indicators
      ensures Valid() && Timers() == Paused(old(Timers()))
      ensures 0 <= index < n ==>
        cursor == index && trackOffset == Some(OffsetOf(index, n)) &&
        indicators[..] == Rendered(indicators.Length, index)
      ensures !(0 <= index < n) ==>
        cursor == old(cursor) && trackOffset == old(trackOffset) &&
        indicators[..] == old(indicators[..])
    {
      GoToSlide(index);
      PauseForCooldown();
    }

    /** A keydown on the indicator at `index`: Enter and Space act as a click. */
    method OnIndicatorKeyDown(index: int, key: Key)
      requires Valid() && 0 <= index < indicators.Length
      modifies this, indicators
      ensures Valid()
      ensures key == Enter || key == Space ==>
        Timers() == Paused(old(Timers())) &&
        (0 <= index < n ==>
          cursor == index && trackOffset == Some(OffsetOf(index, n)) &&
          indicators[..] == Rendered(indicators.Length, index)) &&
        (!(0 <= index < n) ==>
          cursor == old(cursor) && trackOffset == old(trackOffset) &&
          indicators[..] == old(indicators[..]))
      ensures key != Enter && key != Space ==>
        Timers() == old(Timers()) && cursor == old(cursor) && trackOffset == old(trackOffset) &&
        indicators[..] == old(indicators[..])
    {
      if key == Enter || key == Space {
        GoToSlide(index);
        PauseForCooldown();
      }
    }

    /**
     * A keydown inside the slider section: ArrowLeft and ArrowRight move one
     * slide back or forward with wrap-around and pause like a click; other keys,
     * and every key when there is no section to listen on, do nothing.
     */
    method OnSectionKeyDown(key: Key)
      requires Valid()
      modifies this, indicators
      ensures Valid()
      ensures hasSection && key == ArrowLeft ==>
        cursor == Prev(old(cursor), n) && Timers() == Paused(old(Timers())) &&
        trackOffset == Some(OffsetOf(cursor, n)) && indicators[..] == Rendered(indicators.Length, cursor)
      ensures hasSection && key == ArrowRight ==>
        cursor == Next(old(cursor), n) && Timers() == Paused(old(Timers())) &&
        trackOffset == Some(OffsetOf(cursor, n)) && indicators[..] == Rendered(indicators.Length, cursor)
      ensures !hasSection || (key != ArrowLeft && key != ArrowRight) ==>
        cursor == old(cursor) && trackOffset == old(trackOffset) && Timers() == old(Timers()) &&
        indicators[..] == old(indicators[..])
    {
      if !hasSection {
        return;
      }
      if key == ArrowLeft {
        var prev := Prev(cursor, n);
        GoToSlide(prev);
        PauseForCooldown();
      } else if key == ArrowRight {
        NextSlide();
        PauseForCooldown();
      }
    }

    /** The pointer enters the slider section: pause auto-play. */
    method OnMouseEnter()
      requires Valid()
      modifies this
      ensures Valid() && cursor == old(cursor) && trackOffset == old(trackOffset)
      ensures Timers() == if hasSection then Stopped(old(Timers())) else old(Timers())
    {
      if hasSection {
        StopAutoPlay();
      }
    }

    /** The pointer leaves the slider section: resume auto-play. */
    method OnMouseLeave()
      requires Valid()
      modifies this
      ensures Valid() && cursor == old(cursor) && trackOffset == old(trackOffset)
      ensures Timers() == if hasSection then Started(old(Timers())) else old(Timers())
    {
      if hasSection {
        StartAutoPlay();
      }
    }

    /** Focus enters the slider section: pause auto-play. */
    method OnFocusIn()
      requires Valid()
      modifies this
      ensures Valid() && cursor == old(cursor) && trackOffset == old(trackOffset)
      ensures Timers() == if hasSection then Stopped(old(Timers())) else old(Timers())
    {
      if hasSection {
        StopAutoPlay();
      }
    }

    /** Focus leaves the slider section: resume auto-play. */
    method OnFocusOut()
      requires Valid()
      modifies this
      ensures Valid() && cursor == old(cursor) && trackOffset == old(trackOffset)
      ensures Timers() == if hasSection then Started(old(Timers())) else old(Timers())
    {
      if hasSection {
        StartAutoPlay();
      }
    }

    /** The page is hidden or shown again: pause or resume auto-play. */
    method OnVisibilityChange(hidden: bool)
      requires Valid()
      modifies this
      ensures Valid() && cursor == old(cursor) && trackOffset == old(trackOffset)
      ensures Timers() == if hidden then Stopped(old(Timers())) else Started(old(Timers()))
    {
      if hidden {
        StopAutoPlay();
      } else {
        StartAutoPlay();
      }
    }

    /** The live interval `id` fires: `nextSlide` runs. A cleared interval never fires. */
    method IntervalTick(id: nat)
      requires Valid() && id in liveIntervals
      modifies this, indicators
      ensures Valid() && Timers() == old(Timers())
      ensures cursor == Next(old(cursor), n)
      ensures trackOffset == Some(OffsetOf(cursor, n))
      ensures indicators[..] == Rendered(indicators.Length, cursor)
    {
      NextSlide();
    }

    /** One scheduled restart fires: `startAutoPlay` runs. */
    method RestartTimeoutFires()
      requires Valid() && pendingRestarts > 0
      modifies this
      ensures Valid() && Timers() == Resumed(old(Timers()))
      ensures cursor == old(cursor) && trackOffset == old(trackOffset)
    {
      pendingRestarts := pendingRestarts - 1;
      StartAutoPlay();
    }
  }

  /**
   * `initSlider`: without a track or without indicators nothing is set up and
   * no timer starts; otherwise the cursor is 0, the track and indicators keep
   * their markup state, and auto-play is running with one live interval.
   */
  method InitSlider(trackPresent: bool, marks: seq<Indicator>, slideCount: int, section: bool)
    returns (r: Option<Carousel>)
    requires trackPresent && |marks| > 0 ==> slideCount > 0
    ensures r.None? <==> !trackPresent || |marks| == 0
    ensures r.Some? ==>
      && fresh(r.value) && fresh(r.value.indicators) && r.value.Valid()
      && r.value.n == slideCount && r.value.hasSection == section
      && r.value.cursor == 0 && r.value.trackOffset == None && r.value.indicators[..] == marks
      && Running(r.value.Timers()) && |r.value.liveIntervals| == 1 && r.value.pendingRestarts == 0
  {
    if !trackPresent || |marks| == 0 {
      return None;
    }
    var c := new Carousel(marks, slideCount, section);
    c.StartAutoPlay();
    r := Some(c);
  }

  /** Markup with three slides and three indicators, a track and a section. */
  function ThreeIndicators(): seq<Indicator>
  {
    [Indicator(true, true, 0), Indicator(false, false, -1), Indicator(false, false, -1)]
  }

  /**
   * With three slides, from slide 2 three automatic advances visit 0, 1 and 2;
   * one more reaches 0 again, and ArrowLeft from slide 0 goes to slide 2.
   */
  method WrapAroundExample() returns (visited: seq<int>, afterLeft: int)
    ensures visited == [0, 1, 2] && afterLeft == 2
  {
    var r := InitSlider(true, ThreeIndicators(), 3, true);
    var c := r.value;
    c.OnIndicatorClick(2);
    c.RestartTimeoutFires();
    assert c.cursor == 2 && Running(c.Timers());
    c.IntervalTick(c.autoPlayInterval.value);
    assert c.cursor == 0;
    visited := [c.cursor];
    c.IntervalTick(c.autoPlayInterval.value);
    assert c.cursor == 1;
    visited := visited + [c.cursor];
    c.IntervalTick(c.autoPlayInterval.value);
    assert c.cursor == 2;
    visited := visited + [c.cursor];
    c.IntervalTick(c.autoPlayInterval.value);
    assert c.cursor == 0;
    c.OnSectionKeyDown(ArrowLeft);
    afterLeft := c.cursor;
  }

  /**
   * Two quick clicks leave two restarts pending; the first to fire sets
   * auto-play running although the second click's cooldown has not run out.
   */
  method RapidClicksExample() returns (pendingAfterClicks: nat, runningEarly: bool, pendingAfterFirst: nat)
    ensures pendingAfterClicks == 2 && runningEarly && pendingAfterFirst == 1
  {
    var r := InitSlider(true, ThreeIndicators(), 3, true);
    var c := r.value;
    c.OnIndicatorClick(1);
    c.OnIndicatorKeyDown(2, Enter);
    pendingAfterClicks := c.pendingRestarts;
    c.RestartTimeoutFires();
    runningEarly := c.autoPlayInterval.Some?;
    pendingAfterFirst := c.pendingRestarts;
  }
}
