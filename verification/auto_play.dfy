/**
 * The auto-play timers of the carousel as values: the handle the controller
 * keeps in `autoPlayInterval`, the repeating intervals the browser has live,
 * the next handle the browser will hand out, and the number of one-shot
 * restarts (`setTimeout(startAutoPlay, ...)`) still waiting to fire.
 */
module AutoPlay {

  datatype Option<T> = None | Some(value: T)

  datatype TimerState = TimerState(
    interval: Option<nat>,  // autoPlayInterval: the handle of the controller's interval, if any
    live: set<nat>,         // handles of the repeating intervals that will still fire
    nextId: nat,            // the handle the next setInterval returns
    pending: nat            // one-shot restarts scheduled and not yet fired
  )

  /** Auto-play is RUNNING exactly when the controller holds an interval handle. */
  predicate Running(t: TimerState)
  {
    t.interval.Some?
  }

  /**
   * The timer invariant: the only live interval is the one whose handle the
   * controller holds, so no interval is ever leaked or duplicated. Handles are
   * positive (a browser never returns 0), hence truthy in `if (autoPlayInterval)`.
   */
  predicate TimersOk(t: TimerState)
  {
    && 0 < t.nextId
    && t.live == (if t.interval.Some? then {t.interval.value} else {})
    && (t.interval.Some? ==> 0 < t.interval.value < t.nextId)
  }

  /** The timers at page load, before `startAutoPlay` first runs. */
  function Initial(): (t: TimerState)
    ensures TimersOk(t) && !Running(t) && t.live == {} && t.pending == 0
  {
    TimerState(None, {}, 1, 0)
  }

  /** `stopAutoPlay`: clear the held interval, if any, and forget its handle. */
  function Stopped(t: TimerState): (s: TimerState)
    ensures !Running(s) && s.pending == t.pending && s.nextId == t.nextId
    ensures TimersOk(t) ==> TimersOk(s) && s.live == {}
  {
    if t.interval.Some? then t.(live := t.live - {t.interval.value}, interval := None) else t
  }

  /** `startAutoPlay`: stop first, then set a new interval under a fresh handle. */
  function Started(t: TimerState): (s: TimerState)
    ensures Running(s) && s.pending == t.pending
    ensures TimersOk(t) ==> TimersOk(s) && s.live == {s.interval.value}
    ensures TimersOk(t) && Running(t) ==> t.interval.value !in s.live
  {
    var u := Stopped(t);
    u.(interval := Some(u.nextId), live := u.live + {u.nextId}, nextId := u.nextId + 1)
  }

  /**
   * What every manual navigation does to the timers after `goToSlide`:
   * `stopAutoPlay()` and one more `setTimeout(startAutoPlay, autoPlayDelay * 2)`,
   * whose handle is dropped, so no earlier restart is cancelled.
   */
  function Paused(t: TimerState): (s: TimerState)
    ensures !Running(s) && s.pending == t.pending + 1
    ensures TimersOk(t) ==> TimersOk(s) && s.live == {}
  {
    Stopped(t).(pending := t.pending + 1)
  }

  /** One scheduled restart fires: it is used up and `startAutoPlay` runs. */
  function Resumed(t: TimerState): (s: TimerState)
    requires t.pending > 0
    ensures Running(s) && s.pending == t.pending - 1
    ensures TimersOk(t) ==> TimersOk(s) && |s.live| == 1
  {
    Started(t.(pending := t.pending - 1))
  }

  /** Under the invariant at most one interval is live, and one is live exactly while running. */
  lemma AtMostOneInterval(t: TimerState)
    requires TimersOk(t)
    ensures |t.live| <= 1
    ensures |t.live| == 1 <==> Running(t)
  {
  }

  /** Stopping an already stopped auto-play changes nothing. */
  lemma StopIdempotent(t: TimerState)
    ensures Stopped(Stopped(t)) == Stopped(t)
  {
  }

  /** The timers after `k` manual navigations in a row, none of whose restarts has fired. */
  function PausedTimes(t: TimerState, k: nat): TimerState
  {
    if k == 0 then t else Paused(PausedTimes(t, k - 1))
  }

  /**
   * Rapid manual navigation never cancels a scheduled restart: after `k` of
   * them, `k` more restarts are pending, auto-play is stopped and no interval
   * is live.
   */
  lemma {:induction false} PausedTimesPending(t: TimerState, k: nat)
    requires TimersOk(t) && k > 0
    ensures PausedTimes(t, k).pending == t.pending + k
    ensures !Running(PausedTimes(t, k)) && PausedTimes(t, k).live == {}
    ensures TimersOk(PausedTimes(t, k))
  {
    if k > 1 {
      PausedTimesPending(t, k - 1);
    }
  }

  /**
   * With two or more restarts pending, the first one to fire sets auto-play
   * running again while later ones are still scheduled, each of which will
   * replace the interval once more.
   */
  lemma EarlyRestart(t: TimerState)
    requires TimersOk(t) && t.pending >= 2
    ensures Running(Resumed(t)) && Resumed(t).pending > 0
    ensures Resumed(Resumed(t)).live == {Resumed(Resumed(t)).interval.value}
    ensures Resumed(t).interval.value !in Resumed(Resumed(t)).live
  {
  }
}
