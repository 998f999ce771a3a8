/**
 * The global loading overlay (context/LoaderContext.tsx). Once shown it
 * stays visible for at least `MinVisibleMs` milliseconds: an early
 * `hideLoader` schedules a single hide timer for the remaining time, and
 * every `showLoader` or `hideLoader` cancels the timer already pending.
 * The clock reading `Date.now()` is an input of each operation, and the
 * timer firing is an event of its own.
 */
module LoaderContext {
  import opened Wrappers

  const MinVisibleMs := 1000

  /** A pending `setTimeout`: when it was scheduled and its delay. */
  datatype HideTimer = HideTimer(scheduledAt: int, delay: int) {
    function Due(): int { scheduledAt + delay }
  }

  /** What `hideLoader` does, given the recorded start and the current time. */
  datatype HideAction = HideNow | Schedule(delay: int)

  function HideDecision(start: Option<int>, now: int): (a: HideAction)
    ensures a.HideNow? <==> start.None? || now - start.value >= MinVisibleMs
    ensures a.Schedule? ==> 0 < a.delay <= MinVisibleMs - (now - start.value) && now + a.delay == start.value + MinVisibleMs
  {
    if start.None? then HideNow
    else if now - start.value >= MinVisibleMs then HideNow
    else Schedule(MinVisibleMs - (now - start.value))
  }

  class Loader {
    var loading: bool
    /** `showLoaderStartRef.current`. */
    var start: Option<int>
    /** `hideTimeoutRef.current`. */
    var hideTimer: Option<HideTimer>

    /**
     * The overlay is up exactly while a start time is recorded, and a pending
     * hide timer is due exactly `MinVisibleMs` after that start.
     */
    ghost predicate Valid()
      reads this
    {
      (loading <==> start.Some?) &&
      (hideTimer.Some? ==> start.Some? && hideTimer.value.delay > 0 &&
                           hideTimer.value.Due() == start.value + MinVisibleMs)
    }

    constructor ()
      ensures Valid() && !loading && start == None && hideTimer == None
    {
      loading := false;
      start := None;
      hideTimer := None;
    }

    /** `showLoader`: cancel any pending hide, record the time, show. */
    method ShowLoader(now: int)
      requires Valid()
      modifies this
      ensures Valid()
      ensures hideTimer == None && start == Some(now) && loading
    {
      if hideTimer.Some? {
        hideTimer := None;
      }
      start := Some(now);
      loading := true;
    }

    /**
     * `hideLoader`: cancel any pending hide; hide at once when nothing was
     * recorded or the minimum has passed, otherwise schedule one timer for
     * the remaining time and stay visible.
     */
    method HideLoader(now: int)
      requires Valid()
      modifies this
      ensures Valid()
      ensures old(start).None? ==> !loading && start == None && hideTimer == None
      ensures old(start).Some? && now - old(start).value >= MinVisibleMs ==>
        !loading && start == None && hideTimer == None
      ensures old(start).Some? && now - old(start).value < MinVisibleMs ==>
        loading && start == old(start) &&
        hideTimer == Some(HideTimer(now, MinVisibleMs - (now - old(start).value)))
      ensures old(loading) && !loading ==> now >= old(start).value + MinVisibleMs
    {
      if hideTimer.Some? {
        hideTimer := None;
      }
      match HideDecision(start, now) {
        case HideNow =>
          start := None;
          loading := false;
        case Schedule(delay) =>
          hideTimer := Some(HideTimer(now, delay));
      }
    }

    /**
     * The pending timer fires, no earlier than it is due: clear the handle
     * and the start, hide. The overlay has then been up for the minimum.
     */
    method TimerFires(now: int)
      requires Valid() && hideTimer.Some? && now >= hideTimer.value.Due()
      modifies this
      ensures Valid()
      ensures hideTimer == None && start == None && !loading
      ensures old(loading) && now >= old(start).value + MinVisibleMs
    {
      hideTimer := None;
      start := None;
      loading := false;
    }

    /** The provider's unmount cleanup: a pending hide timer is cleared. */
    method Unmount()
      requires Valid()
      modifies this
      ensures Valid()
      ensures hideTimer == None && loading == old(loading) && start == old(start)
    {
      if hideTimer.Some? {
        hideTimer := None;
      }
    }
  }

  /**
   * Show at `t0`, hide early at `t1`, show again at `t2`, hide early at
   * `t3`, and let the timer fire when due: the second show cancels the
   * first scheduled hide, so the overlay stays up until a full
   * `MinVisibleMs` after the second show, not after the first.
   */
  method ShowCancelsScheduledHide(t0: int, t1: int, t2: int, t3: int)
    returns (pendingAfterShow: Option<HideTimer>, stillShown: bool, hiddenAt: int)
    requires t0 <= t1 < t0 + MinVisibleMs
    requires t1 <= t2 <= t3 < t2 + MinVisibleMs
    ensures pendingAfterShow == None && stillShown
    ensures hiddenAt == t2 + MinVisibleMs
  {
    var l := new Loader();
    l.ShowLoader(t0);
    l.HideLoader(t1);
    l.ShowLoader(t2);
    pendingAfterShow := l.hideTimer;
    l.HideLoader(t3);
    stillShown := l.loading;
    hiddenAt := l.hideTimer.value.Due();
    l.TimerFires(hiddenAt);
  }

  const OutsideProvider := "useLoader must be used inside LoaderProvider"

  /** `useLoader`: the context value, or the error thrown outside a provider. */
  function UseLoader<T>(context: Option<T>): (r: Result<T, string>)
    ensures r.Success? <==> context.Some?
    ensures r.Success? ==> r.value == context.value
    ensures r.Failure? ==> r.error == OutsideProvider
  {
    match context
    case Some(c) => Success(c)
    case None => Failure(OutsideProvider)
  }
}
