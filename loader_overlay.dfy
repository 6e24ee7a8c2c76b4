/** The loading overlay of the scene screen together with the screen's
    `isLoaded` flag, as an event-driven state machine.

    While `isLoaded` is false the overlay is mounted. Its effect depends on
    the observed progress and on the `onFinish` callback; each time it runs
    it first clears the timer armed by its previous run (the effect's
    cleanup) and then, when progress is exactly 100, arms a new 500 ms timer
    whose expiry calls `onFinish`, which sets `isLoaded`. `onFinish` is a
    fresh closure on every render of the scene, so every such render re-runs
    the effect. Time is abstract: a timer is known by the id it was armed
    with, and `TimerFired(id)` is the moment that timer's delay elapses. */
module LoaderOverlay {
  import opened Wrappers

  /** The progress value at which the overlay arms its completion timer. */
  const Complete: real := 100.0

  /** `pending` is the id of the armed timer, if any; `nextTimer` is the id
      the next armed timer gets; `finishCalls` counts calls of `onFinish`. */
  datatype Loader = Loader(
    isLoaded: bool,
    progress: real,
    pending: Option<nat>,
    nextTimer: nat,
    finishCalls: nat)

  datatype Event =
    | ProgressChanged(p: real)  // the loader reports a new progress value
    | Rerender                  // the scene renders again, so `onFinish` is a new closure
    | TimerFired(id: nat)       // the delay of timer `id` has elapsed

  /** The overlay is on screen exactly while the scene is not loaded. */
  predicate OverlayShown(s: Loader)
  {
    !s.isLoaded
  }

  /** The invariant every reachable state keeps: while the overlay is shown,
      a timer is armed exactly when progress is 100; once loaded, none is. */
  ghost predicate Inv(s: Loader)
  {
    && (s.pending.Some? ==> OverlayShown(s) && s.progress == Complete && s.pending.value < s.nextTimer)
    && (OverlayShown(s) ==> (s.pending.Some? <==> s.progress == Complete))
    && s.finishCalls == (if s.isLoaded then 1 else 0)
  }

  /** One run of the overlay's effect: clear the previous timer, then arm a
      new one if and only if progress is exactly 100. */
  function RunEffect(s: Loader): (r: Loader)
    ensures r.pending.Some? <==> s.progress == Complete
    ensures r.pending.Some? ==> r.pending.value == s.nextTimer && r.nextTimer == s.nextTimer + 1
    ensures r.pending.None? ==> r.nextTimer == s.nextTimer
    ensures r.isLoaded == s.isLoaded && r.progress == s.progress && r.finishCalls == s.finishCalls
  {
    var cleared := s.(pending := None);
    if cleared.progress == Complete then
      cleared.(pending := Some(cleared.nextTimer), nextTimer := cleared.nextTimer + 1)
    else
      cleared
  }

  /** The state right after the scene mounts with the loader at `progress`. */
  function Mount(progress: real): (r: Loader)
    ensures Inv(r) && OverlayShown(r)
    ensures r.pending.Some? <==> progress == Complete
  {
    RunEffect(Loader(false, progress, None, 0, 0))
  }

  /** The `onFinish` callback: the timer has run out, the flag is set and the
      overlay unmounts, so nothing is left pending. */
  function Finish(s: Loader): (r: Loader)
    ensures r.isLoaded && !OverlayShown(r) && r.pending.None?
    ensures r.finishCalls == s.finishCalls + 1
    ensures r.progress == s.progress && r.nextTimer == s.nextTimer
  {
    s.(isLoaded := true, pending := None, finishCalls := s.finishCalls + 1)
  }

  /** The effect of one event. Once loaded the overlay is unmounted and no
      event reaches it. */
  function Next(s: Loader, e: Event): (r: Loader)
    ensures s.isLoaded ==> r == s
    ensures !s.isLoaded && r.isLoaded ==> e.TimerFired? && s.pending == Some(e.id)
    ensures r.finishCalls == s.finishCalls + (if r.isLoaded && !s.isLoaded then 1 else 0)
    ensures s.nextTimer <= r.nextTimer
  {
    if s.isLoaded then s
    else
      match e
      case ProgressChanged(p) =>
        // the effect re-runs only when its `progress` dependency changed
        if p == s.progress then s else RunEffect(s.(progress := p))
      case Rerender => RunEffect(s)
      case TimerFired(id) =>
        // a cleared timer never fires
        if s.pending == Some(id) then Finish(s) else s
  }

  /** The state after the events, in order. */
  function Run(s: Loader, events: seq<Event>): Loader
  {
    if events == [] then s
    else Next(Run(s, events[..|events| - 1]), events[|events| - 1])
  }

  // ---------------------------------------------------------------------
  // One step.
  // ---------------------------------------------------------------------

  lemma NextKeepsInv(s: Loader, e: Event)
    requires Inv(s)
    ensures Inv(Next(s, e))
  {
  }

  /** The flag becomes true only when the armed timer fires, and that timer
      was armed while progress was exactly 100. */
  lemma FinishOnlyByPendingTimer(s: Loader, e: Event)
    requires Inv(s) && !s.isLoaded && Next(s, e).isLoaded
    ensures e.TimerFired? && s.pending == Some(e.id) && s.progress == Complete
    ensures Next(s, e).finishCalls == 1
  {
  }

  /** The armed timer, fired before anything clears it, finishes loading. */
  lemma PendingTimerFinishes(s: Loader, id: nat)
    requires !s.isLoaded && s.pending == Some(id)
    ensures Next(s, TimerFired(id)).isLoaded && Next(s, TimerFired(id)).finishCalls == s.finishCalls + 1
  {
  }

  /** A timer that is not the armed one firing changes nothing. */
  lemma StaleTimerIsIgnored(s: Loader, id: nat)
    requires s.pending != Some(id)
    ensures Next(s, TimerFired(id)) == s
  {
  }

  /** A progress change while the timer is armed (so progress was 100)
      clears that timer and arms none: the new value is not 100, and the old
      timer can no longer finish loading. */
  lemma ProgressChangeClearsTimer(s: Loader, id: nat, p: real)
    requires Inv(s) && s.pending == Some(id) && p != s.progress
    ensures Next(s, ProgressChanged(p)).pending.None?
    ensures !Next(Next(s, ProgressChanged(p)), TimerFired(id)).isLoaded
  {
  }

  /** A progress change while the overlay is shown records the new value
      and leaves a timer armed exactly when that value is 100, with an id
      no earlier timer had. */
  lemma ProgressChangeArms(s: Loader, p: real)
    requires !s.isLoaded && p != s.progress
    ensures Next(s, ProgressChanged(p)).progress == p
    ensures Next(s, ProgressChanged(p)).pending.Some? <==> p == Complete
    ensures Next(s, ProgressChanged(p)).pending.Some? ==> Next(s, ProgressChanged(p)).pending.value == s.nextTimer
  {
  }

  /** A re-render while the timer is armed clears it and arms a new one:
      the old timer can no longer finish loading and the delay restarts. */
  lemma RerenderRearmsTimer(s: Loader, id: nat)
    requires Inv(s) && s.pending == Some(id)
    ensures Next(s, Rerender).pending == Some(s.nextTimer) && s.nextTimer != id
    ensures !Next(Next(s, Rerender), TimerFired(id)).isLoaded
  {
  }

  /** Progress that stays put does not restart the delay. */
  lemma SameProgressKeepsTimer(s: Loader, p: real)
    requires p == s.progress
    ensures Next(s, ProgressChanged(p)) == s
  {
  }

  // ---------------------------------------------------------------------
  // Whole event sequences.
  // ---------------------------------------------------------------------

  lemma RunSnoc(s: Loader, events: seq<Event>, e: Event)
    ensures Run(s, events + [e]) == Next(Run(s, events), e)
  {
    assert (events + [e])[..|events|] == events;
  }

  lemma {:induction false} RunKeepsInv(s: Loader, events: seq<Event>)
    requires Inv(s)
    ensures Inv(Run(s, events))
  {
    if events != [] {
      RunKeepsInv(s, events[..|events| - 1]);
      NextKeepsInv(Run(s, events[..|events| - 1]), events[|events| - 1]);
    }
  }

  /** After mount and any events, an overlay showing progress 100 always
      has a timer armed: it is never stuck at 100 with nothing pending. */
  lemma ShownAtCompleteIsArmed(progress: real, events: seq<Event>)
    requires OverlayShown(Run(Mount(progress), events))
    ensures Run(Mount(progress), events).pending.Some? <==> Run(Mount(progress), events).progress == Complete
  {
    RunKeepsInv(Mount(progress), events);
  }

  /** `onFinish` is called at most once, and exactly once if loading finished. */
  lemma FinishCalledAtMostOnce(events: seq<Event>, progress: real)
    ensures Run(Mount(progress), events).finishCalls == (if Run(Mount(progress), events).isLoaded then 1 else 0)
    ensures Run(Mount(progress), events).finishCalls <= 1
  {
    RunKeepsInv(Mount(progress), events);
  }

  /** Once loaded, nothing changes any more: the flag stays true, the
      overlay stays unmounted and no timer is armed again. */
  lemma {:induction false} LoadedIsFinal(s: Loader, events: seq<Event>)
    requires s.isLoaded
    ensures Run(s, events) == s
  {
    if events != [] {
      LoadedIsFinal(s, events[..|events| - 1]);
    }
  }

  /** Event `i` is the firing of the timer that was armed, with progress
      exactly 100, in the state the earlier events led to. */
  ghost predicate FiresArmedTimer(s: Loader, events: seq<Event>, i: nat)
    requires i < |events|
  {
    var before := Run(s, events[..i]);
    events[i].TimerFired? && !before.isLoaded &&
    before.pending == Some(events[i].id) && before.progress == Complete
  }

  /** Loading finishes only through some timer that was armed (so progress
      was exactly 100) and fired while it was still the armed one. */
  lemma {:induction false} LoadedOnlyThroughFiredTimer(s: Loader, events: seq<Event>)
    requires Inv(s) && !s.isLoaded && Run(s, events).isLoaded
    ensures exists i: nat :: i < |events| && FiresArmedTimer(s, events, i)
  {
    var n := |events| - 1;
    var front := events[..n];
    assert events[..n + 1] == events;
    RunKeepsInv(s, front);
    if Run(s, front).isLoaded {
      LoadedOnlyThroughFiredTimer(s, front);
      var i: nat :| i < |front| && FiresArmedTimer(s, front, i);
      assert front[..i] == events[..i];
      assert FiresArmedTimer(s, events, i);
    } else {
      FinishOnlyByPendingTimer(Run(s, front), events[n]);
      assert FiresArmedTimer(s, events, n);
    }
  }

  /** A timer that has been cleared is never armed again: ids only grow. */
  lemma {:induction false} ClearedTimerStaysCleared(s: Loader, events: seq<Event>, id: nat)
    requires id < s.nextTimer && s.pending != Some(id)
    ensures Run(s, events).pending != Some(id) && s.nextTimer <= Run(s, events).nextTimer
  {
    if events != [] {
      ClearedTimerStaysCleared(s, events[..|events| - 1], id);
    }
  }

  /** Hence a cleared timer firing later never finishes loading. */
  lemma ClearedTimerNeverFinishes(s: Loader, events: seq<Event>, id: nat)
    requires id < s.nextTimer && s.pending != Some(id) && !s.isLoaded
    ensures !Run(s, events + [TimerFired(id)]).isLoaded || Run(s, events).isLoaded
  {
    ClearedTimerStaysCleared(s, events, id);
    RunSnoc(s, events, TimerFired(id));
  }

  // ---------------------------------------------------------------------
  // Scenarios.
  // ---------------------------------------------------------------------

  /** Progress 0, 40, 100: the timer armed on reaching 100 finishes loading. */
  lemma ReachingCompleteScenario()
    ensures Run(Mount(0.0), [ProgressChanged(40.0), ProgressChanged(100.0), TimerFired(0)]).isLoaded
    ensures !Run(Mount(0.0), [ProgressChanged(40.0), ProgressChanged(100.0)]).isLoaded
  {
    var s := Mount(0.0);
    RunSnoc(s, [], ProgressChanged(40.0));
    RunSnoc(s, [ProgressChanged(40.0)], ProgressChanged(100.0));
    RunSnoc(s, [ProgressChanged(40.0), ProgressChanged(100.0)], TimerFired(0));
  }

  /** Progress falling back below 100 during the delay cancels completion:
      the timer armed at 100 no longer finishes loading. */
  lemma RegressionCancelsScenario()
    ensures !Run(Mount(0.0), [ProgressChanged(100.0), ProgressChanged(40.0), TimerFired(0)]).isLoaded
  {
    var s := Mount(0.0);
    RunSnoc(s, [], ProgressChanged(100.0));
    RunSnoc(s, [ProgressChanged(100.0)], ProgressChanged(40.0));
    RunSnoc(s, [ProgressChanged(100.0), ProgressChanged(40.0)], TimerFired(0));
  }

  /** A re-render during the delay replaces timer 0 by timer 1: only the
      second one finishes loading. */
  lemma RerenderRestartsScenario()
    ensures !Run(Mount(100.0), [Rerender, TimerFired(0)]).isLoaded
    ensures Run(Mount(100.0), [Rerender, TimerFired(1)]).isLoaded
  {
    var s := Mount(100.0);
    RunSnoc(s, [], Rerender);
    RunSnoc(s, [Rerender], TimerFired(0));
    RunSnoc(s, [Rerender], TimerFired(1));
  }
}
