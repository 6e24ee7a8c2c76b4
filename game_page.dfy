/** The `GameScene` component: the car's position and the loading overlay
    side by side. A key press or a button click replaces the position and
    re-renders the scene, which hands the overlay a new `onFinish` callback
    and so re-runs the overlay's effect; progress reports and timer expiry
    go to the overlay alone. */
module GamePage {
  import CarPosition
  import LoaderOverlay
  import Wrappers

  /** What `GameScene` holds: `carPos` and the overlay with `isLoaded`. */
  datatype Scene = Scene(carPos: CarPosition.Pos, loader: LoaderOverlay.Loader)

  datatype SceneEvent =
    | Key(key: string)                    // a `keydown` on the window
    | Press(button: CarPosition.Direction) // a click on an on-screen button
    | Progress(p: real)                   // the asset loader reports progress
    | Fire(id: nat)                       // the delay of timer `id` has elapsed

  /** The scene as first mounted, with the loader at `progress`. */
  function Start(progress: real): (r: Scene)
    ensures r.carPos == CarPosition.Origin
    ensures LoaderOverlay.Inv(r.loader) && LoaderOverlay.OverlayShown(r.loader)
    ensures r.loader.pending.Some? <==> progress == LoaderOverlay.Complete
  {
    Scene(CarPosition.Origin, LoaderOverlay.Mount(progress))
  }

  /** The effect of one event on the scene. A new position is always a new
      triple, even for an unknown key, so a key press always re-renders. */
  function Step(s: Scene, e: SceneEvent): (r: Scene)
    ensures r.carPos.y == s.carPos.y
    ensures e.Progress? || e.Fire? ==> r.carPos == s.carPos
    ensures s.loader.isLoaded ==> r.loader == s.loader
    ensures !s.loader.isLoaded && r.loader.isLoaded ==> e.Fire? && s.loader.pending == Wrappers.Some(e.id)
  {
    match e
    case Key(k) =>
      Scene(CarPosition.OnKeyDown(s.carPos, k), LoaderOverlay.Next(s.loader, LoaderOverlay.Rerender))
    case Press(b) =>
      Scene(CarPosition.OnClick(s.carPos, b), LoaderOverlay.Next(s.loader, LoaderOverlay.Rerender))
    case Progress(p) =>
      Scene(s.carPos, LoaderOverlay.Next(s.loader, LoaderOverlay.ProgressChanged(p)))
    case Fire(id) =>
      Scene(s.carPos, LoaderOverlay.Next(s.loader, LoaderOverlay.TimerFired(id)))
  }

  function Run(s: Scene, events: seq<SceneEvent>): Scene
  {
    if events == [] then s
    else Step(Run(s, events[..|events| - 1]), events[|events| - 1])
  }

  /** The key presses and clicks among the events, in order. */
  function Inputs(events: seq<SceneEvent>): seq<CarPosition.Input>
  {
    if events == [] then []
    else
      var front := Inputs(events[..|events| - 1]);
      match events[|events| - 1]
      case Key(k) => front + [CarPosition.KeyDown(k)]
      case Press(b) => front + [CarPosition.Click(b)]
      case _ => front
  }

  /** What the overlay sees of the events, in order. */
  function OverlayEvents(events: seq<SceneEvent>): seq<LoaderOverlay.Event>
  {
    if events == [] then []
    else
      var front := OverlayEvents(events[..|events| - 1]);
      match events[|events| - 1]
      case Key(_) => front + [LoaderOverlay.Rerender]
      case Press(_) => front + [LoaderOverlay.Rerender]
      case Progress(p) => front + [LoaderOverlay.ProgressChanged(p)]
      case Fire(id) => front + [LoaderOverlay.TimerFired(id)]
  }

  /** The position and the overlay evolve independently: the position is the
      run of the key presses and clicks alone, and the overlay the run of
      what it sees. */
  lemma {:induction false} RunSplits(s: Scene, events: seq<SceneEvent>)
    ensures Run(s, events).carPos == CarPosition.Run(s.carPos, Inputs(events))
    ensures Run(s, events).loader == LoaderOverlay.Run(s.loader, OverlayEvents(events))
  {
    if events != [] {
      var front, last := events[..|events| - 1], events[|events| - 1];
      RunSplits(s, front);
      match last
      case Key(k) =>
        CarPosition.RunSnoc(s.carPos, Inputs(front), CarPosition.KeyDown(k));
        LoaderOverlay.RunSnoc(s.loader, OverlayEvents(front), LoaderOverlay.Rerender);
      case Press(b) =>
        CarPosition.RunSnoc(s.carPos, Inputs(front), CarPosition.Click(b));
        LoaderOverlay.RunSnoc(s.loader, OverlayEvents(front), LoaderOverlay.Rerender);
      case Progress(p) =>
        LoaderOverlay.RunSnoc(s.loader, OverlayEvents(front), LoaderOverlay.ProgressChanged(p));
      case Fire(id) =>
        LoaderOverlay.RunSnoc(s.loader, OverlayEvents(front), LoaderOverlay.TimerFired(id));
    }
  }

  /** However the events interleave, the car ends at
      (#Right - #Left, 0, #Down - #Up) of its key presses and clicks. */
  lemma CarEndsAtNetSteps(progress: real, events: seq<SceneEvent>)
    ensures var inputs := Inputs(events);
      Run(Start(progress), events).carPos ==
        CarPosition.Pos(
          CarPosition.Count(inputs, CarPosition.Right) - CarPosition.Count(inputs, CarPosition.Left),
          0,
          CarPosition.Count(inputs, CarPosition.Down) - CarPosition.Count(inputs, CarPosition.Up))
  {
    RunSplits(Start(progress), events);
    CarPosition.RunFromOrigin(Inputs(events));
  }

  /** `isLoaded` becomes true only through a timer that was armed with
      progress at exactly 100 and fired before anything cleared it, and
      `onFinish` is called at most once. */
  lemma LoadedOnlyThroughFiredTimer(progress: real, events: seq<SceneEvent>)
    requires Run(Start(progress), events).loader.isLoaded
    ensures var seen := OverlayEvents(events);
      exists i: nat :: i < |seen| && LoaderOverlay.FiresArmedTimer(LoaderOverlay.Mount(progress), seen, i)
    ensures Run(Start(progress), events).loader.finishCalls == 1
  {
    RunSplits(Start(progress), events);
    LoaderOverlay.FinishCalledAtMostOnce(OverlayEvents(events), progress);
    LoaderOverlay.LoadedOnlyThroughFiredTimer(LoaderOverlay.Mount(progress), OverlayEvents(events));
  }

  /** A key press during the delay clears the armed timer, so that timer no
      longer finishes loading; the car still moves. */
  lemma KeyPressRestartsDelay(s: Scene, key: string, id: nat)
    requires LoaderOverlay.Inv(s.loader) && s.loader.pending == Wrappers.Some(id)
    ensures !Step(Step(s, Key(key)), Fire(id)).loader.isLoaded
    ensures Step(Step(s, Key(key)), Fire(id)).carPos == CarPosition.OnKeyDown(s.carPos, key)
  {
    LoaderOverlay.RerenderRearmsTimer(s.loader, id);
  }

  /** The component itself: its state variables and the handlers that
      replace them. */
  class GameScene {
    var carPos: CarPosition.Pos
    var isLoaded: bool
    var progress: real
    var pending: Wrappers.Option<nat>
    var nextTimer: nat
    var finishCalls: nat

    function State(): Scene
      reads this
    {
      Scene(carPos, LoaderOverlay.Loader(isLoaded, progress, pending, nextTimer, finishCalls))
    }

    ghost predicate Valid()
      reads this
    {
      LoaderOverlay.Inv(State().loader)
    }

    /** Mounting: the position starts at (0,0,0), `isLoaded` false, and the
        overlay's effect runs once with the loader's current progress. */
    constructor (initialProgress: real)
      ensures Valid() && State() == Start(initialProgress)
    {
      carPos := CarPosition.Origin;
      isLoaded := false;
      progress := initialProgress;
      pending := Wrappers.None;
      nextTimer := 0;
      finishCalls := 0;
      new;
      RunOverlayEffect();
    }

    /** The overlay's effect: clear the previous timer, arm a new one when
        progress is exactly 100. */
    method RunOverlayEffect()
      requires !isLoaded
      modifies this
      ensures State() == old(State()).(loader := LoaderOverlay.RunEffect(old(State()).loader))
    {
      pending := Wrappers.None;
      if progress == LoaderOverlay.Complete {
        pending := Wrappers.Some(nextTimer);
        nextTimer := nextTimer + 1;
      }
    }

    /** A render of `GameScene`: while the overlay is mounted it gets a new
        `onFinish` and its effect re-runs. */
    method Render()
      modifies this
      ensures State() == old(State()).(loader := LoaderOverlay.Next(old(State()).loader, LoaderOverlay.Rerender))
    {
      if !isLoaded {
        RunOverlayEffect();
      }
    }

    method KeyDown(key: string)
      requires Valid()
      modifies this
      ensures Valid() && State() == Step(old(State()), Key(key))
    {
      carPos := CarPosition.OnKeyDown(carPos, key);
      Render();
    }

    method Click(button: CarPosition.Direction)
      requires Valid()
      modifies this
      ensures Valid() && State() == Step(old(State()), Press(button))
    {
      carPos := CarPosition.OnClick(carPos, button);
      Render();
    }

    method ProgressChanged(p: real)
      requires Valid()
      modifies this
      ensures Valid() && State() == Step(old(State()), Progress(p))
    {
      if !isLoaded && p != progress {
        progress := p;
        RunOverlayEffect();
      }
    }

    /** Only the armed timer can fire; its callback is `onFinish`, which sets
        `isLoaded` and so unmounts the overlay. */
    method TimerFired(id: nat)
      requires Valid()
      modifies this
      ensures Valid() && State() == Step(old(State()), Fire(id))
    {
      if !isLoaded && pending == Wrappers.Some(id) {
        pending := Wrappers.None;
        finishCalls := finishCalls + 1;
        isLoaded := true;
      }
    }
  }
}
