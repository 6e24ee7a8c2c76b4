# Cargame scene screen, modelled in Dafny

This project models the one part of the Cargame front end that has
behaviour worth stating: the scene screen in `app/gameplay/page.tsx`.

- **Car position** (`CarPosition`, `car_position.dfy`). `GameScene` holds the
  car's position as an integer triple that starts at (0,0,0). The window
  `keydown` handler and the four on-screen buttons each pass `setCarPos` an
  updater that builds a new triple from the current one. ArrowUp/⬆️ is z−1,
  ArrowDown/⬇️ is z+1, ArrowLeft/⬅️ is x−1 and ArrowRight/➡️ is x+1. Any other
  key returns the same values. The updaters are functions (`OnKeyDown`,
  `OnClick`), and `Run` folds them over a sequence of inputs. The unit vector
  of each direction (`Unit`) and the count of presses per direction (`Count`)
  are independent reference definitions. The lemmas tie the updaters to them.
- **Loading overlay** (`LoaderOverlay`, `loader_overlay.dfy`). While
  `isLoaded` is false, `LoaderOverlay` is mounted. Its effect depends on
  `[progress, onFinish]`. Each time it runs, its cleanup first clears the
  timer armed by the previous run. Then, if progress is exactly 100, it arms
  a 500 ms timer that calls `onFinish`. `onFinish` sets `isLoaded`, which
  unmounts the overlay. `onFinish` is a new closure on every render of
  `GameScene`, so every such render re-runs the effect. The model is a state
  machine (`Next`) with three events: `ProgressChanged(p)`, `Rerender` and
  `TimerFired(id)`. Time is abstract. Each armed timer gets a fresh id, and
  `TimerFired(id)` is the moment that timer's delay runs out. A timer that
  was cleared never fires, so its `TimerFired` changes nothing.
- **The component** (`GamePage`, `game_page.dfy`). `Step` combines the two.
  A key press or a click moves the car and re-renders the scene, which the
  overlay sees as `Rerender`. While the overlay is shown, pointer clicks
  cannot reach the buttons, but a button focused with the keyboard can
  still be activated (see "Left out").
  The default branch of the key switch also returns a new array, so an
  unknown key re-renders the scene too. Progress
  reports and timer expiry go to the overlay alone. `GameScene` is a class
  with the component's state as fields. Its event handlers are methods, each
  proved to move the state exactly as `Step` does and to keep the overlay's
  invariant.

The effect's cleanup (`app/gameplay/page.tsx:21`) runs whenever `progress`
or `onFinish` changes, not only when the overlay unmounts. So a progress
change during the delay cancels the pending completion
(`ProgressChangeClearsTimer`, `RegressionCancelsScenario`). A re-render of
the scene, such as one caused by a key press, clears the timer and arms a
new one (`RerenderRearmsTimer`, `KeyPressRestartsDelay`).

## Model

| member | source | states |
|---|---|---|
| CarPosition.OnKeyDown | app/gameplay/page.tsx:119-127 | the key updater never changes y; an arrow key adds the unit step of its direction; any other key leaves the position equal to the old one |
| CarPosition.OnClick | app/gameplay/page.tsx:166-171 | each button's updater adds the unit step of its direction and never changes y |
| CarPosition.Apply | app/gameplay/page.tsx:119-127 | one key press or click adds the unit step of the direction it stands for, or leaves the position unchanged if it stands for none |
| CarPosition.Run | app/gameplay/page.tsx:119-127 | the updaters applied in dispatch order, each to the latest committed position: after n inputs the car is at most n steps (x plus z) from where it started, at the same height |
| CarPosition.UpDownKeys | app/gameplay/page.tsx:121-122 | ArrowUp gives z−1 and ArrowDown gives z+1, with x and y unchanged |
| CarPosition.LeftRightKeys | app/gameplay/page.tsx:123-124 | ArrowLeft gives x−1 and ArrowRight gives x+1, with y and z unchanged |
| CarPosition.UnknownKeyIsNoOp | app/gameplay/page.tsx:120-125 | a key leaves the position unchanged if and only if it is not one of the four arrow keys |
| CarPosition.ButtonMatchesKey | app/gameplay/page.tsx:166-171 | every on-screen button gives the same new position as its arrow key |
| CarPosition.RunIsVectorSum | app/gameplay/page.tsx:119-127 | after any inputs, the position is the start plus the vector sum of the inputs' unit steps |
| CarPosition.RunFromOrigin | app/gameplay/page.tsx:114-127 | from (0,0,0), the inputs end at (#Right−#Left, 0, #Down−#Up) |
| CarPosition.CountOfPermutation | app/gameplay/page.tsx:119-127 | two input sequences with the same multiset of inputs press each direction equally often |
| CarPosition.RunIgnoresOrder | app/gameplay/page.tsx:119-127 | the final position depends only on the multiset of inputs, not on their order |
| CarPosition.UpRightUpScenario | app/gameplay/page.tsx:114-127 | ArrowUp, ArrowRight, ArrowUp from (0,0,0) end at (1,0,−2) |
| CarPosition.LeftTwiceScenario | app/gameplay/page.tsx:168 | two clicks on ⬅️ lower x by 2 and leave y and z as they were |
| LoaderOverlay.RunEffect | app/gameplay/page.tsx:16-23 | one run of the effect clears the previous timer; it arms a timer with a fresh id exactly when progress is 100 and changes nothing else |
| LoaderOverlay.Finish | app/gameplay/page.tsx:19 | `onFinish` sets `isLoaded`, which unmounts the overlay (`app/gameplay/page.tsx:136`), leaves no timer armed, and records one more call |
| LoaderOverlay.Next | app/gameplay/page.tsx:16-23 | once loaded no event changes anything; the flag is set only by the firing of the armed timer, and exactly then `onFinish` is called once more; timer ids never go back |
| LoaderOverlay.Mount | app/gameplay/page.tsx:115 | the mounted scene is not loaded and satisfies the invariant; a timer is armed on mount exactly when progress is already 100 |
| LoaderOverlay.NextKeepsInv | app/gameplay/page.tsx:16-23 | every event keeps the invariant: while the overlay is shown a timer is armed exactly when progress is 100, no timer is armed once loaded, and `onFinish` has been called once exactly when loaded |
| LoaderOverlay.FinishOnlyByPendingTimer | app/gameplay/page.tsx:17-19 | the only event that sets `isLoaded` is the firing of the armed timer, armed while progress was 100 |
| LoaderOverlay.PendingTimerFinishes | app/gameplay/page.tsx:18-19 | the armed timer firing before it is cleared calls `onFinish` and sets `isLoaded` |
| LoaderOverlay.StaleTimerIsIgnored | app/gameplay/page.tsx:21 | a timer that is not the armed one has been cleared, and its firing changes nothing |
| LoaderOverlay.ProgressChangeClearsTimer | app/gameplay/page.tsx:21-23 | a progress change while the timer is armed (so at 100) clears it and arms none, so that timer can no longer set `isLoaded` |
| LoaderOverlay.ProgressChangeArms | app/gameplay/page.tsx:16-23 | a progress change while the overlay is shown records the new value and leaves a timer armed, with a fresh id, exactly when the new value is 100 |
| LoaderOverlay.ShownAtCompleteIsArmed | app/gameplay/page.tsx:17-18 | after mount and any events, while the overlay is shown a timer is armed exactly when progress is 100, so it is never stuck at 100 with nothing pending |
| LoaderOverlay.RerenderRearmsTimer | app/gameplay/page.tsx:136 | a re-render gives a new `onFinish`, so the armed timer is cleared and a new one with a different id is armed |
| LoaderOverlay.SameProgressKeepsTimer | app/gameplay/page.tsx:23 | a progress report equal to the current value does not re-run the effect, so nothing changes |
| LoaderOverlay.RunKeepsInv | app/gameplay/page.tsx:16-23 | every sequence of events keeps the invariant |
| LoaderOverlay.FinishCalledAtMostOnce | app/gameplay/page.tsx:19 | after mount and any events, `onFinish` has been called at most once, and exactly once if `isLoaded` |
| LoaderOverlay.LoadedIsFinal | app/gameplay/page.tsx:136 | once `isLoaded` is true, no event changes anything: it stays true, and no timer is armed again |
| LoaderOverlay.LoadedOnlyThroughFiredTimer | app/gameplay/page.tsx:16-23 | if the events set `isLoaded`, one of them fired a timer that was then armed, with progress exactly 100 |
| LoaderOverlay.ClearedTimerStaysCleared | app/gameplay/page.tsx:21 | a timer once cleared is never armed again, and timer ids only grow |
| LoaderOverlay.ClearedTimerNeverFinishes | app/gameplay/page.tsx:21 | a cleared timer firing later never sets `isLoaded` |
| LoaderOverlay.ReachingCompleteScenario | app/gameplay/page.tsx:16-20 | progress 0, 40, 100 leaves the scene loading, and the timer armed at 100 then finishes it |
| LoaderOverlay.RegressionCancelsScenario | app/gameplay/page.tsx:16-23 | progress 100 then 40 cancels the timer armed at 100; its firing does not set `isLoaded` |
| LoaderOverlay.RerenderRestartsScenario | app/gameplay/page.tsx:136 | with progress at 100, a re-render replaces timer 0 by timer 1; only timer 1 finishes loading |
| GamePage.Start | app/gameplay/page.tsx:114-115 | mounting puts the car at (0,0,0), leaves the scene loading with the overlay shown and its invariant holding, and arms a timer exactly when progress is already 100 |
| GamePage.Step | app/gameplay/page.tsx:118-136 | no event changes the height; progress reports and timer expiry never move the car; once loaded the overlay part no longer changes; `isLoaded` is set only by the firing of the armed timer |
| GamePage.RunSplits | app/gameplay/page.tsx:113-136 | for any event sequence, the position is the run of the key presses and clicks alone, and the overlay is the run of the events it sees |
| GamePage.CarEndsAtNetSteps | app/gameplay/page.tsx:114-127 | however key presses, clicks, progress reports and timers interleave, the car ends at (#Right−#Left, 0, #Down−#Up) |
| GamePage.LoadedOnlyThroughFiredTimer | app/gameplay/page.tsx:13-23 | on the whole screen, `isLoaded` is true only after an armed timer fired with progress 100, and then `onFinish` was called exactly once |
| GamePage.KeyPressRestartsDelay | app/gameplay/page.tsx:119-136 | a key press during the delay moves the car and clears the armed timer; that timer no longer finishes loading |
| GamePage.GameScene.constructor | app/gameplay/page.tsx:114-115 | mounting starts at (0,0,0) with `isLoaded` false, runs the overlay effect once, and satisfies the invariant |
| GamePage.GameScene.RunOverlayEffect | app/gameplay/page.tsx:16-23 | the effect replaces the overlay state by `RunEffect` of the old one and leaves the position alone |
| GamePage.GameScene.Render | app/gameplay/page.tsx:136 | a render re-runs the overlay effect while the overlay is mounted and changes nothing once loaded |
| GamePage.GameScene.KeyDown | app/gameplay/page.tsx:118-127 | a key press updates the state exactly as `Step` does and keeps the invariant |
| GamePage.GameScene.Click | app/gameplay/page.tsx:166-171 | a button click updates the state exactly as `Step` does and keeps the invariant |
| GamePage.GameScene.ProgressChanged | app/gameplay/page.tsx:14-23 | a progress report updates the state exactly as `Step` does and keeps the invariant |
| GamePage.GameScene.TimerFired | app/gameplay/page.tsx:18-19 | a timer's expiry updates the state exactly as `Step` does and keeps the invariant |

## Left out

- `app/page.tsx` (start modal, menu links, background audio): presentation and media playback with no state logic.
- Asset loading through `useGLTF` and the internals of `useProgress`: these are library calls. Progress is an input value (`real`), and only whether it equals 100 matters.
- The copy of the position into the car's 3D object on every frame, the canvas, lights and orbit camera: renderer side effects.
- Wall-clock time: the 500 ms delay is not measured. A timer's expiry is an event, and the model only tracks whether the timer was still armed when it fired.
- The progress readout (`Math.floor(progress)`) and the bar width string: floating point and presentation.
- Deferring the scene to the client (`dynamic` with `ssr: false`), and adding or removing the window listener: framework plumbing. The model assumes key events reach the handler for the whole life of the scene.
- How a button press arrives: the overlay is a fixed, full-viewport layer with `z-index: 9999` (`app/gameplay/page.tsx:36-48`) above the button bar's `zIndex: 10` (`app/gameplay/page.tsx:155-163`). It stops pointer clicks during loading, but the buttons stay in the tab order, so a focused button activated with Enter or Space still fires its `onClick`. `Press` stands for any activation and is accepted in every state; the model does not distinguish pointer from keyboard activation.
- React batching: each event is modelled as one render. Several state updates merged into one render are not modelled.
