# P-control teaching game: a Dafny model of the control loop

The game drives a cargo box on a conveyor toward a fixed setpoint of 100 by
repeatedly moving it `pGain * (100 - position)`. The learner tunes the single
gain and watches for steady-state error, overshoot and oscillation. This
project models the part of `src/App.js` that does the computing: the state
record, the per-tick update with its crossing and overshoot detectors, the
start, reset and gain-change handlers, and the re-run of the game-loop effect
that reseeds the tick's hidden locals. It then proves what holds of every
game reachable by any sequence of user and timer events.

Files:

- `engine.dfy` (module `Engine`): the record `GameState` (the state hook), the
  whole `Game` (record, the `oscillationCount` and `hasOvershot` hooks, and
  the effect's closure locals `lastPosition` and `crossingCount` as explicit
  fields), `Clamp`, `Tick` and `Reseed`.
- `tick_facts.dfy` (module `TickFacts`): one-tick facts, namely monotone
  approach, error contraction for gains below one, arrival for gains of one
  or more, and the setpoint as a fixed point.
- `lifecycle.dfy` (module `Lifecycle`): the initial state, the three
  handlers, `Settle` (the effect re-runs exactly when `isRunning`, `pGain` or
  `hasOvershot` changed), the slider-gated `SetGain`, and the event dispatch
  `Step` / `Run`.
- `reachability.dfy` (module `Reachability`): the invariant of every
  reachable game, monotone counters, convergence over many ticks, and the
  two worked scenarios.

Numbers are exact `real`s. A tick is one application of `Tick`. The
`hasOvershot` a tick reads is the value the effect captured. Because a
change of that flag re-runs the effect, `Step` applies `Settle` right after
the tick that sets it, so the captured value is always the flag's value at
the start of the tick.

What the code does, read closely:

- The `overshoot` field is computed from the position after clamping
  (src/App.js:301, 310). `Math.max(0, newPosition - 100)` of a position
  already clamped to at most 100 is 0, so the field is always 0 and never
  shows how far the unclamped position went past the setpoint.
- The crossing test uses `>=` and `<=` (src/App.js:286-287). Landing exactly
  on 100 counts as a crossing, and so does returning to 100 from an
  unclamped previous position above it.
- Clamping plus reseeding make 100 absorbing. In every reachable game the
  effect's `lastPosition` equals the shown position and at most one crossing
  is counted between resets (`Reachability.ReachableBounded`). For gains
  above 1 the simulated position reaches 100 in one tick and stays there.
  The game's own lesson text (src/App.js:423-424, 431-432) tells the learner
  that large P values move fast but oscillate strongly, and asks them to
  watch the box pass the target and swing back and forth. The simulated
  position never passes 100 and the displayed crossing count never exceeds
  1. Any passing or swinging the learner sees comes from the rendering and
  the spring easing, which are not part of this model. The target marker is
  drawn at 80% of the track (src/App.js:136) while the box is drawn at
  `position`% (src/App.js:263). The spring settings (src/App.js:264-267) are
  underdamped for every gain the slider allows.
- The gain handler checks nothing (src/App.js:338-343). The range
  [0.1, 2.0] and the rule against changes while running come only from the
  slider's attributes (src/App.js:362-367). `HandlePGainChange` writes
  unconditionally. `SetGain` carries the slider's limits as its
  precondition, and `Step` ignores slider moves the slider cannot produce.
- No handler sets `isRunning` back to false except reset
  (src/App.js:321-336), so only reset stops the loop.

## Model

| member | source | states |
|---|---|---|
| Engine.Clamp | src/App.js:301 | the result lies in [0, 100], equals the input inside that range, and is the violated bound outside it |
| Engine.Tick | src/App.js:278-312 | after a tick the shown position is the proposal `position + pGain * (100 - position)` clamped into [0, 100] and the error is 100 minus it; `pGain` and `isRunning` pass through; `overshoot` is 0; the kept previous position is the unclamped one, which differs from the shown one only when clamped; both counters rise by exactly one iff the setpoint is crossed (from below onto or past it, or from above onto or below it), otherwise stay; `oscillations` equals the effect's crossing count; `hasOvershot` is set iff it was set or the unclamped position exceeds 100 |
| Engine.Reseed | src/App.js:271-274 | a re-run of the effect seeds `lastPosition` from the shown position and zeroes `crossingCount`, and changes nothing else |
| TickFacts.TickNeverRetreats | src/App.js:279-303 | with a non-negative gain and a position in [0, 100], a tick never lowers the position nor raises the error |
| TickFacts.SubUnitTickShrinksError | src/App.js:279-303 | for 0 < pGain < 1 and 0 <= position < 100 the step is not clamped, the new error is (1 - pGain) times the old one, the box stays strictly below 100 and no overshoot is flagged, and no crossing is counted when the previous unclamped position was not above 100 |
| TickFacts.TickFullGainArrives | src/App.js:279-303 | for pGain >= 1 and position <= 100 one tick makes the position exactly 100 and the error 0 |
| TickFacts.UpdaterReplayHarmless | src/App.js:278-312 | calling the state updater a second time on the same previous record, after the first call updated the effect's locals and the count, yields the same game again: no second crossing is counted |
| TickFacts.SetpointIsFixed | src/App.js:279-301 | from position 100 every gain proposes 100 again, so the box stays, the overshoot flag is unchanged, and a crossing is counted exactly when the previous unclamped position was not 100 |
| Lifecycle.InitialState | src/App.js:249-256 | the initial record is stopped, with error equal to 100 minus position and zero overshoot and oscillations |
| Lifecycle.Initial | src/App.js:249-274 | the mounted game holds the initial record, a zero count, a clear flag and effect locals seeded from the position |
| Lifecycle.Settle | src/App.js:271-319 | the effect re-runs (reseeding its locals) when running flag, gain or overshoot flag changed, and otherwise the game is left exactly as the handler or tick left it |
| Lifecycle.HandleStart | src/App.js:321-323 | the start handler sets `isRunning` and changes nothing else |
| Lifecycle.HandleReset | src/App.js:325-336 | the reset handler writes the initial record, zeroes the displayed count and clears the overshoot flag |
| Lifecycle.HandlePGainChange | src/App.js:338-343 | the gain handler writes the given gain whatever its value and whether or not the game runs, and changes nothing else |
| Lifecycle.Start | src/App.js:321-323 | pressing start makes the game run without touching position or counters; on a running game it changes nothing at all; from a stopped game the effect locals are reseeded |
| Lifecycle.Reset | src/App.js:325-336 | after reset the record is the initial one, the game is stopped, the count is 0 and the flag is clear; from a running game the result is exactly the mounted game |
| Lifecycle.SetGain | src/App.js:338-343 | a slider move while stopped and within [0.1, 2.0] changes only the gain in the record, keeps it within the slider's range, and leaves the game untouched if the gain is unchanged |
| Lifecycle.Step | src/App.js:277-343 | the interval does nothing while stopped; a slider move the slider cannot produce does nothing; every event other than reset keeps the displayed count from decreasing and the overshoot flag from clearing |
| Reachability.RunInv | src/App.js:249-343 | every sequence of events keeps the invariant: position in [0, 100], error = 100 - position, gain in [0.1, 2.0], overshoot 0, previous position equal to the shown one, at most one crossing, overshoot or a crossing only at 100, and a stopped game at its initial position with clear counters |
| Reachability.ReachableBounded | src/App.js:278-336 | in every game reachable from the mounted one, position is in [0, 100], error = 100 - position, the gain is in the slider's range, the shown overshoot is 0, the effect's previous position equals the shown one, the count is at most 1, and a set overshoot flag means the box is at 100 |
| Reachability.ResetRestoresInitial | src/App.js:325-336 | from every reachable game reset yields exactly the mounted game, whose record is {30, 70, stopped, 0.8, 0, 0} |
| Reachability.ResetIdempotent | src/App.js:325-336 | resetting twice is the same as resetting once, from any game |
| Reachability.CountersMonotone | src/App.js:285-296 | along any event sequence without reset the displayed count never decreases and a set overshoot flag stays set |
| Reachability.SubUnitTick | src/App.js:279-303 | for a gain in (0, 1) below the setpoint one interval firing causes no effect re-run, moves the box forward but below 100, scales the error by 1 - pGain, and records no crossing or overshoot |
| Reachability.SubUnitGainNeverCrosses | src/App.js:279-303 | for a gain in (0, 1) from below 100, any number of ticks keeps the box below 100 and not behind its start, with no crossing and no overshoot recorded |
| Reachability.SubUnitGainConverges | src/App.js:279-303 | for a gain in (0, 1) from below 100, after n ticks the error is (1 - pGain)^n times the starting error |
| Reachability.GentleGainScenario | src/App.js:249-303 | from the mounted game with gain 0.8, the first tick moves the box to 86 with error 14 and no crossing or overshoot, and after ten ticks the box is past 99.9 but below 100 with no crossing counted |
| Reachability.HighGainCrossesOnFirstTick | src/App.js:279-301 | for every gain in [1, 2.0], the first tick after start from the mounted game puts the box exactly on 100 and counts one crossing, and sets the overshoot flag exactly when the gain exceeds 1 |
| Reachability.FullGainScenario | src/App.js:278-312 | with gain 2.0 from position 30 the first tick proposes 170, shows 100 with error 0, counts one crossing, sets the overshoot flag, and shows overshoot 0 |

## Left out

- Styling and JSX rendering (src/App.js:5-245, 345-443): presentation only.
- The react-spring animation and its tension and friction (src/App.js:262-268): visual easing in floating point, in an external library.
- `setInterval` / `clearInterval` timing and teardown (src/App.js:277, 313, 316-318): one firing of the interval is one `Tick`. The effect re-run is assumed to happen before the next firing.
- React scheduling and batching: the framework is abstracted as `Settle`. A repeated invocation of the state updater in development mode is harmless to the counters (`TickFacts.UpdaterReplayHarmless`), so one call per firing is modelled.
- `parseFloat` of the slider's text value (src/App.js:341): the handler receives a real.
- The slider's step of 0.05 (src/App.js:364): `SetGain` admits every real in [0.1, 2.0].
- IEEE-754 rounding of JavaScript numbers: exact reals throughout. The worked scenario's values (86, 14, past 99.9) are exact here.
- Reachability.SubUnitGainNeverCrosses: holds for exact reals only. In JavaScript doubles, once the error is within a unit or two in the last place of 100, `position + movement` rounds to exactly 100.0. The test at src/App.js:286 then counts a crossing. At the default gain 0.8 the displayed count reaches 1 after a couple of dozen ticks, and the same happens for any gain of 0.5 or more. Gains below 0.5 instead stall a few units in the last place below 100 and count no crossing: one unit for gains 0.3 to 0.45, up to four at 0.1.
- Reachability.SubUnitGainConverges: its closed form `(1 - pGain)^n * error` stays positive for every n. At gains of 0.5 or more the program's error becomes exactly 0 once rounding lands the box on 100.
- Lifecycle.SetGain: the range [0.1, 2.0] and the ban on changes while running are preconditions, not errors the code raises. The handler itself checks nothing (see `Lifecycle.HandlePGainChange`).
