/**
 The control-loop engine of the proportional-control teaching game: the
 state record the game renders, the hidden per-effect tick state, and the
 per-tick update rule with its crossing and overshoot detectors.

 Numbers are exact reals; the rounding of JavaScript doubles is not modelled.
 */
module Engine {

  /** The fixed target the cargo box is driven toward. */
  const Setpoint: real := 100.0

  /** The record held in the game's state hook. */
  datatype GameState = GameState(
    position: real,
    error: real,
    isRunning: bool,
    pGain: real,
    overshoot: real,
    oscillations: nat)

  /** Everything a tick reads or writes: the record, the two other state hooks
      (`oscillationCount`, `hasOvershot`) and the two locals that the game-loop
      effect keeps alive across the ticks of one interval
      (`lastPosition`, `crossingCount`). */
  datatype Game = Game(
    state: GameState,
    oscillationCount: nat,
    hasOvershot: bool,
    lastPosition: real,
    crossingCount: nat)

  /** `Math.max` on numbers that are never NaN. */
  function Max(a: real, b: real): (r: real)
    ensures r >= a && r >= b
    ensures r == a || r == b
  {
    if a >= b then a else b
  }

  /** `Math.min` on numbers that are never NaN. */
  function Min(a: real, b: real): (r: real)
    ensures r <= a && r <= b
    ensures r == a || r == b
  {
    if a <= b then a else b
  }

  /** `Math.max(0, Math.min(100, x))`: the point of [0, 100] nearest to `x`. */
  function Clamp(x: real): (r: real)
    ensures 0.0 <= r <= Setpoint
    ensures 0.0 <= x <= Setpoint ==> r == x
    ensures x > Setpoint ==> r == Setpoint
    ensures x < 0.0 ==> r == 0.0
  {
    Max(0.0, Min(Setpoint, x))
  }

  /** The error the tick acts on: the distance from the record's position
      to the setpoint. */
  function RawError(s: GameState): (e: real)
  {
    Setpoint - s.position
  }

  /** The proportional actuation: the gain times the error. */
  function Movement(s: GameState): (m: real)
  {
    s.pGain * RawError(s)
  }

  /** The position one proportional step proposes, before clamping. */
  function Proposed(s: GameState): (p: real)
  {
    s.position + Movement(s)
  }

  /** The setpoint is crossed between the previous unclamped position and the
      next one: from below onto or past it, or from above onto or below it. */
  predicate Crosses(last: real, next: real)
  {
    || (last < Setpoint && next >= Setpoint)
    || (last > Setpoint && next <= Setpoint)
  }

  /** One firing of the game-loop interval: the state updater together with
      the hook updates it issues. `hasOvershot` is the flag's value at the
      start of the tick, which is the value the effect captured. */
  function Tick(g: Game): (r: Game)
    // the exposed position is clamped and the error is derived from it
    ensures 0.0 <= r.state.position <= Setpoint
    ensures r.state.error == Setpoint - r.state.position
    // the spread keeps every field the updater does not overwrite
    ensures r.state.isRunning == g.state.isRunning
    ensures r.state.pGain == g.state.pGain
    // overshoot is taken from the clamped position, so it is always zero
    ensures r.state.overshoot == 0.0
    // the shown position is the proposal clamped into [0, 100]; the previous
    // position kept for the next tick is the unclamped one
    ensures r.state.position == Clamp(Proposed(g.state))
    ensures r.lastPosition == Proposed(g.state)
    ensures Proposed(g.state) != r.state.position ==>
              Proposed(g.state) < 0.0 || Proposed(g.state) > Setpoint
    // both counters rise by one exactly on a crossing
    ensures Crosses(g.lastPosition, r.lastPosition) ==>
              r.crossingCount == g.crossingCount + 1 && r.oscillationCount == g.oscillationCount + 1
    ensures !Crosses(g.lastPosition, r.lastPosition) ==>
              r.crossingCount == g.crossingCount && r.oscillationCount == g.oscillationCount
    ensures r.state.oscillations == r.crossingCount
    // the overshoot flag latches once the unclamped position passes the setpoint
    ensures r.hasOvershot <==> g.hasOvershot || r.lastPosition > Setpoint
  {
    var next := Proposed(g.state);
    var crossed := Crosses(g.lastPosition, next);
    var crossings := if crossed then g.crossingCount + 1 else g.crossingCount;
    var position := Clamp(next);
    Game(
      g.state.(
        position := position,
        error := Setpoint - position,
        oscillations := crossings,
        overshoot := if g.hasOvershot then Max(0.0, position - Setpoint) else 0.0),
      if crossed then g.oscillationCount + 1 else g.oscillationCount,
      g.hasOvershot || next > Setpoint,
      next,
      crossings)
  }

  /** A fresh run of the game-loop effect: its locals start again from the
      rendered position and a zero crossing count. Nothing else changes. */
  function Reseed(g: Game): (r: Game)
    ensures r.state == g.state
    ensures r.oscillationCount == g.oscillationCount
    ensures r.hasOvershot == g.hasOvershot
    ensures r.lastPosition == r.state.position
    ensures r.crossingCount == 0
  {
    g.(lastPosition := g.state.position, crossingCount := 0)
  }
}
