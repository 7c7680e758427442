/**
 The session controller of the game: the initial state, the three handlers
 (start, reset, gain change), the re-run of the game-loop effect whenever one
 of its dependencies changes, and the dispatch of user and timer events.
 */
module Lifecycle {
  import opened Engine

  const InitialPosition: real := 30.0
  const InitialGain: real := 0.8
  /** The gain slider's range. */
  const MinGain: real := 0.1
  const MaxGain: real := 2.0

  /** The record the state hook starts from, and the one reset writes back. */
  function InitialState(): (s: GameState)
    ensures s.error == Setpoint - s.position
    ensures !s.isRunning && s.overshoot == 0.0 && s.oscillations == 0
  {
    GameState(
      position := InitialPosition,
      error := 70.0,
      isRunning := false,
      pGain := InitialGain,
      overshoot := 0.0,
      oscillations := 0)
  }

  /** The game as mounted: the initial record, both other hooks at their
      initial values, and the effect's first run seeding its locals. */
  function Initial(): (g: Game)
    ensures g.state == InitialState()
    ensures g.oscillationCount == 0 && !g.hasOvershot
    ensures g.lastPosition == g.state.position && g.crossingCount == 0
  {
    Reseed(Game(InitialState(), 0, false, 0.0, 0))
  }

  /** The dependencies of the game-loop effect: running flag, gain, and the
      overshoot flag. */
  predicate DepsChanged(before: Game, after: Game)
  {
    || before.state.isRunning != after.state.isRunning
    || before.state.pGain != after.state.pGain
    || before.hasOvershot != after.hasOvershot
  }

  /** What the framework does after a handler or a tick: the effect re-runs,
      reseeding its locals, exactly when one of its dependencies changed. */
  function Settle(before: Game, after: Game): (r: Game)
    ensures r.state == after.state
    ensures r.oscillationCount == after.oscillationCount
    ensures r.hasOvershot == after.hasOvershot
    ensures DepsChanged(before, after) ==> r.lastPosition == r.state.position && r.crossingCount == 0
    ensures !DepsChanged(before, after) ==> r == after
  {
    if DepsChanged(before, after) then Reseed(after) else after
  }

  /** The start handler: it sets the running flag and nothing else. */
  function HandleStart(g: Game): (r: Game)
    ensures r.state.isRunning
    ensures r.state == g.state.(isRunning := r.state.isRunning)
    ensures r == g.(state := r.state)
  {
    g.(state := g.state.(isRunning := true))
  }

  /** The reset handler: the record returns to its initial value and both
      other hooks are cleared. The effect's locals are left to the re-run. */
  function HandleReset(g: Game): (r: Game)
    ensures r.state == InitialState()
    ensures r.oscillationCount == 0 && !r.hasOvershot
    ensures r.lastPosition == g.lastPosition && r.crossingCount == g.crossingCount
  {
    g.(state := InitialState(), oscillationCount := 0, hasOvershot := false)
  }

  /** The gain handler: it writes the gain it is given, whether or not the
      game is running and whatever the value. */
  function HandlePGainChange(g: Game, value: real): (r: Game)
    ensures r.state.pGain == value
    ensures r.state == g.state.(pGain := r.state.pGain)
    ensures r == g.(state := r.state)
  {
    g.(state := g.state.(pGain := value))
  }

  /** Pressing start, followed by the effect re-run it causes: the game runs,
      nothing about the box or the counters changes, and pressing start on a
      running game changes nothing at all. */
  function Start(g: Game): (r: Game)
    ensures r.state.isRunning
    ensures r.state == g.state.(isRunning := true)
    ensures r.oscillationCount == g.oscillationCount && r.hasOvershot == g.hasOvershot
    ensures g.state.isRunning ==> r == g
    ensures !g.state.isRunning ==> r.lastPosition == g.state.position && r.crossingCount == 0
  {
    Settle(g, HandleStart(g))
  }

  /** Pressing reset, followed by the effect re-run it may cause: the record,
      the counter and the flag are back at their initial values, and ticking
      has stopped. */
  function Reset(g: Game): (r: Game)
    ensures r.state == InitialState()
    ensures !r.state.isRunning
    ensures r.oscillationCount == 0 && !r.hasOvershot
    ensures g.state.isRunning ==> r == Initial()
  {
    Settle(g, HandleReset(g))
  }

  /** The slider may move the gain only while the game is stopped, and only
      within its range. */
  predicate GainAllowed(g: Game, value: real)
  {
    !g.state.isRunning && MinGain <= value <= MaxGain
  }

  /** Moving the gain slider, followed by the effect re-run it may cause:
      only the gain changes in what the game shows. */
  function SetGain(g: Game, value: real): (r: Game)
    requires GainAllowed(g, value)
    ensures r.state == g.state.(pGain := value)
    ensures MinGain <= r.state.pGain <= MaxGain
    ensures r.oscillationCount == g.oscillationCount && r.hasOvershot == g.hasOvershot
    ensures value == g.state.pGain ==> r == g
  {
    Settle(g, HandlePGainChange(g, value))
  }

  /** The inputs that drive the game. */
  datatype Event =
    | StartPressed
    | ResetPressed
    | GainSlid(value: real)
    | IntervalFired

  /** One event and the effect re-run it may cause. A slider move the slider
      cannot produce (out of range, or while the slider is disabled because the
      game runs) leaves the game unchanged; the interval fires only while the
      game runs. */
  function Step(g: Game, e: Event): (r: Game)
    ensures e.IntervalFired? && !g.state.isRunning ==> r == g
    ensures e.GainSlid? && !GainAllowed(g, e.value) ==> r == g
    ensures !e.ResetPressed? ==> r.oscillationCount >= g.oscillationCount
    ensures !e.ResetPressed? && g.hasOvershot ==> r.hasOvershot
  {
    match e
    case StartPressed => Start(g)
    case ResetPressed => Reset(g)
    case GainSlid(v) => if GainAllowed(g, v) then SetGain(g, v) else g
    case IntervalFired => if g.state.isRunning then Settle(g, Tick(g)) else g
  }

  /** A sequence of events applied in order. */
  function Run(g: Game, es: seq<Event>): (r: Game)
    decreases |es|
  {
    if |es| == 0 then g else Run(Step(g, es[0]), es[1..])
  }

  /** `n` firings of the interval. */
  function RunTicks(g: Game, n: nat): (r: Game)
    decreases n
  {
    if n == 0 then g else RunTicks(Step(g, IntervalFired), n - 1)
  }
}
