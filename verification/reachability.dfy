/**
 What holds of every game reachable from the mounted one by any sequence of
 user and timer events, and what follows over many ticks: bounded state,
 counters that only grow between resets, convergence for gains below one,
 and the two worked scenarios of the game.
 */
module Reachability {
  import opened Engine
  import opened Lifecycle
  import TickFacts

  /** The invariant of every reachable game.
      Besides the bounds the game promises, it records why the crossing count
      never passes one: the effect's previous position always equals the
      shown one, the setpoint is absorbing once reached, and ticking starts
      from the initial position. */
  ghost predicate Inv(g: Game)
  {
    && 0.0 <= g.state.position <= Setpoint
    && g.state.error == Setpoint - g.state.position
    && MinGain <= g.state.pGain <= MaxGain
    && g.state.overshoot == 0.0
    && g.lastPosition == g.state.position
    && g.oscillationCount <= 1
    && (g.oscillationCount == 1 ==> g.state.position == Setpoint)
    && (g.hasOvershot ==> g.state.position == Setpoint)
    && g.crossingCount <= g.oscillationCount
    && g.state.oscillations <= g.oscillationCount
    && (!g.state.isRunning ==>
          && g.state.position == InitialPosition
          && g.oscillationCount == 0
          && g.crossingCount == 0
          && !g.hasOvershot)
  }

  lemma InitialInv()
    ensures Inv(Initial())
  {
  }

  /** A tick from a running game that satisfies the invariant keeps it. */
  lemma TickInv(g: Game)
    requires Inv(g) && g.state.isRunning
    ensures Inv(Settle(g, Tick(g)))
  {
    var t := Tick(g);
    if g.state.position == Setpoint {
      TickFacts.SetpointIsFixed(g);
    } else {
      TickFacts.TickNeverRetreats(g);
      assert Proposed(g.state) > g.state.position by {
        TickFacts.StepPositive(g.state);
      }
      assert !g.hasOvershot && g.oscillationCount == 0;
      if Proposed(g.state) > Setpoint {
        assert DepsChanged(g, t);
      }
    }
  }

  /** Every event keeps the invariant. */
  lemma StepInv(g: Game, e: Event)
    requires Inv(g)
    ensures Inv(Step(g, e))
  {
    match e
    case StartPressed =>
    case ResetPressed =>
    case GainSlid(v) =>
    case IntervalFired =>
      if g.state.isRunning {
        TickInv(g);
      }
  }

  /** Every sequence of events keeps the invariant. */
  lemma {:induction false} RunInv(g: Game, es: seq<Event>)
    requires Inv(g)
    ensures Inv(Run(g, es))
    decreases |es|
  {
    if |es| > 0 {
      StepInv(g, es[0]);
      RunInv(Step(g, es[0]), es[1..]);
    }
  }

  /** Whatever the user does, the box stays within [0, 100], the error is the
      distance to the setpoint, the gain stays within the slider's range, the
      overshoot shown is zero, the effect's previous position is the shown
      one, and at most one crossing is ever counted between resets. */
  lemma ReachableBounded(es: seq<Event>)
    ensures 0.0 <= Run(Initial(), es).state.position <= Setpoint
    ensures Run(Initial(), es).state.error == Setpoint - Run(Initial(), es).state.position
    ensures MinGain <= Run(Initial(), es).state.pGain <= MaxGain
    ensures Run(Initial(), es).state.overshoot == 0.0
    ensures Run(Initial(), es).oscillationCount <= 1
    ensures Run(Initial(), es).hasOvershot ==> Run(Initial(), es).state.position == Setpoint
    ensures Run(Initial(), es).lastPosition == Run(Initial(), es).state.position
  {
    InitialInv();
    RunInv(Initial(), es);
  }

  /** From any reachable game, reset yields exactly the mounted game: the
      record {30, 70, stopped, 0.8, 0, 0}, a zero count, a clear flag, and
      fresh effect locals. */
  lemma ResetRestoresInitial(g: Game)
    requires Inv(g)
    ensures Reset(g) == Initial()
    ensures Reset(g).state == GameState(30.0, 70.0, false, 0.8, 0.0, 0)
  {
  }

  /** Reset is idempotent on every game. */
  lemma ResetIdempotent(g: Game)
    ensures Reset(Reset(g)) == Reset(g)
  {
    assert HandleReset(Reset(g)) == Reset(g);
  }

  /** Between resets the displayed crossing count never decreases and the
      overshoot flag, once set, stays set. */
  lemma {:induction false} CountersMonotone(g: Game, es: seq<Event>)
    requires forall i :: 0 <= i < |es| ==> !es[i].ResetPressed?
    ensures Run(g, es).oscillationCount >= g.oscillationCount
    ensures g.hasOvershot ==> Run(g, es).hasOvershot
    decreases |es|
  {
    if |es| > 0 {
      CountersMonotone(Step(g, es[0]), es[1..]);
    }
  }

  /** `x` raised to the `n`-th power. */
  function Pow(x: real, n: nat): (p: real)
    decreases n
  {
    if n == 0 then 1.0 else x * Pow(x, n - 1)
  }

  /** The regime of a gain strictly between zero and one: the game runs, the
      box is below the setpoint with the error it shows, and the previous
      unclamped position is not above the setpoint. */
  ghost predicate SubUnitRegime(g: Game)
  {
    && g.state.isRunning
    && 0.0 < g.state.pGain < 1.0
    && 0.0 <= g.state.position < Setpoint
    && g.state.error == Setpoint - g.state.position
    && g.lastPosition <= Setpoint
  }

  /** One firing of the interval in the sub-unit regime: no effect re-run
      happens, the box moves forward but stays below the setpoint, the error
      shrinks by the factor `retention = 1 - pGain`, and no crossing or
      overshoot is recorded. */
  lemma SubUnitTick(g: Game, retention: real)
    requires SubUnitRegime(g)
    requires retention == 1.0 - g.state.pGain
    ensures var t := Step(g, IntervalFired);
      && SubUnitRegime(t)
      && t.state.error == retention * g.state.error
      && g.state.position < t.state.position
      && t.oscillationCount == g.oscillationCount
      && t.hasOvershot == g.hasOvershot
      && t.state.pGain == g.state.pGain
  {
    TickFacts.SubUnitTickShrinksError(g);
    assert !DepsChanged(g, Tick(g));
    assert Step(g, IntervalFired) == Tick(g);
  }

  /** For a gain strictly between zero and one, running from below the
      setpoint: however many ticks pass, the box is still strictly below the
      setpoint and has not moved back, and no crossing and no overshoot has
      been recorded. */
  lemma {:induction false} SubUnitGainNeverCrosses(g: Game, n: nat)
    requires SubUnitRegime(g)
    ensures var r := RunTicks(g, n);
      && SubUnitRegime(r)
      && g.state.position <= r.state.position
      && r.oscillationCount == g.oscillationCount
      && r.hasOvershot == g.hasOvershot
      && r.state.pGain == g.state.pGain
    decreases n
  {
    if n > 0 {
      SubUnitTick(g, 1.0 - g.state.pGain);
      SubUnitGainNeverCrosses(Step(g, IntervalFired), n - 1);
      RunTicksUnfold(g, n);
    }
  }

  /** For a gain strictly between zero and one, running from below the
      setpoint: after `n` ticks the error is `retention^n` times the starting
      one, where `retention = 1 - pGain` is the fraction of the error one
      tick leaves. */
  lemma {:induction false} SubUnitGainConverges(g: Game, n: nat, retention: real)
    requires SubUnitRegime(g)
    requires retention == 1.0 - g.state.pGain
    ensures RunTicks(g, n).state.error == Pow(retention, n) * g.state.error
    decreases n
  {
    if n > 0 {
      SubUnitTick(g, retention);
      SubUnitGainConverges(Step(g, IntervalFired), n - 1, retention);
      DecayStep(g, n, retention);
    }
  }

  /** The inductive step of `SubUnitGainConverges`: one contracting tick
      followed by `n - 1` ticks that scale the error by the `(n-1)`-th power. */
  lemma DecayStep(g: Game, n: nat, x: real)
    requires n > 0
    requires Step(g, IntervalFired).state.error == x * g.state.error
    requires RunTicks(Step(g, IntervalFired), n - 1).state.error
               == Pow(x, n - 1) * Step(g, IntervalFired).state.error
    ensures RunTicks(g, n).state.error == Pow(x, n) * g.state.error
  {
    var t := Step(g, IntervalFired);
    RunTicksUnfold(g, n);
    PowStep(x, n, g.state.error, t.state.error, RunTicks(t, n - 1).state.error);
  }

  /** The first of `n` ticks, peeled off. */
  lemma RunTicksUnfold(g: Game, n: nat)
    requires n > 0
    ensures RunTicks(g, n) == RunTicks(Step(g, IntervalFired), n - 1)
  {
  }

  /** Peeling one factor off a power: if one step scales `e0` by `x` into
      `e1`, and `n - 1` further steps scale `e1` into `d`, then `d` is `e0`
      scaled by the `n`-th power of `x`. */
  lemma PowStep(x: real, n: nat, e0: real, e1: real, d: real)
    requires n > 0
    requires e1 == x * e0
    requires d == Pow(x, n - 1) * e1
    ensures d == Pow(x, n) * e0
  {
  }

  /** The first worked scenario: gain 0.8 from the mounted game. One tick
      moves the box 56 units, to 86, with error 14 and no crossing or
      overshoot; after ten ticks the box is past 99.9 and still no crossing
      has been counted. */
  lemma GentleGainScenario()
    ensures var g := Start(Initial());
      && Step(g, IntervalFired).state.position == 86.0
      && Step(g, IntervalFired).state.error == 14.0
      && Step(g, IntervalFired).oscillationCount == 0
      && !Step(g, IntervalFired).hasOvershot
      && 99.9 < RunTicks(g, 10).state.position < Setpoint
      && RunTicks(g, 10).oscillationCount == 0
  {
    var g := Start(Initial());
    SubUnitGainNeverCrosses(g, 1);
    SubUnitGainConverges(g, 1, 0.2);
    assert RunTicks(g, 1) == Step(g, IntervalFired);
    SubUnitGainNeverCrosses(g, 10);
    SubUnitGainConverges(g, 10, 0.2);
    assert Pow(0.2, 10) == 0.0000001024;
  }

  /** The second worked scenario: gain 2.0 from the mounted game. The first
      tick proposes 170, which is clamped to 100; one crossing is counted
      and the overshoot flag is set, but the overshoot shown is zero because
      it is taken after clamping. */
  lemma FullGainScenario()
    ensures var g := Start(SetGain(Initial(), 2.0));
      && Proposed(g.state) == 170.0
      && Step(g, IntervalFired).state.position == 100.0
      && Step(g, IntervalFired).state.error == 0.0
      && Step(g, IntervalFired).oscillationCount == 1
      && Step(g, IntervalFired).state.oscillations == 1
      && Step(g, IntervalFired).hasOvershot
      && Step(g, IntervalFired).state.overshoot == 0.0
  {
  }

  /** For every gain of one or more the slider allows, the first tick after
      start from the mounted game lands exactly on the setpoint and counts one
      crossing; the overshoot flag is set exactly when the gain exceeds one. */
  lemma HighGainCrossesOnFirstTick(v: real)
    requires 1.0 <= v <= MaxGain
    ensures var g := Start(SetGain(Initial(), v));
      && Step(g, IntervalFired).state.position == Setpoint
      && Step(g, IntervalFired).oscillationCount == 1
      && (Step(g, IntervalFired).hasOvershot <==> v > 1.0)
  {
    var g := Start(SetGain(Initial(), v));
    TickFacts.TickFullGainArrives(g);
    assert g.lastPosition == InitialPosition;
    assert Proposed(g.state) > Setpoint <==> v > 1.0 by {
      assert Proposed(g.state) == InitialPosition + v * (Setpoint - InitialPosition);
    }
  }
}
