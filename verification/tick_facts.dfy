/**
 Facts about a single tick of the control loop: monotone approach to the
 setpoint, the contraction of the error for gains below one, the one-step
 arrival for gains of one or more, and the setpoint as a fixed point.
 */
module TickFacts {
  import opened Engine

  /** With a non-negative gain and a position inside [0, 100], a tick never
      moves the box backwards. */
  lemma TickNeverRetreats(g: Game)
    requires g.state.pGain >= 0.0
    requires 0.0 <= g.state.position <= Setpoint
    ensures Tick(g).state.position >= g.state.position
    ensures Tick(g).state.error <= Setpoint - g.state.position
  {
    ProportionalStep(g.state);
  }

  /** A positive gain below the setpoint always proposes a move forward. */
  lemma StepPositive(s: GameState)
    requires s.pGain > 0.0
    requires s.position < Setpoint
    ensures Proposed(s) > s.position
  {
    ProportionalStep(s);
  }

  /** For a gain strictly between zero and one and a position below the
      setpoint, the proposed position is never clamped, the error shrinks by
      the factor `1 - pGain`, the box stays strictly below the setpoint and no
      overshoot is flagged; no crossing is counted as long as the previous
      unclamped position was not above the setpoint. */
  lemma SubUnitTickShrinksError(g: Game)
    requires 0.0 < g.state.pGain < 1.0
    requires 0.0 <= g.state.position < Setpoint
    ensures Tick(g).state.position == Proposed(g.state)
    ensures g.state.error == Setpoint - g.state.position ==>
              Tick(g).state.error == (1.0 - g.state.pGain) * g.state.error
    ensures g.state.position < Tick(g).state.position < Setpoint
    ensures Tick(g).hasOvershot == g.hasOvershot
    ensures g.lastPosition <= Setpoint ==>
              Tick(g).oscillationCount == g.oscillationCount && Tick(g).crossingCount == g.crossingCount
  {
    ProportionalStep(g.state);
    if g.lastPosition <= Setpoint {
      assert !Crosses(g.lastPosition, Proposed(g.state));
    }
  }

  /** With a gain of one or more, a single tick from at or below the setpoint
      brings the box exactly to the setpoint. */
  lemma TickFullGainArrives(g: Game)
    requires g.state.pGain >= 1.0
    requires g.state.position <= Setpoint
    ensures Proposed(g.state) >= Setpoint
    ensures Tick(g).state.position == Setpoint
    ensures Tick(g).state.error == 0.0
  {
    ProportionalStep(g.state);
  }

  /** The setpoint is a fixed point of the tick for every gain: the movement
      there is zero, so the box stays put and no overshoot is flagged. A
      crossing is still counted whenever the previous unclamped position was
      off the setpoint, on either side. */
  lemma SetpointIsFixed(g: Game)
    requires g.state.position == Setpoint
    ensures Proposed(g.state) == Setpoint
    ensures Tick(g).state.position == Setpoint
    ensures Tick(g).state.error == 0.0
    ensures Tick(g).hasOvershot == g.hasOvershot
    ensures Tick(g).lastPosition == Setpoint
    ensures Tick(g).oscillationCount == g.oscillationCount + (if g.lastPosition != Setpoint then 1 else 0)
  {
  }

  /** Calling the state updater a second time on the same previous record,
      as the framework may do, changes nothing: the first call has already
      moved the effect's previous position to the new proposal, so the second
      sees no crossing, and the counters, the flag and the record come out as
      after the first call. */
  lemma UpdaterReplayHarmless(g: Game)
    ensures var t := Tick(g);
      Tick(t.(state := g.state, hasOvershot := g.hasOvershot)) == t
  {
  }

  /** The arithmetic of one proportional step, stated on the proposed
      position of a record. */
  lemma ProportionalStep(s: GameState)
    ensures s.pGain >= 0.0 && s.position <= Setpoint ==> Proposed(s) >= s.position
    ensures s.pGain > 0.0 && s.position < Setpoint ==> Proposed(s) > s.position
    ensures 0.0 < s.pGain < 1.0 && s.position < Setpoint ==> Proposed(s) < Setpoint
    ensures s.pGain >= 1.0 && s.position <= Setpoint ==> Proposed(s) >= Setpoint
    ensures Setpoint - Proposed(s) == (1.0 - s.pGain) * RawError(s)
  {
    StepAlong(s.position, s.pGain, RawError(s), Setpoint);
  }

  /** Moving the fraction `k` of the gap `e` from `p` toward `sp`. The gap is
      a separate variable so that the solver keeps the product `k * e` whole. */
  lemma StepAlong(p: real, k: real, e: real, sp: real)
    requires e == sp - p
    ensures k >= 0.0 && e >= 0.0 ==> p + k * e >= p
    ensures k > 0.0 && e > 0.0 ==> p + k * e > p
    ensures 0.0 < k < 1.0 && e > 0.0 ==> p + k * e < sp
    ensures k >= 1.0 && e >= 0.0 ==> p + k * e >= sp
    ensures sp - (p + k * e) == (1.0 - k) * e
  {
    if k >= 0.0 && e >= 0.0 {
      NonNegProduct(k, e);
    }
    if k > 0.0 && e > 0.0 {
      PosProduct(k, e);
    }
    if 0.0 < k < 1.0 && e > 0.0 {
      PosProduct(1.0 - k, e);
    }
    if k >= 1.0 && e >= 0.0 {
      NonNegProduct(k - 1.0, e);
    }
  }

  lemma NonNegProduct(a: real, b: real)
    requires a >= 0.0 && b >= 0.0
    ensures a * b >= 0.0
  {
  }

  lemma PosProduct(a: real, b: real)
    requires a > 0.0 && b > 0.0
    ensures a * b > 0.0
  {
  }
}
