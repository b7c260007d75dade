/**
  `new` on a particle with no velocity along the axis in a field of scale
  b0 = 2: the particle gyrates in the midplane, where every push sees the
  strength 2. The starting step 0.08 * 2 = 0.16 and its half 0.08 are too
  coarse, and 0.04 is accepted.
 */
module Scenarios {
  import opened RealArith
  import opened Pusher
  import opened Particle
  import opened Trajectories

  /**
    With two halvings allowed, `new` builds the run with step 0.04; with one,
    it gives up.
   */
  lemma RestartScenario(c: Config, sqrt: real -> real)
    requires c.b0 == 2.0 && c.l != 0.0 && c.velPar == 0.0 && c.nSteps >= 1 && IsSqrt(sqrt)
    ensures Build(DT_FACTOR * c.b0 * Q_M, c, sqrt, 2) == Ok(Accepted(Trajectory(RunOf(c, 0.04, sqrt)), 0.04))
    ensures Build(DT_FACTOR * c.b0 * Q_M, c, sqrt, 1) == Err(DidNotStabilize)
  {
    var ok := Acceptable(c, sqrt);
    assert Abs(c.b0) == 2.0;
    StableOnMidplane(c, 0.16, sqrt);
    StableOnMidplane(c, 0.08, sqrt);
    StableOnMidplane(c, 0.04, sqrt);
    assert TooCoarse(2.0, 0.16) && TooCoarse(2.0, 0.08) && !TooCoarse(2.0, 0.04);
    assert !ok(0.16) && !ok(0.08) && ok(0.04);
    assert DT_FACTOR * c.b0 * Q_M == 0.16;
    assert FirstAccepted(0.04, 0, ok) == Some(0.04);
    assert FirstAccepted(0.08, 1, ok) == Some(0.04);
    assert FirstAccepted(0.08, 0, ok) == None;
  }
}
