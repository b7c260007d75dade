# Magnetic mirror particle pusher

A model of the charged-particle pusher at the heart of `f5170-magnetic_mirror`.
One particle moves through the analytic mirror field
B = b0 (-x z / l², -y z / l², 1 + z² / l²). The particle's velocity is advanced
by the Boris rotation and its position with the new velocity. A trajectory
holds the initial state and `n_steps` pushes. Whenever one push crosses a field
too strong for the time step (`0.1 / |B| * Q_M < dt`), the trajectory is thrown
away and rebuilt from scratch with half the step.

Files and modules:

- `vec3.dfy` (`Vec3`): the triple algebra `add`, `subtract`, `mul`, `cross`
  and `dot`, with the algebraic facts the rotation needs (linearity,
  orthogonality of the cross product, Lagrange's identity).
- `real_arith.dfy` (`RealArith`): small facts about real products,
  cancellation and square roots.
- `pusher.dfy` (`Pusher`): the field shape `mag_field_1` and the rotation
  `boris`. The rotation keeps the speed and the velocity component along the
  field, for every velocity, step, charge-to-mass ratio and field.
- `particle.dfy` (`Particle`): `Config`, `State`, `State::step`, and the
  per-state quantities `energy`, `v_perp`, `mag_moment` and `psi_1`. A push
  keeps the kinetic energy, and the field it records is at least |b0| strong.
  The flux `psi_1` is constant along field lines. A particle on the midplane
  z = 0 with no velocity along z stays there.
- `trajectory.dfy` (`Trajectories`): `Trajectory::new`, `try_new` and `at`.
  - `Attempt` is the inner `for` loop of `try_new`. It appends pushes to a
    sequence and gives up at the first push that is too coarse.
  - `TryNew` is the restart loop around it.
  - `Attempt` is proved against the run `RunOf` and the predicate `StableAt`.
    `TryNew` is proved against the specification function `Build`, and the
    accepted trajectory's properties are proved about `Build`.
- `scenarios.dfy` (`Scenarios`): `new` on concrete numbers. With b0 = 2 and
  no velocity along the axis, every push sees the strength 2, so the steps
  0.16 and 0.08 are rejected and 0.04 is accepted.

Numbers:

- `f64` is modelled as an exact `real`, and `Q_M` is the constant 1.0.
- The square root is not defined by the model. It is a parameter
  `sqrt: real -> real` of every operation that records a field strength.
  Lemmas about that strength require `IsSqrt(sqrt)`.
- The stability test is `0.1 / |B| * Q_M < dt`, multiplying by `Q_M` as
  `src/lib.rs:67` does. The formula `0.1 / |B| / Q_M < dt`, which divides by
  the charge-to-mass ratio, agrees with it only because `Q_M` is 1.0; the
  model follows the code.
- The stability guarantee covers every state after the initial one. The
  initial state's field strength is the sentinel 0, which the code never
  tests, so the model does not claim the guarantee for it.
- In floating point `0.1 / 0.0` is infinite and never below `dt`. `TooCoarse`
  therefore never rejects a zero strength.

## Model

| member | source | states |
|---|---|---|
| Vec3.Add | src/lib.rs:16-17 | subtracting `b` from `add(a, b)` gives back `a` |
| Vec3.CrossOrthogonal | src/lib.rs:19-20 | the cross product is orthogonal to both of its operands |
| Vec3.SubtractAdd | src/lib.rs:16-17 | adding `b` back to `subtract(a, b)` gives back `a` |
| Vec3.DotSymmetric | src/lib.rs:20 | `dot` is symmetric |
| Vec3.DotSelfNonNegative | src/lib.rs:20 | `dot(a, a)` is never negative |
| Vec3.DotAddLeft | src/lib.rs:16-20 | `dot` distributes over `add` |
| Vec3.DotMulLeft | src/lib.rs:18-20 | scaling the left operand by `mul` scales the dot product |
| Vec3.DotMulRight | src/lib.rs:18-20 | scaling the right operand by `mul` scales the dot product |
| Vec3.DotMulSelf | src/lib.rs:18-20 | \|k a\|² == k² \|a\|² |
| Vec3.CrossScaledOrthogonal | src/lib.rs:18-20 | `cross(a, mul(k, b))` is orthogonal to `b` for every k, including 0 |
| Vec3.Lagrange | src/lib.rs:19-20 | Lagrange's identity \|a × b\|² == \|a\|²\|b\|² - (a · b)² |
| Pusher.MagField1 | src/lib.rs:137-140 | the z component of the field shape is at least 1 (for `l != 0`) |
| Pusher.MagField1Scaled | src/lib.rs:137-140 | times l², the x and y components are -x z and -y z, and (f_z - 1) · l² is z², with the divisions gone |
| Pusher.MagField1Axisymmetric | src/lib.rs:137-140 | positions at the same height and distance from the axis see the same field strength |
| Pusher.TransverseEqual | src/lib.rs:139 | at equal height and axis distance, the transverse field components have equal norms |
| Pusher.Boris | src/lib.rs:124-134 | the rotated velocity has the speed of `v` and the same component along the field `b` |
| Pusher.BorisSumNorm | src/lib.rs:126-130 | the vector scaled by `2 / (1 + b2)` has squared norm (1 + \|t\|²)(\|v\|² + (v · t)²) |
| Pusher.BorisPreservesSpeed | src/lib.rs:124-134 | for every rotation vector `t`, the rotation keeps \|v\|²; the divisor 1 + \|t\|² is at least 1 |
| Pusher.BorisPreservesParallel | src/lib.rs:124-134 | when `t` is a multiple of `b`, the rotation keeps `dot(v, b)` |
| Particle.FieldAt | src/lib.rs:100 | the field used by a push has \|B\|² >= b0² |
| Particle.Step | src/lib.rs:99-106 | the new time is `t + dt`; the new velocity is the Boris rotation in `b0 * mag_field_1(pos, l)`; the position advances by `dt` times the new velocity; the recorded strength is `sqrt` of \|B\|²; the energy is unchanged |
| Particle.StepFieldMagBound | src/lib.rs:99-101 | with a true square root the recorded strength is at least \|b0\|, and positive when b0 != 0 |
| Particle.Energy | src/lib.rs:113-116 | the energy is \|v\|² / 2 and non-negative |
| Particle.VPerp | src/lib.rs:118-120 | `v_perp` lies between 0 and twice the energy |
| Particle.MagMoment | src/lib.rs:108-111 | `mag_moment` times 2 \|B\| is `v_perp`, non-negative for a positive strength |
| Particle.Psi1 | src/lib.rs:143-146 | the flux is non-negative for b0 > 0 and, for b0 != 0, zero exactly on the z axis |
| Particle.FluxGradientTransverse | src/lib.rs:143-146 | x ∂ψ/∂x + y ∂ψ/∂y == 2ψ (the flux is quadratic across the axis) |
| Particle.FieldAlongFluxSurfaces | src/lib.rs:137-146 | the field shape is orthogonal to the flux gradient, so the flux is constant along field lines |
| Particle.FluxGradientScaled | src/lib.rs:145 | times l², the z component of the flux gradient is 2 b0 (x² + y²) z |
| Particle.FluxPolynomial | src/lib.rs:139-145 | scaled by l², the field shape dotted with the flux gradient is zero |
| Particle.FieldOnMidplane | src/lib.rs:100 | at z = 0 the field is (0, 0, b0) |
| Particle.StepOnMidplane | src/lib.rs:99-106 | a push from a state with z = 0 and vz = 0 keeps z = 0 and vz = 0, and with a true square root records the strength \|b0\| |
| Trajectories.Initial | src/lib.rs:61-62 | the initial state has t = 0 and strength 0; it sits on the x axis at x (Q_M b0) = -vel_perp; its velocity is (0, vel_perp, vel_par), so `v_perp` is vel_perp² |
| Trajectories.TooCoarse | src/lib.rs:67 | a zero strength is never too coarse; for a positive strength the test holds exactly when 0.1 Q_M < dt \|B\| |
| Trajectories.Run | src/lib.rs:60-71 | n pushes give n + 1 states starting at the given state |
| Trajectories.RunStep | src/lib.rs:65-70 | each state after the first is the push of the one before |
| Trajectories.RunPrefix | src/lib.rs:60-71 | a run of m pushes is the prefix of any longer run |
| Trajectories.EvenlySpaced | src/lib.rs:66 | states each `dt` after the previous one are i·dt after the first |
| Trajectories.SameEnergy | src/lib.rs:66 | states each with the energy of the previous one all have the first one's energy |
| Trajectories.RunTimeEnergy | src/lib.rs:65-70 | state i of a run is i·dt later than the start and has its energy |
| Trajectories.RunOf | src/lib.rs:60-72 | the run of a configuration has n_steps + 1 states and starts at the initial state |
| Trajectories.RunOnMidplane | src/lib.rs:65-70 | a run from the midplane with vz = 0 stays there, and every push records \|b0\| |
| Trajectories.StableOnMidplane | src/lib.rs:61-71 | with vel_par = 0 and at least one push, the run is stable exactly when one push through \|b0\| passes the test |
| Trajectories.HalvedScale | src/lib.rs:68 | halving `dt` k times gives dt / 2^k |
| Trajectories.Pow2 | src/lib.rs:68 | 2^k is at least 1 |
| Trajectories.FirstAccepted | src/lib.rs:67-68 | a step the restart policy returns is accepted |
| Trajectories.FirstAcceptedLeast | src/lib.rs:67-68 | the returned step is dt halved k times, k at most the fuel, and no fewer halvings were accepted; nothing is returned exactly when none of the fuel + 1 candidates is accepted |
| Trajectories.NoneBeforeShift | src/lib.rs:67-68 | a rejected dt followed by k rejections from dt/2 makes k + 1 rejections from dt |
| Trajectories.Build | src/lib.rs:58-73 | a built trajectory is the stable run with the accepted step; otherwise the error is `DidNotStabilize` |
| Trajectories.RunOfFacts | src/lib.rs:60-72 | in the run of a configuration, each state after the first is the push of the one before, state i is at time i·dt, and every state has energy (vel_perp² + vel_par²) / 2 |
| Trajectories.AcceptedTrajectory | src/lib.rs:58-73 | an accepted trajectory has n_steps + 1 states, starts at the initial state, and is the run with the accepted step; every state after the first passes the stability test |
| Trajectories.AcceptedStepHalved | src/lib.rs:54-68 | the accepted step is dt0 halved k times with k ≤ fuel, so step · 2^k == dt0, and no fewer halvings gave a stable run |
| Trajectories.AcceptedStepResolvesGyration | src/lib.rs:65-68 | with a true square root and at least one push, the accepted step satisfies dt \|b0\| <= 0.1 Q_M |
| Trajectories.StableStepBound | src/lib.rs:67 | a push that passed the test through a field at least \|b0\| strong has dt \|b0\| <= 0.1 Q_M |
| Trajectories.Attempt | src/lib.rs:60-72 | one pass of the push loop succeeds exactly when the run is stable, and then returns that run |
| Trajectories.TryNew | src/lib.rs:58-73 | the restart loop succeeds exactly when `Build` does and returns its trajectory (n_steps + 1 states from the initial state); otherwise the error is `DidNotStabilize` |
| Trajectories.New | src/lib.rs:53-56 | `new` is `try_new` from the step 0.08 b0 Q_M |
| Trajectories.At | src/lib.rs:76-78 | `at(i)` returns state i exactly when i is in range, and `IndexOutOfBounds` where the Rust index panics |
| Trajectories.HostIndicesInRange | src/lib.rs:76-78 | every index 0..=n_steps of an accepted trajectory can be read |
| Scenarios.RestartScenario | src/lib.rs:53-73 | for b0 = 2, vel_par = 0 and at least one push, `new` with two halvings allowed builds exactly the run with step 0.04 (0.16 and 0.08 are too coarse); with one halving allowed it fails with `DidNotStabilize` |

## Left out

- `www/index.js` (input parsing, event listeners, plotting, animation) is user interface with no logic to model.
- `Config::empty` and `Config::from_struct` (src/lib.rs:37-47) only convert to and from JavaScript values. `Config` is a plain datatype here.
- The `log` and `alert` bindings and the `log` call in `try_new` (src/lib.rs:8-14, 59) are host output. They are omitted.
- Floating point: rounding, infinities and NaN are not modelled. Every formula is evaluated over exact reals.
- The square root (`f64::sqrt`) is a foreign routine. It is a parameter, and `IsSqrt` states what the lemmas assume of it.
- Trajectories.TryNew: the source recurses on `dt / 2` with no bound. Over exact reals that recursion need not end. In f64 any finite step underflows to 0.0 within about 2,100 halvings, and at 0.0 no push is too coarse. The model stands in for that limit with at most `maxHalvings` restarts, then returns `DidNotStabilize`.
- Trajectories.Initial: requires b0 != 0. In floating point a zero b0 puts an infinite or NaN coordinate in the initial state.
- Trajectories.Build, Trajectories.TryNew and Trajectories.New also require b0 != 0 and l != 0. A zero `l` divides by zero in `mag_field_1`.
- Pusher.MagField1 and Particle.Psi1: require l != 0, for the same reason.
- Particle.MagMoment: requires a non-zero strength. The initial state's sentinel 0 gives an infinite or NaN moment in floating point.
- The `usize` capacity `n_steps + 1` (src/lib.rs:60) cannot overflow for unbounded naturals. Only the number of states is modelled.
- The `mag_f` test (src/lib.rs:148-160) only prints values.
- Concrete runs off the midplane are not evaluated. `Scenarios` covers `new` for particles with no velocity along the axis, for b0 = 2, any `l` and `vel_perp`, and at least one push.
- `Particle.FluxGradient` is the hand-derived gradient of `psi_1`. The model has no calculus, so the derivative is checked only through the identities stated about it.
