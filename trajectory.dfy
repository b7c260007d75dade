/**
  A trajectory: the initial state and `nSteps` pushes, rebuilt from scratch
  with half the time step whenever one push is too coarse for the field it
  crossed.
 */
module Trajectories {
  import opened Vec3
  import opened RealArith
  import opened Pusher
  import opened Particle

  /** A push is too coarse when the step exceeds STABILITY * Q_M / |B|. */
  const STABILITY: real := 0.1

  /** `new` starts from the time step DT_FACTOR * b0 * qm. */
  const DT_FACTOR: real := 0.08

  datatype Error = IndexOutOfBounds | DidNotStabilize

  datatype Result<T> = Ok(value: T) | Err(error: Error)

  datatype Option<T> = None | Some(value: T)

  /** The states of a run, the initial one first. */
  datatype Trajectory = Trajectory(states: seq<State>)

  /** A trajectory together with the time step it was built with. */
  datatype Accepted = Accepted(traj: Trajectory, dt: real)

  /**
    The initial state: at rest in time, on the x axis one gyroradius
    (vel_perp / (qm b0)) from the z axis, moving with `velPerp` along y and
    `velPar` along z. Its field strength is the sentinel 0.
   */
  function Initial(c: Config): (s: State)
    requires c.b0 != 0.0
    ensures s.t == 0.0 && s.fieldMag == 0.0
    ensures s.pos.y == 0.0 && s.pos.z == 0.0 && s.pos.x * (Q_M * c.b0) == -c.velPerp
    ensures s.vel == V3(0.0, c.velPerp, c.velPar)
    ensures VPerp(s) == c.velPerp * c.velPerp
  {
    var x := -c.velPerp / Q_M / c.b0;
    assert x * c.b0 == -c.velPerp;
    State(V3(x, 0.0, 0.0), V3(0.0, c.velPerp, c.velPar), 0.0, 0.0)
  }

  /**
    The stability test `STABILITY / fieldMag * Q_M < dt`. A zero strength makes
    the quotient infinite in floating point, and infinity is never below `dt`,
    so the test fails there. For a positive strength it says dt |B| exceeds
    STABILITY * Q_M.
   */
  function TooCoarse(fieldMag: real, dt: real): (r: bool)
    ensures fieldMag == 0.0 ==> !r
    ensures fieldMag > 0.0 ==> (r <==> STABILITY * Q_M < dt * fieldMag)
  {
    if fieldMag == 0.0 then false
    else
      var q := STABILITY / fieldMag;
      assert q * fieldMag == STABILITY;
      assert fieldMag > 0.0 ==> (q * Q_M < dt <==> STABILITY * Q_M < dt * fieldMag) by {
        if fieldMag > 0.0 {
          if q < dt { PositiveProduct(dt - q, fieldMag); }
          if STABILITY < dt * fieldMag { assert (dt - q) * fieldMag > 0.0; }
        }
      }
      q * Q_M < dt
  }

  /**
    The first `n` pushes from `s0`, all with step `dt`: `n + 1` states, each
    one the push of the one before.
   */
  function Run(s0: State, n: nat, dt: real, b0: real, l: real, sqrt: real -> real): (r: seq<State>)
    requires l != 0.0
    ensures |r| == n + 1 && r[0] == s0
    decreases n
  {
    if n == 0 then [s0]
    else
      var p := Run(s0, n - 1, dt, b0, l, sqrt);
      p + [Step(p[n - 1], dt, b0, l, sqrt)]
  }

  /** Each state of a run after the first is the push of the one before it. */
  lemma {:induction false} RunStep(s0: State, n: nat, dt: real, b0: real, l: real, sqrt: real -> real, i: nat)
    requires l != 0.0 && i < n
    ensures Run(s0, n, dt, b0, l, sqrt)[i + 1] == Step(Run(s0, n, dt, b0, l, sqrt)[i], dt, b0, l, sqrt)
  {
    if i < n - 1 {
      RunStep(s0, n - 1, dt, b0, l, sqrt, i);
    }
  }

  /** A shorter run is a prefix of a longer one. */
  lemma {:induction false} RunPrefix(s0: State, n: nat, m: nat, dt: real, b0: real, l: real, sqrt: real -> real)
    requires l != 0.0 && m <= n
    ensures Run(s0, n, dt, b0, l, sqrt)[..m + 1] == Run(s0, m, dt, b0, l, sqrt)
    decreases n
  {
    if m < n {
      RunPrefix(s0, n - 1, m, dt, b0, l, sqrt);
      assert Run(s0, n, dt, b0, l, sqrt)[..n] == Run(s0, n - 1, dt, b0, l, sqrt);
    }
  }

  /** States that each come `dt` after the one before are i steps from the first. */
  lemma {:induction false} EvenlySpaced(st: seq<State>, dt: real, i: nat)
    requires i < |st|
    requires forall j :: 0 <= j < |st| - 1 ==> st[j + 1].t == st[j].t + dt
    ensures st[i].t == st[0].t + i as real * dt
  {
    if i > 0 {
      EvenlySpaced(st, dt, i - 1);
      assert st[i].t == st[i - 1].t + dt;
    }
  }

  /** States whose energies agree pairwise with the next all have the first one's. */
  lemma {:induction false} SameEnergy(st: seq<State>, i: nat)
    requires i < |st|
    requires forall j :: 0 <= j < |st| - 1 ==> Energy(st[j + 1]) == Energy(st[j])
    ensures Energy(st[i]) == Energy(st[0])
  {
    if i > 0 {
      SameEnergy(st, i - 1);
      assert Energy(st[i]) == Energy(st[i - 1]);
    }
  }

  /** State i of a run is i steps later than the start, with the start's energy. */
  lemma RunTimeEnergy(s0: State, n: nat, dt: real, b0: real, l: real, sqrt: real -> real)
    requires l != 0.0
    ensures var r := Run(s0, n, dt, b0, l, sqrt);
      forall i :: 0 <= i <= n ==> r[i].t == s0.t + i as real * dt && Energy(r[i]) == Energy(s0)
  {
    var r := Run(s0, n, dt, b0, l, sqrt);
    forall j | 0 <= j < n
      ensures r[j + 1].t == r[j].t + dt && Energy(r[j + 1]) == Energy(r[j])
    {
      RunStep(s0, n, dt, b0, l, sqrt, j);
    }
    forall i | 0 <= i <= n
      ensures r[i].t == s0.t + i as real * dt && Energy(r[i]) == Energy(s0)
    {
      EvenlySpaced(r, dt, i);
      SameEnergy(r, i);
    }
  }

  /**
    A run that starts on the midplane stays there, and every push records the
    strength |b0|.
   */
  lemma {:induction false} RunOnMidplane(s0: State, n: nat, dt: real, c: Config, sqrt: real -> real)
    requires c.l != 0.0 && c.b0 != 0.0 && IsSqrt(sqrt) && OnMidplane(s0)
    ensures forall i :: 0 <= i <= n ==> OnMidplane(Run(s0, n, dt, c.b0, c.l, sqrt)[i])
    ensures forall i :: 1 <= i <= n ==> Run(s0, n, dt, c.b0, c.l, sqrt)[i].fieldMag == Abs(c.b0)
    decreases n
  {
    if n > 0 {
      var p := Run(s0, n - 1, dt, c.b0, c.l, sqrt);
      var r := Run(s0, n, dt, c.b0, c.l, sqrt);
      RunOnMidplane(s0, n - 1, dt, c, sqrt);
      assert r == p + [Step(p[n - 1], dt, c.b0, c.l, sqrt)];
      StepOnMidplane(p[n - 1], dt, c, sqrt);
      assert forall i :: 0 <= i < n ==> r[i] == p[i];
    }
  }

  /** No state after the initial one failed the stability test. */
  predicate Stable(states: seq<State>, dt: real)
  {
    forall i :: 1 <= i < |states| ==> !TooCoarse(states[i].fieldMag, dt)
  }

  /** The full run of `c` with step `dt` from the initial state. */
  function RunOf(c: Config, dt: real, sqrt: real -> real): (r: seq<State>)
    requires c.b0 != 0.0 && c.l != 0.0
    ensures |r| == c.nSteps + 1 && r[0] == Initial(c)
  {
    Run(Initial(c), c.nSteps, dt, c.b0, c.l, sqrt)
  }

  /** Whether the full run of `c` with step `dt` is stable. */
  predicate StableAt(c: Config, dt: real, sqrt: real -> real)
    requires c.b0 != 0.0 && c.l != 0.0
  {
    Stable(RunOf(c, dt, sqrt), dt)
  }

  /**
    With no velocity along the axis the particle gyrates in the midplane, so a
    run of at least one push is stable exactly when one push through the
    strength |b0| passes the test.
   */
  lemma StableOnMidplane(c: Config, dt: real, sqrt: real -> real)
    requires c.b0 != 0.0 && c.l != 0.0 && c.velPar == 0.0 && c.nSteps >= 1 && IsSqrt(sqrt)
    ensures StableAt(c, dt, sqrt) <==> !TooCoarse(Abs(c.b0), dt)
  {
    var r := RunOf(c, dt, sqrt);
    RunOnMidplane(Initial(c), c.nSteps, dt, c, sqrt);
    assert r[1].fieldMag == Abs(c.b0);
  }

  /** `dt` halved `k` times, in the order the restarts halve it. */
  function Halved(dt: real, k: nat): (h: real)
    decreases k
  {
    if k == 0 then dt else Halved(dt / 2.0, k - 1)
  }

  /** Halving `k` times divides by 2^k. */
  lemma {:induction false} HalvedScale(dt: real, k: nat)
    ensures Halved(dt, k) * Pow2(k) == dt
    decreases k
  {
    if k > 0 {
      var h := Halved(dt / 2.0, k - 1);
      HalvedScale(dt / 2.0, k - 1);
      assert h * (2.0 * Pow2(k - 1)) == 2.0 * (h * Pow2(k - 1));
    }
  }

  function Pow2(k: nat): (p: real)
    ensures p >= 1.0
  {
    if k == 0 then 1.0 else 2.0 * Pow2(k - 1)
  }

  /**
    The restart policy of `try_new`: the first of dt, dt/2, dt/4, ..., halved
    at most `fuel` times, that `ok` accepts.
   */
  function FirstAccepted(dt: real, fuel: nat, ok: real -> bool): (r: Option<real>)
    ensures r.Some? ==> ok(r.value)
    decreases fuel
  {
    if ok(dt) then Some(dt)
    else if fuel == 0 then None
    else FirstAccepted(dt / 2.0, fuel - 1, ok)
  }

  /** None of the first `k` candidates dt, dt/2, ... is accepted. */
  predicate NoneBefore(dt: real, k: nat, ok: real -> bool)
  {
    forall j: nat :: j < k ==> !ok(Halved(dt, j))
  }

  /**
    `FirstAccepted` returns dt halved k times for the least accepted k, and
    nothing exactly when none of the `fuel + 1` candidates is accepted.
   */
  lemma {:induction false} FirstAcceptedLeast(dt: real, fuel: nat, ok: real -> bool)
    ensures FirstAccepted(dt, fuel, ok).Some? ==>
      exists k: nat :: k <= fuel && FirstAccepted(dt, fuel, ok).value == Halved(dt, k) && NoneBefore(dt, k, ok)
    ensures FirstAccepted(dt, fuel, ok).None? <==> NoneBefore(dt, fuel + 1, ok)
    decreases fuel
  {
    var r := FirstAccepted(dt, fuel, ok);
    assert Halved(dt, 0) == dt;
    if !ok(dt) && fuel > 0 {
      var h := dt / 2.0;
      FirstAcceptedLeast(h, fuel - 1, ok);
      assert r == FirstAccepted(h, fuel - 1, ok);
      if r.Some? {
        var k': nat :| k' <= fuel - 1 && r.value == Halved(h, k') && NoneBefore(h, k', ok);
        assert r.value == Halved(dt, k' + 1);
        NoneBeforeShift(dt, k', ok);
      } else {
        NoneBeforeShift(dt, fuel, ok);
      }
    }
  }

  /** A rejected dt followed by k rejected candidates from dt/2 is k + 1 rejections from dt. */
  lemma NoneBeforeShift(dt: real, k: nat, ok: real -> bool)
    requires !ok(dt) && NoneBefore(dt / 2.0, k, ok)
    ensures NoneBefore(dt, k + 1, ok)
  {
    forall j: nat | j < k + 1
      ensures !ok(Halved(dt, j))
    {
      if j > 0 {
        assert Halved(dt, j) == Halved(dt / 2.0, j - 1);
      }
    }
  }

  /** The test each attempt of `c` must pass: its whole run is stable. */
  function Acceptable(c: Config, sqrt: real -> real): (ok: real -> bool)
    requires c.b0 != 0.0 && c.l != 0.0
  {
    dt => StableAt(c, dt, sqrt)
  }

  /**
    What `try_new` computes when it may restart at most `fuel` times: the run
    of the first acceptable step among dt, dt/2, ..., or `DidNotStabilize`
    once the restarts are used up.
   */
  function Build(dt: real, c: Config, sqrt: real -> real, fuel: nat): (r: Result<Accepted>)
    requires c.b0 != 0.0 && c.l != 0.0
    ensures r.Ok? ==> r.value.traj.states == RunOf(c, r.value.dt, sqrt) && StableAt(c, r.value.dt, sqrt)
    ensures r.Err? ==> r.error == DidNotStabilize
  {
    match FirstAccepted(dt, fuel, Acceptable(c, sqrt))
    case Some(d) => Ok(Accepted(Trajectory(RunOf(c, d, sqrt)), d))
    case None => Err(DidNotStabilize)
  }

  /**
    The run of `c` with step `dt`: each state after the first is the push of
    the one before, state i is at time i * dt, and every state has the energy
    of the initial velocity.
   */
  lemma RunOfFacts(c: Config, dt: real, sqrt: real -> real)
    requires c.b0 != 0.0 && c.l != 0.0
    ensures var st := RunOf(c, dt, sqrt);
      && (forall i :: 0 <= i < c.nSteps ==> st[i + 1] == Step(st[i], dt, c.b0, c.l, sqrt))
      && (forall i :: 0 <= i < |st| ==> st[i].t == i as real * dt)
      && (forall i :: 0 <= i < |st| ==> Energy(st[i]) == 0.5 * (c.velPerp * c.velPerp + c.velPar * c.velPar))
  {
    var init := Initial(c);
    var st := RunOf(c, dt, sqrt);
    forall i | 0 <= i < c.nSteps
      ensures st[i + 1] == Step(st[i], dt, c.b0, c.l, sqrt)
    {
      RunStep(init, c.nSteps, dt, c.b0, c.l, sqrt, i);
    }
    RunTimeEnergy(init, c.nSteps, dt, c.b0, c.l, sqrt);
    assert Energy(init) == 0.5 * (c.velPerp * c.velPerp + c.velPar * c.velPar);
    assert st == Run(init, c.nSteps, dt, c.b0, c.l, sqrt);
    forall i | 0 <= i < |st|
      ensures st[i].t == i as real * dt
    {
      assert Run(init, c.nSteps, dt, c.b0, c.l, sqrt)[i].t == init.t + i as real * dt;
      assert st[i].t == init.t + i as real * dt;
    }
  }

  /**
    An accepted trajectory is the run with the accepted step (so it has
    `nSteps + 1` states, starts at the initial state, chains pushes, keeps the
    energy and has state i at time i * dt), and every state after the first
    passed the stability test.
   */
  lemma AcceptedTrajectory(dt0: real, c: Config, sqrt: real -> real, fuel: nat, a: Accepted)
    requires c.b0 != 0.0 && c.l != 0.0
    requires Build(dt0, c, sqrt, fuel) == Ok(a)
    ensures a.traj.states == RunOf(c, a.dt, sqrt)
    ensures |a.traj.states| == c.nSteps + 1 && a.traj.states[0] == Initial(c)
    ensures forall i :: 1 <= i < |a.traj.states| ==> !TooCoarse(a.traj.states[i].fieldMag, a.dt)
  {
  }

  /** `d` is `dt0` halved `k` times, that is dt0 / 2^k. */
  predicate HalvedFrom(dt0: real, d: real, k: nat)
  {
    d == Halved(dt0, k) && d * Pow2(k) == dt0
  }

  /**
    The accepted step is the starting one halved k times, that is dt0 / 2^k,
    for k at most `fuel`, and no fewer halvings gave a stable run.
   */
  lemma AcceptedStepHalved(dt0: real, c: Config, sqrt: real -> real, fuel: nat, a: Accepted)
    requires c.b0 != 0.0 && c.l != 0.0
    requires Build(dt0, c, sqrt, fuel) == Ok(a)
    ensures exists k: nat :: k <= fuel && HalvedFrom(dt0, a.dt, k) && NoneBefore(dt0, k, Acceptable(c, sqrt))
  {
    FirstAcceptedLeast(dt0, fuel, Acceptable(c, sqrt));
    var k: nat :| k <= fuel && a.dt == Halved(dt0, k) && NoneBefore(dt0, k, Acceptable(c, sqrt));
    HalvedTimesPow2(a, dt0, k);
    assert HalvedFrom(dt0, a.dt, k);
  }

  /**
    An accepted step that is `dt` halved `k` times, times 2^k, is `dt` again.
    The step is passed inside its `Accepted` so that the solver matches the
    nonlinear term `a.dt * Pow2(k)` by its selector.
   */
  lemma HalvedTimesPow2(a: Accepted, dt: real, k: nat)
    requires a.dt == Halved(dt, k)
    ensures a.dt * Pow2(k) == dt
  {
    HalvedScale(dt, k);
  }

  /**
    With a true square root, an accepted trajectory of at least one push has a
    step that resolves the gyration: dt |b0| is at most STABILITY * Q_M, because
    every push sees a field at least |b0| strong.
   */
  lemma AcceptedStepResolvesGyration(dt0: real, c: Config, sqrt: real -> real, fuel: nat, a: Accepted)
    requires c.b0 != 0.0 && c.l != 0.0 && c.nSteps >= 1 && IsSqrt(sqrt)
    requires Build(dt0, c, sqrt, fuel) == Ok(a)
    ensures a.dt * Abs(c.b0) <= STABILITY * Q_M
  {
    var st := a.traj.states;
    RunStep(Initial(c), c.nSteps, a.dt, c.b0, c.l, sqrt, 0);
    StepFieldMagBound(st[0], a.dt, c.b0, c.l, sqrt);
    assert st[1] == Step(st[0], a.dt, c.b0, c.l, sqrt);
    StableStepBound(st[1], c, a);
  }

  /**
    A push with step `a.dt` that passed the test through a field at least
    |b0| strong keeps dt |b0| within the bound. `c` and `a` are passed whole
    so that the solver matches the products `a.dt * Abs(c.b0)` by their
    selectors.
   */
  lemma StableStepBound(s: State, c: Config, a: Accepted)
    requires 0.0 < s.fieldMag && Abs(c.b0) <= s.fieldMag && !TooCoarse(s.fieldMag, a.dt)
    ensures a.dt * Abs(c.b0) <= STABILITY * Q_M
  {
    assert a.dt * s.fieldMag <= STABILITY * Q_M;
    if a.dt >= 0.0 {
      assert a.dt * (s.fieldMag - Abs(c.b0)) >= 0.0;
      assert a.dt * (s.fieldMag - Abs(c.b0)) == a.dt * s.fieldMag - a.dt * Abs(c.b0);
    } else {
      assert a.dt * Abs(c.b0) <= 0.0;
    }
  }

  /**
    One attempt of `try_new` with step `dt`: pushes from the initial state,
    appending each new state, and gives up at the first push that is too
    coarse.
   */
  method Attempt(dt: real, c: Config, sqrt: real -> real) returns (r: Option<Trajectory>)
    requires c.b0 != 0.0 && c.l != 0.0
    ensures r.Some? <==> StableAt(c, dt, sqrt)
    ensures r.Some? ==> r.value.states == RunOf(c, dt, sqrt)
  {
    var init := Initial(c);
    var traj := [init];
    var s := init;
    for i := 0 to c.nSteps
      invariant traj == Run(init, i, dt, c.b0, c.l, sqrt)
      invariant s == traj[i]
      invariant Stable(traj, dt)
    {
      s := Step(s, dt, c.b0, c.l, sqrt);
      if TooCoarse(s.fieldMag, dt) {
        RunPrefix(init, c.nSteps, i + 1, dt, c.b0, c.l, sqrt);
        assert RunOf(c, dt, sqrt)[i + 1] == s;
        return None;
      }
      traj := traj + [s];
    }
    return Some(Trajectory(traj));
  }

  /**
    `try_new`: attempts with `dt`, `dt / 2`, ... from scratch until one is
    stable, restarting at most `maxHalvings` times.
   */
  method TryNew(dt: real, c: Config, sqrt: real -> real, maxHalvings: nat) returns (r: Result<Trajectory>)
    requires c.b0 != 0.0 && c.l != 0.0
    ensures r.Ok? <==> Build(dt, c, sqrt, maxHalvings).Ok?
    ensures r.Ok? ==> r.value == Build(dt, c, sqrt, maxHalvings).value.traj
    ensures r.Ok? ==> |r.value.states| == c.nSteps + 1 && r.value.states[0] == Initial(c)
    ensures r.Err? ==> r.error == DidNotStabilize
  {
    var step := dt;
    var fuel := maxHalvings;
    ghost var ok := Acceptable(c, sqrt);
    while true
      invariant FirstAccepted(step, fuel, ok) == FirstAccepted(dt, maxHalvings, ok)
      decreases fuel
    {
      var attempt := Attempt(step, c, sqrt);
      if attempt.Some? {
        return Ok(attempt.value);
      }
      if fuel == 0 {
        return Err(DidNotStabilize);
      }
      step := step / 2.0;
      fuel := fuel - 1;
    }
  }

  /** `new`: `try_new` from the step DT_FACTOR * b0 * Q_M. */
  method New(c: Config, sqrt: real -> real, maxHalvings: nat) returns (r: Result<Trajectory>)
    requires c.b0 != 0.0 && c.l != 0.0
    ensures r.Ok? <==> Build(DT_FACTOR * c.b0 * Q_M, c, sqrt, maxHalvings).Ok?
    ensures r.Ok? ==> r.value == Build(DT_FACTOR * c.b0 * Q_M, c, sqrt, maxHalvings).value.traj
    ensures r.Err? ==> r.error == DidNotStabilize
  {
    var dt := DT_FACTOR * c.b0 * Q_M;
    r := TryNew(dt, c, sqrt, maxHalvings);
  }

  /** `at`: state `i`, or `IndexOutOfBounds` where the index would panic. */
  function At(traj: Trajectory, i: nat): (r: Result<State>)
    ensures r.Ok? <==> i < |traj.states|
    ensures r.Ok? ==> r.value == traj.states[i]
    ensures r.Err? ==> r.error == IndexOutOfBounds
  {
    if i < |traj.states| then Ok(traj.states[i]) else Err(IndexOutOfBounds)
  }

  /** Every index the host reads, 0 through nSteps, is in an accepted trajectory. */
  lemma HostIndicesInRange(dt0: real, c: Config, sqrt: real -> real, fuel: nat, i: nat)
    requires c.b0 != 0.0 && c.l != 0.0 && i <= c.nSteps
    requires Build(dt0, c, sqrt, fuel).Ok?
    ensures At(Build(dt0, c, sqrt, fuel).value.traj, i) == Ok(Build(dt0, c, sqrt, fuel).value.traj.states[i])
  {
  }
}
