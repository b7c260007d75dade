/**
  One point of a trajectory, the push that produces the next one, and the
  quantities read off a single state.
 */
module Particle {
  import opened Vec3
  import opened RealArith
  import opened Pusher

  /** Parameters of a run; `nSteps` is the number of pushes. */
  datatype Config = Config(b0: real, l: real, velPar: real, velPerp: real, nSteps: nat)

  /**
    Time, position, velocity, and the field strength recorded by the push that
    produced the state. That strength is the field at the position the push
    started from, one state back, not at `pos`; `MagMoment` pairs it with the
    new velocity in the same way.
   */
  datatype State = State(pos: V3, vel: V3, t: real, fieldMag: real)
  {
    function X(): real { pos.x }
    function Y(): real { pos.y }
    function Z(): real { pos.z }
    function Vx(): real { vel.x }
    function Vy(): real { vel.y }
    function Vz(): real { vel.z }
  }

  /**
    `sqrt` is the platform's square root, which this model does not define;
    every fact about the field strength assumes it is one.
   */
  ghost predicate IsSqrt(sqrt: real -> real)
  {
    forall x :: 0.0 <= x ==> 0.0 <= sqrt(x) && sqrt(x) * sqrt(x) == x
  }

  /** The field `b0 * MagField1(pos, l)` that the push at `pos` uses. */
  function FieldAt(pos: V3, b0: real, l: real): (b: V3)
    requires l != 0.0
    ensures Dot(b, b) >= b0 * b0
  {
    ScaledNormBound(b0, MagField1(pos, l));
    Mul(b0, MagField1(pos, l))
  }

  /** Scaling a vector whose z component is at least 1 by `k` gives |k f|^2 >= k^2. */
  lemma ScaledNormBound(k: real, f: V3)
    requires f.z >= 1.0
    ensures Dot(Mul(k, f), Mul(k, f)) >= k * k
  {
    DotMulSelf(k, f);
    assert Dot(f, f) >= 1.0 by {
      assert f.z * f.z >= 1.0;
    }
    ScaleAtLeast(k * k, Dot(f, f));
  }

  /**
    One push of length `dt`: the velocity is Boris-rotated in the local field,
    the position advances with the new velocity, the time by `dt`, and the
    state records the strength of the field it was pushed through. The kinetic
    energy is unchanged.
   */
  function Step(s: State, dt: real, b0: real, l: real, sqrt: real -> real): (r: State)
    requires l != 0.0
    ensures r.t == s.t + dt
    ensures r.vel == Boris(s.vel, dt, Q_M, FieldAt(s.pos, b0, l))
    ensures Subtract(r.pos, s.pos) == Mul(dt, r.vel)
    ensures r.fieldMag == sqrt(Dot(FieldAt(s.pos, b0, l), FieldAt(s.pos, b0, l)))
    ensures Energy(r) == Energy(s)
  {
    var magField := FieldAt(s.pos, b0, l);
    var fieldMag := sqrt(Dot(magField, magField));
    var vel := Boris(s.vel, dt, Q_M, magField);
    var pos := Add(s.pos, Mul(dt, vel));
    State(pos, vel, s.t + dt, fieldMag)
  }

  /**
    The strength recorded by a push is at least |b0|, hence positive when
    b0 is not zero.
   */
  lemma StepFieldMagBound(s: State, dt: real, b0: real, l: real, sqrt: real -> real)
    requires l != 0.0 && IsSqrt(sqrt)
    ensures Step(s, dt, b0, l, sqrt).fieldMag >= Abs(b0)
    ensures b0 != 0.0 ==> Step(s, dt, b0, l, sqrt).fieldMag > 0.0
  {
    var b := FieldAt(s.pos, b0, l);
    var m := sqrt(Dot(b, b));
    assert 0.0 <= m && m * m == Dot(b, b);
    RootBound(m, b0);
  }

  /** Kinetic energy for unit mass: |v|^2 / 2. */
  function Energy(s: State): (e: real)
    ensures e == 0.5 * Dot(s.vel, s.vel)
    ensures e >= 0.0
  {
    0.5 * (s.Vx() * s.Vx() + s.Vy() * s.Vy() + s.Vz() * s.Vz())
  }

  /** Squared speed across the z axis, vx^2 + vy^2 (`v_perp`). */
  function VPerp(s: State): (r: real)
    ensures 0.0 <= r <= 2.0 * Energy(s)
  {
    s.Vx() * s.Vx() + s.Vy() * s.Vy()
  }

  /**
    Magnetic moment for unit mass, v_perp / (2 |B|). A state with a zero
    field strength (the initial state) is excluded.
   */
  function MagMoment(s: State): (mu: real)
    requires s.fieldMag != 0.0
    ensures mu * (2.0 * s.fieldMag) == VPerp(s)
    ensures s.fieldMag > 0.0 ==> mu >= 0.0
  {
    0.5 / s.fieldMag * (s.Vx() * s.Vx() + s.Vy() * s.Vy())
  }

  /**
    Flux function b0 (x^2 + y^2) (1 + z^2 / l^2). Its last factor is the same
    expression as the z component of the field shape, so it is written as that.
    The flux vanishes exactly on the axis.
   */
  function Psi1(s: State, c: Config): (psi: real)
    requires c.l != 0.0
    ensures c.b0 > 0.0 ==> psi >= 0.0
    ensures c.b0 != 0.0 ==> (psi == 0.0 <==> s.X() == 0.0 && s.Y() == 0.0)
  {
    var r := s.pos;
    var rho2 := r.x * r.x + r.y * r.y;
    var fz := MagField1(r, c.l).z;
    assert rho2 == 0.0 <==> r.x == 0.0 && r.y == 0.0 by {
      if rho2 == 0.0 {
        assert r.x * r.x == 0.0 && r.y * r.y == 0.0;
        if r.x != 0.0 { ZeroProduct(r.x, r.x); }
        if r.y != 0.0 { ZeroProduct(r.y, r.y); }
      }
    }
    assert c.b0 * rho2 * fz == 0.0 <==> c.b0 * rho2 == 0.0 by {
      if c.b0 * rho2 * fz == 0.0 {
        ZeroProduct(c.b0 * rho2, fz);
      }
    }
    assert c.b0 != 0.0 ==> (c.b0 * rho2 == 0.0 <==> rho2 == 0.0) by {
      if c.b0 != 0.0 && c.b0 * rho2 == 0.0 {
        ZeroProduct(rho2, c.b0);
      }
    }
    c.b0 * rho2 * fz
  }

  /**
    The gradient of the flux b0 (x^2 + y^2) (1 + z^2 / l^2) of `Psi1` with
    respect to the position, worked out by hand:
    2 b0 (x w, y w, (x^2 + y^2) z / l^2) where w = 1 + z^2 / l^2.
   */
  function FluxGradient(r: V3, c: Config): (g: V3)
    requires c.l != 0.0
  {
    V3(2.0 * c.b0 * r.x * MagField1(r, c.l).z, 2.0 * c.b0 * r.y * MagField1(r, c.l).z,
       2.0 * c.b0 * (r.x * r.x + r.y * r.y) * (r.z / c.l / c.l))
  }

  /**
    The flux is quadratic across the axis, so the transverse part of its
    gradient satisfies Euler's relation x dpsi/dx + y dpsi/dy == 2 psi.
   */
  lemma FluxGradientTransverse(s: State, c: Config)
    requires c.l != 0.0
    ensures s.X() * FluxGradient(s.pos, c).x + s.Y() * FluxGradient(s.pos, c).y == 2.0 * Psi1(s, c)
  {
    var r := s.pos;
    var w := MagField1(r, c.l).z;
    assert r.x * (2.0 * c.b0 * r.x * w) + r.y * (2.0 * c.b0 * r.y * w)
        == 2.0 * (c.b0 * (r.x * r.x + r.y * r.y) * w);
  }

  /**
    The field shape is tangent to the surfaces of constant flux: it is
    orthogonal to the gradient of the flux everywhere, so the flux is constant
    along every field line.
   */
  lemma FieldAlongFluxSurfaces(r: V3, c: Config)
    requires c.l != 0.0
    ensures Dot(MagField1(r, c.l), FluxGradient(r, c)) == 0.0
  {
    MagField1Scaled(r, c.l);
    FluxGradientScaled(r, c);
    FluxPolynomial(MagField1(r, c.l), FluxGradient(r, c), r, c);
    Cancel(Dot(MagField1(r, c.l), FluxGradient(r, c)), c.l);
  }

  /** The z component of the flux gradient without its division: times l^2. */
  lemma FluxGradientScaled(r: V3, c: Config)
    requires c.l != 0.0
    ensures FluxGradient(r, c).z * (c.l * c.l) == 2.0 * c.b0 * (r.x * r.x + r.y * r.y) * r.z
  {
    DividedTwice(r.z, c.l);
    var a := 2.0 * c.b0 * (r.x * r.x + r.y * r.y);
    assert FluxGradient(r, c).z * (c.l * c.l) == a * (r.z / c.l / c.l * (c.l * c.l));
  }

  /** The polynomial identity behind `FieldAlongFluxSurfaces`, after scaling by l^2. */
  lemma FluxPolynomial(f: V3, g: V3, r: V3, c: Config)
    requires f.x * (c.l * c.l) == -r.x * r.z && f.y * (c.l * c.l) == -r.y * r.z
    requires g.x == 2.0 * c.b0 * r.x * f.z && g.y == 2.0 * c.b0 * r.y * f.z
    requires g.z * (c.l * c.l) == 2.0 * c.b0 * (r.x * r.x + r.y * r.y) * r.z
    ensures Dot(f, g) * (c.l * c.l) == 0.0
  {
    var L := c.l * c.l;
    assert Dot(f, g) * L == (f.x * L) * g.x + (f.y * L) * g.y + f.z * (g.z * L);
    assert (f.x * L) * g.x == -r.x * r.z * (2.0 * c.b0 * r.x * f.z);
    assert (f.y * L) * g.y == -r.y * r.z * (2.0 * c.b0 * r.y * f.z);
  }

  /** On the midplane z = 0 and moving parallel to it. */
  predicate OnMidplane(s: State)
  {
    s.Z() == 0.0 && s.Vz() == 0.0
  }

  /**
    On the midplane the field is b0 along z. A push there rotates the velocity
    about z only, so the particle stays on the midplane, and the strength it
    records is |b0|.
   */
  lemma StepOnMidplane(s: State, dt: real, c: Config, sqrt: real -> real)
    requires c.l != 0.0 && c.b0 != 0.0 && IsSqrt(sqrt) && OnMidplane(s)
    ensures OnMidplane(Step(s, dt, c.b0, c.l, sqrt))
    ensures Step(s, dt, c.b0, c.l, sqrt).fieldMag == Abs(c.b0)
  {
    FieldOnMidplane(s.pos, c);
    var r := Step(s, dt, c.b0, c.l, sqrt);
    RotationAboutZ(s.vel, r.vel, c.b0);
    assert Subtract(r.pos, s.pos) == Mul(dt, r.vel);
    StrengthOnMidplane(sqrt(Dot(FieldAt(s.pos, c.b0, c.l), FieldAt(s.pos, c.b0, c.l))), c);
  }

  /** On the midplane the field is (0, 0, b0). */
  lemma FieldOnMidplane(pos: V3, c: Config)
    requires c.l != 0.0 && pos.z == 0.0
    ensures FieldAt(pos, c.b0, c.l) == V3(0.0, 0.0, c.b0)
  {
    assert MagField1(pos, c.l) == V3(0.0, 0.0, 1.0);
  }

  /** A velocity change that keeps the component along (0, 0, b0) keeps vz == 0. */
  lemma RotationAboutZ(v: V3, w: V3, b0: real)
    requires b0 != 0.0 && v.z == 0.0 && Dot(w, V3(0.0, 0.0, b0)) == Dot(v, V3(0.0, 0.0, b0))
    ensures w.z == 0.0
  {
    assert w.z * b0 == 0.0;
    ZeroProduct(w.z, b0);
  }

  /** A true square root of |B|^2 for B = (0, 0, b0) is |b0|. */
  lemma StrengthOnMidplane(m: real, c: Config)
    requires m >= 0.0 && m * m == c.b0 * c.b0
    ensures m == Abs(c.b0)
  {
    RootUnique(m, Abs(c.b0));
  }
}
