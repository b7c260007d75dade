/**
  The analytic mirror field and the Boris velocity rotation.
 */
module Pusher {
  import opened Vec3
  import opened RealArith

  /** Charge-to-mass ratio of the particle (`Q_M`). */
  const Q_M: real := 1.0

  /**
    Unnormalised shape of the mirror field at position `r` for length scale
    `l`: (-x z / l^2, -y z / l^2, 1 + z^2 / l^2), divided by `l` twice as
    `mag_field_1` writes it. `l == 0` is a division by zero and is excluded.
   */
  function MagField1(r: V3, l: real): (f: V3)
    requires l != 0.0
    ensures f.z >= 1.0
  {
    V3(-r.x * r.z / l / l, -r.y * r.z / l / l, 1.0 + r.z * r.z / l / l)
  }

  /** The field shape without divisions: each component times l^2. */
  lemma MagField1Scaled(r: V3, l: real)
    requires l != 0.0
    ensures var f := MagField1(r, l);
      && f.x * (l * l) == -r.x * r.z
      && f.y * (l * l) == -r.y * r.z
      && (f.z - 1.0) * (l * l) == r.z * r.z
  {
    DividedTwice(-r.x * r.z, l);
    DividedTwice(-r.y * r.z, l);
    DividedTwice(r.z * r.z, l);
  }

  /** A value divided by `l` twice, times l^2, gives the value back. */
  lemma DividedTwice(a: real, l: real)
    requires l != 0.0
    ensures a / l / l * (l * l) == a
  {
    var m := a / l;
    assert m * l == a;
    assert m / l * l == m;
  }

  /**
    The field is axially symmetric about the z axis: two positions at the same
    height and the same distance from the axis see the same field strength.
   */
  lemma MagField1Axisymmetric(r1: V3, r2: V3, l: real)
    requires l != 0.0
    requires r1.x * r1.x + r1.y * r1.y == r2.x * r2.x + r2.y * r2.y
    requires r1.z == r2.z
    ensures Dot(MagField1(r1, l), MagField1(r1, l)) == Dot(MagField1(r2, l), MagField1(r2, l))
  {
    MagField1Scaled(r1, l);
    MagField1Scaled(r2, l);
    TransverseEqual(MagField1(r1, l), MagField1(r2, l), r1, r2, l);
    var f1, f2 := MagField1(r1, l), MagField1(r2, l);
    assert (f1.z - f2.z) * (l * l) == 0.0;
    Cancel(f1.z - f2.z, l);
  }

  /** The transverse parts of two scaled field vectors have equal norms. */
  lemma TransverseEqual(f1: V3, f2: V3, r1: V3, r2: V3, l: real)
    requires l != 0.0 && r1.z == r2.z
    requires f1.x * (l * l) == -r1.x * r1.z && f1.y * (l * l) == -r1.y * r1.z
    requires f2.x * (l * l) == -r2.x * r2.z && f2.y * (l * l) == -r2.y * r2.z
    requires r1.x * r1.x + r1.y * r1.y == r2.x * r2.x + r2.y * r2.y
    ensures f1.x * f1.x + f1.y * f1.y == f2.x * f2.x + f2.y * f2.y
  {
    var d := f1.x * f1.x + f1.y * f1.y - (f2.x * f2.x + f2.y * f2.y);
    var L := l * l;
    var z := r1.z;
    assert (f1.x * L) * (f1.x * L) + (f1.y * L) * (f1.y * L) == (r1.x * r1.x + r1.y * r1.y) * (z * z);
    assert (f2.x * L) * (f2.x * L) + (f2.y * L) * (f2.y * L) == (r2.x * r2.x + r2.y * r2.y) * (z * z);
    assert d * ((l * l) * (l * l)) == 0.0;
    CancelFourth(d, l);
  }

  /**
    Boris rotation of velocity `v` over a time step `dt` in the field `b`,
    for charge-to-mass ratio `qm`. With t = (qm dt / 2) b the result is
    (v + v x t + (v . t) t) * 2 / (1 + t . t) - v; the divisor is at least 1.
    The rotation keeps the speed and the velocity component along the field.
   */
  function Boris(v: V3, dt: real, qm: real, b: V3): (r: V3)
    ensures Dot(r, r) == Dot(v, v)
    ensures Dot(r, b) == Dot(v, b)
  {
    var t := Mul(qm * dt / 2.0, b);
    var t2 := Dot(t, t);
    var res := Mul(Dot(v, t), t);
    var res := Add(Cross(v, t), res);
    var res := Add(v, res);
    var res := Mul(2.0 / (1.0 + t2), res);
    assert Subtract(res, v) == BorisRotate(v, t);
    BorisPreservesSpeed(v, t);
    BorisPreservesParallel(v, t, qm * dt / 2.0, b);
    Subtract(res, v)
  }

  /** The vector the Boris rotation scales before subtracting `v`. */
  function BorisSum(v: V3, t: V3): (w: V3)
  {
    Add(v, Add(Cross(v, t), Mul(Dot(v, t), t)))
  }

  /** The Boris rotation written in terms of the rotation vector `t`. */
  function BorisRotate(v: V3, t: V3): (r: V3)
  {
    Subtract(Mul(2.0 / (1.0 + Dot(t, t)), BorisSum(v, t)), v)
  }

  /** |w|^2 == (1 + |t|^2) (|v|^2 + (v . t)^2) for the Boris sum w. */
  lemma BorisSumNorm(v: V3, t: V3)
    ensures Dot(BorisSum(v, t), BorisSum(v, t))
         == (1.0 + Dot(t, t)) * (Dot(v, v) + Dot(v, t) * Dot(v, t))
  {
    var c := Cross(v, t);
    var vt := Dot(v, t);
    var p := Mul(vt, t);
    var w := BorisSum(v, t);
    Lagrange(v, t);
    CrossOrthogonal(v, t);
    DotMulSelf(vt, t);
    assert Dot(c, p) == 0.0 by { DotMulLeft(vt, t, c); }
    assert Dot(v, p) == vt * vt by { DotMulLeft(vt, t, v); }
    assert Dot(w, w) == Dot(v, v) + Dot(c, c) + Dot(p, p) + 2.0 * Dot(v, c) + 2.0 * Dot(v, p) + 2.0 * Dot(c, p);
  }

  /** The rotation by `t` keeps |v|, whatever `t` is. */
  lemma BorisPreservesSpeed(v: V3, t: V3)
    ensures 1.0 + Dot(t, t) >= 1.0
    ensures Dot(BorisRotate(v, t), BorisRotate(v, t)) == Dot(v, v)
  {
    var w := BorisSum(v, t);
    var s := 1.0 + Dot(t, t);
    var k := 2.0 / s;
    var p := Dot(v, v) + Dot(v, t) * Dot(v, t);
    DotSelfNonNegative(t);
    BorisSumNorm(v, t);
    assert Dot(v, w) == p by {
      CrossOrthogonal(v, t);
      DotMulLeft(Dot(v, t), t, v);
    }
    assert k * s == 2.0;
    var kw := Mul(k, w);
    DotMulSelf(k, w);
    assert Dot(kw, kw) == k * k * (s * p);
    DotMulLeft(k, w, v);
    DotSymmetric(w, v);
    assert Dot(kw, v) == k * p;
    var r := BorisRotate(v, t);
    assert Dot(r, r) == Dot(kw, kw) - 2.0 * Dot(kw, v) + Dot(v, v);
    assert k * k * (s * p) == 2.0 * k * p by {
      assert k * k * (s * p) == k * (k * s) * p;
    }
  }

  /** The rotation by a multiple of `b` keeps the component of v along `b`. */
  lemma BorisPreservesParallel(v: V3, t: V3, c: real, b: V3)
    requires t == Mul(c, b)
    ensures Dot(BorisRotate(v, t), b) == Dot(v, b)
  {
    var w := BorisSum(v, t);
    var s := 1.0 + Dot(t, t);
    var k := 2.0 / s;
    DotSelfNonNegative(t);
    DotMulRight(v, c, b);
    DotMulLeft(c, b, b);
    CrossScaledOrthogonal(v, c, b);
    var vt := Dot(v, t);
    DotAddLeft(v, Add(Cross(v, t), Mul(vt, t)), b);
    DotAddLeft(Cross(v, t), Mul(vt, t), b);
    DotMulLeft(vt, t, b);
    assert Dot(w, b) == Dot(v, b) + vt * Dot(t, b);
    DotMulSelf(c, b);
    ParallelProduct(vt, Dot(t, b), Dot(t, t), c, Dot(v, b), Dot(b, b));
    assert Dot(w, b) == Dot(v, b) * s;
    assert k * s == 2.0;
    DotMulLeft(k, w, b);
    assert Dot(Mul(k, w), b) == 2.0 * Dot(v, b);
  }

  /** (v . t)(t . b) == (v . b)(t . t) when t == c b, over the scalar products alone. */
  lemma ParallelProduct(vt: real, tb: real, tt: real, c: real, p: real, q: real)
    requires vt == c * p && tb == c * q && tt == c * c * q
    ensures vt * tb == p * tt
  {
    assert vt * tb == (c * p) * (c * q);
  }
}
