/**
  Three-component vector algebra over exact reals (the `V3` triples of the
  pusher). Every operation is total; the lemmas collect the algebraic facts the
  Boris rotation relies on.
 */
module Vec3 {
  import opened RealArith

  datatype V3 = V3(x: real, y: real, z: real)

  function Add(a: V3, b: V3): (r: V3)
    ensures Subtract(r, b) == a
  {
    V3(a.x + b.x, a.y + b.y, a.z + b.z)
  }

  function Subtract(a: V3, b: V3): (r: V3)
  {
    V3(a.x - b.x, a.y - b.y, a.z - b.z)
  }

  /** Scaling of a vector by a scalar (`mul` in the pusher). */
  function Mul(k: real, a: V3): (r: V3)
  {
    V3(k * a.x, k * a.y, k * a.z)
  }

  /** Right-handed cross product. */
  function Cross(a: V3, b: V3): (r: V3)
  {
    V3(a.y * b.z - b.y * a.z, a.z * b.x - b.z * a.x, a.x * b.y - b.x * a.y)
  }

  /** Sum of the component-wise products. */
  function Dot(a: V3, b: V3): (r: real)
  {
    a.x * b.x + a.y * b.y + a.z * b.z
  }

  lemma SubtractAdd(a: V3, b: V3)
    ensures Add(Subtract(a, b), b) == a
  {
  }

  lemma DotSymmetric(a: V3, b: V3)
    ensures Dot(a, b) == Dot(b, a)
  {
  }

  lemma DotSelfNonNegative(a: V3)
    ensures Dot(a, a) >= 0.0
  {
  }

  /** Dot product is linear in its first argument. */
  lemma DotAddLeft(a: V3, b: V3, c: V3)
    ensures Dot(Add(a, b), c) == Dot(a, c) + Dot(b, c)
  {
  }

  lemma DotMulLeft(k: real, a: V3, b: V3)
    ensures Dot(Mul(k, a), b) == k * Dot(a, b)
  {
  }

  lemma DotMulRight(a: V3, k: real, b: V3)
    ensures Dot(a, Mul(k, b)) == k * Dot(a, b)
  {
  }

  lemma DotMulSelf(k: real, a: V3)
    ensures Dot(Mul(k, a), Mul(k, a)) == k * k * Dot(a, a)
  {
  }

  /** The cross product is orthogonal to both of its operands. */
  lemma CrossOrthogonal(a: V3, b: V3)
    ensures Dot(Cross(a, b), a) == 0.0 && Dot(Cross(a, b), b) == 0.0
  {
  }

  /** A cross product with a multiple of `b` is orthogonal to `b`. */
  lemma CrossScaledOrthogonal(a: V3, k: real, b: V3)
    ensures Dot(Cross(a, Mul(k, b)), b) == 0.0
  {
    CrossOrthogonal(a, Mul(k, b));
    DotMulRight(Cross(a, Mul(k, b)), k, b);
    if k != 0.0 {
      ZeroProduct(Dot(Cross(a, Mul(k, b)), b), k);
    } else {
      assert Mul(k, b) == V3(0.0, 0.0, 0.0);
    }
  }

  /** Lagrange's identity: |a x b|^2 == |a|^2 |b|^2 - (a . b)^2. */
  lemma Lagrange(a: V3, b: V3)
    ensures Dot(Cross(a, b), Cross(a, b)) == Dot(a, a) * Dot(b, b) - Dot(a, b) * Dot(a, b)
  {
  }
}
