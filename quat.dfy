/**
 * Quaternions (src/physics/quat/quat.rs): x, y, z the vector part, w the
 * scalar part.
 *
 * DEFECTS kept as written:
 * - `normalize` computes the new `w` from `x` (src/physics/quat/quat.rs:59),
 *   so its result is a unit quaternion only when |w| == |x|.
 * - `Quat * Quat` is not the Hamilton product (src/physics/quat/quat.rs:100-103).
 *   Against `a * b` of Hamilton, which has `+ a.y*b.z - a.z*b.y` in `x`,
 *   `- a.x*b.z + a.z*b.x` in `y`, `+ a.x*b.y - a.y*b.x` in `z` and
 *   `a.w*b.w` first in `w`, the code has `- a.y*b.z` in `x`,
 *   `- a.z*b.x - a.z*b.z` in `y`, `- a.x*b.y - a.z*b.x` in `z` and
 *   `a.x*b.w` first in `w`. In particular `zero() * zero()` is the all-zero
 *   quaternion, not `zero()`.
 */
module Quaternion {
  import Vector3
  import Matrix3

  datatype Quat = Quat(x: real, y: real, z: real, w: real)

  /** `zero`: the quaternion (0, 0, 0, 1), i.e. no rotation. */
  function Zero(): Quat {
    Quat(0.0, 0.0, 0.0, 1.0)
  }

  /** `magnitute_squared`: the sum of the four squares. */
  function MagnitudeSquared(q: Quat): real {
    q.x * q.x + q.y * q.y + q.z * q.z + q.w * q.w
  }

  /** The squared magnitude is never negative. */
  lemma MagnitudeSquaredNonNegative(q: Quat)
    ensures MagnitudeSquared(q) >= 0.0
  {
  }

  /** `mag` is `get_magnitude(q)`: the non-negative square root of `MagnitudeSquared(q)`. */
  predicate IsMagnitude(q: Quat, mag: real) {
    mag >= 0.0 && mag * mag == MagnitudeSquared(q)
  }

  /** `q *= s` (MulAssign<f64>): all four components scaled. */
  function Scale(q: Quat, s: real): Quat {
    Quat(q.x * s, q.y * s, q.z * s, q.w * s)
  }

  /**
   * `normalize` AS WRITTEN. With magnitude 0 the input comes back unchanged.
   * Otherwise x, y and z are multiplied by `1 / mag`, and so is `x` once more
   * to give the new `w` (the defect).
   */
  function Normalize(q: Quat, mag: real): (r: Quat)
    requires IsMagnitude(q, mag)
    ensures mag == 0.0 ==> r == q
    ensures mag > 0.0 ==> r.x * mag == q.x && r.y * mag == q.y && r.z * mag == q.z && r.w * mag == q.x
  {
    if mag > 0.0 then
      var invMag := 1.0 / mag;
      Quat(q.x * invMag, q.y * invMag, q.z * invMag, q.x * invMag)
    else
      Quat(q.x, q.y, q.z, q.w)
  }

  /**
   * `inverse`: a copy scaled by `1 / magnitute_squared`, then x, y and z
   * negated. The source divides without a guard; here the squared magnitude
   * must be nonzero.
   */
  function Inverse(q: Quat): Quat
    requires MagnitudeSquared(q) != 0.0
  {
    var temp := Scale(q, 1.0 / MagnitudeSquared(q));
    Quat(-temp.x, -temp.y, -temp.z, temp.w)
  }

  /** `self * other` AS WRITTEN (not the Hamilton product). */
  function Mul(a: Quat, b: Quat): Quat {
    Quat(a.x * b.w + a.w * b.x - a.y * b.z - a.z * b.y,
         a.y * b.w + a.w * b.y - a.z * b.x - a.z * b.z,
         a.z * b.w + a.w * b.z - a.x * b.y - a.z * b.x,
         a.x * b.w - a.x * b.x - a.y * b.y - a.z * b.z)
  }

  /** The point `v` as a quaternion with no scalar part. */
  function Pure(v: Vector3.Vec3d): Quat {
    Quat(v.x, v.y, v.z, 0.0)
  }

  /** The vector part x, y, z of `q`. */
  function VectorPart(q: Quat): Vector3.Vec3d {
    Vector3.Vec3d(q.x, q.y, q.z)
  }

  /** `rotate_point`: the vector part of `q * (v, 0) * inverse(q)`. */
  function RotatePoint(q: Quat, v: Vector3.Vec3d): Vector3.Vec3d
    requires MagnitudeSquared(q) != 0.0
  {
    VectorPart(Mul(Mul(q, Pure(v)), Inverse(q)))
  }

  /** `rotate_matrix`: each of the three rows rotated on its own. */
  function RotateMatrix(q: Quat, m: Matrix3.Mat3): (r: Matrix3.Mat3)
    requires MagnitudeSquared(q) != 0.0
    ensures forall i :: 0 <= i < 3 ==> Matrix3.Row(r, i) == RotatePoint(q, Matrix3.Row(m, i))
  {
    Matrix3.Mat3(RotatePoint(q, m.r0), RotatePoint(q, m.r1), RotatePoint(q, m.r2))
  }

  /** `q[idx]` (Index<usize>, Index<u64>, Index<i32>): 0..3 select x, y, z, w; any other index panics. */
  function Index(q: Quat, idx: int): real
    requires 0 <= idx < 4
  {
    if idx == 0 then q.x else if idx == 1 then q.y else if idx == 2 then q.z else q.w
  }

  /** Two quaternions are equal exactly when they agree at the four indices. */
  lemma IndexDetermines(a: Quat, b: Quat)
    ensures (forall k :: 0 <= k < 4 ==> Index(a, k) == Index(b, k)) <==> a == b
  {
    if forall k :: 0 <= k < 4 ==> Index(a, k) == Index(b, k) {
      assert Index(a, 0) == Index(b, 0) && Index(a, 1) == Index(b, 1);
      assert Index(a, 2) == Index(b, 2) && Index(a, 3) == Index(b, 3);
    }
  }

  /** `==` (PartialEq): exact component equality, no tolerance. */
  function Eq(a: Quat, b: Quat): (r: bool)
    ensures r <==> a == b
  {
    a.x == b.x && a.y == b.y && a.z == b.z && a.w == b.w
  }

  lemma ZeroIsUnit()
    ensures MagnitudeSquared(Zero()) == 1.0
    ensures IsMagnitude(Zero(), 1.0)
  {
  }

  /** With `f != 0`, `a * (f * f) == 0` exactly when `a == 0`. */
  lemma ScaledZeroIff(a: real, f: real)
    requires f != 0.0
    ensures a * (f * f) == 0.0 <==> a == 0.0
  {
    if a != 0.0 {
      NonzeroProduct(a, f);
      NonzeroProduct(a * f, f);
      assert a * (f * f) == (a * f) * f;
    }
  }

  /** If `k * mag == 1` then `(mag * mag) * (k * k) == 1`. */
  lemma UnitSquare(mag: real, k: real)
    requires k * mag == 1.0
    ensures (mag * mag) * (k * k) == 1.0
  {
    calc {
      (mag * mag) * (k * k);
      (k * mag) * (k * mag);
      1.0;
    }
  }

  lemma NonzeroProduct(a: real, b: real)
    requires a != 0.0 && b != 0.0
    ensures a * b != 0.0
  {
  }

  /**
   * Because `w` is taken from `x`, a normalized nonzero quaternion has unit
   * length exactly when `w * w == x * x`.
   */
  lemma NormalizeUnitIff(q: Quat, mag: real)
    requires IsMagnitude(q, mag) && mag > 0.0
    ensures MagnitudeSquared(Normalize(q, mag)) == 1.0 <==> q.w * q.w == q.x * q.x
  {
    var k := 1.0 / mag;
    var r := Normalize(q, mag);
    var e := q.x * q.x - q.w * q.w;
    assert k * mag == 1.0;
    calc {
      MagnitudeSquared(r);
      (q.x * k) * (q.x * k) + (q.y * k) * (q.y * k) + (q.z * k) * (q.z * k) + (q.x * k) * (q.x * k);
      MagnitudeSquared(q) * (k * k) + e * (k * k);
      (mag * mag) * (k * k) + e * (k * k);
      { UnitSquare(mag, k); }
      1.0 + e * (k * k);
    }
    ScaledZeroIff(e, k);
  }

  /** `inverse(zero()) == zero()`. */
  lemma InverseOfZero()
    ensures MagnitudeSquared(Zero()) == 1.0
    ensures Inverse(Zero()) == Zero()
  {
    InverseOfUnit(Zero());
  }

  /** A quaternion of squared magnitude 1 is inverted by negating its vector part. */
  lemma InverseOfUnit(q: Quat)
    requires MagnitudeSquared(q) == 1.0
    ensures Inverse(q) == Quat(-q.x, -q.y, -q.z, q.w)
  {
    assert 1.0 / MagnitudeSquared(q) == 1.0;
    assert Scale(q, 1.0) == q;
  }

  lemma ScaleMagnitude(q: Quat, s: real)
    ensures MagnitudeSquared(Scale(q, s)) == MagnitudeSquared(q) * (s * s)
  {
  }

  /** The squared magnitude of the inverse is the reciprocal of the original's. */
  lemma InverseMagnitude(q: Quat)
    requires MagnitudeSquared(q) != 0.0
    ensures MagnitudeSquared(Inverse(q)) * MagnitudeSquared(q) == 1.0
  {
    var m := MagnitudeSquared(q);
    var k := 1.0 / m;
    ScaleMagnitude(q, k);
    assert MagnitudeSquared(Inverse(q)) == MagnitudeSquared(Scale(q, k));
    assert k * m == 1.0;
    calc {
      MagnitudeSquared(Inverse(q)) * m;
      m * (k * k) * m;
      (k * m) * (k * m);
      1.0;
    }
  }

  /** `inverse` undoes itself. */
  /** The inverse of a quaternion that can be inverted can be inverted again. */
  lemma InverseInvertible(q: Quat)
    requires MagnitudeSquared(q) != 0.0
    ensures MagnitudeSquared(Inverse(q)) != 0.0
  {
    InverseMagnitude(q);
  }

  lemma InverseInvolution(q: Quat)
    requires MagnitudeSquared(q) != 0.0
    ensures MagnitudeSquared(Inverse(q)) != 0.0
    ensures Inverse(Inverse(q)) == q
  {
    InverseMagnitude(q);
    var m := MagnitudeSquared(q);
    var k := 1.0 / m;
    var m2 := MagnitudeSquared(Inverse(q));
    assert m2 * m == 1.0;
    assert 1.0 / m2 == m;
    assert k * m == 1.0;
    var p := Inverse(q);
    assert p == Quat(-(q.x * k), -(q.y * k), -(q.z * k), q.w * k);
    var r := Inverse(p);
    assert r == Quat(-(p.x * m), -(p.y * m), -(p.z * m), p.w * m);
    assert r.x == q.x * (k * m);
    assert r.y == q.y * (k * m);
    assert r.z == q.z * (k * m);
    assert r.w == q.w * (k * m);
  }

  /** `zero() * zero()` is the all-zero quaternion: `zero()` is no identity for the literal product. */
  lemma ZeroTimesZero()
    ensures Mul(Zero(), Zero()) == Quat(0.0, 0.0, 0.0, 0.0)
  {
  }

  /** `zero() * (v, 0) * zero()` with the literal product is `(v.x, v.y, v.z, v.x)`. */
  lemma MulByZeroBothSides(v: Vector3.Vec3d)
    ensures Mul(Mul(Zero(), Pure(v)), Zero()) == Quat(v.x, v.y, v.z, v.x)
  {
    MulZeroLeft(Pure(v));
    MulZeroRight(Pure(v));
  }

  /** `rotate_point` with the inverse of `q` already known. */
  lemma RotatePointWithInverse(q: Quat, v: Vector3.Vec3d, inv: Quat)
    requires MagnitudeSquared(q) != 0.0 && Inverse(q) == inv
    ensures RotatePoint(q, v) == VectorPart(Mul(Mul(q, Pure(v)), inv))
  {
  }

  /** Rotating by a quaternion of squared magnitude 1 multiplies on the right by its conjugate. */
  lemma RotatePointByUnit(q: Quat, v: Vector3.Vec3d)
    requires MagnitudeSquared(q) == 1.0
    ensures RotatePoint(q, v) == VectorPart(Mul(Mul(q, Pure(v)), Quat(-q.x, -q.y, -q.z, q.w)))
  {
    InverseOfUnit(q);
    RotatePointWithInverse(q, v, Quat(-q.x, -q.y, -q.z, q.w));
  }

  /** `zero()` is its own conjugate. */
  lemma ZeroConjugate()
    ensures Quat(-Zero().x, -Zero().y, -Zero().z, Zero().w) == Zero()
  {
  }

  /** Rotating by `zero()` leaves a point where it is, even with the literal product. */
  lemma RotateByZero(v: Vector3.Vec3d)
    ensures MagnitudeSquared(Zero()) == 1.0
    ensures RotatePoint(Zero(), v) == v
  {
    ZeroIsUnit();
    RotatePointByUnit(Zero(), v);
    ZeroConjugate();
    MulByZeroBothSides(v);
  }

  /** Rotating a matrix by `zero()` leaves every row where it is. */
  lemma RotateMatrixByZero(m: Matrix3.Mat3)
    ensures MagnitudeSquared(Zero()) == 1.0
    ensures RotateMatrix(Zero(), m) == m
  {
    RotateByZero(m.r0);
    RotateByZero(m.r1);
    RotateByZero(m.r2);
  }

  /** `zero() * p` with the literal product, for `p` with no scalar part. */
  lemma MulZeroLeft(p: Quat)
    requires p.w == 0.0
    ensures Mul(Zero(), p) == p
  {
  }

  /**
   * `p * zero()` with the literal product keeps the vector part of `p` but
   * replaces its scalar part with `p.x`.
   */
  lemma MulZeroRight(p: Quat)
    ensures Mul(p, Zero()) == Quat(p.x, p.y, p.z, p.x)
  {
  }

  lemma EqIsEquivalence(a: Quat, b: Quat, c: Quat)
    ensures Eq(a, a)
    ensures Eq(a, b) == Eq(b, a)
    ensures Eq(a, b) && Eq(b, c) ==> Eq(a, c)
  {
  }

  /** A `Quat` held in a mutable place: the receiver of `*=` and `q[idx] = ...`. */
  class MutableQuat {
    var x: real
    var y: real
    var z: real
    var w: real

    function Value(): Quat
      reads this
    {
      Quat(x, y, z, w)
    }

    constructor (q: Quat)
      ensures Value() == q
    {
      x, y, z, w := q.x, q.y, q.z, q.w;
    }

    /** `*= other` (MulAssign<Quat>): the place holds `old * other`. */
    method MulAssign(other: Quat)
      modifies this
      ensures Value() == Mul(old(Value()), other)
    {
      var product := Mul(Value(), other);
      x, y, z, w := product.x, product.y, product.z, product.w;
    }

    /** `*= s` (MulAssign<f64>): all four components scaled. */
    method MulAssignScalar(s: real)
      modifies this
      ensures Value() == Scale(old(Value()), s)
    {
      x := x * s;
      y := y * s;
      z := z * s;
      w := w * s;
    }

    /** `q[idx] = val` through IndexMut: only the selected component changes. */
    method SetIndex(idx: int, val: real)
      requires 0 <= idx < 4
      modifies this
      ensures Index(Value(), idx) == val
      ensures forall k :: 0 <= k < 4 && k != idx ==> Index(Value(), k) == Index(old(Value()), k)
    {
      if idx == 0 {
        x := val;
      } else if idx == 1 {
        y := val;
      } else if idx == 2 {
        z := val;
      } else {
        w := val;
      }
    }
  }
}
