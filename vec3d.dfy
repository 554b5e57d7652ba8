/**
 * Three-component vectors (src/vec/vec3d.rs), with the members the rest of
 * the kernel uses but vec3d.rs does not define: `zero`, scalar multiply,
 * `cross` and component indexing.
 *
 * DEFECT kept as written: `Sub` computes its z component as
 * `self.y - other.z` (src/vec/vec3d.rs:84), while `SubAssign` subtracts
 * `other.z` from `self.z`.
 */
module Vector3 {

  datatype Vec3d = Vec3d(x: real, y: real, z: real)

  /** `Vec3d::zero`, used throughout but not defined in vec3d.rs. */
  function Zero(): Vec3d {
    Vec3d(0.0, 0.0, 0.0)
  }

  /** `new_zero(x, y)`: ignores both arguments and yields the zero vector. */
  function NewZero(x: real, y: real): (r: Vec3d)
    ensures r == Zero()
  {
    Vec3d(0.0, 0.0, 0.0)
  }

  /** The sum of squared components, of which `get_magnitude` is the square root. */
  function MagnitudeSquared(v: Vec3d): real {
    v.x * v.x + v.y * v.y + v.z * v.z
  }

  /** `mag` is `get_magnitude(v)`: the non-negative square root of `MagnitudeSquared(v)`. */
  predicate IsMagnitude(v: Vec3d, mag: real) {
    mag >= 0.0 && mag * mag == MagnitudeSquared(v)
  }

  /** `a + b`, component-wise. */
  function Add(a: Vec3d, b: Vec3d): Vec3d {
    Vec3d(a.x + b.x, a.y + b.y, a.z + b.z)
  }

  /** `a - b` AS WRITTEN: the z component is `a.y - b.z` (the defect). */
  function Sub(a: Vec3d, b: Vec3d): Vec3d {
    Vec3d(a.x - b.x, a.y - b.y, a.y - b.z)
  }

  /** `a * b`: the component-wise (Hadamard) product. */
  function Mul(a: Vec3d, b: Vec3d): Vec3d {
    Vec3d(a.x * b.x, a.y * b.y, a.z * b.z)
  }

  /** `v * s`: scalar multiply (used by body.rs:90, not defined in vec3d.rs). */
  function Scale(v: Vec3d, s: real): Vec3d {
    Vec3d(v.x * s, v.y * s, v.z * s)
  }

  /** `a / s`; scaling the result back by `s` gives `a`. */
  function Div(a: Vec3d, s: real): (r: Vec3d)
    requires s != 0.0
    ensures Scale(r, s) == a
  {
    Vec3d(a.x / s, a.y / s, a.z / s)
  }

  /** The right-handed cross product (used by mat4.rs:107, not defined in vec3d.rs). */
  function Cross(a: Vec3d, b: Vec3d): Vec3d {
    Vec3d(a.y * b.z - a.z * b.y, a.z * b.x - a.x * b.z, a.x * b.y - a.y * b.x)
  }

  /** `v[idx]`, used by mat3.rs for `rows[i][j]`; an index past 2 would panic. */
  function Index(v: Vec3d, idx: int): real
    requires 0 <= idx < 3
  {
    if idx == 0 then v.x else if idx == 1 then v.y else v.z
  }

  /** Two vectors are equal exactly when they agree at the three indices. */
  lemma IndexDetermines(a: Vec3d, b: Vec3d)
    ensures (forall k :: 0 <= k < 3 ==> Index(a, k) == Index(b, k)) <==> a == b
  {
    if forall k :: 0 <= k < 3 ==> Index(a, k) == Index(b, k) {
      assert Index(a, 0) == Index(b, 0) && Index(a, 1) == Index(b, 1) && Index(a, 2) == Index(b, 2);
    }
  }

  /**
   * `normalize`: multiplies each component by `1 / mag`. There is no zero
   * branch (a zero vector yields NaN in the source), so `mag > 0` is required.
   * Scaling the result back by `mag` gives the input.
   */
  function Normalize(v: Vec3d, mag: real): (r: Vec3d)
    requires IsMagnitude(v, mag) && mag > 0.0
    ensures Scale(r, mag) == v
  {
    var invMag := 1.0 / mag;
    Vec3d(v.x * invMag, v.y * invMag, v.z * invMag)
  }

  /** `==` (PartialEq): exact component equality, no tolerance. */
  function Eq(a: Vec3d, b: Vec3d): (r: bool)
    ensures r <==> a == b
  {
    a.x == b.x && a.y == b.y && a.z == b.z
  }

  /** Adding then subtracting `b` restores `a` exactly when `a.y + b.y == a.z + b.z`. */
  lemma AddThenSubRestoresIff(a: Vec3d, b: Vec3d)
    ensures Sub(Add(a, b), b) == a <==> a.y + b.y == a.z + b.z
  {
  }

  /** The literal `Sub` of a vector from itself is not always zero. */
  lemma SubSelfNotZero()
    ensures Sub(Vec3d(0.0, 1.0, 0.0), Vec3d(0.0, 1.0, 0.0)) == Vec3d(0.0, 0.0, 1.0)
  {
  }

  lemma AddAndMulCommute(a: Vec3d, b: Vec3d)
    ensures Add(a, b) == Add(b, a)
    ensures Mul(a, b) == Mul(b, a)
    ensures Add(a, Zero()) == a
  {
  }

  /** Dividing by a nonzero `s` undoes scaling by `s`. */
  lemma DivUndoesScale(v: Vec3d, s: real)
    requires s != 0.0
    ensures Div(Scale(v, s), s) == v
  {
  }

  /** The cross product is anti-commutative and vanishes on parallel copies. */
  lemma CrossAntiCommutes(a: Vec3d, b: Vec3d)
    ensures Cross(a, b) == Scale(Cross(b, a), -1.0)
    ensures Cross(a, a) == Zero()
  {
  }

  lemma EqIsEquivalence(a: Vec3d, b: Vec3d, c: Vec3d)
    ensures Eq(a, a)
    ensures Eq(a, b) == Eq(b, a)
    ensures Eq(a, b) && Eq(b, c) ==> Eq(a, c)
  {
  }

  /** A normalized vector has unit length: its squared magnitude is exactly 1. */
  lemma NormalizeIsUnit(v: Vec3d, mag: real)
    requires IsMagnitude(v, mag) && mag > 0.0
    ensures MagnitudeSquared(Normalize(v, mag)) == 1.0
  {
    var k := 1.0 / mag;
    var r := Normalize(v, mag);
    assert k * mag == 1.0;
    calc {
      MagnitudeSquared(r);
      (v.x * k) * (v.x * k) + (v.y * k) * (v.y * k) + (v.z * k) * (v.z * k);
      (v.x * v.x + v.y * v.y + v.z * v.z) * (k * k);
      (mag * mag) * (k * k);
      (mag * k) * (mag * k);
      1.0;
    }
  }

  /** Normalizing a normalized vector (whose magnitude is 1) changes nothing. */
  lemma NormalizeIdempotent(v: Vec3d, mag: real)
    requires IsMagnitude(v, mag) && mag > 0.0
    ensures IsMagnitude(Normalize(v, mag), 1.0)
    ensures Normalize(Normalize(v, mag), 1.0) == Normalize(v, mag)
  {
    NormalizeIsUnit(v, mag);
  }

  /** A `Vec3d` held in a mutable place: the receiver of the `*Assign` operators. */
  class MutableVec3d {
    var x: real
    var y: real
    var z: real

    function Value(): Vec3d
      reads this
    {
      Vec3d(x, y, z)
    }

    constructor (v: Vec3d)
      ensures Value() == v
    {
      x, y, z := v.x, v.y, v.z;
    }

    /** `+=` leaves the place holding `old + other`. */
    method AddAssign(other: Vec3d)
      modifies this
      ensures Value() == Add(old(Value()), other)
    {
      x := x + other.x;
      y := y + other.y;
      z := z + other.z;
    }

    /** `*=` leaves the place holding the component-wise product. */
    method MulAssign(other: Vec3d)
      modifies this
      ensures Value() == Mul(old(Value()), other)
    {
      x := x * other.x;
      y := y * other.y;
      z := z * other.z;
    }

    /**
     * `-=` subtracts every component, so it agrees with the literal `Sub`
     * only when the old y and z components are equal.
     */
    method SubAssign(other: Vec3d)
      modifies this
      ensures Value() == Vec3d(old(x) - other.x, old(y) - other.y, old(z) - other.z)
      ensures Value() == Sub(old(Value()), other) <==> old(y) == old(z)
    {
      x := x - other.x;
      y := y - other.y;
      z := z - other.z;
    }

    /** `/=` by a nonzero scalar leaves the place holding `old / s`. */
    method DivAssign(s: real)
      requires s != 0.0
      modifies this
      ensures Value() == Div(old(Value()), s)
    {
      x := x / s;
      y := y / s;
      z := z / s;
    }
  }
}
