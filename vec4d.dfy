/**
 * Four-component vectors (src/vec/vec4d.rs), with the members mat4.rs uses
 * but vec4d.rs does not define: `zero`, scalar multiply and writing one
 * component (`v[i] = ...`).
 */
module Vector4 {

  datatype Vec4d = Vec4d(x: real, y: real, z: real, w: real)

  /** `Vec4d::zero`, used by mat4.rs but not defined in vec4d.rs. */
  function Zero(): Vec4d {
    Vec4d(0.0, 0.0, 0.0, 0.0)
  }

  /** `new_zero(x, y, z, w)`: ignores all four arguments and yields the zero vector. */
  function NewZero(x: real, y: real, z: real, w: real): (r: Vec4d)
    ensures r == Zero()
  {
    Vec4d(0.0, 0.0, 0.0, 0.0)
  }

  /** The sum of squared components, of which `get_magnitude` is the square root. */
  function MagnitudeSquared(v: Vec4d): real {
    v.x * v.x + v.y * v.y + v.z * v.z + v.w * v.w
  }

  /** `mag` is `get_magnitude(v)`: the non-negative square root of `MagnitudeSquared(v)`. */
  predicate IsMagnitude(v: Vec4d, mag: real) {
    mag >= 0.0 && mag * mag == MagnitudeSquared(v)
  }

  /** `a + b`; subtracting `b` again gives back `a`. */
  function Add(a: Vec4d, b: Vec4d): (r: Vec4d)
    ensures Sub(r, b) == a
  {
    Vec4d(a.x + b.x, a.y + b.y, a.z + b.z, a.w + b.w)
  }

  /** `a - b`; it is the zero vector exactly when `a == b`. */
  function Sub(a: Vec4d, b: Vec4d): (r: Vec4d)
    ensures r == Zero() <==> a == b
  {
    Vec4d(a.x - b.x, a.y - b.y, a.z - b.z, a.w - b.w)
  }

  /** `a * b`: the component-wise (Hadamard) product. */
  function Mul(a: Vec4d, b: Vec4d): Vec4d {
    Vec4d(a.x * b.x, a.y * b.y, a.z * b.z, a.w * b.w)
  }

  /** `v * s`: scalar multiply (used by mat4.rs:156, not defined in vec4d.rs). */
  function Scale(v: Vec4d, s: real): Vec4d {
    Vec4d(v.x * s, v.y * s, v.z * s, v.w * s)
  }

  /** `a / s`; scaling the result back by `s` gives `a`. */
  function Div(a: Vec4d, s: real): (r: Vec4d)
    requires s != 0.0
    ensures Scale(r, s) == a
  {
    Vec4d(a.x / s, a.y / s, a.z / s, a.w / s)
  }

  /** `a.dot(b)`: the sum of the four pairwise products. */
  function Dot(a: Vec4d, b: Vec4d): real {
    a.x * b.x + a.y * b.y + a.z * b.z + a.w * b.w
  }

  /**
   * `normalize`. The zero vector (magnitude 0) comes back unchanged; any
   * other vector has each component multiplied by `1 / mag`, so scaling the
   * result back by `mag` gives the input. (The source computes `1 / mag`
   * before the guard; that value is unused when `mag == 0`.)
   */
  function Normalize(v: Vec4d, mag: real): (r: Vec4d)
    requires IsMagnitude(v, mag)
    ensures mag == 0.0 ==> r == v
    ensures mag > 0.0 ==> Scale(r, mag) == v
  {
    if mag > 0.0 then
      var invMag := 1.0 / mag;
      Vec4d(v.x * invMag, v.y * invMag, v.z * invMag, v.w * invMag)
    else
      Vec4d(v.x, v.y, v.z, v.w)
  }

  /** `v[idx]` (Index<usize>): 0..3 select x, y, z, w; any other index panics. */
  function Index(v: Vec4d, idx: int): real
    requires 0 <= idx < 4
  {
    if idx == 0 then v.x else if idx == 1 then v.y else if idx == 2 then v.z else v.w
  }

  /** `v[idx] = val`, as mat4.rs writes it; the other three components stay. */
  function WithIndex(v: Vec4d, idx: int, val: real): (r: Vec4d)
    requires 0 <= idx < 4
    ensures Index(r, idx) == val
    ensures forall k :: 0 <= k < 4 && k != idx ==> Index(r, k) == Index(v, k)
  {
    if idx == 0 then v.(x := val)
    else if idx == 1 then v.(y := val)
    else if idx == 2 then v.(z := val)
    else v.(w := val)
  }

  /** Scaling scales every indexed component. */
  lemma ScaleIndex(v: Vec4d, s: real, idx: int)
    requires 0 <= idx < 4
    ensures Index(Scale(v, s), idx) == Index(v, idx) * s
  {
  }

  /** `==` (PartialEq): exact component equality, no tolerance. */
  function Eq(a: Vec4d, b: Vec4d): (r: bool)
    ensures r <==> a == b
  {
    a.x == b.x && a.y == b.y && a.z == b.z && a.w == b.w
  }

  /** The four indices read back the whole vector. */
  lemma IndexDetermines(a: Vec4d, b: Vec4d)
    requires forall k :: 0 <= k < 4 ==> Index(a, k) == Index(b, k)
    ensures a == b
  {
    assert Index(a, 0) == Index(b, 0) && Index(a, 1) == Index(b, 1);
    assert Index(a, 2) == Index(b, 2) && Index(a, 3) == Index(b, 3);
  }

  lemma DotSymmetric(a: Vec4d, b: Vec4d)
    ensures Dot(a, b) == Dot(b, a)
    ensures Dot(a, Zero()) == 0.0
  {
  }

  lemma MulCommutes(a: Vec4d, b: Vec4d)
    ensures Mul(a, b) == Mul(b, a)
    ensures Mul(a, Vec4d(1.0, 1.0, 1.0, 1.0)) == a
  {
  }

  lemma EqIsEquivalence(a: Vec4d, b: Vec4d, c: Vec4d)
    ensures Eq(a, a)
    ensures Eq(a, b) == Eq(b, a)
    ensures Eq(a, b) && Eq(b, c) ==> Eq(a, c)
  {
  }

  /** `normalize` hands the zero vector back unchanged. */
  lemma NormalizeZeroVector(mag: real)
    requires IsMagnitude(Zero(), mag)
    ensures Normalize(Zero(), mag) == Zero()
  {
  }

  /** A normalized nonzero vector has unit length: its squared magnitude is exactly 1. */
  lemma NormalizeIsUnit(v: Vec4d, mag: real)
    requires IsMagnitude(v, mag) && mag > 0.0
    ensures MagnitudeSquared(Normalize(v, mag)) == 1.0
  {
    var k := 1.0 / mag;
    var r := Normalize(v, mag);
    assert k * mag == 1.0;
    calc {
      MagnitudeSquared(r);
      (v.x * k) * (v.x * k) + (v.y * k) * (v.y * k) + (v.z * k) * (v.z * k) + (v.w * k) * (v.w * k);
      MagnitudeSquared(v) * (k * k);
      (mag * mag) * (k * k);
      (mag * k) * (mag * k);
      1.0;
    }
  }

  /** Normalizing twice gives the same as normalizing once, the zero vector included. */
  lemma NormalizeIdempotent(v: Vec4d, mag: real)
    requires IsMagnitude(v, mag)
    ensures var r := Normalize(v, mag);
      (mag > 0.0 ==> IsMagnitude(r, 1.0) && Normalize(r, 1.0) == r) &&
      (mag == 0.0 ==> IsMagnitude(r, 0.0) && Normalize(r, 0.0) == r)
  {
    if mag > 0.0 {
      NormalizeIsUnit(v, mag);
    }
  }

  /** A `Vec4d` held in a mutable place: the receiver of the `*Assign` operators. */
  class MutableVec4d {
    var x: real
    var y: real
    var z: real
    var w: real

    function Value(): Vec4d
      reads this
    {
      Vec4d(x, y, z, w)
    }

    constructor (v: Vec4d)
      ensures Value() == v
    {
      x, y, z, w := v.x, v.y, v.z, v.w;
    }

    /** `+=` leaves the place holding `old + other`. */
    method AddAssign(other: Vec4d)
      modifies this
      ensures Value() == Add(old(Value()), other)
    {
      x := x + other.x;
      y := y + other.y;
      z := z + other.z;
      w := w + other.w;
    }

    /** `*=` leaves the place holding the component-wise product. */
    method MulAssign(other: Vec4d)
      modifies this
      ensures Value() == Mul(old(Value()), other)
    {
      x := x * other.x;
      y := y * other.y;
      z := z * other.z;
      w := w * other.w;
    }

    /** `-=` leaves the place holding `old - other`. */
    method SubAssign(other: Vec4d)
      modifies this
      ensures Value() == Sub(old(Value()), other)
    {
      x := x - other.x;
      y := y - other.y;
      z := z - other.z;
      w := w - other.w;
    }

    /** `/=` by a nonzero scalar leaves the place holding `old / s`. */
    method DivAssign(s: real)
      requires s != 0.0
      modifies this
      ensures Value() == Div(old(Value()), s)
    {
      x := x / s;
      y := y / s;
      z := z / s;
      w := w / s;
    }
  }
}
