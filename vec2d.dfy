/**
 * Two-component vectors (src/vec/vec2d.rs).
 *
 * `f64` is read as the exact `real`. `get_magnitude` is a square root, which
 * is never computed here: wherever the source uses the magnitude, the model
 * takes it as a parameter `mag` characterised by `IsMagnitude`.
 */
module Vector2 {

  datatype Vec2d = Vec2d(x: real, y: real)

  function Zero(): Vec2d {
    Vec2d(0.0, 0.0)
  }

  /** The sum of squared components, of which `get_magnitude` is the square root. */
  function MagnitudeSquared(v: Vec2d): real {
    v.x * v.x + v.y * v.y
  }

  /** `mag` is `get_magnitude(v)`: the non-negative square root of `MagnitudeSquared(v)`. */
  predicate IsMagnitude(v: Vec2d, mag: real) {
    mag >= 0.0 && mag * mag == MagnitudeSquared(v)
  }

  /** `a + b`; subtracting `b` again gives back `a`. */
  function Add(a: Vec2d, b: Vec2d): (r: Vec2d)
    ensures Sub(r, b) == a
  {
    Vec2d(a.x + b.x, a.y + b.y)
  }

  /** `a - b`; it is the zero vector exactly when `a == b`. */
  function Sub(a: Vec2d, b: Vec2d): (r: Vec2d)
    ensures r == Zero() <==> a == b
  {
    Vec2d(a.x - b.x, a.y - b.y)
  }

  /** `a * b`: the component-wise (Hadamard) product. */
  function Mul(a: Vec2d, b: Vec2d): Vec2d {
    Vec2d(a.x * b.x, a.y * b.y)
  }

  /** `a / s`; multiplying each component back by `s` gives `a`. */
  function Div(a: Vec2d, s: real): (r: Vec2d)
    requires s != 0.0
    ensures r.x * s == a.x && r.y * s == a.y
  {
    Vec2d(a.x / s, a.y / s)
  }

  /**
   * `normalize`: multiplies each component by `1 / mag`. The source has no
   * zero guard (a zero vector yields NaN there), so `mag > 0` is required.
   * Scaling the result back by `mag` gives the input.
   */
  function Normalize(v: Vec2d, mag: real): (r: Vec2d)
    requires IsMagnitude(v, mag) && mag > 0.0
    ensures r.x * mag == v.x && r.y * mag == v.y
  {
    var invMag := 1.0 / mag;
    Vec2d(v.x * invMag, v.y * invMag)
  }

  /** `==` (PartialEq): exact component equality, no tolerance. */
  function Eq(a: Vec2d, b: Vec2d): (r: bool)
    ensures r <==> a == b
  {
    a.x == b.x && a.y == b.y
  }

  lemma MulCommutes(a: Vec2d, b: Vec2d)
    ensures Mul(a, b) == Mul(b, a)
    ensures Mul(a, Vec2d(1.0, 1.0)) == a
  {
  }

  lemma EqIsEquivalence(a: Vec2d, b: Vec2d, c: Vec2d)
    ensures Eq(a, a)
    ensures Eq(a, b) == Eq(b, a)
    ensures Eq(a, b) && Eq(b, c) ==> Eq(a, c)
  {
  }

  /** A normalized vector has unit length: its squared magnitude is exactly 1. */
  lemma NormalizeIsUnit(v: Vec2d, mag: real)
    requires IsMagnitude(v, mag) && mag > 0.0
    ensures MagnitudeSquared(Normalize(v, mag)) == 1.0
  {
    var k := 1.0 / mag;
    var r := Normalize(v, mag);
    assert k * mag == 1.0;
    calc {
      MagnitudeSquared(r);
      (v.x * k) * (v.x * k) + (v.y * k) * (v.y * k);
      (v.x * v.x + v.y * v.y) * (k * k);
      (mag * mag) * (k * k);
      (mag * k) * (mag * k);
      1.0;
    }
  }

  /** Normalizing a normalized vector (whose magnitude is 1) changes nothing. */
  lemma NormalizeIdempotent(v: Vec2d, mag: real)
    requires IsMagnitude(v, mag) && mag > 0.0
    ensures IsMagnitude(Normalize(v, mag), 1.0)
    ensures Normalize(Normalize(v, mag), 1.0) == Normalize(v, mag)
  {
    NormalizeIsUnit(v, mag);
  }

  /** A `Vec2d` held in a mutable place: the receiver of the `*Assign` operators. */
  class MutableVec2d {
    var x: real
    var y: real

    function Value(): Vec2d
      reads this
    {
      Vec2d(x, y)
    }

    constructor (v: Vec2d)
      ensures Value() == v
    {
      x, y := v.x, v.y;
    }

    /** `+=` leaves the place holding `old + other`. */
    method AddAssign(other: Vec2d)
      modifies this
      ensures Value() == Add(old(Value()), other)
    {
      x := x + other.x;
      y := y + other.y;
    }

    /** `*=` leaves the place holding the component-wise product. */
    method MulAssign(other: Vec2d)
      modifies this
      ensures Value() == Mul(old(Value()), other)
    {
      x := x * other.x;
      y := y * other.y;
    }

    /** `-=` leaves the place holding `old - other`. */
    method SubAssign(other: Vec2d)
      modifies this
      ensures Value() == Sub(old(Value()), other)
    {
      x := x - other.x;
      y := y - other.y;
    }

    /** `/=` by a nonzero scalar leaves the place holding `old / s`. */
    method DivAssign(s: real)
      requires s != 0.0
      modifies this
      ensures Value() == Div(old(Value()), s)
    {
      x := x / s;
      y := y / s;
    }
  }
}
