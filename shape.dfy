/**
 * Collision shapes (src/physics/shape.rs): a sphere or a box. A shape is a
 * value; nothing changes it once it has been built.
 */
module Shapes {
  import Vector3

  /** `std::f64::consts::PI`, the double closest to pi, written out in decimal. */
  const PI: real := 3.141592653589793

  datatype ShapeT =
    | SphereShape(radius: real, centerMass: Vector3.Vec3d)
    | BoxShape(width: real, length: real, height: real, centerMass: Vector3.Vec3d)

  /** `new_sphere`: the given radius, centre of mass at the origin. */
  function NewSphere(radius: real): (s: ShapeT)
    ensures s.SphereShape? && s.radius == radius
    ensures s.centerMass == Vector3.Zero()
  {
    SphereShape(radius, Vector3.Zero())
  }

  /** `new_box`: the given dimensions, centre of mass at half of each. */
  function NewBox(width: real, length: real, height: real): (s: ShapeT)
    ensures s.BoxShape? && s.width == width && s.length == length && s.height == height
    ensures Vector3.Scale(s.centerMass, 2.0) == Vector3.Vec3d(width, length, height)
  {
    BoxShape(width, length, height, Vector3.Vec3d(width / 2.0, length / 2.0, height / 2.0))
  }

  /** `get_volume`: w * l * h for a box, (4/3) * PI * r^3 for a sphere. */
  function GetVolume(s: ShapeT): real {
    match s
    case BoxShape(w, l, h, _) => w * l * h
    case SphereShape(r, _) => (4.0 / 3.0) * PI * (r * r * r)
  }

  /** `get_center_mass`: the centre stored in either variant. */
  function GetCenterMass(s: ShapeT): (c: Vector3.Vec3d)
    ensures c == s.centerMass
  {
    match s
    case SphereShape(_, c) => c
    case BoxShape(_, _, _, c) => c
  }

  /** A shape whose dimensions are all non-negative. */
  predicate NonNegativeDimensions(s: ShapeT) {
    match s
    case SphereShape(r, _) => r >= 0.0
    case BoxShape(w, l, h, _) => w >= 0.0 && l >= 0.0 && h >= 0.0
  }

  lemma ProductNonNegative(a: real, b: real)
    requires a >= 0.0 && b >= 0.0
    ensures a * b >= 0.0
  {
  }

  /** Non-negative dimensions give a non-negative volume, for both variants. */
  lemma VolumeNonNegative(s: ShapeT)
    requires NonNegativeDimensions(s)
    ensures GetVolume(s) >= 0.0
  {
    match s
    case BoxShape(w, l, h, _) =>
      ProductNonNegative(w, l);
      ProductNonNegative(w * l, h);
    case SphereShape(r, _) =>
      ProductNonNegative(r, r);
      ProductNonNegative(r * r, r);
      ProductNonNegative((4.0 / 3.0) * PI, r * r * r);
  }

  /** A box's volume is the product of its three dimensions; a unit sphere's is 4/3 PI. */
  lemma VolumeOfConstructed(w: real, l: real, h: real)
    ensures GetVolume(NewBox(w, l, h)) == w * l * h
    ensures GetVolume(NewSphere(1.0)) == 4.0 / 3.0 * PI
  {
  }

  /** The centre of mass of a box of non-negative size lies inside the box. */
  lemma BoxCenterInside(w: real, l: real, h: real)
    requires w >= 0.0 && l >= 0.0 && h >= 0.0
    ensures var c := GetCenterMass(NewBox(w, l, h));
            0.0 <= c.x <= w && 0.0 <= c.y <= l && 0.0 <= c.z <= h
  {
  }
}
