/**
 * Rigid bodies (src/physics/body.rs): a shape, an orientation quaternion, a
 * position, the inverse mass and a linear velocity.
 *
 * An inverse mass of 0 stands for an immovable body (infinite mass).
 *
 * `world_space_to_body_space` uses the `Vec3d` subtraction as written, with
 * its defect in `z`. `body_space_to_world_space` is not the inverse of
 * `world_space_to_body_space`. The lemmas at the end work both out for
 * every body without rotation, and for the unit body in particular.
 */
module Bodies {
  import Vector3
  import Quaternion
  import Shapes

  type Vec3d = Vector3.Vec3d

  /** `Body::GRAVITY`, in metres per second squared. */
  const GRAVITY: real := 9.8

  /** `ColorT`. */
  datatype Color = White | Red | Blue | Green | Yellow

  datatype Body = Body(shape: Shapes.ShapeT, orientation: Quaternion.Quat, position: Vec3d,
                       invMass: real, linearVelocity: Vec3d, color: Color)

  /**
   * `Body::new`: every argument stored as given, except that the mass is
   * stored as its reciprocal. The source divides without a guard; here the
   * mass must be nonzero.
   */
  function New(shape: Shapes.ShapeT, orientation: Quaternion.Quat, position: Vec3d,
               mass: real, velocity: Vec3d, color: Color): (b: Body)
    requires mass != 0.0
    ensures b.invMass * mass == 1.0
    ensures b.shape == shape && b.orientation == orientation && b.position == position
    ensures b.linearVelocity == velocity && b.color == color
  {
    Body(shape, orientation, position, 1.0 / mass, velocity, color)
  }

  /** `Body::new_shape`: no rotation, at rest at the origin, inverse mass 1, white. */
  function NewShape(shape: Shapes.ShapeT): (b: Body)
    ensures b.shape == shape && b.orientation == Quaternion.Zero()
    ensures b.position == Vector3.Zero() && b.linearVelocity == Vector3.Zero()
    ensures b.invMass == 1.0 && b.color == White
  {
    Body(shape, Quaternion.Zero(), Vector3.Zero(), 1.0, Vector3.Zero(), White)
  }

  /** `Body::unit`: `new_shape` of a sphere of radius 1. */
  function Unit(): (b: Body)
    ensures b == NewShape(Shapes.NewSphere(1.0))
  {
    Body(Shapes.SphereShape(1.0, Vector3.Zero()), Quaternion.Zero(), Vector3.Zero(), 1.0, Vector3.Zero(), White)
  }

  /** `get_center_of_mass_model_space`: the shape's own centre of mass. */
  function GetCenterOfMassModelSpace(b: Body): (c: Vec3d)
    ensures c == b.shape.centerMass
  {
    Shapes.GetCenterMass(b.shape)
  }

  /**
   * `get_center_of_mass_world_space`: the position plus the centre of mass
   * rotated by the orientation. `rotate_point` inverts the orientation, so
   * its squared magnitude must be nonzero.
   */
  function GetCenterOfMassWorldSpace(b: Body): Vec3d
    requires Quaternion.MagnitudeSquared(b.orientation) != 0.0
  {
    Vector3.Add(b.position, Quaternion.RotatePoint(b.orientation, GetCenterOfMassModelSpace(b)))
  }

  /**
   * `world_space_to_body_space`: `world` minus the world-space centre of
   * mass (the `Vec3d` subtraction as written), rotated by the inverse of
   * the orientation.
   */
  function WorldSpaceToBodySpace(b: Body, world: Vec3d): Vec3d
    requires Quaternion.MagnitudeSquared(b.orientation) != 0.0
  {
    Quaternion.InverseInvertible(b.orientation);
    var tmp := Vector3.Sub(world, GetCenterOfMassWorldSpace(b));
    Quaternion.RotatePoint(Quaternion.Inverse(b.orientation), tmp)
  }

  /**
   * `body_space_to_world_space` as written: `world_space_to_body_space` of
   * its argument plus the argument rotated by the orientation.
   */
  function BodySpaceToWorldSpace(b: Body, world: Vec3d): Vec3d
    requires Quaternion.MagnitudeSquared(b.orientation) != 0.0
  {
    Vector3.Add(WorldSpaceToBodySpace(b, world), Quaternion.RotatePoint(b.orientation, world))
  }

  /**
   * The body `apply_impulse_linear` leaves: unchanged when the inverse mass
   * is 0; otherwise the velocity is replaced by `impulse * inv_mass`.
   */
  function ImpulseApplied(b: Body, impulse: Vec3d): (r: Body)
    ensures r.shape == b.shape && r.orientation == b.orientation && r.position == b.position
    ensures r.invMass == b.invMass && r.color == b.color
    ensures b.invMass == 0.0 ==> r.linearVelocity == b.linearVelocity
    ensures b.invMass != 0.0 ==> Vector3.Scale(r.linearVelocity, 1.0 / b.invMass) == impulse
  {
    if b.invMass == 0.0 then
      b
    else
      ScaleUndone(impulse, b.invMass);
      b.(linearVelocity := Vector3.Scale(impulse, b.invMass))
  }

  /** Scaling by `k` and then by `1 / k` gives the vector back. */
  lemma ScaleUndone(v: Vec3d, k: real)
    requires k != 0.0
    ensures Vector3.Scale(Vector3.Scale(v, k), 1.0 / k) == v
  {
    var inv := 1.0 / k;
    assert k * inv == 1.0;
    assert (v.x * k) * inv == v.x * (k * inv);
    assert (v.y * k) * inv == v.y * (k * inv);
    assert (v.z * k) * inv == v.z * (k * inv);
  }

  /** `get_shape`. */
  function GetShape(b: Body): Shapes.ShapeT {
    b.shape
  }

  /** `get_color`. */
  function GetColor(b: Body): Color {
    b.color
  }

  /** The getters give back what `new` was given. */
  lemma GettersAfterNew(shape: Shapes.ShapeT, orientation: Quaternion.Quat, position: Vec3d,
                        mass: real, velocity: Vec3d, color: Color)
    requires mass != 0.0
    ensures GetShape(New(shape, orientation, position, mass, velocity, color)) == shape
    ensures GetColor(New(shape, orientation, position, mass, velocity, color)) == color
    ensures GetCenterOfMassModelSpace(New(shape, orientation, position, mass, velocity, color))
            == Shapes.GetCenterMass(shape)
  {
  }

  /** With orientation `zero()`, the world-space centre of mass is the position plus the model-space one. */
  lemma CenterOfMassWithoutRotation(b: Body)
    requires b.orientation == Quaternion.Zero()
    ensures Quaternion.MagnitudeSquared(b.orientation) == 1.0
    ensures GetCenterOfMassWorldSpace(b) == Vector3.Add(b.position, GetCenterOfMassModelSpace(b))
  {
    Quaternion.RotateByZero(GetCenterOfMassModelSpace(b));
  }

  /**
   * Applying an impulse to a movable body discards its old velocity: two
   * bodies that differ only in velocity end up identical.
   */
  lemma ImpulseForgetsVelocity(b: Body, v: Vec3d, impulse: Vec3d)
    requires b.invMass != 0.0
    ensures ImpulseApplied(b.(linearVelocity := v), impulse) == ImpulseApplied(b, impulse)
  {
  }

  /** Body `b` with its orientation set to `zero()`: every unrotated body is one of these. */
  function Unrotated(b: Body): (r: Body)
    ensures r.orientation == Quaternion.Zero()
    ensures r.shape == b.shape && r.position == b.position && r.invMass == b.invMass
    ensures r.linearVelocity == b.linearVelocity && r.color == b.color
  {
    b.(orientation := Quaternion.Zero())
  }

  /** Without rotation, the inverse orientation in `world_space_to_body_space` is `zero()` too. */
  lemma UnrotatedWorldToBodyUnfolds(b: Body, v: Vec3d)
    ensures Quaternion.MagnitudeSquared(Unrotated(b).orientation) == 1.0
    ensures WorldSpaceToBodySpace(Unrotated(b), v)
            == Quaternion.RotatePoint(Quaternion.Zero(), Vector3.Sub(v, GetCenterOfMassWorldSpace(Unrotated(b))))
  {
    Quaternion.ZeroIsUnit();
    Quaternion.InverseOfZero();
  }

  /**
   * For every body without rotation, `world_space_to_body_space(v)` is `v`
   * minus the world-space centre of mass `position + center_mass`, with the
   * `Vec3d` subtraction as written (its z is `v.y - c.z`).
   */
  lemma UnrotatedWorldToBody(b: Body, v: Vec3d)
    ensures Quaternion.MagnitudeSquared(Unrotated(b).orientation) == 1.0
    ensures WorldSpaceToBodySpace(Unrotated(b), v)
            == Vector3.Sub(v, Vector3.Add(b.position, GetCenterOfMassModelSpace(b)))
  {
    UnrotatedWorldToBodyUnfolds(b, v);
    CenterOfMassWithoutRotation(Unrotated(b));
    Quaternion.RotateByZero(Vector3.Sub(v, GetCenterOfMassWorldSpace(Unrotated(b))));
  }

  /**
   * For every body without rotation, `body_space_to_world_space(v)` is
   * `world_space_to_body_space(v) + v`: it adds `v` to its body-space image
   * instead of undoing it.
   */
  lemma UnrotatedBodyToWorld(b: Body, v: Vec3d)
    ensures Quaternion.MagnitudeSquared(Unrotated(b).orientation) == 1.0
    ensures BodySpaceToWorldSpace(Unrotated(b), v) == Vector3.Add(WorldSpaceToBodySpace(Unrotated(b), v), v)
  {
    Quaternion.ZeroIsUnit();
    Quaternion.RotateByZero(v);
  }

  /**
   * The round trip through body space, on vectors, with `c` the world-space
   * centre of mass: `u := v - c`, and back `(u - c) + u`. It gives `v` back
   * exactly on the line `RoundTripFixes(c, _)`.
   */
  lemma RoundTripArithmetic(c: Vec3d, v: Vec3d)
    ensures Vector3.Add(Vector3.Sub(Vector3.Sub(v, c), c), Vector3.Sub(v, c)) == v <==> RoundTripFixes(c, v)
  {
  }

  /**
   * The points the round trip through body space gives back, for world-space
   * centre of mass `c`: a single line.
   */
  predicate RoundTripFixes(c: Vec3d, v: Vec3d) {
    v.x == 3.0 * c.x && v.y == 3.0 * c.y && v.z == 2.0 * v.y - c.y - 2.0 * c.z
  }

  /**
   * For every body without rotation and every point `v`, going to body space
   * and back gives `(v - c - c) + (v - c)`, where `c` is the world-space
   * centre of mass and `-` is the `Vec3d` subtraction as written. By
   * `RoundTripArithmetic` that is `v` again exactly when `RoundTripFixes(c, v)`:
   * the round trip fails everywhere off one line.
   */
  lemma UnrotatedRoundTrip(b: Body, v: Vec3d)
    ensures Quaternion.MagnitudeSquared(Unrotated(b).orientation) == 1.0
    ensures var c := Vector3.Add(b.position, GetCenterOfMassModelSpace(b));
            BodySpaceToWorldSpace(Unrotated(b), WorldSpaceToBodySpace(Unrotated(b), v))
            == Vector3.Add(Vector3.Sub(Vector3.Sub(v, c), c), Vector3.Sub(v, c))
  {
    var u := WorldSpaceToBodySpace(Unrotated(b), v);
    UnrotatedWorldToBody(b, v);
    UnrotatedWorldToBody(b, u);
    UnrotatedBodyToWorld(b, u);
  }

  /** The unit body's centre of mass is at the origin in world space. */
  lemma UnitCenterOfMass()
    ensures Quaternion.MagnitudeSquared(Unit().orientation) == 1.0
    ensures GetCenterOfMassWorldSpace(Unit()) == Vector3.Zero()
  {
    CenterOfMassWithoutRotation(Unit());
  }

  /** For the unit body, `world_space_to_body_space` rotates `v - 0` by `zero()`. */
  lemma UnitWorldToBodyUnfolds(v: Vec3d)
    ensures Quaternion.MagnitudeSquared(Unit().orientation) == 1.0
    ensures WorldSpaceToBodySpace(Unit(), v) == Quaternion.RotatePoint(Quaternion.Zero(), Vector3.Sub(v, Vector3.Zero()))
  {
    UnitCenterOfMass();
    Quaternion.InverseOfZero();
  }

  /** The unit body at rest: `world_space_to_body_space(v)` is `v - 0`, whose z is `v.y`. */
  lemma UnitWorldToBody(v: Vec3d)
    ensures Quaternion.MagnitudeSquared(Unit().orientation) == 1.0
    ensures WorldSpaceToBodySpace(Unit(), v) == Vector3.Vec3d(v.x, v.y, v.y)
  {
    UnitWorldToBodyUnfolds(v);
    Quaternion.RotateByZero(Vector3.Sub(v, Vector3.Zero()));
    SubZero(v);
  }

  /** The literal subtraction of the zero vector copies `y` into `z`. */
  lemma SubZero(v: Vec3d)
    ensures Vector3.Sub(v, Vector3.Zero()) == Vector3.Vec3d(v.x, v.y, v.y)
  {
  }

  lemma AddToSubZero(v: Vec3d)
    ensures Vector3.Add(Vector3.Vec3d(v.x, v.y, v.y), v) == Vector3.Vec3d(2.0 * v.x, 2.0 * v.y, v.y + v.z)
  {
  }

  /** For the unit body, `body_space_to_world_space(v)` adds `v` rotated by `zero()`. */
  lemma UnitBodyToWorldUnfolds(v: Vec3d)
    ensures Quaternion.MagnitudeSquared(Unit().orientation) == 1.0
    ensures BodySpaceToWorldSpace(Unit(), v)
            == Vector3.Add(WorldSpaceToBodySpace(Unit(), v), Quaternion.RotatePoint(Quaternion.Zero(), v))
  {
    Quaternion.ZeroIsUnit();
  }

  /** The unit body at rest: `body_space_to_world_space(v)` is `(2 v.x, 2 v.y, v.y + v.z)`. */
  lemma UnitBodyToWorld(v: Vec3d)
    ensures Quaternion.MagnitudeSquared(Unit().orientation) == 1.0
    ensures BodySpaceToWorldSpace(Unit(), v) == Vector3.Vec3d(2.0 * v.x, 2.0 * v.y, v.y + v.z)
  {
    UnitBodyToWorldUnfolds(v);
    UnitWorldToBody(v);
    Quaternion.RotateByZero(v);
    AddToSubZero(v);
  }

  /**
   * The two conversions are not inverse to each other: for the unit body,
   * (1, 2, 3) goes to body space as (1, 2, 2) and comes back as (2, 4, 4).
   */
  lemma SpaceRoundTripFails()
    ensures Quaternion.MagnitudeSquared(Unit().orientation) == 1.0
    ensures WorldSpaceToBodySpace(Unit(), Vector3.Vec3d(1.0, 2.0, 3.0)) == Vector3.Vec3d(1.0, 2.0, 2.0)
    ensures BodySpaceToWorldSpace(Unit(), Vector3.Vec3d(1.0, 2.0, 2.0)) == Vector3.Vec3d(2.0, 4.0, 4.0)
  {
    UnitWorldToBody(Vector3.Vec3d(1.0, 2.0, 3.0));
    UnitBodyToWorld(Vector3.Vec3d(1.0, 2.0, 2.0));
  }

  /** A `Body` held in a mutable place: the receiver of `apply_impulse_linear`. */
  class MutableBody {
    var shape: Shapes.ShapeT
    var orientation: Quaternion.Quat
    var position: Vec3d
    var invMass: real
    var linearVelocity: Vec3d
    var color: Color

    function Value(): Body
      reads this
    {
      Body(shape, orientation, position, invMass, linearVelocity, color)
    }

    constructor (b: Body)
      ensures Value() == b
    {
      shape, orientation, position := b.shape, b.orientation, b.position;
      invMass, linearVelocity, color := b.invMass, b.linearVelocity, b.color;
    }

    /** `apply_impulse_linear`: returns early for inverse mass 0, else overwrites the velocity. */
    method ApplyImpulseLinear(impulse: Vec3d)
      modifies this
      ensures Value() == ImpulseApplied(old(Value()), impulse)
    {
      if invMass == 0.0 {
        return;
      }
      linearVelocity := Vector3.Scale(impulse, invMass);
    }
  }
}
