/**
 * The scene and its gravity stepper (src/physics/scene.rs). The whole
 * implementation of `Scene` is commented out in the source; the model gives
 * that text its evident meaning: a list of bodies updated in place.
 *
 * DEFECT kept as written: `update` applies gravity twice. The first pass
 * turns gravity into an impulse, which `apply_impulse_linear` uses to
 * overwrite the velocity, and then adds `(0, 0, -GRAVITY) * dt` to the
 * velocity once more (src/physics/scene.rs:42). That second addition also
 * reaches bodies of inverse mass 0, which are meant to be immovable
 * (src/physics/body.rs:20), so the ground falls.
 */
module Scenes {
  import Vector3
  import Quaternion
  import Shapes
  import Bodies

  type Vec3d = Vector3.Vec3d
  type Body = Bodies.Body

  /** `Vec3d::new(0.0, 0.0, -Body::GRAVITY)`. */
  function GravityVector(): Vec3d {
    Vector3.Vec3d(0.0, 0.0, -Bodies.GRAVITY)
  }

  /**
   * The impulse `gravity_vec * mass * dt` with `mass = 1 / inv_mass`. For an
   * inverse mass of 0 the source's mass is infinite, but the impulse is then
   * never read (`apply_impulse_linear` returns first); the zero vector
   * stands in for it.
   */
  function GravityImpulse(b: Body, dt: real): Vec3d {
    if b.invMass == 0.0 then Vector3.Zero()
    else Vector3.Scale(Vector3.Scale(GravityVector(), 1.0 / b.invMass), dt)
  }

  /** What the first loop of `update` does to one body: the impulse, then gravity added again. */
  function VelocityStep(b: Body, dt: real): Body {
    var afterImpulse := Bodies.ImpulseApplied(b, GravityImpulse(b, dt));
    afterImpulse.(linearVelocity := Vector3.Add(afterImpulse.linearVelocity, Vector3.Scale(GravityVector(), dt)))
  }

  /** What the second loop of `update` does to one body: `position += linear_velocity * dt`. */
  function PositionStep(b: Body, dt: real): Body {
    b.(position := Vector3.Add(b.position, Vector3.Scale(b.linearVelocity, dt)))
  }

  /** The list after the first loop. */
  function VelocityPass(bodies: seq<Body>, dt: real): (r: seq<Body>)
    ensures |r| == |bodies|
    ensures forall i :: 0 <= i < |r| ==> r[i] == VelocityStep(bodies[i], dt)
  {
    seq(|bodies|, i requires 0 <= i < |bodies| => VelocityStep(bodies[i], dt))
  }

  /** The list after the second loop. */
  function PositionPass(bodies: seq<Body>, dt: real): (r: seq<Body>)
    ensures |r| == |bodies|
    ensures forall i :: 0 <= i < |r| ==> r[i] == PositionStep(bodies[i], dt)
  {
    seq(|bodies|, i requires 0 <= i < |bodies| => PositionStep(bodies[i], dt))
  }

  /** The list one `update(dt)` leaves: every velocity first, then every position. */
  function Stepped(bodies: seq<Body>, dt: real): seq<Body> {
    PositionPass(VelocityPass(bodies, dt), dt)
  }

  /** The list after `n` calls of `update(dt)`. */
  function SteppedN(bodies: seq<Body>, dt: real, n: nat): seq<Body> {
    if n == 0 then bodies else Stepped(SteppedN(bodies, dt, n - 1), dt)
  }

  /** The object `init` spawns: a unit sphere at height 5, inverse mass 1. */
  function InitialObject(): Body {
    Bodies.Body(Shapes.NewSphere(1.0), Quaternion.Quat(0.0, 0.0, 0.0, 1.0), Vector3.Vec3d(0.0, 0.0, 5.0),
                1.0, Vector3.Zero(), Bodies.White)
  }

  /** The ground `init` spawns: a cube of side 1000 centred 1000 below the origin, inverse mass 0. */
  function InitialGround(): Body {
    Bodies.Body(Shapes.NewBox(1000.0, 1000.0, 1000.0), Quaternion.Quat(0.0, 0.0, 0.0, 1.0),
                Vector3.Vec3d(0.0, 0.0, -1000.0), 0.0, Vector3.Zero(), Bodies.White)
  }

  /** A body whose shape, orientation, inverse mass and colour are those of `b`. */
  predicate SameFrame(a: Body, b: Body) {
    a.shape == b.shape && a.orientation == b.orientation && a.invMass == b.invMass && a.color == b.color
  }

  class Scene {
    var bodies: seq<Body>

    /** `Scene::new`. */
    constructor (bodies: seq<Body>)
      ensures this.bodies == bodies
    {
      this.bodies := bodies;
    }

    /** `init`: pushes the object, then the ground. */
    method Init()
      modifies this
      ensures bodies == old(bodies) + [InitialObject(), InitialGround()]
    {
      bodies := bodies + [InitialObject()];
      bodies := bodies + [InitialGround()];
    }

    /** `update(dt)`: the velocity loop over every body, then the position loop. */
    method Update(dt: real)
      modifies this
      ensures bodies == Stepped(old(bodies), dt)
    {
      for i := 0 to |bodies|
        invariant |bodies| == |old(bodies)|
        invariant forall k :: 0 <= k < i ==> bodies[k] == VelocityStep(old(bodies)[k], dt)
        invariant forall k :: i <= k < |bodies| ==> bodies[k] == old(bodies)[k]
      {
        var body := bodies[i];
        var impulseGravity := GravityImpulse(body, dt);
        body := Bodies.ImpulseApplied(body, impulseGravity);
        body := body.(linearVelocity := Vector3.Add(body.linearVelocity, Vector3.Scale(GravityVector(), dt)));
        bodies := bodies[i := body];
      }
      assert bodies == VelocityPass(old(bodies), dt);
      ghost var afterVelocity := bodies;
      for i := 0 to |bodies|
        invariant |bodies| == |afterVelocity|
        invariant forall k :: 0 <= k < i ==> bodies[k] == PositionStep(afterVelocity[k], dt)
        invariant forall k :: i <= k < |bodies| ==> bodies[k] == afterVelocity[k]
      {
        var body := bodies[i];
        body := body.(position := Vector3.Add(body.position, Vector3.Scale(body.linearVelocity, dt)));
        bodies := bodies[i := body];
      }
    }
  }

  // ------------------------------------------------------------ one update

  /** `update` keeps the number and order of bodies and each one's shape, orientation, inverse mass and colour. */
  lemma StepKeepsFrame(bodies: seq<Body>, dt: real)
    ensures |Stepped(bodies, dt)| == |bodies|
    ensures forall i :: 0 <= i < |bodies| ==> SameFrame(Stepped(bodies, dt)[i], bodies[i])
  {
  }

  /** Each new position is the old position plus the NEW velocity times `dt`. */
  lemma StepMovesByNewVelocity(bodies: seq<Body>, dt: real, i: int)
    requires 0 <= i < |bodies|
    ensures |Stepped(bodies, dt)| == |bodies|
    ensures Stepped(bodies, dt)[i].linearVelocity == VelocityStep(bodies[i], dt).linearVelocity
    ensures Stepped(bodies, dt)[i].position
            == Vector3.Add(bodies[i].position, Vector3.Scale(Stepped(bodies, dt)[i].linearVelocity, dt))
  {
  }

  /** With `dt == 0` no body moves. */
  lemma ZeroStepKeepsPositions(bodies: seq<Body>)
    ensures |Stepped(bodies, 0.0)| == |bodies|
    ensures forall i :: 0 <= i < |bodies| ==> Stepped(bodies, 0.0)[i].position == bodies[i].position
  {
  }

  /** `(x * (1 / k)) * k == x` for nonzero `k`. */
  lemma MassCancels(x: real, k: real)
    requires k != 0.0
    ensures (x * (1.0 / k)) * k == x
  {
    var m := 1.0 / k;
    assert m * k == 1.0;
    calc {
      (x * m) * k;
      x * (m * k);
      x;
    }
  }

  /**
   * A movable body ends the velocity pass at `(0, 0, -2 GRAVITY dt)`,
   * whatever its velocity was: the impulse overwrites it with `-GRAVITY dt`
   * and gravity is then added a second time.
   */
  lemma MovableVelocity(b: Body, dt: real)
    requires b.invMass != 0.0
    ensures VelocityStep(b, dt).linearVelocity == Vector3.Vec3d(0.0, 0.0, -2.0 * Bodies.GRAVITY * dt)
  {
    var k := b.invMass;
    var m := 1.0 / k;
    var impulse := GravityImpulse(b, dt);
    assert impulse == Vector3.Vec3d(0.0 * m * dt, 0.0 * m * dt, (-Bodies.GRAVITY * m) * dt);
    var v := Bodies.ImpulseApplied(b, impulse).linearVelocity;
    assert v == Vector3.Vec3d(0.0 * m * dt * k, 0.0 * m * dt * k, ((-Bodies.GRAVITY * m) * dt) * k);
    MassCancels(-Bodies.GRAVITY * dt, k);
    assert ((-Bodies.GRAVITY * m) * dt) * k == ((-Bodies.GRAVITY * dt) * m) * k;
    assert v == Vector3.Vec3d(0.0, 0.0, -Bodies.GRAVITY * dt);
  }

  /** A body of inverse mass 0 ignores the impulse, yet its z velocity still drops by `GRAVITY dt`. */
  lemma ImmovableVelocity(b: Body, dt: real)
    requires b.invMass == 0.0
    ensures VelocityStep(b, dt).linearVelocity
            == Vector3.Vec3d(b.linearVelocity.x, b.linearVelocity.y, b.linearVelocity.z - Bodies.GRAVITY * dt)
  {
  }

  // ----------------------------------------------------------- many updates

  /** Any number of updates keeps the number and order of bodies and their frames. */
  lemma {:induction false} StepsKeepFrame(bodies: seq<Body>, dt: real, n: nat)
    ensures |SteppedN(bodies, dt, n)| == |bodies|
    ensures forall i :: 0 <= i < |bodies| ==> SameFrame(SteppedN(bodies, dt, n)[i], bodies[i])
  {
    if n > 0 {
      StepsKeepFrame(bodies, dt, n - 1);
      StepKeepsFrame(SteppedN(bodies, dt, n - 1), dt);
    }
  }

  /** After one or more updates a movable body's velocity is `(0, 0, -2 GRAVITY dt)`; it never accelerates further. */
  lemma MovableVelocityAfterSteps(bodies: seq<Body>, dt: real, n: nat, i: int)
    requires 0 <= i < |bodies| && bodies[i].invMass != 0.0 && n >= 1
    ensures |SteppedN(bodies, dt, n)| == |bodies|
    ensures SteppedN(bodies, dt, n)[i].linearVelocity == Vector3.Vec3d(0.0, 0.0, -2.0 * Bodies.GRAVITY * dt)
  {
    StepsKeepFrame(bodies, dt, n - 1);
    var before := SteppedN(bodies, dt, n - 1);
    StepMovesByNewVelocity(before, dt, i);
    MovableVelocity(before[i], dt);
  }

  /** After `n` updates an immovable body's z velocity has dropped by `n GRAVITY dt`. */
  lemma {:induction false} ImmovableVelocityAfterSteps(bodies: seq<Body>, dt: real, n: nat, i: int)
    requires 0 <= i < |bodies| && bodies[i].invMass == 0.0
    ensures |SteppedN(bodies, dt, n)| == |bodies|
    ensures SteppedN(bodies, dt, n)[i].linearVelocity
            == Vector3.Vec3d(bodies[i].linearVelocity.x, bodies[i].linearVelocity.y,
                             bodies[i].linearVelocity.z - (n as real) * Bodies.GRAVITY * dt)
  {
    StepsKeepFrame(bodies, dt, n);
    if n > 0 {
      ImmovableVelocityAfterSteps(bodies, dt, n - 1, i);
      StepsKeepFrame(bodies, dt, n - 1);
      var before := SteppedN(bodies, dt, n - 1);
      StepMovesByNewVelocity(before, dt, i);
      ImmovableVelocity(before[i], dt);
      assert (n as real) * Bodies.GRAVITY * dt == ((n - 1) as real) * Bodies.GRAVITY * dt + Bodies.GRAVITY * dt;
    }
  }

  // ------------------------------------------------------------- the demo

  /** One update of a movable body: velocity `(0, 0, -2 GRAVITY dt)`, and the position moved by it times `dt`. */
  lemma MovableStep(b: Body, dt: real)
    requires b.invMass != 0.0
    ensures PositionStep(VelocityStep(b, dt), dt).linearVelocity == Vector3.Vec3d(0.0, 0.0, -2.0 * Bodies.GRAVITY * dt)
    ensures PositionStep(VelocityStep(b, dt), dt).position
            == Vector3.Add(b.position, Vector3.Scale(Vector3.Vec3d(0.0, 0.0, -2.0 * Bodies.GRAVITY * dt), dt))
  {
    MovableVelocity(b, dt);
  }

  /** One update of an immovable body: its z velocity drops by `GRAVITY dt` and it moves by the result. */
  lemma ImmovableStep(b: Body, dt: real)
    requires b.invMass == 0.0
    ensures PositionStep(VelocityStep(b, dt), dt).linearVelocity
            == Vector3.Vec3d(b.linearVelocity.x, b.linearVelocity.y, b.linearVelocity.z - Bodies.GRAVITY * dt)
    ensures PositionStep(VelocityStep(b, dt), dt).position
            == Vector3.Add(b.position, Vector3.Scale(PositionStep(VelocityStep(b, dt), dt).linearVelocity, dt))
  {
    ImmovableVelocity(b, dt);
  }

  /** A movable body starting at height `h` on the z axis, one second later: moving at -19.6, at `h - 19.6`. */
  lemma MovableAfterOneSecond(b: Body, h: real)
    requires b.invMass != 0.0 && b.position == Vector3.Vec3d(0.0, 0.0, h)
    ensures PositionStep(VelocityStep(b, 1.0), 1.0).linearVelocity == Vector3.Vec3d(0.0, 0.0, -19.6)
    ensures PositionStep(VelocityStep(b, 1.0), 1.0).position == Vector3.Vec3d(0.0, 0.0, h - 19.6)
  {
    MovableStep(b, 1.0);
    MovableFallArithmetic(h);
  }

  /** An immovable body at rest at height `h` on the z axis, one second later: moving at -9.8, at `h - 9.8`. */
  lemma ImmovableAfterOneSecond(b: Body, h: real)
    requires b.invMass == 0.0 && b.linearVelocity == Vector3.Zero() && b.position == Vector3.Vec3d(0.0, 0.0, h)
    ensures PositionStep(VelocityStep(b, 1.0), 1.0).linearVelocity == Vector3.Vec3d(0.0, 0.0, -9.8)
    ensures PositionStep(VelocityStep(b, 1.0), 1.0).position == Vector3.Vec3d(0.0, 0.0, h - 9.8)
  {
    ImmovableStep(b, 1.0);
    RestFallArithmetic(b.linearVelocity, h);
  }

  lemma MovableFallArithmetic(h: real)
    ensures Vector3.Vec3d(0.0, 0.0, -2.0 * Bodies.GRAVITY * 1.0) == Vector3.Vec3d(0.0, 0.0, -19.6)
    ensures Vector3.Add(Vector3.Vec3d(0.0, 0.0, h), Vector3.Scale(Vector3.Vec3d(0.0, 0.0, -19.6), 1.0))
            == Vector3.Vec3d(0.0, 0.0, h - 19.6)
  {
  }

  lemma RestFallArithmetic(v: Vec3d, h: real)
    requires v == Vector3.Zero()
    ensures Vector3.Vec3d(v.x, v.y, v.z - Bodies.GRAVITY * 1.0) == Vector3.Vec3d(0.0, 0.0, -9.8)
    ensures Vector3.Add(Vector3.Vec3d(0.0, 0.0, h), Vector3.Scale(Vector3.Vec3d(0.0, 0.0, -9.8), 1.0))
            == Vector3.Vec3d(0.0, 0.0, h - 9.8)
  {
  }

  lemma InitialObjectFields(b: Body)
    requires b == InitialObject()
    ensures b.invMass == 1.0 && b.position == Vector3.Vec3d(0.0, 0.0, 5.0)
  {
  }

  lemma InitialGroundFields(b: Body)
    requires b == InitialGround()
    ensures b.invMass == 0.0 && b.linearVelocity == Vector3.Zero() && b.position == Vector3.Vec3d(0.0, 0.0, -1000.0)
  {
  }

  /** The object `init` spawns, one second later: moving at -19.6, fallen from 5 to -14.6. */
  lemma ObjectAfterOneSecond(b: Body)
    requires b == InitialObject()
    ensures PositionStep(VelocityStep(b, 1.0), 1.0).linearVelocity == Vector3.Vec3d(0.0, 0.0, -19.6)
    ensures PositionStep(VelocityStep(b, 1.0), 1.0).position == Vector3.Vec3d(0.0, 0.0, -14.6)
  {
    InitialObjectFields(b);
    MovableAfterOneSecond(b, 5.0);
  }

  /** The ground `init` spawns, one second later: moving at -9.8, fallen from -1000 to -1009.8. */
  lemma GroundAfterOneSecond(b: Body)
    requires b == InitialGround()
    ensures PositionStep(VelocityStep(b, 1.0), 1.0).linearVelocity == Vector3.Vec3d(0.0, 0.0, -9.8)
    ensures PositionStep(VelocityStep(b, 1.0), 1.0).position == Vector3.Vec3d(0.0, 0.0, -1009.8)
  {
    InitialGroundFields(b);
    ImmovableAfterOneSecond(b, -1000.0);
  }

  /** One update, body by body: the velocity step and then the position step. */
  lemma StepIsPerBody(bodies: seq<Body>, dt: real, i: int)
    requires 0 <= i < |bodies|
    ensures |Stepped(bodies, dt)| == |bodies|
    ensures Stepped(bodies, dt)[i] == PositionStep(VelocityStep(bodies[i], dt), dt)
  {
  }

  /** The scene `init` builds, one second later: both bodies have fallen, the ground included. */
  lemma InitialSceneAfterOneSecond(bodies: seq<Body>)
    requires |bodies| == 2 && bodies[0] == InitialObject() && bodies[1] == InitialGround()
    ensures |Stepped(bodies, 1.0)| == 2
    ensures Stepped(bodies, 1.0)[0].position == Vector3.Vec3d(0.0, 0.0, -14.6)
    ensures Stepped(bodies, 1.0)[1].position == Vector3.Vec3d(0.0, 0.0, -1009.8)
  {
    StepIsPerBody(bodies, 1.0, 0);
    StepIsPerBody(bodies, 1.0, 1);
    ObjectAfterOneSecond(bodies[0]);
    GroundAfterOneSecond(bodies[1]);
  }
}
