/**
 * The rigid body of src/physics.rs and its integration step. f32 arithmetic is
 * idealised as real arithmetic; the structural facts (which fields change and
 * from what) hold exactly either way.
 */
module Physics {
  import opened Linear

  /**
   * One body's physical state. RigidBody::new stores its five arguments as
   * given, which is exactly this datatype's constructor.
   */
  datatype RigidBody = RigidBody(
    position: Vec3,
    rotation: Quat,
    velocity: Vec3,
    acceleration: Vec3,
    mass: real)

  /** Magnitude of the constant downward force every body feels. */
  const GravityForce: real := 9.81

  /** compute_force: a constant, whatever the body's state, pointing straight down. */
  function ComputeForce(): (f: Vec3)
    ensures f.x == 0.0 && f.z == 0.0 && f.y < 0.0
  {
    Vec3(0.0, -GravityForce, 0.0)
  }

  /**
   * Reference definition of one integration step: the vertical velocity drops
   * by gravity over mass times dt, the other velocity components stay, and the
   * position moves by the NEW velocity (semi-implicit Euler). The stored
   * acceleration field plays no part.
   */
  function Stepped(body: RigidBody, dt: real): RigidBody
    requires body.mass != 0.0
  {
    var v := Vec3(body.velocity.x, body.velocity.y - GravityForce / body.mass * dt, body.velocity.z);
    body.(velocity := v, position := Add(body.position, Scale(v, dt)))
  }

  /** RigidBody::update, written as the source's two in-place `+=` steps. */
  method Update(body: RigidBody, deltaTime: real) returns (r: RigidBody)
    requires body.mass != 0.0
    ensures r == Stepped(body, deltaTime)
    ensures r.rotation == body.rotation && r.mass == body.mass && r.acceleration == body.acceleration
    ensures r.velocity.x == body.velocity.x && r.velocity.z == body.velocity.z
    ensures r.velocity.y == body.velocity.y - GravityForce / body.mass * deltaTime
    ensures r.position == Add(body.position, Scale(r.velocity, deltaTime))
  {
    var force := ComputeForce();
    var acceleration := Div(force, body.mass);
    r := body.(velocity := Add(body.velocity, Scale(acceleration, deltaTime)));
    r := r.(position := Add(r.position, Scale(r.velocity, deltaTime)));
    assert acceleration.x == 0.0 && acceleration.z == 0.0;
    assert acceleration.y * deltaTime == -(GravityForce / body.mass * deltaTime);
  }

  /** A step of zero length changes nothing. */
  lemma StepWithZeroDt(body: RigidBody)
    requires body.mass != 0.0
    ensures Stepped(body, 0.0) == body
  {
  }

  /**
   * The stored acceleration field has no influence on the step: two bodies that
   * differ only there step to bodies that differ only there.
   */
  lemma StepIgnoresStoredAcceleration(body: RigidBody, other: Vec3, dt: real)
    requires body.mass != 0.0
    ensures Stepped(body.(acceleration := other), dt) == Stepped(body, dt).(acceleration := other)
  {
  }

  /** The body after n frames of the same length dt. */
  ghost function Frames(body: RigidBody, dt: real, n: nat): (r: RigidBody)
    requires body.mass != 0.0
    ensures r.mass == body.mass
    decreases n
  {
    if n == 0 then body else Stepped(Frames(body, dt, n - 1), dt)
  }

  /**
   * Where n frames of constant length dt take a body, in closed form, with
   * g = 9.81 / mass: velocity.y falls by n*g*dt, the horizontal motion is
   * uniform, the vertical position falls by g*dt*dt*n*(n+1)/2 (the semi-implicit
   * scheme counts every frame's new velocity), and rotation, mass and
   * acceleration never change.
   */
  function FallenFor(body: RigidBody, dt: real, n: nat): RigidBody
    requires body.mass != 0.0
  {
    var g := GravityForce / body.mass;
    var m := n as real;
    body.(velocity := Vec3(body.velocity.x, body.velocity.y - m * g * dt, body.velocity.z),
          position := Vec3(body.position.x + m * dt * body.velocity.x,
                           body.position.y + m * dt * body.velocity.y - g * dt * dt * (m * (m + 1.0) / 2.0),
                           body.position.z + m * dt * body.velocity.z))
  }

  /** Repeated steps agree with the closed form. */
  lemma {:induction false} FramesClosedForm(body: RigidBody, dt: real, n: nat)
    requires body.mass != 0.0
    ensures Frames(body, dt, n) == FallenFor(body, dt, n)
  {
    if n > 0 {
      FramesClosedForm(body, dt, n - 1);
      ClosedFormStep(body, dt, n);
    } else {
      var g := GravityForce / body.mass;
      var r := FallenFor(body, dt, 0);
      assert 0.0 * g * dt == 0.0 && 0.0 * dt * body.velocity.y == 0.0;
      assert g * dt * dt * (0.0 * (0.0 + 1.0) / 2.0) == 0.0;
      assert r.velocity == body.velocity;
      assert r.position == body.position;
    }
  }

  /** One more frame takes the closed form after n - 1 frames to the closed form after n. */
  lemma ClosedFormStep(body: RigidBody, dt: real, n: nat)
    requires body.mass != 0.0 && n > 0
    ensures Stepped(FallenFor(body, dt, n - 1), dt) == FallenFor(body, dt, n)
  {
    ClosedFormStepVelocity(body, dt, n);
    ClosedFormStepHeight(body, dt, n);
    ClosedFormStepDrift(body, dt, n);
  }

  lemma ClosedFormStepVelocity(body: RigidBody, dt: real, n: nat)
    requires body.mass != 0.0 && n > 0
    ensures Stepped(FallenFor(body, dt, n - 1), dt).velocity == FallenFor(body, dt, n).velocity
  {
    var g := GravityForce / body.mass;
    var k := (n - 1) as real;
    var m := n as real;
    assert k + 1.0 == m;
    assert (k * g) * dt + g * dt == (m * g) * dt;
  }

  lemma ClosedFormStepHeight(body: RigidBody, dt: real, n: nat)
    requires body.mass != 0.0 && n > 0
    ensures Stepped(FallenFor(body, dt, n - 1), dt).position.y == FallenFor(body, dt, n).position.y
  {
    var g := GravityForce / body.mass;
    var k := (n - 1) as real;
    var m := n as real;
    var py := body.position.y + k * dt * body.velocity.y - g * dt * dt * (k * (k + 1.0) / 2.0);
    var vy := body.velocity.y - k * g * dt - g * dt;
    assert Stepped(FallenFor(body, dt, n - 1), dt).position.y == py + vy * dt by {
      var prev := FallenFor(body, dt, n - 1);
      assert prev.position.y == py;
      assert prev.velocity.y == body.velocity.y - k * g * dt;
    }
    StepArithmetic(body.position.y, body.velocity.y, g, dt, k, py, vy);
    assert m == k + 1.0;
    assert FallenFor(body, dt, n).position.y
        == body.position.y + m * dt * body.velocity.y - g * dt * dt * (m * (m + 1.0) / 2.0);
  }

  lemma ClosedFormStepDrift(body: RigidBody, dt: real, n: nat)
    requires body.mass != 0.0 && n > 0
    ensures var next := Stepped(FallenFor(body, dt, n - 1), dt);
            var r := FallenFor(body, dt, n);
            next.position.x == r.position.x && next.position.z == r.position.z
  {
    var prev := FallenFor(body, dt, n - 1);
    var k := (n - 1) as real;
    var m := n as real;
    assert prev.position.x == body.position.x + k * dt * body.velocity.x;
    assert prev.position.z == body.position.z + k * dt * body.velocity.z;
    assert prev.velocity.x == body.velocity.x && prev.velocity.z == body.velocity.z;
    UniformArithmetic(body.position.x, body.velocity.x, dt, n);
    UniformArithmetic(body.position.z, body.velocity.z, dt, n);
    assert FallenFor(body, dt, n).position.x == body.position.x + m * dt * body.velocity.x;
    assert FallenFor(body, dt, n).position.z == body.position.z + m * dt * body.velocity.z;
  }

  /**
   * One coordinate of the induction step of FramesClosedForm: from the closed
   * form after k frames (position p, velocity after one more frame v), the
   * next position is the closed form after k + 1 frames.
   */
  lemma StepArithmetic(p0: real, v0: real, g: real, dt: real, k: real, p: real, v: real)
    requires p == p0 + k * dt * v0 - g * dt * dt * (k * (k + 1.0) / 2.0)
    requires v == v0 - k * g * dt - g * dt
    ensures p + v * dt == p0 + (k + 1.0) * dt * v0 - g * dt * dt * ((k + 1.0) * ((k + 1.0) + 1.0) / 2.0)
  {
    var m := k + 1.0;
    assert m * (m + 1.0) / 2.0 == k * (k + 1.0) / 2.0 + m;
    assert g * dt * dt * (m * (m + 1.0) / 2.0) == g * dt * dt * (k * (k + 1.0) / 2.0) + g * dt * dt * m;
    assert v * dt == v0 * dt - k * g * dt * dt - g * dt * dt;
    assert m * dt * v0 == k * dt * v0 + v0 * dt;
  }

  /** One coordinate of the induction step of FramesClosedForm with no force along it. */
  lemma UniformArithmetic(p0: real, v0: real, dt: real, n: nat)
    requires n > 0
    ensures (p0 + (n - 1) as real * dt * v0) + v0 * dt == p0 + n as real * dt * v0
  {
  }
}
