/**
 * The ball component of src/components/ball.rs. It has no state of its own.
 * Its update reverses its own body's velocity once for every other body it
 * overlaps, judged against a copy of the bodies taken on entry.
 *
 * RigidBody::is_intersecting and RigidBody::add_force are not part of this
 * model (physics.rs does not define them); each operation that calls one takes
 * it as a parameter.
 */
module BallComponent {
  import opened Linear
  import opened Physics
  import opened Events

  /** An overlap test between a body and another body. */
  type Intersects = (RigidBody, RigidBody) -> bool

  /** The overlap test depends on the first body only through fields other than its velocity. */
  ghost predicate VelocityBlind(hit: Intersects) {
    forall a: RigidBody, b: RigidBody, v: Vec3 :: hit(a.(velocity := v), b) == hit(a, b)
  }

  /** The strength of the upward force the ball gets when it starts. */
  const LaunchForce: Vec3 := Vec3(0.0, 10.0, 0.0)

  /** start: applies the launch force to its own body; every other entry stays. */
  method Start(bodies: array<RigidBody>, bodyIndex: nat, addForce: (RigidBody, Vec3) -> RigidBody)
    requires bodyIndex < bodies.Length
    modifies bodies
    ensures bodies[..] == old(bodies[..])[bodyIndex := addForce(old(bodies[bodyIndex]), LaunchForce)]
  {
    var rigidbody := bodies[bodyIndex];
    bodies[bodyIndex] := addForce(rigidbody, LaunchForce);
  }

  /**
   * The own body after the loop of `update` has looked at the first n entries of
   * the snapshot: each entry other than the own index that the (current) own body
   * overlaps reverses its velocity. Only the velocity can change, and only sign.
   */
  function Bounced(own: RigidBody, snapshot: seq<RigidBody>, bodyIndex: nat, n: nat, hit: Intersects): (r: RigidBody)
    requires n <= |snapshot|
    ensures r == own.(velocity := r.velocity)
    ensures r.velocity == own.velocity || r.velocity == Neg(own.velocity)
    decreases n
  {
    if n == 0 then own
    else
      var prev := Bounced(own, snapshot, bodyIndex, n - 1, hit);
      if n - 1 != bodyIndex && hit(prev, snapshot[n - 1]) then prev.(velocity := Neg(prev.velocity)) else prev
  }

  /** How many of the first n snapshot entries, the own index excluded, the own body overlaps. */
  function HitCount(own: RigidBody, snapshot: seq<RigidBody>, bodyIndex: nat, n: nat, hit: Intersects): nat
    requires n <= |snapshot|
    decreases n
  {
    if n == 0 then 0
    else HitCount(own, snapshot, bodyIndex, n - 1, hit)
         + (if n - 1 != bodyIndex && hit(own, snapshot[n - 1]) then 1 else 0)
  }

  /**
   * update: copies all bodies, then walks every index but its own and reverses
   * its own velocity each time it overlaps the copied body there. No entry but
   * its own changes, and of its own entry only the velocity.
   */
  method Update(dt: real, bodies: array<RigidBody>, bodyIndex: nat, hit: Intersects)
    requires bodyIndex < bodies.Length
    modifies bodies
    ensures bodies[..] == old(bodies[..])[bodyIndex := Bounced(old(bodies[bodyIndex]), old(bodies[..]), bodyIndex, bodies.Length, hit)]
  {
    var test := bodies[..];
    var i := 0;
    while i < |test|
      invariant 0 <= i <= |test|
      invariant bodies[..] == test[bodyIndex := Bounced(test[bodyIndex], test, bodyIndex, i, hit)]
    {
      if i != bodyIndex {
        var other := test[i];
        if hit(bodies[bodyIndex], other) {
          bodies[bodyIndex] := bodies[bodyIndex].(velocity := Neg(bodies[bodyIndex].velocity));
        }
      }
      i := i + 1;
    }
  }

  /** input: the ball claims no event. */
  function Input(event: WindowEvent): (claimed: bool)
    ensures !claimed
  {
    false
  }

  /**
   * With an overlap test that ignores velocity, the loop's outcome is a parity:
   * the original velocity after an even number of overlapping bodies, its
   * negation after an odd number. Every overlap counts, not just the first.
   */
  lemma {:induction false} BounceParity(own: RigidBody, snapshot: seq<RigidBody>, bodyIndex: nat, n: nat, hit: Intersects)
    requires n <= |snapshot| && VelocityBlind(hit)
    ensures Bounced(own, snapshot, bodyIndex, n, hit).velocity
         == if HitCount(own, snapshot, bodyIndex, n, hit) % 2 == 0 then own.velocity else Neg(own.velocity)
  {
    if n > 0 {
      BounceParity(own, snapshot, bodyIndex, n - 1, hit);
      var prev := Bounced(own, snapshot, bodyIndex, n - 1, hit);
      assert hit(prev, snapshot[n - 1]) == hit(own, snapshot[n - 1]) by {
        assert prev == own.(velocity := prev.velocity);
      }
      NegInvolutive(own.velocity);
    }
  }

  /** The own entry of the snapshot is never looked at: replacing it changes nothing. */
  lemma {:induction false} BounceIgnoresOwnEntry(own: RigidBody, snapshot: seq<RigidBody>, bodyIndex: nat, n: nat, hit: Intersects, stand: RigidBody)
    requires n <= |snapshot| && bodyIndex < |snapshot|
    ensures Bounced(own, snapshot[bodyIndex := stand], bodyIndex, n, hit) == Bounced(own, snapshot, bodyIndex, n, hit)
  {
    if n > 0 {
      BounceIgnoresOwnEntry(own, snapshot, bodyIndex, n - 1, hit, stand);
    }
  }
}
