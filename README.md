# Web-Engine simulation core in Dafny

This project models the simulation layer of a small Rust/wgpu scene engine, and the host bookkeeping that drives it:

- **Rigid bodies** (`src/physics.rs`). A body has a position, rotation, velocity, stored acceleration and mass. One `update` is a semi-implicit Euler step under a constant downward force of 9.81, divided by the mass.
- **Paddle component** (`src/components/paddle.rs`). Four key bindings (forward, backward, left, right) and four pressed flags. `input` records presses and releases. `update` sets the horizontal velocity of the paddle's own body to -10, 10 or 0.
- **Ball component** (`src/components/ball.rs`). The ball has no state. `start` applies an upward force to its own body. `update` copies all bodies, then reverses its own velocity once for every other body it overlaps.
- **Host bookkeeping** (`src/lib.rs`):
  - instances that own a rigid body and mirror its transform;
  - the registry that files each new instance under its model's name;
  - the window of the last ten frame times, its newest entry, and the average the GUI shows;
  - the per-frame loop that updates every instance.

Vectors and quaternions are cgmath stand-ins over `real` (module `Linear`). A rigid body is a value (`Physics.RigidBody`); `RigidBody::new` is that datatype's constructor, which stores its five arguments as given. The `Vec<RigidBody>` that components receive is an `array<RigidBody>`: a component changes one entry in place and never the length. `Paddle`, `Instance` and `State` are classes, because the source updates their fields in place. `Ball` has no fields, so its operations are module-level. A model group (`ModelInstances`) is a value `{name, instances}` stored in `State`'s sequence; the GPU buffer it holds is not modelled.

Each state-changing method is stated against a specification function: `Physics.Stepped`, `PaddleComponent.AfterInput` / `Claims` / `Steered`, `BallComponent.Bounced`, `Engine.SlidingWindow` and `Engine.Register`. The lemmas prove what those functions mean.

Facts about the code that the model reflects:

- `physics.rs` has no collision shape, no angular velocity and no quaternion integration. `update` never touches `rotation`, and the stored `acceleration` field is ignored (`Physics.StepIgnoresStoredAcceleration`).
- In `lib.rs`, an `Instance` owns its `RigidBody` by value; there is no shared body store and no per-instance behaviour. `Instance::update` only steps physics and copies the transform. Nothing in `lib.rs` calls a component: `lib.rs` declares no `components` or `component` module.
- `ball.rs` negates the velocity once per overlapping body, not only on the first overlap, so an even number of overlaps cancel out (`BallComponent.BounceParity`).
- Components take `(bodies, body_index)`, not the signature of the `Component` trait in `src/component.rs`. The model uses the implementors' signature.
- New instances get the all-zero quaternion as rotation, which is not a unit quaternion (`Engine.SpawnRotationNotUnit`).
- The frame-time average divides by one more than the number of frames. It therefore never exceeds the longest frame in the window, and it stays strictly below it whenever any frame took time (`Engine.AverageBelowLongest`). When every frame took 0 ms, or the window is empty, both are 0.

## Model

| member | source | states |
|---|---|---|
| `Physics.Update` | src/physics.rs:21-30 | One step equals the reference step `Stepped`. Rotation, mass and the stored acceleration are unchanged. x and z velocity are unchanged. y velocity drops by 9.81/mass·dt. The new position is the old one plus the NEW velocity times dt (semi-implicit). |
| `Physics.ComputeForce` | src/physics.rs:28-30 | The force has no x or z component and points strictly downward along y, whatever the body's state. |
| `Physics.StepWithZeroDt` | src/physics.rs:24-25 | A step with dt = 0 leaves the body exactly as it was. |
| `Physics.StepIgnoresStoredAcceleration` | src/physics.rs:22-24 | The stored `acceleration` field has no influence on the step; only the constant force over the mass does. |
| `Physics.Frames` | src/physics.rs:21-26 | n repeated steps keep the mass, so every step's division stays defined. |
| `Physics.FramesClosedForm` | src/physics.rs:21-30 | After n steps of length dt: velocity.y = v₀ − n·g·dt, x/z motion is uniform, y = y₀ + n·dt·v₀ − g·dt²·n(n+1)/2, with g = 9.81/mass. Rotation, mass and acceleration never change. |
| `PaddleComponent.Paddle.constructor` | src/components/paddle.rs:18-26 | The bindings are stored unchanged and all four pressed flags start false. |
| `PaddleComponent.Paddle.Start` | src/components/paddle.rs:32-34 | `start` leaves every body as it was. |
| `PaddleComponent.Paddle.Update` | src/components/paddle.rs:35-50 | Only entry `body_index` changes, and it becomes `Steered` by the current flags; every other entry is unchanged. |
| `PaddleComponent.SteeringRule` | src/components/paddle.rs:41-49 | Left gives −10 whether or not right is held. Right alone gives 10, neither gives 0. Only velocity.x changes. The forward and backward flags have no effect. |
| `PaddleComponent.Paddle.Input` | src/components/paddle.rs:51-85 | The bindings stay. The flags become `AfterInput` of the old flags. The result is true exactly when `Claims` holds. It requires that the comparison chain does not run off a binding list shorter than four. |
| `PaddleComponent.FindBinding` | src/components/paddle.rs:63-81 | Bindings are compared in slot order. A match gives the FIRST matching slot (below 4). Unbound means four bindings exist and none matches. OutOfBounds means the list is shorter than four and nothing in it matches. Each outcome holds in both directions. |
| `PaddleComponent.SetFlag` | src/components/paddle.rs:63-78 | Setting slot k's flag changes that flag and no other. |
| `PaddleComponent.BoundKeySetsItsFlag` | src/components/paddle.rs:62-78 | A key event whose code is bound to slot k and to no earlier slot is claimed. It sets flag k to "state is Pressed" and leaves the other three flags. |
| `PaddleComponent.LowestSlotWins` | src/components/paddle.rs:63-78 | A key bound to slots i < j never updates slot j. |
| `PaddleComponent.UnboundKeyIgnored` | src/components/paddle.rs:79-81 | A key bound to none of the four slots is not claimed and changes no flag. |
| `PaddleComponent.NonKeyEventIgnored` | src/components/paddle.rs:83 | Non-keyboard events, and keyboard events without a virtual key code, are not claimed, change nothing and cannot panic. |
| `PaddleComponent.PressThenReleaseLeft` | src/components/paddle.rs:41-78 | Pressing the left key makes the next update move the paddle at −10. Releasing it makes the following update give 0, or 10 if right is still held. |
| `BallComponent.Start` | src/components/ball.rs:15-19 | Only the ball's own entry changes; it becomes `add_force` applied to it with (0, 10, 0). |
| `BallComponent.Bounced` | src/components/ball.rs:26-33 | After the loop has looked at any prefix of the snapshot, the own body differs from its start only in velocity, which is either the original or its negation. |
| `BallComponent.Update` | src/components/ball.rs:21-34 | Only entry `body_index` changes. It becomes `Bounced` over the snapshot taken on entry (`old(bodies[..])`), across all indices. |
| `BallComponent.BounceParity` | src/components/ball.rs:26-33 | With an overlap test that ignores velocity, the final velocity is the original after an even number of overlapping other bodies and its negation after an odd number. Every overlap counts, not just the first. |
| `BallComponent.BounceIgnoresOwnEntry` | src/components/ball.rs:27 | The snapshot's own entry is never tested: replacing it does not change the result. |
| `BallComponent.Input` | src/components/ball.rs:36-41 | The ball claims no event. |
| `Engine.MillisToSeconds` | src/lib.rs:559 | The step length in seconds is non-negative, and multiplying it by 1000 gives back the frame time in milliseconds. |
| `Engine.Instance.constructor` | src/lib.rs:610-620 | The new instance holds exactly the given position, rotation and owned rigid body, as the struct literal builds it. |
| `Engine.Instance.Update` | src/lib.rs:119-123 | The instance's body takes exactly one `Stepped` step. Its cached position and rotation then equal the body's new position and rotation. |
| `Engine.SlidingWindow` | src/lib.rs:549-553 | Pushing a frame time grows the window by one until it holds ten, then keeps its length. A window of at most ten stays at most ten. The newest entry is the new delta. The older entries are the previous ones minus the dropped oldest. |
| `Engine.SlideLatest` | src/lib.rs:549-553 | Sliding the last ten entries of a history by one frame gives the last ten entries of the longer history. |
| `Engine.ReplayKeepsLatest` | src/lib.rs:515-553 | Starting from the empty window, the window always holds exactly the last (at most ten) frame times, oldest first. |
| `Engine.State.RecordFrameTime` | src/lib.rs:549-553 | The window becomes `SlidingWindow` of the old window and the new delta, and keeps the state's invariant. |
| `Engine.State.GetLastDelta` | src/lib.rs:730-732 | On a non-empty window it returns the newest frame time. |
| `Engine.AverageFrameTime` | src/lib.rs:710 | The shown average is the integer quotient of the window's sum by its length plus one. The divisor is never zero. |
| `Engine.AverageBelowLongest` | src/lib.rs:710 | The shown average never exceeds the longest frame in the window, and is strictly below it when that frame is non-zero. |
| `Engine.FindGroup` | src/lib.rs:622 | Finds the FIRST group with the model's name. None means no group has that name, and the other direction holds too. |
| `Engine.RegisterIntoExisting` | src/lib.rs:622-624 | When a group has the name, the new instance is appended to the first such group. The number of groups and every other group are unchanged. |
| `Engine.RegisterNewGroup` | src/lib.rs:625-629 | When no group has the name, exactly one group holding exactly the new instance is appended at the end. The existing groups are unchanged. |
| `Engine.RegisterAddsOne` | src/lib.rs:622-629 | Registering raises the total number of instances by exactly one. |
| `Engine.RegisterKeepsNamesDistinct` | src/lib.rs:622-629 | Find-or-create never yields two groups with one model name. |
| `Engine.RegisterKeepsInstancesDistinct` | src/lib.rs:622-629 | A fresh instance registered into groups without repeats leaves no repeats. |
| `Engine.State.InstanceFromModel` | src/lib.rs:607-631 | The new instance is fresh, at the origin, at rest, with the all-zero quaternion. Its body has acceleration (0, −9.81, 0) and mass 1. The groups become `Register` of the old groups. The total count rises by one, and the frame window is unchanged. |
| `Engine.SpawnRotationNotUnit` | src/lib.rs:612-615 | The spawn rotation has squared norm 0, so it is not a unit quaternion. |
| `Engine.State.StepInstances` | src/lib.rs:565-569 | Every instance of every group takes exactly one step, and its cached transform mirrors its body. |
| `Engine.State.Update` | src/lib.rs:545-569 | The frame delta is pushed into the window. Every instance is then stepped by the delta just pushed, converted from milliseconds to seconds. The groups themselves are unchanged. |
| `Engine.State.constructor` | src/lib.rs:515-516 | The state starts with an empty frame window and no model groups. |

## Left out

- GPU and window plumbing in `src/lib.rs` is not modelled: device, surface, pipeline and buffer setup, `render`, `resize`, `InstanceRaw::desc`, `Instance::to_raw`, the instance-buffer writes in the per-frame loop, and the camera and camera-uniform updates in `State::update`. It is graphics state with no simulation logic.
- `State::input` only forwards events to the camera controller. No component receives input from the host, so there is nothing of the core to model there.
- The event loop, `Instant` timing, resource loading and `get_files` (`src/lib.rs` from line 737) are platform I/O. A frame's duration enters the model as the `deltaMillis` parameter of `Engine.State.Update`.
- `src/gui.rs`, `umm.js`, `src/thing.rs` (not compiled) and the `Component` trait of `src/component.rs` (declaration only) have no behaviour in this model.
- `RigidBody::is_intersecting` and `RigidBody::add_force` are not defined in `src/physics.rs`. `BallComponent.Update` and `BallComponent.Start` take them as function parameters, and nothing is assumed about them except where a lemma says so (`VelocityBlind` in `BounceParity`).
- `Physics.Update`: f32 arithmetic is idealised as real arithmetic, so rounding is not modelled. Which fields change, and that x/z velocity and rotation are untouched, hold exactly in f32 as well.
- `Engine.AverageFrameTime`: frame times are unbounded naturals, so the u128 sum computed for the GUI (`src/lib.rs:710`) is taken never to overflow.
- `Engine.State.Update`: the `as f32` conversion of the last delta (`src/lib.rs:559`) is taken as exact.
- `Engine.State.GetLastDelta`: requires a non-empty window. On an empty `Vec`, `src/lib.rs:731` panics on the index. Its only caller, `State::update`, pushes a delta first.
- `Physics.Update`: requires `mass != 0.0`. With mass 0, the f32 division at `src/physics.rs:23` does not panic: it gives inf or NaN. Every body the source builds has mass 1.0 (`src/lib.rs:618`).
- `Engine.Instance.Update`: requires `mass != 0.0` for the same reason. `Engine.State.Valid` keeps the mass non-zero for every registered instance.
- `PaddleComponent.Paddle.Update`: requires `bodyIndex < bodies.Length`. When the index is out of range, `src/components/paddle.rs:39` panics on the index.
- `BallComponent.Start`: requires `bodyIndex < bodies.Length`. When the index is out of range, `src/components/ball.rs:17` panics on the index.
- `BallComponent.Update`: requires `bodyIndex < bodies.Length`. When the index is out of range, `src/components/ball.rs:25` panics on the index.
- `PaddleComponent.Paddle.Input`: the index-out-of-bounds panic, when a key falls past the end of a binding list shorter than four, is a precondition (`!Panics`), not an outcome.
- `Ball::new` and `Paddle`'s unused `dt` carry no behaviour. The ball is stateless, and `dt` is accepted but ignored by both `update`s.
