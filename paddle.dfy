/**
 * The paddle component of src/components/paddle.rs: four key bindings
 * (forward, backward, left, right), four pressed flags, and a horizontal
 * velocity chosen from the left and right flags.
 */
module PaddleComponent {
  import opened Wrappers
  import opened Physics
  import opened Events

  /** The four pressed flags, in binding order. */
  datatype KeyFlags = KeyFlags(forward: bool, backward: bool, left: bool, right: bool)

  const AllReleased: KeyFlags := KeyFlags(false, false, false, false)

  /** Speed the paddle moves at while left or right is held. */
  const PaddleSpeed: real := 10.0

  /** The flag of binding slot k: 0 forward, 1 backward, 2 left, 3 right. */
  function Flag(flags: KeyFlags, k: nat): bool
    requires k < 4
  {
    if k == 0 then flags.forward
    else if k == 1 then flags.backward
    else if k == 2 then flags.left
    else flags.right
  }

  /** The flags with slot k's flag set to v. */
  function SetFlag(flags: KeyFlags, k: nat, v: bool): (r: KeyFlags)
    requires k < 4
    ensures Flag(r, k) == v
    ensures forall j :: 0 <= j < 4 && j != k ==> Flag(r, j) == Flag(flags, j)
  {
    if k == 0 then flags.(forward := v)
    else if k == 1 then flags.(backward := v)
    else if k == 2 then flags.(left := v)
    else flags.(right := v)
  }

  /**
   * Where the comparison chain of `input` stops for a key code: at the first
   * slot (of 0..3) whose binding equals it, at Unbound when all four differ,
   * or at OutOfBounds when the chain indexes past the end of a binding list
   * shorter than four (a panic).
   */
  datatype Binding = Slot(k: nat) | Unbound | OutOfBounds

  function FindBinding(keys: seq<KeyCode>, code: KeyCode): (b: Binding)
    ensures b.Slot? <==> exists j :: 0 <= j < 4 && j < |keys| && keys[j] == code
    ensures b.Slot? ==> (b.k < 4 && b.k < |keys| && keys[b.k] == code
                         && forall j :: 0 <= j < b.k ==> keys[j] != code)
    ensures b.Unbound? <==> 4 <= |keys| && forall j :: 0 <= j < 4 ==> keys[j] != code
    ensures b.OutOfBounds? <==> |keys| < 4 && forall j :: 0 <= j < |keys| ==> keys[j] != code
  {
    if |keys| == 0 then OutOfBounds
    else if code == keys[0] then Slot(0)
    else if |keys| == 1 then OutOfBounds
    else if code == keys[1] then Slot(1)
    else if |keys| == 2 then OutOfBounds
    else if code == keys[2] then Slot(2)
    else if |keys| == 3 then OutOfBounds
    else if code == keys[3] then Slot(3)
    else Unbound
  }

  /** The event is a key event whose code runs the comparison chain off a short binding list. */
  predicate Panics(keys: seq<KeyCode>, event: WindowEvent) {
    event.KeyboardInput? && event.virtualKeycode.Some?
    && FindBinding(keys, event.virtualKeycode.value).OutOfBounds?
  }

  /** Whether `input` claims the event. */
  predicate Claims(keys: seq<KeyCode>, event: WindowEvent) {
    event.KeyboardInput? && event.virtualKeycode.Some?
    && FindBinding(keys, event.virtualKeycode.value).Slot?
  }

  /** The pressed flags after `input` has seen the event. */
  function AfterInput(flags: KeyFlags, keys: seq<KeyCode>, event: WindowEvent): KeyFlags
    requires !Panics(keys, event)
  {
    match event
    case KeyboardInput(state, Some(code)) =>
      (match FindBinding(keys, code)
       case Slot(k) => SetFlag(flags, k, state == Pressed)
       case _ => flags)
    case _ => flags
  }

  /** The body after `update` has steered it with the given flags. */
  function Steered(body: RigidBody, flags: KeyFlags): RigidBody {
    var vx := if flags.left then -PaddleSpeed else if flags.right then PaddleSpeed else 0.0;
    body.(velocity := body.velocity.(x := vx))
  }

  class Paddle {
    var inputKeys: seq<KeyCode>
    var isForwardPressed: bool
    var isBackwardPressed: bool
    var isLeftPressed: bool
    var isRightPressed: bool

    ghost function Flags(): KeyFlags
      reads this
    {
      KeyFlags(isForwardPressed, isBackwardPressed, isLeftPressed, isRightPressed)
    }

    /** Paddle::new: the bindings as given, nothing pressed. */
    constructor (inputKeys: seq<KeyCode>)
      ensures this.inputKeys == inputKeys
      ensures Flags() == AllReleased
    {
      this.isForwardPressed := false;
      this.isBackwardPressed := false;
      this.isLeftPressed := false;
      this.isRightPressed := false;
      this.inputKeys := inputKeys;
    }

    /** start: the paddle needs no set-up; the bodies are left as they are. */
    method Start(bodies: array<RigidBody>, bodyIndex: nat)
      modifies bodies
      ensures bodies[..] == old(bodies[..])
    {
    }

    /**
     * update: sets the x velocity of its own body from the left and right
     * flags; every other entry and every other field stays.
     */
    method Update(dt: real, bodies: array<RigidBody>, bodyIndex: nat)
      requires bodyIndex < bodies.Length
      modifies bodies
      ensures bodies[..] == old(bodies[..])[bodyIndex := Steered(old(bodies[bodyIndex]), Flags())]
    {
      var rigidbody := bodies[bodyIndex];
      if isLeftPressed {
        bodies[bodyIndex] := rigidbody.(velocity := rigidbody.velocity.(x := -PaddleSpeed));
      } else if isRightPressed {
        bodies[bodyIndex] := rigidbody.(velocity := rigidbody.velocity.(x := PaddleSpeed));
      } else {
        bodies[bodyIndex] := rigidbody.(velocity := rigidbody.velocity.(x := 0.0));
      }
    }

    /**
     * input: a key event with a virtual key code is compared with the bindings
     * in slot order; the first match records "pressed" or "released" in that
     * slot's flag and claims the event.
     */
    method Input(event: WindowEvent) returns (claimed: bool)
      requires !Panics(inputKeys, event)
      modifies this
      ensures inputKeys == old(inputKeys)
      ensures Flags() == AfterInput(old(Flags()), inputKeys, event)
      ensures claimed == Claims(inputKeys, event)
    {
      match event {
        case KeyboardInput(state, Some(keycode)) =>
          var isPressed := state == Pressed;
          if keycode == inputKeys[0] {
            isForwardPressed := isPressed;
            return true;
          } else if keycode == inputKeys[1] {
            isBackwardPressed := isPressed;
            return true;
          } else if keycode == inputKeys[2] {
            isLeftPressed := isPressed;
            return true;
          } else if keycode == inputKeys[3] {
            isRightPressed := isPressed;
            return true;
          } else {
            return false;
          }
        case _ =>
          return false;
      }
    }
  }

  // Properties of the controller, stated on the specification functions above.

  /** A key bound to slot k and to no earlier slot sets exactly flag k, and the event is claimed. */
  lemma BoundKeySetsItsFlag(flags: KeyFlags, keys: seq<KeyCode>, state: ElementState, k: nat)
    requires k < 4 && k < |keys|
    requires forall j :: 0 <= j < k ==> keys[j] != keys[k]
    ensures var event := KeyboardInput(state, Some(keys[k]));
            && !Panics(keys, event)
            && Claims(keys, event)
            && Flag(AfterInput(flags, keys, event), k) == (state == Pressed)
            && forall j :: 0 <= j < 4 && j != k ==> Flag(AfterInput(flags, keys, event), j) == Flag(flags, j)
  {
    assert FindBinding(keys, keys[k]) == Slot(k);
  }

  /** When one key is bound to slots i < j, only slot i is ever updated by it. */
  lemma LowestSlotWins(flags: KeyFlags, keys: seq<KeyCode>, state: ElementState, i: nat, j: nat)
    requires i < j < 4 && j < |keys| && keys[i] == keys[j]
    ensures var event := KeyboardInput(state, Some(keys[j]));
            && !Panics(keys, event)
            && Flag(AfterInput(flags, keys, event), j) == Flag(flags, j)
  {
    var b := FindBinding(keys, keys[j]);
    assert b.Slot? && b.k <= i;
  }

  /** A key bound to none of the four slots is not claimed and changes nothing. */
  lemma UnboundKeyIgnored(flags: KeyFlags, keys: seq<KeyCode>, state: ElementState, code: KeyCode)
    requires 4 <= |keys| && forall j :: 0 <= j < 4 ==> keys[j] != code
    ensures var event := KeyboardInput(state, Some(code));
            && !Panics(keys, event)
            && !Claims(keys, event)
            && AfterInput(flags, keys, event) == flags
  {
  }

  /** Events other than a key event with a virtual key code never panic, are never claimed, and change nothing. */
  lemma NonKeyEventIgnored(flags: KeyFlags, keys: seq<KeyCode>, event: WindowEvent)
    requires !(event.KeyboardInput? && event.virtualKeycode.Some?)
    ensures !Panics(keys, event) && !Claims(keys, event) && AfterInput(flags, keys, event) == flags
  {
  }

  /**
   * Steering: left wins over right; right alone gives +10; neither gives 0.
   * Only velocity.x of the body changes, and the forward and backward flags
   * have no effect.
   */
  lemma SteeringRule(body: RigidBody, flags: KeyFlags)
    ensures var r := Steered(body, flags);
            && r.position == body.position && r.rotation == body.rotation
            && r.acceleration == body.acceleration && r.mass == body.mass
            && r.velocity.y == body.velocity.y && r.velocity.z == body.velocity.z
            && r.velocity.x == (if flags.left then -PaddleSpeed else if flags.right then PaddleSpeed else 0.0)
            && r == Steered(body, flags.(forward := !flags.forward))
            && r == Steered(body, flags.(backward := !flags.backward))
  {
  }

  /**
   * A press of the left key makes the next update move the paddle at -10;
   * releasing it makes the following update stop the paddle unless right is
   * still held.
   */
  lemma PressThenReleaseLeft(flags: KeyFlags, keys: seq<KeyCode>, body: RigidBody)
    requires 4 <= |keys| && keys[2] != keys[0] && keys[2] != keys[1]
    ensures var pressed := AfterInput(flags, keys, KeyboardInput(Pressed, Some(keys[2])));
            var released := AfterInput(pressed, keys, KeyboardInput(Released, Some(keys[2])));
            && Steered(body, pressed).velocity.x == -PaddleSpeed
            && Steered(body, released).velocity.x == (if flags.right then PaddleSpeed else 0.0)
  {
    BoundKeySetsItsFlag(flags, keys, Pressed, 2);
    var pressed := AfterInput(flags, keys, KeyboardInput(Pressed, Some(keys[2])));
    BoundKeySetsItsFlag(pressed, keys, Released, 2);
  }
}
