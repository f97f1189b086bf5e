/** The part of winit's WindowEvent that the components look at. */
module Events {
  import opened Wrappers

  /** A winit VirtualKeyCode, identified by its position in that enumeration. */
  type KeyCode = nat

  datatype ElementState = Pressed | Released

  /**
   * A keyboard event carries a press or release and, when the platform can name
   * the key, a virtual key code. Every other event kind (cursor motion, resize,
   * close, ...) is OtherEvent: no component looks inside it.
   */
  datatype WindowEvent =
    | KeyboardInput(state: ElementState, virtualKeycode: Option<KeyCode>)
    | OtherEvent
}
