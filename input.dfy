/** Keyboard and mouse state with edge detection: a key or button is "pressed" only on its
    up-to-down transition and "released" on every up event, and both flags, with the mouse
    deltas, last until the next frame's `Update`. */
module Inputs {

  /** SDL's scancode count. */
  const NumScancodes: nat := 512
  /** Slots in each mouse-button table; buttons 1 to 3 use slots 0 to 2. */
  const MouseSlots: nat := 5
  const MaxTrackedButton: int := 3

  datatype Event =
    | KeyDown(scancode: int)
    | KeyUp(scancode: int)
    | MouseMotion(x: int, y: int, xrel: int, yrel: int)
    | MouseButtonDown(button: int)
    | MouseButtonUp(button: int)
    | OtherEvent

  /** What the event source can deliver: a scancode inside the table and a button number
      of SDL's one-based, 8-bit range. */
  predicate ValidEvent(e: Event) {
    match e
    case KeyDown(k) => 0 <= k < NumScancodes
    case KeyUp(k) => 0 <= k < NumScancodes
    case MouseButtonDown(b) => 1 <= b < 256
    case MouseButtonUp(b) => 1 <= b < 256
    case _ => true
  }

  /** The whole input state as a value. */
  datatype InputState = InputState(
    keys: seq<bool>, keysPressed: seq<bool>, keysReleased: seq<bool>,
    buttons: seq<bool>, buttonsPressed: seq<bool>, buttonsReleased: seq<bool>,
    mouseX: int, mouseY: int, deltaX: int, deltaY: int)

  predicate WellSized(d: InputState) {
    && |d.keys| == NumScancodes && |d.keysPressed| == NumScancodes && |d.keysReleased| == NumScancodes
    && |d.buttons| == MouseSlots && |d.buttonsPressed| == MouseSlots && |d.buttonsReleased| == MouseSlots
  }

  function AllFalse(n: nat): seq<bool> {
    seq(n, _ => false)
  }

  /** Everything up, no edges, the mouse at the origin with no motion. */
  const Initial: InputState :=
    InputState(AllFalse(NumScancodes), AllFalse(NumScancodes), AllFalse(NumScancodes),
               AllFalse(MouseSlots), AllFalse(MouseSlots), AllFalse(MouseSlots), 0, 0, 0, 0)

  /** The start of a frame: every edge flag cleared and the deltas zeroed. */
  function FrameSpec(d: InputState): InputState {
    d.(keysPressed := AllFalse(|d.keysPressed|), keysReleased := AllFalse(|d.keysReleased|),
       buttonsPressed := AllFalse(|d.buttonsPressed|), buttonsReleased := AllFalse(|d.buttonsReleased|),
       deltaX := 0, deltaY := 0)
  }

  /** One event. */
  function EventSpec(d: InputState, e: Event): (r: InputState)
    requires WellSized(d) && ValidEvent(e)
    ensures WellSized(r)
  {
    match e
    case KeyDown(k) =>
      if d.keys[k] then d
      else d.(keys := d.keys[k := true], keysPressed := d.keysPressed[k := true])
    case KeyUp(k) =>
      d.(keys := d.keys[k := false], keysReleased := d.keysReleased[k := true])
    case MouseMotion(x, y, xrel, yrel) =>
      d.(mouseX := x, mouseY := y, deltaX := d.deltaX + xrel, deltaY := d.deltaY + yrel)
    case MouseButtonDown(b) =>
      if b > MaxTrackedButton || d.buttons[b - 1] then d
      else d.(buttons := d.buttons[b - 1 := true], buttonsPressed := d.buttonsPressed[b - 1 := true])
    case MouseButtonUp(b) =>
      if b > MaxTrackedButton then d
      else d.(buttons := d.buttons[b - 1 := false], buttonsReleased := d.buttonsReleased[b - 1 := true])
    case OtherEvent => d
  }

  /** A run of events, in order. */
  function EventsSpec(d: InputState, es: seq<Event>): (r: InputState)
    requires WellSized(d) && forall i :: 0 <= i < |es| ==> ValidEvent(es[i])
    ensures WellSized(r)
    decreases |es|
  {
    if es == [] then d else EventsSpec(EventSpec(d, es[0]), es[1..])
  }

  class Input {
    const keys: array<bool>
    const keysPressed: array<bool>
    const keysReleased: array<bool>
    const mouseButtons: array<bool>
    const mouseButtonsPressed: array<bool>
    const mouseButtonsReleased: array<bool>
    var mouseX: int
    var mouseY: int
    var mouseDeltaX: int
    var mouseDeltaY: int

    /** The tables have their sizes and are distinct arrays (tables of different sizes are
        necessarily distinct). */
    predicate Valid() {
      && keys.Length == NumScancodes && keysPressed.Length == NumScancodes && keysReleased.Length == NumScancodes
      && mouseButtons.Length == MouseSlots && mouseButtonsPressed.Length == MouseSlots
      && mouseButtonsReleased.Length == MouseSlots
      && keys != keysPressed && keys != keysReleased && keysPressed != keysReleased
      && mouseButtons != mouseButtonsPressed && mouseButtons != mouseButtonsReleased
      && mouseButtonsPressed != mouseButtonsReleased
    }

    function Snapshot(): InputState
      reads this, keys, keysPressed, keysReleased, mouseButtons, mouseButtonsPressed, mouseButtonsReleased
    {
      InputState(keys[..], keysPressed[..], keysReleased[..],
                 mouseButtons[..], mouseButtonsPressed[..], mouseButtonsReleased[..],
                 mouseX, mouseY, mouseDeltaX, mouseDeltaY)
    }

    constructor ()
      ensures Valid() && Snapshot() == Initial
    {
      keys := new bool[NumScancodes](_ => false);
      keysPressed := new bool[NumScancodes](_ => false);
      keysReleased := new bool[NumScancodes](_ => false);
      mouseButtons := new bool[MouseSlots](_ => false);
      mouseButtonsPressed := new bool[MouseSlots](_ => false);
      mouseButtonsReleased := new bool[MouseSlots](_ => false);
      mouseX, mouseY, mouseDeltaX, mouseDeltaY := 0, 0, 0, 0;
    }

    /** Clears every pressed and released flag and zeroes the deltas. */
    method Update()
      requires Valid()
      modifies this, keysPressed, keysReleased, mouseButtonsPressed, mouseButtonsReleased
      ensures Snapshot() == FrameSpec(old(Snapshot()))
    {
      var i := 0;
      while i < NumScancodes
        invariant 0 <= i <= NumScancodes
        invariant forall j :: 0 <= j < i ==> !keysPressed[j] && !keysReleased[j]
        modifies keysPressed, keysReleased
      {
        keysPressed[i] := false;
        keysReleased[i] := false;
        i := i + 1;
      }
      i := 0;
      while i < MouseSlots
        invariant 0 <= i <= MouseSlots
        invariant forall j :: 0 <= j < i ==> !mouseButtonsPressed[j] && !mouseButtonsReleased[j]
        modifies mouseButtonsPressed, mouseButtonsReleased
      {
        mouseButtonsPressed[i] := false;
        mouseButtonsReleased[i] := false;
        i := i + 1;
      }
      mouseDeltaX := 0;
      mouseDeltaY := 0;
      assert keysPressed[..] == AllFalse(NumScancodes) && keysReleased[..] == AllFalse(NumScancodes);
      assert mouseButtonsPressed[..] == AllFalse(MouseSlots) && mouseButtonsReleased[..] == AllFalse(MouseSlots);
    }

    /** Applies one event to the tables and counters. */
    method ProcessEvent(e: Event)
      requires Valid() && ValidEvent(e)
      modifies this, keys, keysPressed, keysReleased, mouseButtons, mouseButtonsPressed, mouseButtonsReleased
      ensures Snapshot() == EventSpec(old(Snapshot()), e)
    {
      match e {
        case KeyDown(k) =>
          if !keys[k] {
            keys[k] := true;
            keysPressed[k] := true;
          }
        case KeyUp(k) =>
          keys[k] := false;
          keysReleased[k] := true;
        case MouseMotion(x, y, xrel, yrel) =>
          mouseX := x;
          mouseY := y;
          mouseDeltaX := mouseDeltaX + xrel;
          mouseDeltaY := mouseDeltaY + yrel;
        case MouseButtonDown(b) =>
          if b <= MaxTrackedButton {
            var index := b - 1;
            if !mouseButtons[index] {
              mouseButtons[index] := true;
              mouseButtonsPressed[index] := true;
            }
          }
        case MouseButtonUp(b) =>
          if b <= MaxTrackedButton {
            var index := b - 1;
            mouseButtons[index] := false;
            mouseButtonsReleased[index] := true;
          }
        case OtherEvent =>
      }
    }

    predicate IsKeyDown(k: int)
      requires 0 <= k < keys.Length
      reads keys
    {
      keys[k]
    }

    predicate IsKeyPressed(k: int)
      requires 0 <= k < keysPressed.Length
      reads keysPressed
    {
      keysPressed[k]
    }

    predicate IsKeyReleased(k: int)
      requires 0 <= k < keysReleased.Length
      reads keysReleased
    {
      keysReleased[k]
    }
  }

  // ---------------------------------------------------------------------------
  // Properties

  /** A frame start keeps the held tables and the absolute mouse position, and leaves no
      edge flag set and no motion. */
  lemma FrameClears(d: InputState)
    ensures var r := FrameSpec(d);
            && r.keys == d.keys && r.buttons == d.buttons
            && r.mouseX == d.mouseX && r.mouseY == d.mouseY
            && r.deltaX == 0 && r.deltaY == 0
            && |r.keysPressed| == |d.keysPressed| && |r.keysReleased| == |d.keysReleased|
            && (forall k :: 0 <= k < |r.keysPressed| ==> !r.keysPressed[k])
            && (forall k :: 0 <= k < |r.keysReleased| ==> !r.keysReleased[k])
            && (forall b :: 0 <= b < |r.buttonsPressed| ==> !r.buttonsPressed[b])
            && (forall b :: 0 <= b < |r.buttonsReleased| ==> !r.buttonsReleased[b])
  {
  }

  /** A key-down on an up key holds it and marks it pressed; on a held key it does nothing,
      so auto-repeat never marks a key pressed a second time. */
  lemma KeyDownEdge(d: InputState, k: int)
    requires WellSized(d) && 0 <= k < NumScancodes
    ensures var r := EventSpec(d, KeyDown(k));
            && r.keys[k] && r.keysReleased == d.keysReleased
            && (!d.keys[k] ==> r.keysPressed[k])
            && (d.keys[k] ==> r == d)
  {
  }

  /** Repeating a key-down is the same as one key-down. */
  lemma KeyDownIdempotent(d: InputState, k: int)
    requires WellSized(d) && 0 <= k < NumScancodes
    ensures EventSpec(EventSpec(d, KeyDown(k)), KeyDown(k)) == EventSpec(d, KeyDown(k))
  {
  }

  /** A key-up always lets the key go and marks it released, held or not. */
  lemma KeyUpReleases(d: InputState, k: int)
    requires WellSized(d) && 0 <= k < NumScancodes
    ensures var r := EventSpec(d, KeyUp(k));
            && !r.keys[k] && r.keysReleased[k] && r.keysPressed == d.keysPressed
  {
  }

  /** Buttons 1 to 3 follow the key rules on slots 0 to 2; higher buttons are ignored. */
  lemma MouseButtonSlots(d: InputState, b: int)
    requires WellSized(d) && 1 <= b < 256
    ensures b > MaxTrackedButton ==> EventSpec(d, MouseButtonDown(b)) == d && EventSpec(d, MouseButtonUp(b)) == d
    ensures b <= MaxTrackedButton ==>
              && EventSpec(d, MouseButtonDown(b)).buttons[b - 1]
              && (!d.buttons[b - 1] ==> EventSpec(d, MouseButtonDown(b)).buttonsPressed[b - 1])
              && (d.buttons[b - 1] ==> EventSpec(d, MouseButtonDown(b)) == d)
              && !EventSpec(d, MouseButtonUp(b)).buttons[b - 1]
              && EventSpec(d, MouseButtonUp(b)).buttonsReleased[b - 1]
  {
  }

  /** Which key slot an event may touch, or -1 for none. */
  function KeySlot(e: Event): int {
    match e
    case KeyDown(k) => k
    case KeyUp(k) => k
    case _ => -1
  }

  /** Which mouse-button slot an event may touch, or -1 for none. */
  function ButtonSlot(e: Event): int {
    match e
    case MouseButtonDown(b) => if b <= MaxTrackedButton then b - 1 else -1
    case MouseButtonUp(b) => if b <= MaxTrackedButton then b - 1 else -1
    case _ => -1
  }

  /** An event changes the tables only at its own key or button slot. Only a motion event
      touches the mouse fields: it sets the absolute position to the event's and adds its
      relative move to the deltas. */
  lemma EventIsLocal(d: InputState, e: Event)
    requires WellSized(d) && ValidEvent(e)
    ensures var r := EventSpec(d, e);
            && (forall k :: 0 <= k < NumScancodes && k != KeySlot(e) ==>
                  r.keys[k] == d.keys[k] && r.keysPressed[k] == d.keysPressed[k]
                  && r.keysReleased[k] == d.keysReleased[k])
            && (forall b :: 0 <= b < MouseSlots && b != ButtonSlot(e) ==>
                  r.buttons[b] == d.buttons[b] && r.buttonsPressed[b] == d.buttonsPressed[b]
                  && r.buttonsReleased[b] == d.buttonsReleased[b])
    ensures var r := EventSpec(d, e);
            && (e.MouseMotion? ==>
                  && r.mouseX == e.x && r.mouseY == e.y
                  && r.deltaX == d.deltaX + e.xrel && r.deltaY == d.deltaY + e.yrel
                  && r.keys == d.keys && r.buttons == d.buttons)
            && (!e.MouseMotion? ==>
                  r.mouseX == d.mouseX && r.mouseY == d.mouseY
                  && r.deltaX == d.deltaX && r.deltaY == d.deltaY)
  {
  }

  function SumXrel(es: seq<Event>): int
    decreases |es|
  {
    if es == [] then 0
    else (if es[0].MouseMotion? then es[0].xrel else 0) + SumXrel(es[1..])
  }

  function SumYrel(es: seq<Event>): int
    decreases |es|
  {
    if es == [] then 0
    else (if es[0].MouseMotion? then es[0].yrel else 0) + SumYrel(es[1..])
  }

  /** The deltas grow by the relative motion of every motion event. */
  lemma {:induction false} DeltasAccumulate(d: InputState, es: seq<Event>)
    requires WellSized(d) && forall i :: 0 <= i < |es| ==> ValidEvent(es[i])
    ensures EventsSpec(d, es).deltaX == d.deltaX + SumXrel(es)
    ensures EventsSpec(d, es).deltaY == d.deltaY + SumYrel(es)
    decreases |es|
  {
    if es != [] {
      DeltasAccumulate(EventSpec(d, es[0]), es[1..]);
    }
  }

  /** Within a frame, the deltas are the summed relative motion since the frame began. */
  lemma DeltasSinceFrame(d: InputState, es: seq<Event>)
    requires WellSized(d) && forall i :: 0 <= i < |es| ==> ValidEvent(es[i])
    ensures EventsSpec(FrameSpec(d), es).deltaX == SumXrel(es)
    ensures EventsSpec(FrameSpec(d), es).deltaY == SumYrel(es)
  {
    DeltasAccumulate(FrameSpec(d), es);
  }

  /** A key held and not yet pressed this frame stays held and unpressed while no key-up for
      it arrives, whatever else happens: holding a key never re-triggers it. */
  lemma {:induction false} HeldNeverRetriggers(d: InputState, es: seq<Event>, k: int)
    requires WellSized(d) && forall i :: 0 <= i < |es| ==> ValidEvent(es[i])
    requires 0 <= k < NumScancodes && d.keys[k] && !d.keysPressed[k]
    requires forall i :: 0 <= i < |es| ==> es[i] != KeyUp(k)
    ensures EventsSpec(d, es).keys[k] && !EventsSpec(d, es).keysPressed[k]
    decreases |es|
  {
    if es != [] {
      var next := EventSpec(d, es[0]);
      EventIsLocal(d, es[0]);
      assert next.keys[k] && !next.keysPressed[k];
      HeldNeverRetriggers(next, es[1..], k);
    }
  }

  /** A key marked pressed at the end of a frame got a key-down during it. */
  lemma {:induction false} PressedNeedsKeyDown(d: InputState, es: seq<Event>, k: int)
    requires WellSized(d) && forall i :: 0 <= i < |es| ==> ValidEvent(es[i])
    requires 0 <= k < NumScancodes && !d.keysPressed[k]
    requires EventsSpec(d, es).keysPressed[k]
    ensures KeyDown(k) in es
    decreases |es|
  {
    if es != [] && es[0] != KeyDown(k) {
      var next := EventSpec(d, es[0]);
      EventIsLocal(d, es[0]);
      PressedNeedsKeyDown(next, es[1..], k);
      assert es == [es[0]] + es[1..];
    }
  }
}
