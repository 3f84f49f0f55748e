/**
 * Edge-detecting keyboard and mouse state of src/main/kotlin/org/bon26/engine/Input.kt
 * (five mouse buttons: left, middle, right, back, forward). The Swing listener bodies are
 * the event methods below; registering them on a component is not modelled.
 */
module BonInput {

  const BonKeyCount := 256
  const BonButtonCount := 5

  class FiveButtonInput {
    const keysPressed: array<bool>
    const mouseButtons: array<bool>
    const prevKeysPressed: array<bool>
    const prevMouseButtons: array<bool>
    var mouseX: int
    var mouseY: int

    /** The four state arrays have their sizes and are distinct objects. */
    ghost predicate Valid()
      reads this
    {
      && keysPressed.Length == BonKeyCount && prevKeysPressed.Length == BonKeyCount
      && mouseButtons.Length == BonButtonCount && prevMouseButtons.Length == BonButtonCount
      && keysPressed != prevKeysPressed && mouseButtons != prevMouseButtons
    }

    constructor ()
      ensures Valid() && mouseX == 0 && mouseY == 0
      ensures fresh(keysPressed) && fresh(mouseButtons) && fresh(prevKeysPressed) && fresh(prevMouseButtons)
      ensures forall k :: 0 <= k < BonKeyCount ==> !keysPressed[k] && !prevKeysPressed[k]
      ensures forall b :: 0 <= b < BonButtonCount ==> !mouseButtons[b] && !prevMouseButtons[b]
    {
      keysPressed := new bool[BonKeyCount](_ => false);
      mouseButtons := new bool[BonButtonCount](_ => false);
      prevKeysPressed := new bool[BonKeyCount](_ => false);
      prevMouseButtons := new bool[BonButtonCount](_ => false);
      mouseX, mouseY := 0, 0;
    }

    /** `mousePressed`: buttons 1..5 set flags 0..4; any other button code is ignored. */
    method MousePressed(button: int)
      requires Valid()
      modifies mouseButtons
      ensures 1 <= button <= BonButtonCount ==> mouseButtons[..] == old(mouseButtons[..])[button - 1 := true]
      ensures !(1 <= button <= BonButtonCount) ==> mouseButtons[..] == old(mouseButtons[..])
    {
      if 1 <= button <= BonButtonCount {
        mouseButtons[button - 1] := true;
      }
    }

    /** `mouseReleased`: buttons 1..5 clear flags 0..4; any other button code is ignored. */
    method MouseReleased(button: int)
      requires Valid()
      modifies mouseButtons
      ensures 1 <= button <= BonButtonCount ==> mouseButtons[..] == old(mouseButtons[..])[button - 1 := false]
      ensures !(1 <= button <= BonButtonCount) ==> mouseButtons[..] == old(mouseButtons[..])
    {
      if 1 <= button <= BonButtonCount {
        mouseButtons[button - 1] := false;
      }
    }

    /** `mouseMoved`: records the mouse position. */
    method MouseMoved(x: int, y: int)
      modifies this`mouseX, this`mouseY
      ensures mouseX == x && mouseY == y
    {
      mouseX, mouseY := x, y;
    }

    /** `mouseDragged`: records the mouse position, exactly as a move does. */
    method MouseDragged(x: int, y: int)
      modifies this`mouseX, this`mouseY
      ensures mouseX == x && mouseY == y
    {
      mouseX, mouseY := x, y;
    }

    /** `keyPressed`: key codes below 256 set their flag; larger codes change nothing. */
    method KeyPressed(keyCode: nat)
      requires Valid()
      modifies keysPressed
      ensures keyCode < BonKeyCount ==> keysPressed[..] == old(keysPressed[..])[keyCode := true]
      ensures keyCode >= BonKeyCount ==> keysPressed[..] == old(keysPressed[..])
    {
      if keyCode < keysPressed.Length {
        keysPressed[keyCode] := true;
      }
    }

    /** `keyReleased`: key codes below 256 clear their flag; larger codes change nothing. */
    method KeyReleased(keyCode: nat)
      requires Valid()
      modifies keysPressed
      ensures keyCode < BonKeyCount ==> keysPressed[..] == old(keysPressed[..])[keyCode := false]
      ensures keyCode >= BonKeyCount ==> keysPressed[..] == old(keysPressed[..])
    {
      if keyCode < keysPressed.Length {
        keysPressed[keyCode] := false;
      }
    }

    /** `update`: the current states become the previous ones (two `System.arraycopy` calls). */
    method Update()
      requires Valid()
      modifies prevKeysPressed, prevMouseButtons
      ensures prevKeysPressed[..] == keysPressed[..] && prevMouseButtons[..] == mouseButtons[..]
      ensures keysPressed[..] == old(keysPressed[..]) && mouseButtons[..] == old(mouseButtons[..])
      ensures forall k :: 0 <= k ==> !IsKeyJustPressed(k) && !IsKeyJustReleased(k)
      ensures forall b :: !IsMouseButtonJustPressed(b) && !IsMouseButtonJustReleased(b)
    {
      var i := 0;
      while i < keysPressed.Length
        invariant 0 <= i <= BonKeyCount
        invariant forall k :: 0 <= k < i ==> prevKeysPressed[k] == keysPressed[k]
        invariant prevMouseButtons[..] == old(prevMouseButtons[..])
      {
        prevKeysPressed[i] := keysPressed[i];
        i := i + 1;
      }
      i := 0;
      while i < mouseButtons.Length
        invariant 0 <= i <= BonButtonCount
        invariant forall b :: 0 <= b < i ==> prevMouseButtons[b] == mouseButtons[b]
        invariant prevKeysPressed[..] == keysPressed[..]
      {
        prevMouseButtons[i] := mouseButtons[i];
        i := i + 1;
      }
    }

    /** `isKeyPressed`: false for codes of 256 and above. */
    function IsKeyPressed(keyCode: nat): (r: bool)
      requires Valid()
      reads this, keysPressed
      ensures keyCode >= BonKeyCount ==> !r
    {
      keyCode < keysPressed.Length && keysPressed[keyCode]
    }

    /** Whether the key was down at the last `update` (false for codes of 256 and above). */
    predicate WasKeyPressed(keyCode: nat)
      requires Valid()
      reads this, prevKeysPressed
    {
      keyCode < prevKeysPressed.Length && prevKeysPressed[keyCode]
    }

    /** `isKeyJustPressed`: down now and not down at the last `update`. */
    function IsKeyJustPressed(keyCode: nat): (r: bool)
      requires Valid()
      reads this, keysPressed, prevKeysPressed
      ensures r <==> IsKeyPressed(keyCode) && !WasKeyPressed(keyCode)
    {
      keyCode < keysPressed.Length && keysPressed[keyCode] && !prevKeysPressed[keyCode]
    }

    /** `isKeyJustReleased`: up now and down at the last `update`. */
    function IsKeyJustReleased(keyCode: nat): (r: bool)
      requires Valid()
      reads this, keysPressed, prevKeysPressed
      ensures r <==> !IsKeyPressed(keyCode) && WasKeyPressed(keyCode)
    {
      keyCode < keysPressed.Length && !keysPressed[keyCode] && prevKeysPressed[keyCode]
    }

    /** `isMouseButtonPressed`: any index outside 0..4, negative ones included, gives false. */
    function IsMouseButtonPressed(button: int): (r: bool)
      requires Valid()
      reads this, mouseButtons
      ensures !(0 <= button < BonButtonCount) ==> !r
    {
      0 <= button < mouseButtons.Length && mouseButtons[button]
    }

    /** Whether the button was down at the last `update` (false outside 0..4). */
    predicate WasMouseButtonPressed(button: int)
      requires Valid()
      reads this, prevMouseButtons
    {
      0 <= button < prevMouseButtons.Length && prevMouseButtons[button]
    }

    /** `isMouseButtonJustPressed`: down now and not down at the last `update`. */
    function IsMouseButtonJustPressed(button: int): (r: bool)
      requires Valid()
      reads this, mouseButtons, prevMouseButtons
      ensures r <==> IsMouseButtonPressed(button) && !WasMouseButtonPressed(button)
    {
      0 <= button < mouseButtons.Length && mouseButtons[button] && !prevMouseButtons[button]
    }

    /** `isMouseButtonJustReleased`: up now and down at the last `update`. */
    function IsMouseButtonJustReleased(button: int): (r: bool)
      requires Valid()
      reads this, mouseButtons, prevMouseButtons
      ensures r <==> !IsMouseButtonPressed(button) && WasMouseButtonPressed(button)
    {
      0 <= button < mouseButtons.Length && !mouseButtons[button] && prevMouseButtons[button]
    }

    /** A key or button is never reported as just pressed and just released at once. */
    lemma EdgesExclusive(keyCode: nat, button: int)
      requires Valid()
      ensures !(IsKeyJustPressed(keyCode) && IsKeyJustReleased(keyCode))
      ensures !(IsMouseButtonJustPressed(button) && IsMouseButtonJustReleased(button))
    {
    }
  }
}
