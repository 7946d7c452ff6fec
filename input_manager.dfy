/** Keyboard, mouse and gamepad state for scripts. Browser events become method calls; a key is
    "pressed" or "released" for the frame in which its edge happened, and `Update` ends the
    frame. The name tables that scripts use are pure lookups. */
module Input {
  import opened Options
  import opened Seqs
  import opened Ascii
  import opened Decimal

  /** A key code, mouse button, axis or gamepad button given either by name or by number. */
  datatype Ref = Named(name: string) | Numbered(index: int)

  /** The parts of a browser gamepad that scripts read. */
  datatype Gamepad = Gamepad(axes: seq<real>, buttons: seq<bool>)

  /** The three key sets: held now, went down this frame, went up this frame. */
  datatype Keyboard = Keyboard(down: set<string>, pressed: set<string>, released: set<string>)

  /** `keydown`: the code joins `pressed` only when it was not already held. */
  function KeyDown(k: Keyboard, code: string): (r: Keyboard)
    ensures code in r.down && r.released == k.released
    ensures code in r.pressed <==> code in k.pressed || code !in k.down
    ensures forall c :: c != code ==> (c in r.down <==> c in k.down) && (c in r.pressed <==> c in k.pressed)
  {
    Keyboard(k.down + {code}, if code !in k.down then k.pressed + {code} else k.pressed, k.released)
  }

  /** `keyup`: the code leaves `down` and joins `released`. */
  function KeyUp(k: Keyboard, code: string): (r: Keyboard)
    ensures code !in r.down && code in r.released && r.pressed == k.pressed
    ensures forall c :: c != code ==> (c in r.down <==> c in k.down) && (c in r.released <==> c in k.released)
  {
    Keyboard(k.down - {code}, k.pressed, k.released + {code})
  }

  /** The end of a frame forgets the edges and keeps what is held. */
  function EndFrame(k: Keyboard): (r: Keyboard)
    ensures r.down == k.down && r.pressed == {} && r.released == {}
  {
    Keyboard(k.down, {}, {})
  }

  /** Auto-repeated `keydown` events for a held key change nothing. */
  lemma RepeatIsInert(k: Keyboard, code: string)
    ensures KeyDown(KeyDown(k, code), code) == KeyDown(k, code)
  {
  }

  /** A key that is held across a frame boundary reports pressed in the first frame only, even when
      the browser repeats its `keydown`. */
  lemma PressedForOneFrame(k: Keyboard, code: string)
    requires code !in k.down
    ensures code in KeyDown(k, code).pressed
    ensures code !in KeyDown(EndFrame(KeyDown(k, code)), code).pressed
    ensures code in KeyDown(EndFrame(KeyDown(k, code)), code).down
  {
  }

  /** Releasing a key and pressing it again in the next frame reports both edges. */
  lemma PressAfterRelease(k: Keyboard, code: string)
    ensures var k' := KeyDown(EndFrame(KeyUp(k, code)), code);
      code in k'.pressed && code in k'.down && code !in k'.released
  {
  }

  /** The navigator's gamepad slots with the empty ones removed, in slot order. */
  function Connected(slots: seq<Option<Gamepad>>): (r: seq<Gamepad>)
    ensures |r| <= |slots|
    ensures forall g :: g in r <==> Some(g) in slots
    ensures (forall i :: 0 <= i < |slots| ==> slots[i].Some?) ==> |r| == |slots|
  {
    if slots == [] then []
    else
      assert slots == [slots[0]] + slots[1..];
      (if slots[0].Some? then [slots[0].value] else []) + Connected(slots[1..])
  }

  /** Slot order is kept: the pads of two runs of slots are the first run's pads, then the second's. */
  lemma {:induction false} ConnectedAppend(a: seq<Option<Gamepad>>, b: seq<Option<Gamepad>>)
    ensures Connected(a + b) == Connected(a) + Connected(b)
  {
    if a == [] {
      assert a + b == b;
    } else {
      assert (a + b)[0] == a[0];
      assert (a + b)[1..] == a[1..] + b;
      ConnectedAppend(a[1..], b);
    }
  }

  /** The names a script may use for keys that are neither a letter nor a digit. */
  const KeyAliases: map<string, string> := map[
    "ArrowLeft" := "ArrowLeft", "ArrowRight" := "ArrowRight", "ArrowUp" := "ArrowUp",
    "ArrowDown" := "ArrowDown", "Space" := "Space", "Enter" := "Enter", "Escape" := "Escape",
    "Shift" := "ShiftLeft", "Control" := "ControlLeft", "Alt" := "AltLeft", "Tab" := "Tab",
    "Backspace" := "Backspace"]

  /** A script's key name as a `KeyboardEvent.code`: a single letter becomes `Key` and the letter
      in upper case, a single digit `Digit` and the digit, an alias its code, and anything else
      stays as it is. */
  function NormalizeKey(key: string): (r: string)
    ensures |key| == 1 && IsLetter(key[0]) ==> r == "Key" + [Upper(key[0])]
    ensures |key| == 1 && IsDigit(key[0]) ==> r == "Digit" + key
    ensures !(|key| == 1 && (IsLetter(key[0]) || IsDigit(key[0]))) ==>
      r == if key in KeyAliases then KeyAliases[key] else key
  {
    if |key| == 1 && IsLetter(key[0]) then "Key" + [Upper(key[0])]
    else if |key| == 1 && IsDigit(key[0]) then "Digit" + key
    else if key in KeyAliases && KeyAliases[key] != "" then KeyAliases[key]
    else key
  }

  /** A code is already normal: normalising twice is normalising once. */
  lemma {:induction false} NormalizeKeyIdempotent(key: string)
    ensures NormalizeKey(NormalizeKey(key)) == NormalizeKey(key)
  {
    var r := NormalizeKey(key);
    if |key| == 1 && IsLetter(key[0]) {
      assert |r| == 4 && r !in KeyAliases;
    } else if |key| == 1 && IsDigit(key[0]) {
      assert |r| == 6 && r !in KeyAliases;
    } else if key in KeyAliases {
      assert r in KeyAliases.Values;
      assert |r| > 1 && r in KeyAliases ==> KeyAliases[r] == r;
    }
  }

  /** A letter names the same key in either case. */
  lemma LetterCaseIgnored(c: char)
    requires IsLower(c)
    ensures NormalizeKey([c]) == NormalizeKey([Upper(c)])
  {
  }

  /** Mouse buttons by name. */
  const MouseButtons: map<string, int> := map["left" := 0, "middle" := 1, "right" := 2]

  /** Gamepad axes by name. */
  const GamepadAxes: map<string, int> := map["x" := 0, "y" := 1, "rx" := 2, "ry" := 3]

  /** The standard gamepad buttons, in index order. */
  const ButtonNames: seq<string> := ["a", "b", "x", "y", "lb", "rb", "lt", "rt",
                                     "select", "start", "ls", "rs", "up", "down", "left", "right"]

  /** Gamepad buttons by name. */
  const GamepadButtons: map<string, int> := map[
    "a" := 0, "b" := 1, "x" := 2, "y" := 3, "lb" := 4, "rb" := 5, "lt" := 6, "rt" := 7,
    "select" := 8, "start" := 9, "ls" := 10, "rs" := 11, "up" := 12, "down" := 13,
    "left" := 14, "right" := 15]

  /** A name looked up case-insensitively, with 0 for a name the table lacks. */
  function Lookup(table: map<string, int>, name: string): (r: int)
    ensures LowerCase(name) in table ==> r == table[LowerCase(name)]
    ensures LowerCase(name) !in table ==> r == 0
  {
    var key := LowerCase(name);
    if key in table then table[key] else 0
  }

  /** Lookups ignore the case of the name. */
  lemma LookupIgnoresCase(table: map<string, int>, name: string)
    ensures Lookup(table, UpperCase(name)) == Lookup(table, name)
    ensures Lookup(table, LowerCase(name)) == Lookup(table, name)
  {
    LowerCaseUpper(name);
    LowerCaseIdempotent(name);
  }

  function MouseButtonNumber(name: string): (r: int)
    ensures r in {0, 1, 2}
    ensures LowerCase(name) == "left" ==> r == 0
    ensures LowerCase(name) == "middle" ==> r == 1
    ensures LowerCase(name) == "right" ==> r == 2
    ensures LowerCase(name) !in {"left", "middle", "right"} ==> r == 0
  {
    Lookup(MouseButtons, name)
  }

  function AxisIndex(name: string): (r: int)
    ensures 0 <= r < 4
    ensures LowerCase(name) == "x" ==> r == 0
    ensures LowerCase(name) == "y" ==> r == 1
    ensures LowerCase(name) == "rx" ==> r == 2
    ensures LowerCase(name) == "ry" ==> r == 3
    ensures LowerCase(name) !in {"x", "y", "rx", "ry"} ==> r == 0
  {
    Lookup(GamepadAxes, name)
  }

  function ButtonIndex(name: string): (r: int)
    ensures 0 <= r < 16
    ensures forall i :: 0 <= i < 16 && LowerCase(name) == ButtonNames[i] ==> r == i
    ensures LowerCase(name) !in ButtonNames ==> r == 0
  {
    ButtonTable();
    Lookup(GamepadButtons, name)
  }

  /** The button table is a bijection from the sixteen standard names onto 0..15. */
  lemma ButtonTable()
    ensures Distinct(ButtonNames) && |ButtonNames| == 16
    ensures GamepadButtons.Keys == Elements(ButtonNames)
    ensures forall i :: 0 <= i < 16 ==> GamepadButtons[ButtonNames[i]] == i
    ensures forall a, b :: a in GamepadButtons && b in GamepadButtons && GamepadButtons[a] == GamepadButtons[b] ==> a == b
  {
    forall i | 0 <= i < 16
      ensures ButtonNames[i] in GamepadButtons && GamepadButtons[ButtonNames[i]] == i
    {
    }
    assert Elements(ButtonNames) <= GamepadButtons.Keys;
    forall a | a in GamepadButtons
      ensures a in Elements(ButtonNames) && ButtonNames[GamepadButtons[a]] == a
    {
    }
  }

  /** `axes[index] || 0`: a missing entry reads as 0. */
  function AxisValue(pad: Gamepad, index: int): (r: real)
    ensures 0 <= index < |pad.axes| ==> r == pad.axes[index]
    ensures !(0 <= index < |pad.axes|) ==> r == 0.0
  {
    if 0 <= index < |pad.axes| then pad.axes[index] else 0.0
  }

  /** `buttons[index]?.pressed || false`: a missing button is not pressed. */
  function ButtonValue(pad: Gamepad, index: int): (r: bool)
    ensures r <==> 0 <= index < |pad.buttons| && pad.buttons[index]
  {
    0 <= index < |pad.buttons| && pad.buttons[index]
  }

  class InputManager {
    var keys: set<string>
    var keysPressed: set<string>
    var keysReleased: set<string>
    var mouseButtons: set<int>
    var mouseX: real
    var mouseY: real
    var gamepads: seq<Gamepad>

    /** The key sets as one value. */
    function Keys(): Keyboard
      reads this
    {
      Keyboard(keys, keysPressed, keysReleased)
    }

    constructor ()
      ensures Keys() == Keyboard({}, {}, {}) && mouseButtons == {}
      ensures mouseX == 0.0 && mouseY == 0.0 && gamepads == []
    {
      keys, keysPressed, keysReleased := {}, {}, {};
      mouseButtons := {};
      mouseX, mouseY := 0.0, 0.0;
      gamepads := [];
    }

    method OnKeyDown(code: string)
      modifies this
      ensures Keys() == KeyDown(old(Keys()), code)
      ensures mouseButtons == old(mouseButtons) && mouseX == old(mouseX) && mouseY == old(mouseY)
      ensures gamepads == old(gamepads)
    {
      if code !in keys {
        keysPressed := keysPressed + {code};
      }
      keys := keys + {code};
    }

    method OnKeyUp(code: string)
      modifies this
      ensures Keys() == KeyUp(old(Keys()), code)
      ensures mouseButtons == old(mouseButtons) && mouseX == old(mouseX) && mouseY == old(mouseY)
      ensures gamepads == old(gamepads)
    {
      keys := keys - {code};
      keysReleased := keysReleased + {code};
    }

    method OnMouseDown(button: int)
      modifies this
      ensures mouseButtons == old(mouseButtons) + {button}
      ensures Keys() == old(Keys()) && mouseX == old(mouseX) && mouseY == old(mouseY) && gamepads == old(gamepads)
    {
      mouseButtons := mouseButtons + {button};
    }

    method OnMouseUp(button: int)
      modifies this
      ensures mouseButtons == old(mouseButtons) - {button}
      ensures Keys() == old(Keys()) && mouseX == old(mouseX) && mouseY == old(mouseY) && gamepads == old(gamepads)
    {
      mouseButtons := mouseButtons - {button};
    }

    method OnMouseMove(x: real, y: real)
      modifies this
      ensures mouseX == x && mouseY == y
      ensures Keys() == old(Keys()) && mouseButtons == old(mouseButtons) && gamepads == old(gamepads)
    {
      mouseX, mouseY := x, y;
    }

    /** Ends the frame and takes in the navigator's current gamepad slots. */
    method Update(slots: seq<Option<Gamepad>>)
      modifies this
      ensures Keys() == EndFrame(old(Keys()))
      ensures mouseButtons == old(mouseButtons) && mouseX == old(mouseX) && mouseY == old(mouseY)
      ensures gamepads == Connected(slots)
    {
      keysPressed := {};
      keysReleased := {};
      gamepads := Connected(slots);
    }

    function IsKeyDown(key: string): (r: bool)
      reads this
      ensures r <==> NormalizeKey(key) in keys
    {
      NormalizeKey(key) in keys
    }

    function WasKeyPressed(key: string): (r: bool)
      reads this
      ensures r <==> NormalizeKey(key) in keysPressed
    {
      NormalizeKey(key) in keysPressed
    }

    function WasKeyReleased(key: string): (r: bool)
      reads this
      ensures r <==> NormalizeKey(key) in keysReleased
    {
      NormalizeKey(key) in keysReleased
    }

    function IsMouseDown(button: Ref): (r: bool)
      reads this
      ensures button.Named? ==> (r <==> MouseButtonNumber(button.name) in mouseButtons)
      ensures button.Numbered? ==> (r <==> button.index in mouseButtons)
    {
      var n := if button.Named? then MouseButtonNumber(button.name) else button.index;
      n in mouseButtons
    }

    /** A copy of the pointer position. */
    function MousePosition(): (r: (real, real))
      reads this
      ensures r.0 == mouseX && r.1 == mouseY
    {
      (mouseX, mouseY)
    }

    /** An axis of a connected gamepad, or 0 for a missing pad or axis. */
    function GamepadAxis(index: int, axis: Ref): (r: real)
      reads this
      ensures !(0 <= index < |gamepads|) ==> r == 0.0
      ensures 0 <= index < |gamepads| ==>
        r == AxisValue(gamepads[index], if axis.Named? then AxisIndex(axis.name) else axis.index)
    {
      if index >= |gamepads| || index < 0 then 0.0
      else AxisValue(gamepads[index], if axis.Named? then AxisIndex(axis.name) else axis.index)
    }

    /** Whether a button of a connected gamepad is pressed; a missing pad or button is not. */
    function GamepadButton(index: int, button: Ref): (r: bool)
      reads this
      ensures !(0 <= index < |gamepads|) ==> !r
      ensures 0 <= index < |gamepads| ==>
        (r <==> ButtonValue(gamepads[index], if button.Named? then ButtonIndex(button.name) else button.index))
    {
      if index >= |gamepads| || index < 0 then false
      else ButtonValue(gamepads[index], if button.Named? then ButtonIndex(button.name) else button.index)
    }
  }
}
