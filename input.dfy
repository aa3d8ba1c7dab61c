/** The input tracker: per-key and per-mouse-button edge flags, the clear
    groups that lower the edges one tick later, and the cursor position and
    delta.  In the program these are namespace-level globals; here they are
    the fields of one InputState object, whose methods are the callbacks
    and the tick, and whose functions are the queries.  Every method is
    proved to act on the key bank and the button bank exactly as the
    functions of module EdgeFlags say. */
module Input {
  import EdgeFlags
  import Cursor
  import FlagArrays

  /** Number of key ids the key arrays are sized for. */
  const KeyCount := 350

  /** Number of mouse button ids the button arrays are sized for. */
  const ButtonCount := 3

  class InputState {
    const keyDown: array<bool>
    const keyHold: array<bool>
    const keyUp: array<bool>
    const mouseButtonDown: array<bool>
    const mouseButtonHold: array<bool>
    const mouseButtonUp: array<bool>
    var clearGroupDown: seq<int>
    var clearGroupUp: seq<int>
    var clearGroupMouseButtonDown: seq<int>
    var clearGroupMouseButtonUp: seq<int>
    var lastPosition: Cursor.Vec2
    var mouseDelta: Cursor.Vec2
    var mousePosition: Cursor.Vec2

    /** The six flag arrays. */
    ghost function Repr(): set<object>
    {
      {keyDown, keyHold, keyUp, mouseButtonDown, mouseButtonHold, mouseButtonUp}
    }

    /** The key flags and key clear groups as one bank. */
    ghost function Keys(): EdgeFlags.Bank
      reads this, keyDown, keyHold, keyUp
    {
      EdgeFlags.Bank(keyDown[..], keyHold[..], keyUp[..], clearGroupDown, clearGroupUp)
    }

    /** The mouse button flags and button clear groups as one bank. */
    ghost function Buttons(): EdgeFlags.Bank
      reads this, mouseButtonDown, mouseButtonHold, mouseButtonUp
    {
      EdgeFlags.Bank(mouseButtonDown[..], mouseButtonHold[..], mouseButtonUp[..],
                     clearGroupMouseButtonDown, clearGroupMouseButtonUp)
    }

    /** The cursor fields. */
    ghost function Pointer(): Cursor.Pointer
      reads this
    {
      Cursor.Pointer(lastPosition, mousePosition, mouseDelta)
    }

    /** The arrays have their fixed sizes and no two of them are the same
        array, the clear groups name valid ids, and no id has Down and Up
        raised together. */
    ghost predicate Valid()
      reads this, Repr()
    {
      keyDown.Length == KeyCount && mouseButtonDown.Length == ButtonCount &&
      !(keyDown == keyHold || keyDown == keyUp || keyHold == keyUp) &&
      !(mouseButtonDown == mouseButtonHold || mouseButtonDown == mouseButtonUp ||
        mouseButtonHold == mouseButtonUp) &&
      EdgeFlags.WellFormed(Keys()) && EdgeFlags.Exclusive(Keys()) &&
      EdgeFlags.WellFormed(Buttons()) && EdgeFlags.Exclusive(Buttons())
    }

    /** Static initialisation of the globals: every flag false, the clear
        groups empty, the last position at the sentinel and the position
        and delta zero. */
    constructor ()
      ensures Valid() && fresh(Repr())
      ensures Keys() == EdgeFlags.Blank(KeyCount) && Buttons() == EdgeFlags.Blank(ButtonCount)
      ensures Pointer() == Cursor.Start
    {
      keyDown := new bool[KeyCount](_ => false);
      keyHold := new bool[KeyCount](_ => false);
      keyUp := new bool[KeyCount](_ => false);
      mouseButtonDown := new bool[ButtonCount](_ => false);
      mouseButtonHold := new bool[ButtonCount](_ => false);
      mouseButtonUp := new bool[ButtonCount](_ => false);
      clearGroupDown, clearGroupUp := [], [];
      clearGroupMouseButtonDown, clearGroupMouseButtonUp := [], [];
      lastPosition, mouseDelta, mousePosition := Cursor.Sentinel, Cursor.Zero, Cursor.Zero;
      new;
      assert keyDown[..] == EdgeFlags.AllFalse(KeyCount);
      assert keyHold[..] == EdgeFlags.AllFalse(KeyCount);
      assert keyUp[..] == EdgeFlags.AllFalse(KeyCount);
      assert mouseButtonDown[..] == EdgeFlags.AllFalse(ButtonCount);
      assert mouseButtonHold[..] == EdgeFlags.AllFalse(ButtonCount);
      assert mouseButtonUp[..] == EdgeFlags.AllFalse(ButtonCount);
    }

    /** init(): lowers every key and button flag.  The clear groups and the
        cursor fields are not touched. */
    method Init()
      requires Valid()
      modifies Repr()
      ensures Valid()
      ensures Keys() == EdgeFlags.Init(old(Keys())) && Buttons() == EdgeFlags.Init(old(Buttons()))
      ensures Pointer() == old(Pointer())
    {
      for i := 0 to KeyCount
        invariant forall x :: 0 <= x < i ==> !keyDown[x] && !keyHold[x] && !keyUp[x]
        modifies keyDown, keyHold, keyUp
      {
        keyDown[i] := false;
        keyHold[i] := false;
        keyUp[i] := false;
      }
      for i := 0 to ButtonCount
        invariant forall x :: 0 <= x < i ==>
          !mouseButtonDown[x] && !mouseButtonHold[x] && !mouseButtonUp[x]
        modifies mouseButtonDown, mouseButtonHold, mouseButtonUp
      {
        mouseButtonDown[i] := false;
        mouseButtonHold[i] := false;
        mouseButtonUp[i] := false;
      }
      assert keyDown[..] == EdgeFlags.AllFalse(KeyCount);
      assert keyHold[..] == EdgeFlags.AllFalse(KeyCount);
      assert keyUp[..] == EdgeFlags.AllFalse(KeyCount);
      assert mouseButtonDown[..] == EdgeFlags.AllFalse(ButtonCount);
      assert mouseButtonHold[..] == EdgeFlags.AllFalse(ButtonCount);
      assert mouseButtonUp[..] == EdgeFlags.AllFalse(ButtonCount);
    }

    /** Key-press callback. */
    method UpdateDown(key: int)
      requires Valid() && 0 <= key < KeyCount
      modifies keyDown, keyUp
      ensures Valid()
      ensures Keys() == EdgeFlags.UpdateDown(old(Keys()), key)
    {
      if keyHold[key] {
        return;
      }
      keyDown[key] := true;
      keyUp[key] := false;
    }

    /** Mouse-button-press callback. */
    method UpdateMouseButtonDown(button: int)
      requires Valid() && 0 <= button < ButtonCount
      modifies mouseButtonDown, mouseButtonUp
      ensures Valid()
      ensures Buttons() == EdgeFlags.UpdateDown(old(Buttons()), button)
    {
      if mouseButtonHold[button] {
        return;
      }
      mouseButtonDown[button] := true;
      mouseButtonUp[button] := false;
    }

    /** Key-release callback. */
    method UpdateUp(key: int)
      requires Valid() && 0 <= key < KeyCount
      modifies keyDown, keyUp
      ensures Valid()
      ensures Keys() == EdgeFlags.UpdateUp(old(Keys()), key)
    {
      keyDown[key] := false;
      keyUp[key] := true;
    }

    /** Mouse-button-release callback. */
    method UpdateMouseButtonUp(button: int)
      requires Valid() && 0 <= button < ButtonCount
      modifies mouseButtonDown, mouseButtonUp
      ensures Valid()
      ensures Buttons() == EdgeFlags.UpdateUp(old(Buttons()), button)
    {
      mouseButtonDown[button] := false;
      mouseButtonUp[button] := true;
    }

    /** Cursor sample, taken once per frame. */
    method UpdateMouseMove(position: Cursor.Vec2)
      requires Valid()
      modifies this`lastPosition, this`mousePosition, this`mouseDelta
      ensures Valid()
      ensures Pointer() == Cursor.Move(old(Pointer()), position)
    {
      if lastPosition == Cursor.Sentinel {
        lastPosition := position;
      }
      mousePosition := position;
      mouseDelta := Cursor.Sub(mousePosition, lastPosition);
      lastPosition := mousePosition;
    }

    /** update(): the per-frame tick over both banks.  Phase one lowers the
        edges scheduled by the previous tick and empties the groups; phase
        two is one ascending scan over the key ids that also handles the
        button ids below ButtonCount. */
    method Update()
      requires Valid()
      modifies Repr(), this`clearGroupDown, this`clearGroupUp,
               this`clearGroupMouseButtonDown, this`clearGroupMouseButtonUp
      ensures Valid()
      ensures Keys() == EdgeFlags.Update(old(Keys())) && Buttons() == EdgeFlags.Update(old(Buttons()))
      ensures Pointer() == old(Pointer())
    {
      LowerEdges();
      Promote();
    }

    /** Phase one of update(): lowers the edges scheduled by the previous
        tick and empties the four groups. */
    method LowerEdges()
      requires Valid()
      modifies Repr(), this`clearGroupDown, this`clearGroupUp,
               this`clearGroupMouseButtonDown, this`clearGroupMouseButtonUp
      ensures Valid()
      ensures Keys() == EdgeFlags.LowerScheduled(old(Keys()))
      ensures Buttons() == EdgeFlags.LowerScheduled(old(Buttons()))
      ensures Pointer() == old(Pointer())
    {
      FlagArrays.LowerScheduled(keyDown, clearGroupDown);
      FlagArrays.LowerScheduled(keyUp, clearGroupUp);
      FlagArrays.LowerScheduled(mouseButtonDown, clearGroupMouseButtonDown);
      FlagArrays.LowerScheduled(mouseButtonUp, clearGroupMouseButtonUp);
      clearGroupDown, clearGroupUp := [], [];
      clearGroupMouseButtonDown, clearGroupMouseButtonUp := [], [];
    }

    /** Phase two of update(): one ascending scan over the key ids that
        also handles the button ids below ButtonCount, promoting raised
        edges and pushing their ids onto the emptied groups. */
    method Promote()
      requires Valid()
      requires clearGroupDown == [] && clearGroupUp == []
      requires clearGroupMouseButtonDown == [] && clearGroupMouseButtonUp == []
      modifies keyHold, mouseButtonHold, this`clearGroupDown, this`clearGroupUp,
               this`clearGroupMouseButtonDown, this`clearGroupMouseButtonUp
      ensures Valid()
      ensures Keys() == EdgeFlags.Promote(old(Keys())) && Buttons() == EdgeFlags.Promote(old(Buttons()))
    {
      ghost var keys, buttons := Keys(), Buttons();
      for i := 0 to KeyCount
        invariant Keys() == EdgeFlags.ScanTo(keys, i)
        invariant Buttons() == EdgeFlags.ScanTo(buttons, Min(i, ButtonCount))
      {
        clearGroupDown, clearGroupUp := FlagArrays.PromoteId(keyDown, keyHold, keyUp, i, clearGroupDown, clearGroupUp);
        if i < ButtonCount {
          clearGroupMouseButtonDown, clearGroupMouseButtonUp := FlagArrays.PromoteId(
            mouseButtonDown, mouseButtonHold, mouseButtonUp, i,
            clearGroupMouseButtonDown, clearGroupMouseButtonUp);
        }
      }
      EdgeFlags.ScanIsPromote(keys);
      EdgeFlags.ScanIsPromote(buttons);
    }

    /** GetKeyDown: the key's Down edge. */
    function GetKeyDown(key: int): (r: bool)
      reads this, Repr()
      requires Valid() && 0 <= key < KeyCount
      ensures r == Keys().down[key]
    {
      keyDown[key]
    }

    /** GetKey: the key is pressed while its Down edge or its Hold is raised. */
    function GetKey(key: int): (r: bool)
      reads this, Repr()
      requires Valid() && 0 <= key < KeyCount
      ensures r == EdgeFlags.IsPressed(Keys(), key)
      ensures r <==> Keys().down[key] || Keys().hold[key]
    {
      keyDown[key] || keyHold[key]
    }

    /** GetKeyUp: the key's Up edge. */
    function GetKeyUp(key: int): (r: bool)
      reads this, Repr()
      requires Valid() && 0 <= key < KeyCount
      ensures r == Keys().up[key]
    {
      keyUp[key]
    }

    /** GetMouseButtonDown: the button's Down edge. */
    function GetMouseButtonDown(button: int): (r: bool)
      reads this, Repr()
      requires Valid() && 0 <= button < ButtonCount
      ensures r == Buttons().down[button]
    {
      mouseButtonDown[button]
    }

    /** GetMouseButton: unlike GetKey, only the button's Hold flag, so a
        press is seen only once a tick has run after it (see
        EdgeFlags.HoldLagsDownUntilTick). */
    function GetMouseButton(button: int): (r: bool)
      reads this, Repr()
      requires Valid() && 0 <= button < ButtonCount
      ensures r == Buttons().hold[button]
    {
      mouseButtonHold[button]
    }

    /** GetMouseButtonUp: the button's Up edge. */
    function GetMouseButtonUp(button: int): (r: bool)
      reads this, Repr()
      requires Valid() && 0 <= button < ButtonCount
      ensures r == Buttons().up[button]
    {
      mouseButtonUp[button]
    }

    /** GetMouseDelta: the delta computed by the last cursor sample. */
    function GetMouseDelta(): (r: Cursor.Vec2)
      reads this
      ensures r == Pointer().delta
    {
      mouseDelta
    }
  }

  function Min(a: int, b: int): int { if a < b then a else b }
}
