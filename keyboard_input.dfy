/** The keyboard-only revision of the input tracker: the same Down, Hold
    and Up flags and clear groups, for keyboard keys alone, with no mouse
    state.  Every method is proved to act on the key bank exactly as the
    functions of module EdgeFlags say, so every property proved there holds
    for this revision too. */
module KeyboardInput {
  import EdgeFlags
  import FlagArrays

  /** Number of key ids the arrays are sized for. */
  const KeyCount := 350

  class KeyboardState {
    const keyDown: array<bool>
    const keyHold: array<bool>
    const keyUp: array<bool>
    var clearGroupDown: seq<int>
    var clearGroupUp: seq<int>

    /** The three flag arrays. */
    ghost function Repr(): set<object>
    {
      {keyDown, keyHold, keyUp}
    }

    /** The flags and clear groups as one bank. */
    ghost function Keys(): EdgeFlags.Bank
      reads this, keyDown, keyHold, keyUp
    {
      EdgeFlags.Bank(keyDown[..], keyHold[..], keyUp[..], clearGroupDown, clearGroupUp)
    }

    /** The arrays have the fixed size and are three different arrays, the
        clear groups name valid keys, and no key has Down and Up raised
        together. */
    ghost predicate Valid()
      reads this, Repr()
    {
      keyDown.Length == KeyCount &&
      !(keyDown == keyHold || keyDown == keyUp || keyHold == keyUp) &&
      EdgeFlags.WellFormed(Keys()) && EdgeFlags.Exclusive(Keys())
    }

    /** Static initialisation of the globals: every flag false and both
        clear groups empty. */
    constructor ()
      ensures Valid() && fresh(Repr())
      ensures Keys() == EdgeFlags.Blank(KeyCount)
    {
      keyDown := new bool[KeyCount](_ => false);
      keyHold := new bool[KeyCount](_ => false);
      keyUp := new bool[KeyCount](_ => false);
      clearGroupDown, clearGroupUp := [], [];
      new;
      assert keyDown[..] == EdgeFlags.AllFalse(KeyCount);
      assert keyHold[..] == EdgeFlags.AllFalse(KeyCount);
      assert keyUp[..] == EdgeFlags.AllFalse(KeyCount);
    }

    /** init(): lowers every flag; the clear groups are not touched. */
    method Init()
      requires Valid()
      modifies Repr()
      ensures Valid()
      ensures Keys() == EdgeFlags.Init(old(Keys()))
    {
      for i := 0 to KeyCount
        invariant forall x :: 0 <= x < i ==> !keyDown[x] && !keyHold[x] && !keyUp[x]
        modifies keyDown, keyHold, keyUp
      {
        keyDown[i] := false;
        keyHold[i] := false;
        keyUp[i] := false;
      }
      assert keyDown[..] == EdgeFlags.AllFalse(KeyCount);
      assert keyHold[..] == EdgeFlags.AllFalse(KeyCount);
      assert keyUp[..] == EdgeFlags.AllFalse(KeyCount);
    }

    /** Key-press callback. */
    method UpdateDown(key: int)
      requires Valid() && 0 <= key < KeyCount
      modifies keyDown, keyUp
      ensures Valid()
      ensures Keys() == EdgeFlags.UpdateDown(old(Keys()), key)
    {
      if keyHold[key] {
        return;
      }
      keyDown[key] := true;
      keyUp[key] := false;
    }

    /** Key-release callback. */
    method UpdateUp(key: int)
      requires Valid() && 0 <= key < KeyCount
      modifies keyDown, keyUp
      ensures Valid()
      ensures Keys() == EdgeFlags.UpdateUp(old(Keys()), key)
    {
      keyDown[key] := false;
      keyUp[key] := true;
    }

    /** update(): lowers the edges the previous tick scheduled, empties the
        groups, then scans the keys in ascending order promoting raised
        edges and scheduling them for the next tick. */
    method Update()
      requires Valid()
      modifies Repr(), this`clearGroupDown, this`clearGroupUp
      ensures Valid()
      ensures Keys() == EdgeFlags.Update(old(Keys()))
    {
      FlagArrays.LowerScheduled(keyDown, clearGroupDown);
      FlagArrays.LowerScheduled(keyUp, clearGroupUp);
      clearGroupDown, clearGroupUp := [], [];
      ghost var lowered := Keys();
      assert lowered == EdgeFlags.LowerScheduled(old(Keys()));
      for i := 0 to KeyCount
        invariant Keys() == EdgeFlags.ScanTo(lowered, i)
      {
        clearGroupDown, clearGroupUp := FlagArrays.PromoteId(keyDown, keyHold, keyUp, i, clearGroupDown, clearGroupUp);
      }
      EdgeFlags.ScanIsPromote(lowered);
    }

    /** GetKeyDown: the key's Down edge. */
    function GetKeyDown(key: int): (r: bool)
      reads this, Repr()
      requires Valid() && 0 <= key < KeyCount
      ensures r == Keys().down[key]
    {
      keyDown[key]
    }

    /** GetKey: the key is pressed while its Down edge or its Hold is raised. */
    function GetKey(key: int): (r: bool)
      reads this, Repr()
      requires Valid() && 0 <= key < KeyCount
      ensures r == EdgeFlags.IsPressed(Keys(), key)
      ensures r <==> Keys().down[key] || Keys().hold[key]
    {
      keyDown[key] || keyHold[key]
    }

    /** GetKeyUp: the key's Up edge. */
    function GetKeyUp(key: int): (r: bool)
      reads this, Repr()
      requires Valid() && 0 <= key < KeyCount
      ensures r == Keys().up[key]
    {
      keyUp[key]
    }
  }
}
