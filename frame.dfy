/** The input work of one frame: the draw handler first runs the tick and
    then samples the cursor, so the edges raised by the events delivered
    since the previous frame are promoted before anything queries them, and
    the delta is computed once per frame. */
module Frame {
  import EdgeFlags
  import Cursor
  import Input

  /** The start of the draw handler: update(), then updateMouseMove with the
      cursor position the window reports (already converted to integers). */
  method DrawEventInput(input: Input.InputState, cursor: Cursor.Vec2)
    requires input.Valid()
    modifies input.Repr(), input`clearGroupDown, input`clearGroupUp,
             input`clearGroupMouseButtonDown, input`clearGroupMouseButtonUp,
             input`lastPosition, input`mousePosition, input`mouseDelta
    ensures input.Valid()
    ensures input.Keys() == EdgeFlags.Update(old(input.Keys()))
    ensures input.Buttons() == EdgeFlags.Update(old(input.Buttons()))
    ensures input.Pointer() == Cursor.Move(old(input.Pointer()), cursor)
  {
    input.Update();
    input.UpdateMouseMove(cursor);
  }
}
