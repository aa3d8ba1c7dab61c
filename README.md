# Edge-triggered input tracker and layer stack, in Dafny

This project models two parts of an interactive graphics application template:

- **The input tracker** (`Source/Input/Input.cpp`).
  - For every keyboard key (ids 0..349) and every mouse button (ids 0..2) it keeps a Down flag, a Hold flag and an Up flag.
    - Down means the key was just pressed.
    - Hold means the key stays pressed.
    - Up means the key was just released.
  - For each of keys and buttons it keeps two clear groups: the ids whose Down or Up edge must be lowered at the next tick.
  - It keeps the last cursor position, the current position and the per-frame delta.
  - The window's callbacks raise and lower edges. `update()` is the per-frame tick. The `Get*` queries read the flags.
- **The keyboard-only revision** of the same tracker (`Source/Input/Input.h`).
- **The layer stack** (`Source/Layer/LayerStack.cpp`).
  - It is a vector of layer handles split by an insert index. Regular layers form the prefix and overlays the suffix.
  - It has push and pop operations for each band. Each pop searches only its own band.
  - A successful pop calls the layer's detach hook; only `PushLayer` calls the attach hook.

Structure:

- **Pure specifications.** `EdgeFlags` describes one bank of flags and clear groups, and every tracker operation as a function on a bank. `Cursor` does the same for the cursor fields. `LayerStackModel` describes the stack as a value.
- **Imperative code.** These follow the source's form: fixed-size arrays and clear-group sequences updated in place, and a vector and an index reassigned.
  - `Input.InputState` is the two-bank tracker.
  - `KeyboardInput.KeyboardState` is the keyboard-only revision.
  - `FlagArrays` holds the two loops of a tick, as they run on one array.
  - `Layers.LayerStack` is the layer stack.
  - `Frame.DrawEventInput` is the order of the input calls in the draw handler.
- **How they connect.** Every method is proved to change its object exactly as the matching pure function says. The properties of the tracker and of the stack are proved as lemmas about those functions.

Facts about the code that the model makes explicit:

- `init()` lowers the flags only; the clear groups and the cursor fields keep their values (`EdgeFlags.Init`).
- A callback only sets flags; `update()`'s scan puts ids on the clear groups.
- A Down edge survives the first tick after the press. That tick lowers only what the previous tick scheduled, then schedules the new edge and raises Hold, so Down is still readable after it and the next tick lowers it (`EdgeFlags.DownEdgeLastsOneTick`, `EdgeFlags.PressReleaseCycle`).
- After any tick the clear groups agree with Hold: every id on `clearDown` is held and no id on `clearUp` is. So a press of a key that is not held is never already scheduled, and the Down edge above always gets its tick unless a release lowers it first in the same frame (`EdgeFlags.TickSchedules`). The one exception is an `init()` between two ticks: it lowers Hold but keeps the groups, so a later press of an id still on `clearDown` is lowered at the very next tick and is never seen as held (`EdgeFlags.InitThenPressLosesDown`). `Source/Application/Application.cpp` calls `init()` once, in the application's constructor, before any tick.
- An Up edge survives its first tick in the same way, provided the id is not already on `clearUp` (`EdgeFlags.UpEdgeLastsOneTick`).
- That proviso matters: a key tapped (pressed and released) in the frame right after the tick that handled its previous release is lost. The release's tick put the id on `clearUp` and lowered Hold; the tap raises Up again, and the next tick lowers that Up before its scan reaches the id, so Down, Hold and Up all end up false and no query sees the tap (`EdgeFlags.TapAfterReleaseIsLost`).
- A tap within one frame from rest shows only as a release: the release lowers Down before the tick sees it, so after the tick only Up is raised and GetKey and GetKeyDown never see the tap (`EdgeFlags.TapWithinFrameShowsOnlyUp`).
- GetKey reads Down or Hold, but GetMouseButton reads only Hold, so a button press is not seen until a tick has run (`EdgeFlags.HoldLagsDownUntilTick`).
- The cursor's first-sample test compares the last position with (-1, -1); a real sample at (-1, -1) re-arms it, and the next delta reads zero (`Cursor.SentinelSampleHidesNextDelta`).

## Model

| member | source | states |
|---|---|---|
| EdgeFlags.Blank | Source/Input/Input.cpp:5-18 | static initialisation: every id idle (no flag raised, nothing scheduled), the bank well formed and no id with Down and Up together |
| EdgeFlags.Init | Source/Input/Input.cpp:21-37 | init lowers all three flags of every id and leaves both clear groups unchanged |
| EdgeFlags.UpdateDown | Source/Input/Input.cpp:39-55 | a press of a held id changes nothing; otherwise it raises Down and lowers Up for that id only; Hold and the groups never change; never-both is preserved |
| EdgeFlags.UpdateUp | Source/Input/Input.cpp:57-67 | a release lowers Down and raises Up for that id only, whatever its state; Hold and the groups are untouched; never-both is preserved |
| EdgeFlags.Deliver | Source/Input/Input.cpp:39-67 | any sequence of callbacks between two ticks leaves Hold and both clear groups unchanged and preserves never-both |
| EdgeFlags.ScannedExactly | Source/Input/Input.cpp:108-141 | the ids the ascending scan pushes are exactly the qualifying ids below the bound, in strictly ascending order and in range |
| EdgeFlags.LowerScheduled | Source/Input/Input.cpp:85-104 | phase one of the tick: Hold is unchanged, both groups are empty afterwards, never-both is preserved |
| EdgeFlags.PromoteOne | Source/Input/Input.cpp:110-139 | one id of the scan leaves Down and Up untouched and keeps the bank well formed |
| EdgeFlags.ScanTo | Source/Input/Input.cpp:108-141 | scanning ids 0..n-1 leaves Down and Up untouched and keeps the groups in range |
| EdgeFlags.ScanToHold | Source/Input/Input.cpp:108-141 | after visiting ids 0..n-1 exactly those ids have Hold promoted (Down raises it, else Up lowers it, else kept) and the others are as before |
| EdgeFlags.ScanToGroups | Source/Input/Input.cpp:108-141 | after visiting ids 0..n-1 the groups gained exactly the ids below n with Down raised, and those with Up but not Down raised, in ascending order |
| EdgeFlags.ScanIsPromote | Source/Input/Input.cpp:100-141 | the id-by-id scan over all ids, started from emptied groups, equals the closed form of phase two |
| EdgeFlags.Promote | Source/Input/Input.cpp:108-141 | phase two leaves Down and Up unchanged, keeps the groups in range and preserves never-both |
| EdgeFlags.Update | Source/Input/Input.cpp:83-142 | a tick keeps the bank well formed and preserves never-both |
| EdgeFlags.UpdateMeaning | Source/Input/Input.cpp:83-142 | after a tick, Down (Up) is raised iff it was raised and not scheduled; Hold follows the surviving Down, else the surviving Up, else stays; clearDown holds exactly the ids with Down raised and clearUp exactly those with Up but not Down raised, both ascending |
| EdgeFlags.HeldIgnoresPresses | Source/Input/Input.cpp:39-46 | while an id is held no sequence of callbacks can raise its Down edge (repeats are swallowed) |
| EdgeFlags.DownEdgeLastsOneTick | Source/Input/Input.cpp:83-142 | a fresh Down edge is still raised after the next tick, with Hold raised and the id scheduled; the tick after that lowers it whatever callbacks come between |
| EdgeFlags.UpEdgeLastsOneTick | Source/Input/Input.cpp:83-142 | an Up edge (Down lowered) whose id is not already on clearUp is still raised after the next tick, with Hold lowered and the id scheduled; the tick after that lowers it whatever callbacks come between (an id already on clearUp loses its Up at the next tick, see TapAfterReleaseIsLost) |
| EdgeFlags.TapAfterReleaseIsLost | Source/Input/Input.cpp:83-142 | after a held key's release and tick the id is on clearUp with Hold lowered; a press and release before the next tick then leave Down, Hold and Up all false after that tick, so the tap is never visible |
| EdgeFlags.TickSchedules | Source/Input/Input.cpp:39-142 | after a tick, and any callbacks after it, every id on clearDown is held and every id on clearUp is not; so a press of an unheld id raises Down with the id off clearDown, and a release of a held id raises Up with the id off clearUp |
| EdgeFlags.InitThenPressLosesDown | Source/Input/Input.cpp:21-142 | init keeps the groups, so a press of an id still on clearDown after init raises Down, but the next tick leaves Down, Hold and Up all false |
| EdgeFlags.TapWithinFrameShowsOnlyUp | Source/Input/Input.cpp:39-142 | from idle, a press and a release before a tick leave after the tick only Up raised, Down and Hold false, and GetKey false |
| EdgeFlags.PressReleaseCycle | Source/Input/Input.cpp:39-142 | from idle, press+tick reads as just-down, the next tick as held, release+tick as just-up, and one more tick returns to idle; GetKey is true exactly in the first two |
| EdgeFlags.RepeatedEventsIdempotent | Source/Input/Input.cpp:39-67 | a second identical press or release before the tick changes nothing |
| EdgeFlags.ReleaseThenPressWhileHeld | Source/Input/Input.cpp:39-67 | a release then a press of a held id within one frame leaves only the release, and after the tick GetKey is false |
| EdgeFlags.HoldLagsDownUntilTick | Source/Input/Input.cpp:159-172 | from idle, after a press and before a tick GetKey is true but Hold (all GetMouseButton reads) is false; after the tick Hold is raised |
| Cursor.Move | Source/Input/Input.cpp:69-80 | both positions become the sample; the delta is zero when the last position is the sentinel, and otherwise is what takes the last position to the sample |
| Cursor.SeededDeltasTelescope | Source/Input/Input.cpp:69-80 | once seeded, the deltas of a run of samples add up to the distance from the last position to the final sample |
| Cursor.DeltasTelescope | Source/Input/Input.cpp:69-80 | from the initial state the first delta is zero and the deltas add up to the distance from the first sample to the last, if no earlier sample is (-1, -1) |
| Cursor.SentinelSampleHidesNextDelta | Source/Input/Input.cpp:69-80 | a sample at (-1, -1) re-arms the sentinel: the move after it is reported as a zero delta |
| Input.InputState.constructor | Source/Input/Input.cpp:5-18 | the tracker starts with both banks blank and the cursor at the sentinel with zero position and delta |
| Input.InputState.Init | Source/Input/Input.cpp:21-37 | both banks become EdgeFlags.Init of their old value; the cursor is unchanged |
| Input.InputState.UpdateDown | Source/Input/Input.cpp:39-46 | the key bank becomes EdgeFlags.UpdateDown of its old value |
| Input.InputState.UpdateMouseButtonDown | Source/Input/Input.cpp:48-55 | the button bank becomes EdgeFlags.UpdateDown of its old value |
| Input.InputState.UpdateUp | Source/Input/Input.cpp:57-61 | the key bank becomes EdgeFlags.UpdateUp of its old value |
| Input.InputState.UpdateMouseButtonUp | Source/Input/Input.cpp:63-67 | the button bank becomes EdgeFlags.UpdateUp of its old value |
| Input.InputState.UpdateMouseMove | Source/Input/Input.cpp:69-80 | the cursor fields become Cursor.Move of their old value |
| Input.InputState.Update | Source/Input/Input.cpp:83-142 | both banks become EdgeFlags.Update of their old value and the invariant (never-both, groups in range) is kept |
| Input.InputState.LowerEdges | Source/Input/Input.cpp:85-104 | both banks become EdgeFlags.LowerScheduled of their old value |
| Input.InputState.Promote | Source/Input/Input.cpp:108-141 | the single scan over the 350 key ids, which also handles the buttons below 3, leaves both banks as EdgeFlags.Promote of their old value |
| Input.InputState.GetKeyDown | Source/Input/Input.cpp:144-147 | the key's Down flag, read without side effect |
| Input.InputState.GetKey | Source/Input/Input.cpp:159-162 | true iff Down or Hold is raised |
| Input.InputState.GetKeyUp | Source/Input/Input.cpp:174-177 | the key's Up flag |
| Input.InputState.GetMouseButtonDown | Source/Input/Input.cpp:149-157 | the button's Down flag |
| Input.InputState.GetMouseButton | Source/Input/Input.cpp:164-172 | the button's Hold flag only |
| Input.InputState.GetMouseButtonUp | Source/Input/Input.cpp:179-187 | the button's Up flag |
| Input.InputState.GetMouseDelta | Source/Input/Input.cpp:189-192 | the delta computed by the last cursor sample |
| FlagArrays.LowerScheduled | Source/Input/Input.cpp:85-99 | lowering the flags named by a group leaves the array as EdgeFlags.Cleared of its old contents: lowered exactly at the named ids |
| FlagArrays.PromoteId | Source/Input/Input.cpp:110-139 | one iteration of the scan on one bank's arrays and groups is EdgeFlags.PromoteOne |
| Frame.DrawEventInput | Source/Application/Application.cpp:106-113 | the draw handler ticks both banks, then samples the cursor |
| KeyboardInput.KeyboardState.constructor | Source/Input/Input.h:7-11 | the keyboard tracker starts blank |
| KeyboardInput.KeyboardState.Init | Source/Input/Input.h:14-23 | the key bank becomes EdgeFlags.Init of its old value |
| KeyboardInput.KeyboardState.UpdateDown | Source/Input/Input.h:25-32 | the key bank becomes EdgeFlags.UpdateDown of its old value |
| KeyboardInput.KeyboardState.UpdateUp | Source/Input/Input.h:34-38 | the key bank becomes EdgeFlags.UpdateUp of its old value |
| KeyboardInput.KeyboardState.Update | Source/Input/Input.h:41-75 | the key bank becomes EdgeFlags.Update of its old value, so the groups come out in exact ascending order (EdgeFlags.UpdateMeaning) |
| KeyboardInput.KeyboardState.GetKeyDown | Source/Input/Input.h:77-80 | the key's Down flag |
| KeyboardInput.KeyboardState.GetKey | Source/Input/Input.h:82-85 | true iff Down or Hold is raised |
| KeyboardInput.KeyboardState.GetKeyUp | Source/Input/Input.h:87-90 | the key's Up flag |
| LayerStackModel.Find | Source/Layer/LayerStack.cpp:36-37 | the search returns the first position in the band holding the layer, or the band's end iff the layer is not in the band |
| LayerStackModel.RemoveFirstCount | Source/Layer/LayerStack.cpp:40-51 | erasing the first occurrence removes exactly one copy of a present layer and leaves a sequence without it unchanged |
| LayerStackModel.RemoveFirstIsSplice | Source/Layer/LayerStack.cpp:36-51 | erasing at the position the search finds is erasing the first occurrence; the other layers keep their order |
| LayerStackModel.PushLayer | Source/Layer/LayerStack.cpp:20-27 | the layer joins the end of the regular band, the overlays are unchanged and exactly one attach of that layer is logged |
| LayerStackModel.PushOverlay | Source/Layer/LayerStack.cpp:29-32 | the overlay joins the end of the overlay band, the regular layers are unchanged and no hook is logged |
| LayerStackModel.PopLayer | Source/Layer/LayerStack.cpp:34-43 | a layer in the regular band loses its first occurrence there, the overlays are unchanged and one detach is logged; otherwise (an overlay included) nothing changes |
| LayerStackModel.PopOverlay | Source/Layer/LayerStack.cpp:45-53 | an overlay in the overlay band loses its first occurrence there, the regular layers are unchanged and one detach is logged; otherwise nothing changes |
| LayerStackModel.OverlaysStayOnTop | Source/Layer/LayerStack.cpp:20-32 | pushing layer a, overlay x, layer b gives a, b, x with index 2 and only a and b attached |
| LayerStackModel.PushLayerThenPop | Source/Layer/LayerStack.cpp:20-43 | popping a just-pushed new layer restores the vector and the index; the log gains its attach then its detach |
| LayerStackModel.PushOverlayThenPop | Source/Layer/LayerStack.cpp:29-53 | popping a just-pushed new overlay restores the vector and the index; the log gains a detach with no attach |
| LayerStackModel.PopLayerRemovesFirstCopy | Source/Layer/LayerStack.cpp:34-43 | with a layer present twice, only its first copy is removed |
| Layers.LayerStack.Destroy | Source/Layer/LayerStack.cpp:9-18 | the destructor changes nothing: no detach is logged and no layer is removed |
| Layers.LayerStack.PushLayer | Source/Layer/LayerStack.cpp:20-27 | the stack becomes LayerStackModel.PushLayer of its old value |
| Layers.LayerStack.PushOverlay | Source/Layer/LayerStack.cpp:29-32 | the stack becomes LayerStackModel.PushOverlay of its old value |
| Layers.LayerStack.PopLayer | Source/Layer/LayerStack.cpp:34-43 | the stack becomes LayerStackModel.PopLayer of its old value |
| Layers.LayerStack.PopOverlay | Source/Layer/LayerStack.cpp:45-53 | the stack becomes LayerStackModel.PopOverlay of its old value |
| Layers.FindIn | Source/Layer/LayerStack.cpp:36-47 | the front-to-back linear search computes LayerStackModel.Find |

## Left out

- **Id ranges.** Key and button ids are integers. The source indexes its arrays with the raw enum value, so an id outside 0..349 (keys) or 0..2 (buttons) is undefined behaviour there. Two examples: the unknown key is -1, and extra mouse buttons are numbered 3 and up. The model makes the range a precondition of every callback and query.
- **The duplicate overloads.** Each of GetMouseButtonDown, GetMouseButton and GetMouseButtonUp has an `int` overload and a button-enum overload with the same body. Each pair is one member in the model.
- **Cursor arithmetic.** Positions are unbounded integer pairs. The 32-bit overflow of the cursor subtraction is not modelled.
- **Reading the cursor.** The window system call that reads the cursor is not modelled, nor is the truncating cast of its floating-point coordinates. `Frame.DrawEventInput` takes the already-converted integer position as a parameter.
- **The rest of the application.** The rest of the draw handler (rendering, the GUI) is out of scope. So is the GUI forwarding in the key and mouse handlers of `Source/Application/Application.cpp`, beyond the calls into the tracker. The same goes for the camera-controller layer, the GUI layer, the primitives, the drawables and the EXR image converter plugin.
- **Layer hooks.** `Source/Layer/Layer.h` hooks are empty. Only their calls are recorded, in a log. Layers are opaque handles compared by identity. Their allocation and deletion are not modelled.
- **Layer iteration.** Iteration over the stack and the stack's member declarations are in `Source/Layer/LayerStack.h`, which is not part of this model. No file of the model's sources dispatches hooks through a layer stack. The model's `layers` sequence is the iteration order. `Layers.LayerStack.constructor` starts from an empty vector and index 0: insertion at the index is only in range from such a start.
- **Threads.** Callbacks and ticks run on one thread, in the order the window system delivers them. The model takes that order as given by the caller's sequence of calls.
