# vecx-SDL2 front end: a Dafny model

This project models the front end in `src/main.cpp` of vecx-SDL2, the SDL2 shell around the
vecx Vectrex emulator. The front end has five parts:

- **Scaler.** `resize()` picks an integer downscale factor from the window size and the
  analog bounds of the vector generator. It then sizes the primary and afterglow textures.
- **Compositor and rasterizer.** `render()` is the callback that turns the emulator's
  per-frame vector list into SDL renderer calls. It does a partial clear of the primary
  buffer, draws a 2x2 block per point or a doubled line per vector, copies into the
  afterglow buffer, and composites with the optional overlay.
- **Scheduler.** The run-mode branch of `emuloop()` decides how many cycles a tick runs
  (running, paused, or a queued single step). Its pacing block sleeps until the next
  20 ms deadline.
- **Router.** `readevents()` polls the event queue. It handles the shared key-ups (Escape,
  p, ^, $), main-window events (quit, resize, file drop, controller keys, snapshot keys,
  reset) and returns early on the events that end a poll.
- **Arguments.** `parse_args()` reads the command line.

The globals the source updates in place are the fields of `App.Frontend`:

- the scale factor and texture sizes
- the run mode
- the render settings
- the cart path

Two more fields of the class are not globals of src/main.cpp:

- `nextTime` stands for `next_time`, a local variable of `emuloop()` (src/main.cpp:334).
- `pad` stands for the controller values that `readevents()` writes into the core through
  `vecx_input`.

Its methods are proved against pure specification functions in the other modules. The
SDL renderer is an ordered log of `Raster.Command`s. The emulation core is an ordered log
of `Core.CoreCall`s, plus a map that `vecx_input` writes.

Files: `wrappers.dfy` (Option), `core.dfy` (the core's control surface), `scaler.dfy`,
`raster.dfy`, `scheduler.dfy`, `router.dfy`, `args.dfy`, `loop.dfy` (one tick of
`emuloop()` and the fold over ticks), `frontend.dfy` (the class).

Header constants come from vecx's headers, which are not part of this model:

- `DAC_MAX_X` = 33000
- `DAC_MAX_Y` = 41000
- `VECTREX_COLORS` = 128
- `VECTREX_MHZ` = 1500000

The heartbeat `EMU_TIMER` = 20 ms is defined in src/main.cpp itself, at line 21.

Notes on what the code does:

- **Overrun.** After an overrun the pacing block sets `next_time = now` before adding
  `EMU_TIMER`. So the next deadline is one heartbeat after the current clock reading, not
  one after the previous deadline, so emulated time does not catch up after a slow tick.
  `Scheduler.PaceTick` states the rule.
  `Scheduler.Cadence` proves what survives: at least one heartbeat per tick, and exactly
  one per tick when nothing overruns.
- **Clear alpha.** The primary buffer is cleared with alpha `sharp ? 255 : remanence`,
  narrowed to `Uint8`. Under `SDL_BLENDMODE_BLEND`, alpha 255 erases the previous frame
  completely, so a high remanence value shortens the trail rather than lengthening it.
  The model records the alpha and does not model blending.
- **Point block.** A point's 2x2 block has its corner, not its centre, at the scaled
  coordinate (`Raster.VectorShape`).
- **No clamp.** `resize()` has no clamp on the factor (see Findings). The as-written
  computation is `Scaler.ResizeAsWritten`. The class uses the clamped `Scaler.Resized`
  (see Left out).
- **Debug window.** Events for the debug window are only forwarded to ImGui. Its widgets
  write `paused`, `sharpRender`, `remanence` and `emuSpeed` directly, once per tick,
  between the poll and the pacing block.
- **Stale step.** Unticking Pause in the tick that queued a step leaves the step pending
  while the core runs (`Loop.UnpauseLeavesStepPending`). A ^ or $ key-up while running
  sets the step flag to `paused`, which is false, so it clears that step
  (`Router.StepKeyCancelsStaleStep`). Otherwise the step runs the next time the core is
  paused. A run in which no tick turns Pause from ticked to unticked never leaves a step
  pending while running (`Loop.RunStepWhilePaused`). This covers running with the debug
  window open and nobody clicking.
- **Queued events.** `readevents()` returns on the first shared key-up or quit and leaves
  later events in SDL's queue for the next tick. The model carries that queue from tick
  to tick.

## Model

| member | source | states |
|---|---|---|
| Scaler.RawFactor | src/main.cpp:155-158 | the factor as written is the largest k for which k window widths fit in DAC_MAX_X or k window heights fit in DAC_MAX_Y |
| Scaler.RawFactorZeroIff | src/main.cpp:155-158 | the factor as written is 0 exactly when the window is wider than DAC_MAX_X and taller than DAC_MAX_Y |
| Scaler.Layout | src/main.cpp:159-168 | the logical size is the analog bounds divided by the factor, with remainder below the factor; the afterglow texture is half of it, rounded down |
| Scaler.ResizeAsWritten | src/main.cpp:155-160 | resize() as written reaches a division by zero exactly when both window dimensions exceed the analog bounds |
| Scaler.HugeWindowDividesByZero | src/main.cpp:155-160 | a window of 33001 by 41001 pixels makes resize() divide by zero |
| Scaler.ScaleFactor | src/main.cpp:155-158 | the clamped factor is at least 1, equals the factor as written wherever that one is positive, and is 1 otherwise |
| Scaler.Resized | src/main.cpp:147-172 | every window size gives a factor of at least 1 and a logical size that, scaled back, fits in the analog bounds |
| Scaler.ClampAgreesWhenDefined | src/main.cpp:155-168 | wherever resize() as written is defined, the clamped version gives the same scale |
| Raster.ClearAlpha | src/main.cpp:63 | the clear alpha is 255 in sharp mode and otherwise the remanence narrowed to Uint8, which is the remanence itself when it is in 0..255 |
| Raster.VectorCommands | src/main.cpp:68-87 | one vector is a colour setting with the vector's alpha followed by two or four draws |
| Raster.VectorsCommands | src/main.cpp:66-88 | the vector batch, in list order, holds between three and five commands per vector, all colour settings or draws |
| Raster.Composite | src/main.cpp:96-112 | the composite targets the window first and presents last, holds the afterglow copy exactly when not sharp and the overlay copy exactly when an overlay is loaded, draws and fills nothing, and switches target only at its start |
| Raster.CompositeOrder | src/main.cpp:96-112 | the window is set to dark grey (25, 25, 25, 255) and cleared before any copy; then the primary buffer is copied, then the afterglow when not sharp, then the overlay when one is loaded; no overlay copy comes before an afterglow copy and no afterglow copy before a buffer copy |
| Raster.Frame | src/main.cpp:59-113 | a frame starts by targeting the primary buffer and filling it, ends with the present, and has ten commands plus the batch plus one per optional layer |
| Raster.CDiv | src/main.cpp:69-72 | C division truncates toward zero: q*d <= a < q*d + d for a non-negative dividend, q*d - d < a <= q*d for a negative one |
| Raster.Alpha | src/main.cpp:68 | the Uint8 alpha of a colour below VECTREX_COLORS is the colour rescaled to 0..255, rounded down |
| Raster.AlphaMonotone | src/main.cpp:68 | a brighter vector colour never gets a lower alpha |
| Raster.VectorShape | src/main.cpp:66-87 | a vector with coinciding scaled endpoints draws exactly the 2x2 block at that point; any other vector draws two non-degenerate lines, the second shifted by one pixel on both axes |
| Raster.VectorsCommandsShape | src/main.cpp:66-88 | the vector batch holds only colour settings and draws, and no zero-length line |
| Raster.EveryVectorDrawn | src/main.cpp:66-88 | every vector of the list marks its scaled start point |
| Raster.BatchOnlyDraws | src/main.cpp:66-88 | the vector batch switches no target, copies no layer and does not present |
| Raster.FrameTargets | src/main.cpp:61-112 | the clear and the batch run with the primary buffer as target, the copy with the afterglow buffer, and the composite with the window |
| Raster.FrontTargets | src/main.cpp:61-94 | the clear and the batch run with the primary buffer as target, then the afterglow buffer receives the copy |
| Raster.CompositeTargets | src/main.cpp:96-112 | after the batch and the copy the frame switches to the window and never away from it |
| Raster.FrameTailDrawsNothing | src/main.cpp:91-112 | nothing after the vector batch draws a point or line or fills |
| Raster.FrameDrawsIntoBuffer | src/main.cpp:61-94 | a frame starts with the clear of the primary buffer; every fill and draw lands in the primary buffer; the afterglow buffer receives only the copy of the primary buffer |
| Raster.FrameSplit | src/main.cpp:59-113 | a frame is the buffer work followed by the composite, and no layer copy or present happens before the composite |
| Raster.FrameLayers | src/main.cpp:96-111 | the afterglow layer is composited exactly when not sharp; the overlay exactly when one is loaded |
| Raster.FramePresentLast | src/main.cpp:112 | the frame is presented once, as the last command |
| Raster.SharpDropsOnlyAfterglow | src/main.cpp:63-105 | a sharp frame is the non-sharp frame with clear alpha 255 and with the afterglow copy removed, nothing else |
| Raster.CompositeWithoutAfterglow | src/main.cpp:96-111 | removing the afterglow copy from the non-sharp composite gives the sharp composite |
| Scheduler.RunningCycles | src/main.cpp:343 | a running tick asks for 30000 cycles per unit of speed, one heartbeat of the 1.5 MHz clock at speed 1 |
| Scheduler.TickBudget | src/main.cpp:338-344 | no vecx_emu call exactly when paused without a queued step; the pause and step size are kept; a step stays pending only while running |
| Scheduler.BudgetModes | src/main.cpp:338-344 | a queued step runs stepSize cycles once and is consumed; running asks for 30000 times the speed; paused without a step runs nothing; only the step flag changes |
| Scheduler.PaceTick | src/main.cpp:366-373 | the loop sleeps until the deadline if it is ahead and not at all otherwise; the next deadline is one heartbeat after waking, so later than now and at least one heartbeat after the previous one |
| Scheduler.DelayAtMostOneTick | src/main.cpp:366-373 | with a clock that does not run backwards, no sleep after the first one is longer than a heartbeat |
| Scheduler.Cadence | src/main.cpp:334-373 | over any run of ticks the deadline advances at least one heartbeat per tick, exactly one when no tick overruns, and ends at least one heartbeat after the last clock reading |
| Router.PressReleasePair | src/main.cpp:220-250 | the key-down and key-up tables drive the same controls with the same keys; a release puts the control at rest and a press moves it away from rest |
| Router.Press | src/main.cpp:220-233 | a key-down that drives a control moves it away from rest, and the keys that drive a control on key-down are the same as on key-up |
| Router.Release | src/main.cpp:235-251 | a key-up that drives a control puts it back at rest |
| Router.SharedKeyUp | src/main.cpp:180-201 | a shared key-up changes only the run mode; only p changes the pause; a newly pending step is pending only while paused |
| Router.MainKeyUp | src/main.cpp:235-251 | a main-window key-up keeps the run mode, cart and scale and only appends calls; a pad key-up is exactly the release write of vecx_input and makes no call; a key other than F1, F2, r and the pad keys changes nothing |
| Router.HandleEvent | src/main.cpp:179-258 | an event makes readevents() return exactly when it is a shared key-up or a main-window quit, returns 1 exactly when it asks to quit, only appends calls, and an event for another window that does not return changes nothing |
| Router.RouteEndsAtShared | src/main.cpp:180-202 | a shared key-up at the head of the queue is the only event a poll takes, and the poll quits exactly on Escape |
| Router.Route | src/main.cpp:174-261 | a poll takes events in order until one that makes readevents() return, leaves the rest queued, and returns 1 exactly when the last event taken asks to quit |
| Router.SharedKeysEndPoll | src/main.cpp:180-202 | in any window, Escape key-up quits with nothing changed, p toggles the pause, ^ and $ queue a step of 1 or 10 only while paused, and each ends the poll |
| Router.StepKeyCancelsStaleStep | src/main.cpp:187-194 | while running, a ^ or $ key-up clears a pending step, keeps the core running and ends the poll without quitting |
| Router.StepQueuedOnlyWhilePaused | src/main.cpp:187-194 | starting with no step pending, a poll leaves a step pending only while paused, and its size is 1 or 10 |
| Router.ForeignEventsIgnored | src/main.cpp:204-258 | events for other windows that are not shared key-ups change nothing and are all taken |
| Router.RouteAppendsCalls | src/main.cpp:174-261 | a poll only appends to the log of calls into the core |
| Router.PressThenRelease | src/main.cpp:220-249 | a press then release of a pad key in the main window leaves its control at rest and nothing else changed |
| Args.KindOf | src/main.cpp:484-515 | every recognised option starts with '-' and has at least two characters |
| Args.ParseOutcomes | src/main.cpp:482-525 | an unknown flag is an argument that is not an option and stands before the last position; the cart, when set, is the last argument |
| Args.ArgumentSemantics | src/main.cpp:482-525 | at any position, help exits whatever follows; --bios and --overlay take the next argument verbatim, NULL past the end, and parsing resumes after it; the flags set their setting; a non-option is the cart if last and an unknown flag otherwise |
| Args.ParseArgs | src/main.cpp:480-526 | the argument loop computes `Args.Parse`, which is `Args.ParseFrom` started at argv[1] with the default settings, early exits included |
| Args.RoundTrip | src/main.cpp:480-526 | every start-up setting with a BIOS path, and a cart that is not an option, is parsed back from the command line spelling it out |
| Args.CartIsLast | src/main.cpp:516-519 | a last argument that is not an option becomes the cart path |
| Args.OptionArgumentEdges | src/main.cpp:496-523 | on concrete command lines: a trailing --bios leaves a NULL BIOS path; `-o --help` and `-b -h` take the help spelling as a path; a cart before a flag is an unknown flag; help after a flag exits |
| Loop.AfterBudget | src/main.cpp:338-344 | the budget changes only the step flag and the call log, appends at most one call, and consumes any step that was queued while paused |
| Loop.QueuedStepRunsOnce | src/main.cpp:187-189 | ^ while paused ends the poll, the next tick runs exactly one cycle, and the tick after it runs nothing |
| Loop.Polled | src/main.cpp:338-346 | the budget and the poll leave queued a suffix of the pending events, only append calls, and leave the deadline, the speed, the sharp setting and the remanence alone |
| Loop.TickStep | src/main.cpp:338-373 | one iteration leaves queued a suffix of the pending events, only appends calls, keeps the deadline when it quits, and otherwise sets it by PaceTick |
| Loop.RunWith | src/main.cpp:336-374 | the loop runs every tick unless one quits, and a quitting run ran at least one tick |
| Loop.RunAppend | src/main.cpp:336-374 | for any tick function, running two lists of ticks in turn is running their concatenation, when the first did not quit |
| Loop.RunExtend | src/main.cpp:336-374 | a run that has not quit extends by exactly the next tick |
| Loop.RunStopsAtQuit | src/main.cpp:346 | once a tick quits, no later tick runs |
| Loop.RunEndsAt | src/main.cpp:346 | a run ends where a prefix quit, or at the end of the ticks |
| Loop.NoEarlierQuit | src/main.cpp:346 | no tick before the last one run quit |
| Loop.QuitAtLastTick | src/main.cpp:346 | a quitting run's final state is the quitting tick applied to the state the earlier ticks left |
| Loop.RunCadence | src/main.cpp:366-373 | over a run the call log only grows and the deadline advances at least one heartbeat per paced tick |
| Loop.ResetFirstThenCadence | src/main.cpp:334-373 | the reset is the first call the loop adds, and the deadline ends at least one heartbeat per paced tick after the first deadline |
| Loop.TickStepWhilePaused | src/main.cpp:338-364 | a tick keeps any pending step tied to the pause unless, after a poll that did not quit and left the core paused, the Pause checkbox of renderDebug() (src/main.cpp:279) reads unticked |
| Loop.RunStepWhilePaused | src/main.cpp:336-374 | over a run in which no tick turns Pause from ticked to unticked (running with the debug window open included), no step is left pending while running |
| Loop.UnpauseLeavesStepPending | src/main.cpp:338-364 | ^ while paused followed by unticking Pause leaves the step pending; the next tick runs a full heartbeat and the step stays pending |
| App.Frontend.constructor | src/main.cpp:52-57 | the initial run mode and render settings, the parsed cart and overlay, and the initial resize() and load_cart() of main() |
| App.Frontend.Resize | src/main.cpp:147-172 | the scale fields become the clamped scale of the window and stay consistent |
| App.Frontend.Input | src/main.cpp:225-232 | vecx_input writes one control and no other |
| App.Frontend.Dispatch | src/main.cpp:179-258 | one event changes the globals and the call log as the event step function says, keeps the scale consistent, and only appends calls |
| App.Frontend.ReadEvents | src/main.cpp:174-261 | the polling loop reaches the state, return value and number of events the Route fold gives |
| App.Frontend.Render | src/main.cpp:59-113 | the renderer receives exactly the frame specification for the current vectors, scale and settings |
| App.Frontend.Compose | src/main.cpp:96-112 | the composite built with the render settings is exactly the composite specification |
| App.Frontend.DrawVectors | src/main.cpp:66-88 | the per-vector loop produces exactly the batch specification |
| App.Frontend.DrawVector | src/main.cpp:68-87 | one vector produces exactly its commands |
| App.Frontend.DebugWidgets | src/main.cpp:279-286 | the pause, sharp, remanence and speed widgets write their globals directly |
| App.Frontend.BudgetAndPoll | src/main.cpp:338-346 | the run-mode branch then readevents() change the state exactly as Polled says |
| App.Frontend.RunBudget | src/main.cpp:338-344 | the run-mode branch updates the state as the budget function says |
| App.Frontend.Poll | src/main.cpp:346 | the arrivals join the queue, the poll follows Route, and the events it did not take stay queued |
| App.Frontend.Pace | src/main.cpp:366-373 | the sleep and the new deadline are those of PaceTick |
| App.Frontend.Settle | src/main.cpp:349-373 | after a poll that did not quit, the widgets write their globals and the deadline and sleep are those of PaceTick |
| App.Frontend.Tick | src/main.cpp:338-373 | one loop iteration changes the state exactly as TickStep says, sleeping PaceTick's delay unless it quits |
| App.Frontend.StartLoop | src/main.cpp:334-335 | the first deadline is one heartbeat after the start, and the reset is logged |
| App.Frontend.EmuLoop | src/main.cpp:332-375 | the loop leaves exactly the state, tick count and quit flag of the Run fold from the entered state, and keeps the scale consistent |

## Left out

- SDL, OpenGL and ImGui are not modelled beyond the renderer command log. This covers window and renderer creation (`init`), `quit`, the debug window's frame and its register and memory views (`renderDebug`, `showTextAndTooltip`), texture blending and alpha modulation.
- File loading is not modelled: `load_bios`, `load_cart` and `load_overlay` read files. A cart load is the recorded call `LoadCart(path)`, and a loaded overlay is a boolean.
- The emulation core and the sound chip (`vecx_emu`, `vecx_reset`, `vecx_load`, `vecx_save`, `e8910_*`) are foreign code. Each call is recorded in order.
- The help text and the unknown-flag message are standard output. The model returns `Help` or `UnknownFlag(arg)` in their place.
- `render()` is invoked from inside `vecx_emu` when the core finishes a frame. `App.Frontend.Tick` therefore records the `vecx_emu` call but does not itself call `App.Frontend.Render`.
- The window an event belongs to is taken as an attribute of the event. The source reads `e.window.windowID` for every event type. For a quit event that slot is not a window id. For a drop event it overlaps the `file` pointer. So whether those branches are reached depends on memory layout and pointer values, which the model does not represent.
- App.Frontend.Resize: uses the clamped `Scaler.Resized`, as do the constructor and `Router.HandleEvent`. For a window wider than 33000 and taller than 41000 pixels the model continues with factor 1, where `resize()` as written divides by zero (see Findings and `Scaler.ResizeAsWritten`).
- App.Frontend.Tick: `now` is an unbounded natural number. `SDL_GetTicks` returns a `Uint32` that wraps after about 49 days, so the wrap-around of `next_time` is not modelled.
- Scheduler.RunningCycles: the product `(VECTREX_MHZ / 1000) * emuSpeed * EMU_TIMER` is an unbounded integer, so the `int` overflow for very large speeds set in the debug window is not modelled.
- App.Frontend.EmuLoop: the source loops forever until a quit. The model runs over a finite list of ticks and stops when the list ends. The events that arrive, the widget values and the clock readings are inputs of each tick.
- App.Frontend.Render: the commands of one frame are appended to the log at once. The order and content of the log are those of the source's calls.
- `DAC_MAX_X`, `DAC_MAX_Y`, `VECTREX_COLORS` and `VECTREX_MHZ` are taken from vecx's headers as listed above. Those headers are not part of this model.

## Findings

| source | as written | input that shows it | evidently intended | confidence | as-written member | corrected member |
|---|---|---|---|---|---|---|
| src/main.cpp:155-160 | `scl_factor = max(DAC_MAX_X / w, DAC_MAX_Y / h)` is used as a divisor with no lower bound | a window of 33001 by 41001 pixels, which would have to be made that size deliberately, gives factor 0, so `DAC_MAX_X / scl_factor` divides by zero | the factor is clamped to at least 1 | low: needs a window larger than the analog bounds in both dimensions; not executed | Scaler.ResizeAsWritten, Scaler.HugeWindowDividesByZero | Scaler.ScaleFactor, Scaler.Resized |
