/**
 * The globals of src/main.cpp as one object, and the functions that update
 * them in place: resize(), render(), readevents(), and the run-mode and
 * pacing parts of emuloop(). The SDL renderer is a log of commands, the
 * emulation core a log of calls plus the map vecx_input writes.
 */
module App {
  import opened Wrappers
  import opened Scaler
  import opened Raster
  import opened Scheduler
  import opened Core
  import opened Router
  import opened Loop

  class Frontend {
    var sclFactor: nat
    /** Size of the texture `buffer`, which is also the renderer's logical size. */
    var bufferWidth: nat
    var bufferHeight: nat
    /** Size of the texture `buffer2`, the afterglow buffer. */
    var afterglowWidth: nat
    var afterglowHeight: nat
    /** Whether load_overlay() left an overlay texture. */
    var overlayLoaded: bool
    var cart: Option<string>
    var paused: bool
    var step: bool
    var stepSize: int
    var sharpRender: bool
    var remanence: int
    var emuSpeed: int
    /** What vecx_input has written, per control. */
    var pad: map<Control, int>
    var nextTime: nat
    /** Calls into the emulation core, in order. */
    var calls: seq<CoreCall>
    /** Commands sent to the SDL renderer, in order. */
    var commands: seq<Command>
    /** Events SDL holds that no poll has taken yet. */
    var queue: seq<Event>

    function RunMode(): Mode
      reads this
    {
      Mode(paused, step, stepSize)
    }

    function CurrentScale(): Scale
      reads this
    {
      Scale(sclFactor, bufferWidth, bufferHeight, afterglowWidth, afterglowHeight)
    }

    /** The part of the state readevents() works on. */
    function Routing(): RouterState
      reads this
    {
      RouterState(RunMode(), pad, cart, calls, CurrentScale())
    }

    /** Everything emuloop() reads or writes. */
    function LoopView(): LoopState
      reads this
    {
      LoopState(Routing(), queue, sharpRender, remanence, emuSpeed, nextTime)
    }

    /** The scale factor is usable as a divisor and the textures match it. */
    predicate Valid()
      reads this
    {
      sclFactor >= 1 && CurrentScale() == Layout(DAC_MAX_X, DAC_MAX_Y, sclFactor)
    }

    /**
     * The state main() reaches before emuloop(): the initial values of the
     * globals, the cart path and overlay from the command line, one resize()
     * for the initial window, and the load_cart() call.
     */
    constructor (cartPath: Option<string>, overlay: bool, w: Extent, h: Extent)
      ensures Valid()
      ensures CurrentScale() == Resized(w, h)
      ensures RunMode() == Mode(false, false, 1)
      ensures !sharpRender && remanence == 128 && emuSpeed == 1
      ensures cart == cartPath && overlayLoaded == overlay
      ensures pad == map[] && calls == [LoadCart(cartPath)] && commands == [] && nextTime == 0 && queue == []
    {
      queue := [];
      cart := cartPath;
      overlayLoaded := overlay;
      paused, step, stepSize := false, false, 1;
      sharpRender, remanence, emuSpeed := false, 128, 1;
      pad, calls, commands, nextTime := map[], [LoadCart(cartPath)], [], 0;
      var s := Resized(w, h);
      sclFactor := s.factor;
      bufferWidth, bufferHeight := s.width, s.height;
      afterglowWidth, afterglowHeight := s.glowWidth, s.glowHeight;
    }

    /**
     * resize() for a window of w by h pixels, with the factor clamped to 1
     * (see ResizeAsWritten for the unclamped original).
     */
    method Resize(w: Extent, h: Extent)
      modifies this`sclFactor, this`bufferWidth, this`bufferHeight, this`afterglowWidth, this`afterglowHeight
      ensures Valid()
      ensures CurrentScale() == Resized(w, h)
    {
      var sclx := DAC_MAX_X / w;
      var scly := DAC_MAX_Y / h;
      sclFactor := if sclx > scly then sclx else scly;
      if sclFactor == 0 {
        sclFactor := 1;
      }
      var width := DAC_MAX_X / sclFactor;
      var height := DAC_MAX_Y / sclFactor;
      bufferWidth, bufferHeight := width, height;
      afterglowWidth, afterglowHeight := width / 2, height / 2;
    }

    /** vecx_input: one controller write. */
    method Input(c: Control, value: int)
      modifies this`pad
      ensures pad == old(pad)[c := value]
    {
      pad := pad[c := value];
    }

    /** The body of the polling loop for one event. */
    method Dispatch(e: Event) returns (flow: Flow)
      modifies this`paused, this`step, this`stepSize, this`pad, this`cart, this`calls
      modifies this`sclFactor, this`bufferWidth, this`bufferHeight, this`afterglowWidth, this`afterglowHeight
      ensures (Routing(), flow) == HandleEvent(old(Routing()), e)
      ensures old(Valid()) ==> Valid()
      ensures old(calls) <= calls
    {
      if e.KeyUp? && SharedKey(e.key) {
        match e.key {
          case Escape =>
            return Return(true);
          case KeyP =>
            paused := !paused;
          case Caret =>
            step := paused;
            stepSize := 1;
          case Dollar =>
            step := paused;
            stepSize := 10;
        }
        return Return(false);
      }
      if e.window != MainWindow {
        return Next;
      }
      match e {
        case QuitRequest(_) =>
          return Return(true);
        case WindowResized(_, w, h) =>
          Resize(w, h);
        case OtherWindowEvent(_) =>
        case DropFile(_, path) =>
          cart := Some(path);
          calls := calls + [LoadCart(cart), Reset];
        case KeyDown(_, k) =>
          if k == Escape {
            return Return(true);
          }
          var w := Press(k);
          if w.Some? {
            Input(w.value.0, w.value.1);
          }
        case KeyUp(_, k) =>
          if k == F1 {
            calls := calls + [LoadSnapshot(SAVE_FILE)];
          } else if k == F2 {
            calls := calls + [SaveSnapshot(SAVE_FILE)];
          } else if k == KeyR {
            calls := calls + [LoadCart(cart), Reset];
          } else {
            var w := Release(k);
            if w.Some? {
              Input(w.value.0, w.value.1);
            }
          }
        case OtherEvent(_) =>
      }
      return Next;
    }

    /**
     * readevents(): poll the queue until it is empty or an event makes it
     * return; `consumed` events are taken and the rest stay queued.
     */
    method ReadEvents(events: seq<Event>) returns (quit: bool, consumed: nat)
      modifies this`paused, this`step, this`stepSize, this`pad, this`cart, this`calls
      modifies this`sclFactor, this`bufferWidth, this`bufferHeight, this`afterglowWidth, this`afterglowHeight
      ensures Routed(Routing(), quit, consumed) == Route(old(Routing()), events)
      ensures old(Valid()) ==> Valid()
      ensures old(calls) <= calls
    {
      var i := 0;
      while i < |events|
        invariant 0 <= i <= |events|
        invariant old(Valid()) ==> Valid()
        invariant old(calls) <= calls
        invariant var r := Route(Routing(), events[i..]);
                  Route(old(Routing()), events) == Routed(r.state, r.quit, r.consumed + i)
      {
        var flow := Dispatch(events[i]);
        assert events[i..][0] == events[i] && events[i..][1..] == events[i + 1..];
        i := i + 1;
        if flow.Return? {
          return flow.quit, i;
        }
      }
      return false, i;
    }

    /**
     * render(): the vector list the core hands over at the end of a frame is
     * drawn into the primary buffer, which is copied into the afterglow
     * buffer and composited onto the window.
     */
    method Render(vectors: seq<Vector>)
      requires Valid()
      modifies this`commands
      ensures commands == old(commands) + Frame(vectors, sclFactor, sharpRender, remanence, overlayLoaded)
    {
      var batch := DrawVectors(vectors);
      var composite := Compose();
      var clear := ClearAlpha(sharpRender, remanence);
      var frame := [SetTarget(Buffer), SetColor(0, 0, 0, clear), FillRect] + batch
                   + [SetTarget(Afterglow), Copy(BufferLayer)] + composite;
      assert frame == Frame(vectors, sclFactor, sharpRender, remanence, overlayLoaded);
      commands := commands + frame;
    }

    /** The composite onto the window at the end of render(). */
    method Compose() returns (composite: seq<Command>)
      ensures composite == Composite(sharpRender, overlayLoaded)
    {
      composite := [SetTarget(Window), SetColor(25, 25, 25, 255), Clear, Copy(BufferLayer)];
      if !sharpRender {
        composite := composite + [Copy(AfterglowLayer)];
      }
      if overlayLoaded {
        composite := composite + [Copy(OverlayLayer)];
      }
      composite := composite + [Present];
    }

    /** The per-vector loop of render(). */
    method DrawVectors(vectors: seq<Vector>) returns (batch: seq<Command>)
      requires Valid()
      ensures batch == VectorsCommands(vectors, sclFactor)
    {
      batch := [];
      var v := 0;
      while v < |vectors|
        invariant 0 <= v <= |vectors|
        invariant batch == VectorsCommands(vectors[..v], sclFactor)
      {
        var drawn := DrawVector(vectors[v]);
        assert vectors[..v + 1][..v] == vectors[..v];
        batch := batch + drawn;
        v := v + 1;
      }
      assert vectors[..v] == vectors;
    }

    /** One vector: its intensity as alpha, its endpoints scaled, a 2x2 block or a doubled line. */
    method DrawVector(vector: Vector) returns (drawn: seq<Command>)
      requires Valid()
      ensures drawn == VectorCommands(vector, sclFactor)
    {
      var c := Alpha(vector.color, VECTREX_COLORS);
      var x0 := CDiv(vector.x0, sclFactor);
      var y0 := CDiv(vector.y0, sclFactor);
      var x1 := CDiv(vector.x1, sclFactor);
      var y1 := CDiv(vector.y1, sclFactor);
      drawn := [SetColor(255, 255, 255, c)];
      if x0 == x1 && y0 == y1 {
        drawn := drawn + [DrawPoint(x0, y0), DrawPoint(x0 + 1, y0), DrawPoint(x0, y0 + 1), DrawPoint(x0 + 1, y0 + 1)];
      } else {
        drawn := drawn + [DrawLine(x0, y0, x1, y1), DrawLine(x0 + 1, y0 + 1, x1 + 1, y1 + 1)];
      }
    }

    /**
     * The four widgets of the debug window bound to globals: the Pause and
     * Sharp checkboxes, the Remanence slider and the Emu. speed input.
     */
    method DebugWidgets(pause: bool, sharp: bool, rem: int, speed: int)
      modifies this`paused, this`sharpRender, this`remanence, this`emuSpeed
      ensures paused == pause && sharpRender == sharp && remanence == rem && emuSpeed == speed
    {
      paused, sharpRender, remanence, emuSpeed := pause, sharp, rem, speed;
    }

    /** The run-mode branch at the top of the loop: one vecx_emu call, or none. */
    method RunBudget()
      modifies this`step, this`calls
      ensures Routing() == AfterBudget(old(Routing()), emuSpeed)
    {
      if paused && step {
        calls := calls + [Emulate(stepSize)];
        step := false;
      } else if !paused {
        calls := calls + [Emulate(RunningCycles(emuSpeed))];
      }
    }

    /** The arrivals join the queue and readevents() polls it; what it does not take stays queued. */
    method Poll(arrivals: seq<Event>) returns (quit: bool)
      modifies this`paused, this`step, this`stepSize, this`pad, this`cart, this`calls
      modifies this`sclFactor, this`bufferWidth, this`bufferHeight, this`afterglowWidth, this`afterglowHeight
      modifies this`queue
      ensures var pending := old(queue) + arrivals;
              var polled := Route(old(Routing()), pending);
              Routing() == polled.state && quit == polled.quit && queue == pending[polled.consumed..]
      ensures old(Valid()) ==> Valid()
    {
      queue := queue + arrivals;
      var consumed;
      quit, consumed := ReadEvents(queue);
      queue := queue[consumed..];
    }

    /** The pacing block: sleep until the deadline if it is ahead, then set the next one. */
    method Pace(now: nat) returns (delay: nat)
      modifies this`nextTime
      ensures Scheduler.Pace(delay, nextTime) == PaceTick(now, old(nextTime))
    {
      if now < nextTime {
        delay := nextTime - now;
      } else {
        delay := 0;
        nextTime := now;
      }
      nextTime := nextTime + EMU_TIMER;
    }

    /**
     * One iteration of emuloop(): run the cycle budget of the run mode, poll
     * the queued events, and unless they asked to quit, let the debug
     * window's widgets write their globals and pace against the deadline
     * with the clock reading `t.now`.
     */
    method Tick(t: TickInput) returns (quit: bool, delay: nat)
      modifies this`paused, this`step, this`stepSize, this`pad, this`cart, this`calls
      modifies this`sclFactor, this`bufferWidth, this`bufferHeight, this`afterglowWidth, this`afterglowHeight
      modifies this`sharpRender, this`remanence, this`emuSpeed, this`nextTime, this`queue
      ensures (LoopView(), quit) == TickStep(old(LoopView()), t)
      ensures delay == if quit then 0 else PaceTick(t.now, old(nextTime)).delay
      ensures old(Valid()) ==> Valid()
    {
      quit := BudgetAndPoll(t);
      if quit {
        return true, 0;
      }
      delay := Settle(t);
    }

    /** The first half of a tick: the run-mode branch, then readevents(). */
    method BudgetAndPoll(t: TickInput) returns (quit: bool)
      modifies this`paused, this`step, this`stepSize, this`pad, this`cart, this`calls
      modifies this`sclFactor, this`bufferWidth, this`bufferHeight, this`afterglowWidth, this`afterglowHeight
      modifies this`queue
      ensures (LoopView(), quit) == Polled(old(LoopView()), t)
      ensures old(Valid()) ==> Valid()
    {
      ghost var ls0 := LoopView();
      RunBudget();
      ghost var pending := queue + t.arrivals;
      ghost var polled := Route(AfterBudget(ls0.routing, ls0.speed), pending);
      quit := Poll(t.arrivals);
      assert LoopView() == ls0.(routing := polled.state, queue := pending[polled.consumed..]);
    }

    /** The rest of a tick that did not quit: the debug window's widgets, then the pacing block. */
    method Settle(t: TickInput) returns (delay: nat)
      modifies this`paused, this`sharpRender, this`remanence, this`emuSpeed, this`nextTime
      ensures LoopView() == ApplyWidgets(old(LoopView()), t.widgets).(next := PaceTick(t.now, old(nextTime)).next)
      ensures delay == PaceTick(t.now, old(nextTime)).delay
    {
      if t.widgets.Some? {
        var w := t.widgets.value;
        DebugWidgets(w.pause, w.sharp, w.remanence, w.speed);
      }
      delay := Pace(t.now);
    }

    /**
     * emuloop() over a finite run of ticks: set the first deadline, reset the
     * core, then tick until a tick quits or the run ends. The state left is
     * that of the Run fold from the entered state.
     */
    method EmuLoop(start: nat, ticks: seq<TickInput>) returns (ran: nat, quit: bool)
      requires Valid()
      modifies this`paused, this`step, this`stepSize, this`pad, this`cart, this`calls
      modifies this`sclFactor, this`bufferWidth, this`bufferHeight, this`afterglowWidth, this`afterglowHeight
      modifies this`sharpRender, this`remanence, this`emuSpeed, this`nextTime, this`queue
      ensures Valid()
      ensures Run(Enter(old(LoopView()), start), ticks) == Outcome(LoopView(), ran, quit)
    {
      StartLoop(start);
      ghost var entered := LoopView();
      ran, quit := 0, false;
      while ran < |ticks|
        invariant ran <= |ticks|
        invariant Valid()
        invariant Run(entered, ticks[..ran]) == Outcome(LoopView(), ran, false)
      {
        var delay;
        quit, delay := Tick(ticks[ran]);
        RunExtend(TickStep, entered, ticks, ran);
        ran := ran + 1;
        if quit {
          break;
        }
      }
      RunEndsAt(TickStep, entered, ticks, ran);
    }

    /** The entry of emuloop(): the first deadline one heartbeat after `start`, then vecx_reset. */
    method StartLoop(start: nat)
      modifies this`nextTime, this`calls
      ensures LoopView() == Enter(old(LoopView()), start)
    {
      nextTime := start + EMU_TIMER;
      calls := calls + [Reset];
    }
  }
}
