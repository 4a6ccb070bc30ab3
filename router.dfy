/**
 * readevents() (src/main.cpp): one poll of the event queue, as a step
 * function on the state the events touch and a fold over the queue that
 * stops where the source returns.
 */
module Router {
  import opened Wrappers
  import opened Scaler
  import opened Scheduler
  import opened Core

  /**
   * The window an event is attributed to: the value readevents() reads as
   * `e.window.windowID`, compared with the main and the debug window.
   */
  datatype WindowId = MainWindow | DebugWindow | OtherWindow

  /** The keys readevents() tests; every other key is OtherKey. */
  datatype Key =
    | Escape | KeyP | Caret | Dollar
    | KeyQ | KeyS | KeyD | KeyF | Left | Right | Up | Down
    | F1 | F2 | KeyR
    | OtherKey(code: int)

  /** The host events readevents() distinguishes. */
  datatype Event =
    | QuitRequest(window: WindowId)
    // resize() re-reads the size with SDL_GetWindowSize; for SDL_WINDOWEVENT_RESIZED
    // that is the size the event carries, so the model takes it from the event.
    | WindowResized(window: WindowId, width: Extent, height: Extent)
    | OtherWindowEvent(window: WindowId)
    | DropFile(window: WindowId, path: string)
    | KeyDown(window: WindowId, key: Key)
    | KeyUp(window: WindowId, key: Key)
    | OtherEvent(window: WindowId)

  /** The globals readevents() may change, with the log of its calls into the core. */
  datatype RouterState = RouterState(
    mode: Mode,
    pad: map<Control, int>,
    cart: Option<string>,
    calls: seq<CoreCall>,
    scale: Scale)

  /** Whether polling goes on after an event, or readevents() returns (1 to quit, 0 otherwise). */
  datatype Flow = Next | Return(quit: bool)

  /** The key-ups handled for every window, before the window test. */
  predicate SharedKey(k: Key)
  {
    k == Escape || k == KeyP || k == Caret || k == Dollar
  }

  /** The events on which readevents() returns, leaving the rest of the queue. */
  predicate Returns(e: Event)
  {
    (e.KeyUp? && SharedKey(e.key)) || (e.window == MainWindow && Quits(e))
  }

  /** The events on which readevents() returns 1 and the loop ends. */
  predicate Quits(e: Event)
  {
    (e.KeyUp? && e.key == Escape)
    || (e.window == MainWindow && (e.QuitRequest? || (e.KeyDown? && e.key == Escape)))
  }

  /** The vecx_input write of a key-down in the main window. */
  function Press(k: Key): (w: Option<(Control, int)>)
    ensures w.Some? ==> w.value.1 != Rest(w.value.0)
    ensures w.Some? <==> Release(k).Some?
  {
    match k
    case KeyQ => Some((Button1, 1))
    case KeyS => Some((Button2, 1))
    case KeyD => Some((Button3, 1))
    case KeyF => Some((Button4, 1))
    case Left => Some((PadX, 0x00))
    case Right => Some((PadX, 0xff))
    case Up => Some((PadY, 0xff))
    case Down => Some((PadY, 0x00))
    case _ => None
  }

  /** The vecx_input write of a key-up in the main window. */
  function Release(k: Key): (w: Option<(Control, int)>)
    ensures w.Some? ==> w.value.1 == Rest(w.value.0)
  {
    match k
    case KeyQ => Some((Button1, 0))
    case KeyS => Some((Button2, 0))
    case KeyD => Some((Button3, 0))
    case KeyF => Some((Button4, 0))
    case Left => Some((PadX, 0x80))
    case Right => Some((PadX, 0x80))
    case Up => Some((PadY, 0x80))
    case Down => Some((PadY, 0x80))
    case _ => None
  }

  /**
   * Press and release agree on which keys drive the pad and which control
   * each drives; the release puts that control back at rest, and the press
   * moves it away from rest.
   */
  lemma PressReleasePair(k: Key)
    ensures Press(k).Some? <==> Release(k).Some?
    ensures Press(k).Some? ==>
              && Press(k).value.0 == Release(k).value.0
              && Release(k).value.1 == Rest(Release(k).value.0)
              && Press(k).value.1 != Rest(Press(k).value.0)
  {
  }

  function Input(s: RouterState, w: Option<(Control, int)>): RouterState
  {
    if w.Some? then s.(pad := s.pad[w.value.0 := w.value.1]) else s
  }

  /** A shared key-up: quit, toggle the pause, or queue a step of 1 or 10 cycles if paused. */
  function SharedKeyUp(s: RouterState, k: Key): (r: RouterState)
    requires SharedKey(k)
    ensures r == s.(mode := r.mode)
    ensures k != KeyP ==> r.mode.paused == s.mode.paused
    ensures r.mode.step && !s.mode.step ==> r.mode.paused
  {
    match k
    case KeyP => s.(mode := s.mode.(paused := !s.mode.paused))
    case Caret => s.(mode := s.mode.(step := s.mode.paused, stepSize := 1))
    case Dollar => s.(mode := s.mode.(step := s.mode.paused, stepSize := 10))
    case _ => s
  }

  /** A key-up in the main window that is not shared. */
  function MainKeyUp(s: RouterState, k: Key): (r: RouterState)
    ensures r.mode == s.mode && r.cart == s.cart && r.scale == s.scale
    ensures s.calls <= r.calls
    ensures r.pad != s.pad ==> r.calls == s.calls
    ensures Release(k).Some? ==> r == Input(s, Release(k))
    ensures Release(k).None? && k != F1 && k != F2 && k != KeyR ==> r == s
  {
    match k
    case F1 => s.(calls := s.calls + [LoadSnapshot(SAVE_FILE)])
    case F2 => s.(calls := s.calls + [SaveSnapshot(SAVE_FILE)])
    case KeyR => s.(calls := s.calls + [LoadCart(s.cart), Reset])
    case _ => Input(s, Release(k))
  }

  /** One event: the shared key-up switch first, then the main-window switch. */
  function HandleEvent(s: RouterState, e: Event): (r: (RouterState, Flow))
    ensures r.1.Return? <==> Returns(e)
    ensures r.1 == Return(true) <==> Quits(e)
    ensures s.calls <= r.0.calls
    ensures e.window != MainWindow && !Returns(e) ==> r.0 == s
  {
    if e.KeyUp? && SharedKey(e.key) then (SharedKeyUp(s, e.key), Return(e.key == Escape))
    else if e.window != MainWindow then (s, Next)
    else
      match e
      case QuitRequest(_) => (s, Return(true))
      case WindowResized(_, w, h) => (s.(scale := Resized(w, h)), Next)
      case OtherWindowEvent(_) => (s, Next)
      case DropFile(_, path) => (s.(cart := Some(path), calls := s.calls + [LoadCart(Some(path)), Reset]), Next)
      case KeyDown(_, k) => if k == Escape then (s, Return(true)) else (Input(s, Press(k)), Next)
      case KeyUp(_, k) => (MainKeyUp(s, k), Next)
      case OtherEvent(_) => (s, Next)
  }

  /** The outcome of one readevents() call: new state, its return value, and how many events it took. */
  datatype Routed = Routed(state: RouterState, quit: bool, consumed: nat)

  /**
   * One readevents() call over the pending queue: events are taken in order
   * until one makes it return, and the rest stay queued. It returns 1 exactly
   * when the last event taken is a quit.
   */
  function Route(s: RouterState, events: seq<Event>): (r: Routed)
    ensures r.consumed <= |events|
    ensures r.consumed < |events| ==> 0 < r.consumed && Returns(events[r.consumed - 1])
    ensures forall k :: 0 <= k < r.consumed - 1 ==> !Returns(events[k])
    ensures r.quit <==> 0 < r.consumed && Quits(events[r.consumed - 1])
    decreases |events|
  {
    if events == [] then Routed(s, false, 0)
    else
      var (s1, flow) := HandleEvent(s, events[0]);
      if flow.Return? then Routed(s1, flow.quit, 1)
      else
        var r := Route(s1, events[1..]);
        Routed(r.state, r.quit, r.consumed + 1)
  }

  // ---------------------------------------------------------------------
  // Properties
  // ---------------------------------------------------------------------

  /**
   * The shared key-ups act the same in every window and end the poll at once:
   * Escape quits with nothing changed, p toggles the pause, ^ and $ queue a
   * step of 1 or 10 cycles only if paused; nothing else changes.
   */
  lemma SharedKeysEndPoll(s: RouterState, w: WindowId, rest: seq<Event>)
    ensures Route(s, [KeyUp(w, Escape)] + rest) == Routed(s, true, 1)
    ensures Route(s, [KeyUp(w, KeyP)] + rest)
            == Routed(s.(mode := s.mode.(paused := !s.mode.paused)), false, 1)
    ensures Route(s, [KeyUp(w, Caret)] + rest)
            == Routed(s.(mode := Mode(s.mode.paused, s.mode.paused, 1)), false, 1)
    ensures Route(s, [KeyUp(w, Dollar)] + rest)
            == Routed(s.(mode := Mode(s.mode.paused, s.mode.paused, 10)), false, 1)
  {
    RouteEndsAtShared(s, w, Escape, rest);
    RouteEndsAtShared(s, w, KeyP, rest);
    RouteEndsAtShared(s, w, Caret, rest);
    RouteEndsAtShared(s, w, Dollar, rest);
  }

  /**
   * While running, a ^ or $ key-up sets the step flag to the pause, which is
   * off, so it cancels a step that was left pending.
   */
  lemma StepKeyCancelsStaleStep(s: RouterState, w: WindowId, k: Key)
    requires k == Caret || k == Dollar
    requires !s.mode.paused && s.mode.step
    ensures var r := Route(s, [KeyUp(w, k)]);
            && !r.state.mode.step && !r.state.mode.paused && !r.quit && r.consumed == 1
  {
    RouteEndsAtShared(s, w, k, []);
    assert [KeyUp(w, k)] + [] == [KeyUp(w, k)];
  }

  /** A shared key-up at the head of the queue is the only event a poll takes. */
  lemma RouteEndsAtShared(s: RouterState, w: WindowId, k: Key, rest: seq<Event>)
    requires SharedKey(k)
    ensures Route(s, [KeyUp(w, k)] + rest) == Routed(SharedKeyUp(s, k), k == Escape, 1)
  {
    assert ([KeyUp(w, k)] + rest)[0] == KeyUp(w, k);
    assert HandleEvent(s, KeyUp(w, k)) == (SharedKeyUp(s, k), Return(k == Escape));
  }

  /**
   * Starting with no step pending (as after the budget of a tick that began
   * with no step pending while running), a poll can leave a step pending only
   * while paused, and the step size is then 1 or 10.
   */
  lemma {:induction false} StepQueuedOnlyWhilePaused(s: RouterState, events: seq<Event>)
    requires !s.mode.step
    ensures var m := Route(s, events).state.mode;
            (m.step ==> m.paused) && (m.step ==> m.stepSize == 1 || m.stepSize == 10)
    decreases |events|
  {
    if events != [] {
      var (s1, flow) := HandleEvent(s, events[0]);
      if flow.Next? {
        assert s1.mode == s.mode;
        StepQueuedOnlyWhilePaused(s1, events[1..]);
      }
    }
  }

  /** A poll only appends to the log of calls into the core. */
  lemma {:induction false} RouteAppendsCalls(s: RouterState, events: seq<Event>)
    ensures s.calls <= Route(s, events).state.calls
    decreases |events|
  {
    if events != [] {
      var (s1, flow) := HandleEvent(s, events[0]);
      if flow.Next? {
        RouteAppendsCalls(s1, events[1..]);
      }
    }
  }

  /** The mode, pad and calls a poll leaves depend only on events outside the main window being shared key-ups. */
  predicate ForeignOnly(events: seq<Event>)
  {
    forall k :: 0 <= k < |events| ==> events[k].window != MainWindow && !(events[k].KeyUp? && SharedKey(events[k].key))
  }

  /** Events for other windows that are not shared key-ups change nothing and are all taken. */
  lemma {:induction false} ForeignEventsIgnored(s: RouterState, events: seq<Event>)
    requires ForeignOnly(events)
    ensures Route(s, events) == Routed(s, false, |events|)
    decreases |events|
  {
    if events != [] {
      assert ForeignOnly(events[1..]) by {
        forall k | 0 <= k < |events[1..]| ensures events[1..][k] == events[k + 1] { }
      }
      ForeignEventsIgnored(s, events[1..]);
    }
  }

  /**
   * Pressing then releasing a pad key in the main window puts its control at
   * rest, changes nothing else, and takes both events; a control already at
   * rest is left exactly as it was.
   */
  lemma PressThenRelease(s: RouterState, k: Key)
    requires Press(k).Some?
    ensures var c := Press(k).value.0;
            Route(s, [KeyDown(MainWindow, k), KeyUp(MainWindow, k)])
            == Routed(s.(pad := s.pad[c := Rest(c)]), false, 2)
    ensures var c := Press(k).value.0;
            c in s.pad && s.pad[c] == Rest(c) ==>
              Route(s, [KeyDown(MainWindow, k), KeyUp(MainWindow, k)]) == Routed(s, false, 2)
  {
    var c := Press(k).value.0;
    PressReleasePair(k);
    var evs := [KeyDown(MainWindow, k), KeyUp(MainWindow, k)];
    assert evs[1..] == [KeyUp(MainWindow, k)] && evs[1..][1..] == [];
    var s1 := Input(s, Press(k));
    var s2 := Input(s1, Release(k));
    assert s2 == s.(pad := s.pad[c := Rest(c)]);
    assert !SharedKey(k);
    assert HandleEvent(s, evs[0]) == (s1, Next);
    assert HandleEvent(s1, evs[1..][0]) == (s2, Next);
    assert Route(s1, evs[1..]) == Routed(s2, false, 1);
    if c in s.pad && s.pad[c] == Rest(c) {
      assert s.pad[c := Rest(c)] == s.pad;
    }
  }
}
