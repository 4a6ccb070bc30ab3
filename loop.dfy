/**
 * emuloop() (src/main.cpp) as a fold over ticks. One tick runs the cycle
 * budget of the run mode, polls the event queue with readevents(), lets the
 * debug window's widgets write their globals, and paces against the deadline.
 * The loop ends at the first tick whose poll asks to quit.
 */
module Loop {
  import opened Wrappers
  import opened Scheduler
  import opened Core
  import opened Router

  /** The vecx_emu call a tick's budget makes, if any. */
  function EmuCalls(cycles: Option<int>): seq<CoreCall>
  {
    if cycles.Some? then [Emulate(cycles.value)] else []
  }

  /** The state one tick leaves before polling events: the budget applied to the run mode and the call log. */
  function AfterBudget(s: RouterState, speed: int): (r: RouterState)
    ensures r.pad == s.pad && r.cart == s.cart && r.scale == s.scale
    ensures r.mode.paused == s.mode.paused && r.mode.stepSize == s.mode.stepSize
    ensures (s.mode.step ==> s.mode.paused) ==> !r.mode.step
    ensures |r.calls| == |s.calls| + (if s.mode.paused && !s.mode.step then 0 else 1)
    ensures s.calls <= r.calls
  {
    var b := TickBudget(s.mode, speed);
    s.(mode := b.mode, calls := s.calls + EmuCalls(b.cycles))
  }

  /**
   * A step queued with ^ while paused runs exactly one cycle on the next
   * tick and is then consumed: the tick after that runs nothing. Whatever
   * follows the key-up stays queued.
   */
  lemma QueuedStepRunsOnce(s: RouterState, w: WindowId, rest: seq<Event>, speed: int)
    requires s.mode.paused
    ensures var r := Route(s, [KeyUp(w, Caret)] + rest);
            var b := TickBudget(r.state.mode, speed);
            && r.consumed == 1 && !r.quit
            && b.cycles == Some(1)
            && TickBudget(b.mode, speed).cycles == None
  {
    SharedKeysEndPoll(s, w, rest);
  }

  /** The values of the debug window's Pause, Sharp, Remanence and Emu. speed widgets after its frame. */
  datatype Widgets = Widgets(pause: bool, sharp: bool, remanence: int, speed: int)

  /**
   * What the outside world supplies to one tick: the events that arrived
   * since the last poll, the widget values when the debug window is open,
   * and the clock reading of the pacing block.
   */
  datatype TickInput = TickInput(arrivals: seq<Event>, widgets: Option<Widgets>, now: nat)

  /** The globals emuloop() reads or writes, and the events still queued. */
  datatype LoopState = LoopState(
    routing: RouterState,
    queue: seq<Event>,
    sharp: bool,
    remanence: int,
    speed: int,
    next: nat)

  /** The widgets write their globals directly; without the debug window nothing changes. */
  function ApplyWidgets(ls: LoopState, w: Option<Widgets>): LoopState
  {
    if w.None? then ls
    else
      ls.(routing := ls.routing.(mode := ls.routing.mode.(paused := w.value.pause)),
          sharp := w.value.sharp, remanence := w.value.remanence, speed := w.value.speed)
  }

  /**
   * The first half of an iteration: the cycle budget, then one poll. The
   * poll sees the events left queued by earlier polls followed by the new
   * arrivals, and leaves queued whatever it did not take.
   */
  function Polled(ls: LoopState, t: TickInput): (r: (LoopState, bool))
    ensures var pending := ls.queue + t.arrivals;
            |r.0.queue| <= |pending| && r.0.queue == pending[|pending| - |r.0.queue|..]
    ensures ls.routing.calls <= r.0.routing.calls
    ensures r.0.next == ls.next && r.0.speed == ls.speed && r.0.sharp == ls.sharp
            && r.0.remanence == ls.remanence
  {
    var s := AfterBudget(ls.routing, ls.speed);
    var pending := ls.queue + t.arrivals;
    var polled := Route(s, pending);
    RouteAppendsCalls(s, pending);
    (ls.(routing := polled.state, queue := pending[polled.consumed..]), polled.quit)
  }

  /**
   * One iteration of the loop and whether it ends it: unless the poll asked
   * to quit, the debug window's widgets write their globals and the pacing
   * block sets the next deadline.
   */
  function TickStep(ls: LoopState, t: TickInput): (r: (LoopState, bool))
    ensures var pending := ls.queue + t.arrivals;
            |r.0.queue| <= |pending| && r.0.queue == pending[|pending| - |r.0.queue|..]
    ensures ls.routing.calls <= r.0.routing.calls
    ensures r.1 ==> r.0.next == ls.next && r.0.speed == ls.speed && r.0.sharp == ls.sharp
    ensures !r.1 ==> r.0.next == PaceTick(t.now, ls.next).next
  {
    var p := Polled(ls, t);
    if p.1 then p
    else (ApplyWidgets(p.0, t.widgets).(next := PaceTick(t.now, ls.next).next), false)
  }

  /** The outcome of a run: the final state, how many ticks ran, and whether the last one quit. */
  datatype Outcome = Outcome(state: LoopState, ran: nat, quit: bool)

  /** What one tick does: the state it leaves and whether it ends the loop. */
  type TickFunction = (LoopState, TickInput) -> (LoopState, bool)

  /**
   * The loop's control flow over the given ticks: apply each tick in turn and
   * stop after the first one that ends the loop. The lemmas below about this
   * shape hold whatever a tick does.
   */
  function RunWith(step: TickFunction, ls: LoopState, ticks: seq<TickInput>): (o: Outcome)
    ensures o.ran <= |ticks|
    ensures !o.quit ==> o.ran == |ticks|
    ensures o.quit ==> o.ran >= 1
    decreases |ticks|
  {
    if ticks == [] then Outcome(ls, 0, false)
    else
      var r := step(ls, ticks[0]);
      if r.1 then Outcome(r.0, 1, true)
      else
        var o := RunWith(step, r.0, ticks[1..]);
        Outcome(o.state, o.ran + 1, o.quit)
  }

  /** emuloop() after its entry, over the given ticks. */
  function Run(ls: LoopState, ticks: seq<TickInput>): Outcome
  {
    RunWith(TickStep, ls, ticks)
  }

  /** The loop's entry: the first deadline one heartbeat after `start`, then vecx_reset. */
  function Enter(ls: LoopState, start: nat): LoopState
  {
    ls.(routing := ls.routing.(calls := ls.routing.calls + [Reset]), next := start + EMU_TIMER)
  }

  /** Running a then b is running b from where a left off, when a did not quit. */
  lemma {:induction false} RunAppend(step: TickFunction, ls: LoopState, a: seq<TickInput>, b: seq<TickInput>)
    requires !RunWith(step, ls, a).quit
    ensures var o := RunWith(step, RunWith(step, ls, a).state, b);
            RunWith(step, ls, a + b) == Outcome(o.state, |a| + o.ran, o.quit)
    decreases |a|
  {
    if a == [] {
      assert a + b == b;
    } else {
      var r := step(ls, a[0]);
      assert (a + b)[0] == a[0] && (a + b)[1..] == a[1..] + b;
      RunAppend(step, r.0, a[1..], b);
    }
  }

  /** A run that has not quit extends by one tick: the next tick applied to the state it left. */
  lemma RunExtend(step: TickFunction, ls: LoopState, ticks: seq<TickInput>, k: nat)
    requires k < |ticks| && !RunWith(step, ls, ticks[..k]).quit
    ensures var r := step(RunWith(step, ls, ticks[..k]).state, ticks[k]);
            RunWith(step, ls, ticks[..k + 1]) == Outcome(r.0, k + 1, r.1)
  {
    assert ticks[..k + 1] == ticks[..k] + [ticks[k]];
    RunAppend(step, ls, ticks[..k], [ticks[k]]);
    assert [ticks[k]][1..] == [];
  }

  /** Once a tick quits, later ticks never run. */
  lemma {:induction false} RunStopsAtQuit(step: TickFunction, ls: LoopState, a: seq<TickInput>, b: seq<TickInput>)
    requires RunWith(step, ls, a).quit
    ensures RunWith(step, ls, a + b) == RunWith(step, ls, a)
    decreases |a|
  {
    var r := step(ls, a[0]);
    assert (a + b)[0] == a[0] && (a + b)[1..] == a[1..] + b;
    if !r.1 {
      RunStopsAtQuit(step, r.0, a[1..], b);
    }
  }

  /** A prefix that quit, or the whole list, is where the run ends. */
  lemma RunEndsAt(step: TickFunction, ls: LoopState, ticks: seq<TickInput>, k: nat)
    requires k <= |ticks| && (k == |ticks| || RunWith(step, ls, ticks[..k]).quit)
    ensures RunWith(step, ls, ticks) == RunWith(step, ls, ticks[..k])
  {
    if k == |ticks| {
      assert ticks[..k] == ticks;
    } else {
      assert ticks[..k] + ticks[k..] == ticks;
      RunStopsAtQuit(step, ls, ticks[..k], ticks[k..]);
    }
  }

  /** No prefix shorter than the ticks that ran quits: every tick before the last one ran went on. */
  lemma NoEarlierQuit(step: TickFunction, ls: LoopState, ticks: seq<TickInput>, k: nat)
    requires k < RunWith(step, ls, ticks).ran
    ensures !RunWith(step, ls, ticks[..k]).quit && RunWith(step, ls, ticks[..k]).ran == k
  {
    if RunWith(step, ls, ticks[..k]).quit {
      assert ticks[..k] + ticks[k..] == ticks;
      RunStopsAtQuit(step, ls, ticks[..k], ticks[k..]);
    }
  }

  /**
   * When a run quits, its final state is the quitting tick applied to the
   * state the ticks before it left.
   */
  lemma QuitAtLastTick(step: TickFunction, ls: LoopState, ticks: seq<TickInput>)
    requires RunWith(step, ls, ticks).quit
    ensures var o := RunWith(step, ls, ticks);
            step(RunWith(step, ls, ticks[..o.ran - 1]).state, ticks[o.ran - 1]) == (o.state, true)
  {
    var o := RunWith(step, ls, ticks);
    var j := o.ran - 1;
    NoEarlierQuit(step, ls, ticks, j);
    var p := RunWith(step, ls, ticks[..j]);
    assert ticks[..j] + ticks[j..] == ticks;
    RunAppend(step, ls, ticks[..j], ticks[j..]);
    var rest := ticks[j..];
    assert rest[0] == ticks[j];
    var o2 := RunWith(step, p.state, rest);
    assert o2.ran == 1 && o2.quit;
  }

  /**
   * Over a run the call log only grows, and the deadline advances at least
   * one heartbeat per tick that paced (every tick but a quitting last one).
   */
  lemma {:induction false} RunCadence(ls: LoopState, ticks: seq<TickInput>)
    ensures var o := Run(ls, ticks);
            && ls.routing.calls <= o.state.routing.calls
            && o.state.next >= ls.next + EMU_TIMER * (if o.quit then o.ran - 1 else o.ran)
    decreases |ticks|
  {
    if ticks != [] {
      var (ls1, quit) := TickStep(ls, ticks[0]);
      if !quit {
        RunCadence(ls1, ticks[1..]);
      }
    }
  }

  /**
   * The loop as entered: the reset is the first call it adds, and the
   * deadline ends at least one heartbeat per paced tick after the first one.
   */
  lemma ResetFirstThenCadence(ls: LoopState, start: nat, ticks: seq<TickInput>)
    ensures var o := Run(Enter(ls, start), ticks);
            && |o.state.routing.calls| > |ls.routing.calls|
            && o.state.routing.calls[|ls.routing.calls|] == Reset
            && o.state.next >= start + EMU_TIMER * (if o.quit then o.ran else o.ran + 1)
  {
    var e := Enter(ls, start);
    RunCadence(e, ticks);
    var o := Run(e, ticks);
    assert e.routing.calls[|ls.routing.calls|] == Reset;
    assert o.state.routing.calls[|ls.routing.calls|] == e.routing.calls[|ls.routing.calls|];
  }

  /** No step is pending while running. */
  predicate StepOnlyWhilePaused(ls: LoopState)
  {
    ls.routing.mode.step ==> ls.routing.mode.paused
  }

  /**
   * The tick does not untick Pause: it quits, the debug window is closed, the
   * Pause checkbox reads ticked, or the core was already running after the
   * poll (so the checkbox can only leave it running or pause it).
   */
  predicate NoUntick(ls: LoopState, t: TickInput)
  {
    var p := Polled(ls, t);
    p.1 || t.widgets.None? || t.widgets.value.pause || !p.0.routing.mode.paused
  }

  /** A tick that does not untick Pause keeps a pending step tied to the pause. */
  lemma TickStepWhilePaused(ls: LoopState, t: TickInput)
    requires StepOnlyWhilePaused(ls)
    ensures NoUntick(ls, t) ==> StepOnlyWhilePaused(TickStep(ls, t).0)
  {
    var s := AfterBudget(ls.routing, ls.speed);
    StepQueuedOnlyWhilePaused(s, ls.queue + t.arrivals);
  }

  /** No tick of the run, up to the one that quits, unticks Pause. */
  predicate NeverUnticks(ls: LoopState, ticks: seq<TickInput>)
    decreases |ticks|
  {
    ticks == []
    || (NoUntick(ls, ticks[0])
        && var (ls1, quit) := TickStep(ls, ticks[0]);
           quit || NeverUnticks(ls1, ticks[1..]))
  }

  /** A run in which Pause is never unticked leaves no step pending while running. */
  lemma {:induction false} RunStepWhilePaused(ls: LoopState, ticks: seq<TickInput>)
    requires StepOnlyWhilePaused(ls) && NeverUnticks(ls, ticks)
    ensures StepOnlyWhilePaused(Run(ls, ticks).state)
    decreases |ticks|
  {
    if ticks != [] {
      TickStepWhilePaused(ls, ticks[0]);
      var (ls1, quit) := TickStep(ls, ticks[0]);
      if !quit {
        RunStepWhilePaused(ls1, ticks[1..]);
      }
    }
  }

  /**
   * Unticking Pause in the tick that queued a step leaves the step pending
   * while running: the next tick runs a full heartbeat of cycles and the step
   * stays queued. It runs the next time the core is paused, unless a ^ or $
   * key-up while running clears it first (Router.StepKeyCancelsStaleStep).
   */
  lemma UnpauseLeavesStepPending(s: RouterState, speed: int, now: nat, next: nat)
    requires s.mode.paused && !s.mode.step
    ensures var ls := LoopState(s, [], false, 128, speed, next);
            var t := TickInput([KeyUp(MainWindow, Caret)], Some(Widgets(false, false, 128, speed)), now);
            var (ls1, quit) := TickStep(ls, t);
            var (ls2, quit2) := TickStep(ls1, TickInput([], None, now));
            && !quit && ls1.routing.mode.step && !ls1.routing.mode.paused
            && ls2.routing.calls == ls1.routing.calls + [Emulate(RunningCycles(speed))]
            && ls2.routing.mode.step
  {
    var s1 := AfterBudget(s, speed);
    SharedKeysEndPoll(s1, MainWindow, []);
    assert [KeyUp(MainWindow, Caret)] + [] == [KeyUp(MainWindow, Caret)];
  }
}
