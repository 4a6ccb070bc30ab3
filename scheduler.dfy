/**
 * The run-mode branch and the pacing block of emuloop() (src/main.cpp): how
 * many cycles one tick hands to the emulation core, and how long the loop
 * then sleeps before the next tick.
 */
module Scheduler {
  import opened Wrappers

  /** The emulator's heartbeat, in milliseconds (EMU_TIMER). */
  const EMU_TIMER: nat := 20
  /** The emulated clock rate in Hz (VECTREX_MHZ in vecx's headers). */
  const VECTREX_MHZ: nat := 1500000

  /** The run-mode flags `paused`, `step` and `stepSize`. */
  datatype Mode = Mode(paused: bool, step: bool, stepSize: int)

  /** The cycles one running tick asks for at speed multiplier `speed` (not clamped). */
  function RunningCycles(speed: int): (c: int)
    ensures c == 30000 * speed
    ensures speed >= 1 ==> c >= VECTREX_MHZ * EMU_TIMER / 1000
  {
    (VECTREX_MHZ / 1000) * speed * EMU_TIMER
  }

  /** What one tick does before polling events: the vecx_emu call it makes, if any, and the new mode. */
  datatype Budget = Budget(cycles: Option<int>, mode: Mode)

  function TickBudget(m: Mode, speed: int): (b: Budget)
    ensures b.cycles.None? <==> m.paused && !m.step
    ensures b.mode.paused == m.paused && b.mode.stepSize == m.stepSize
    ensures b.mode.step ==> !b.mode.paused
  {
    if m.paused && m.step then Budget(Some(m.stepSize), m.(step := false))
    else if !m.paused then Budget(Some(RunningCycles(speed)), m)
    else Budget(None, m)
  }

  /**
   * The three run modes: a queued step while paused runs exactly stepSize
   * cycles once and is consumed; running asks for one heartbeat's worth of
   * cycles times the speed; paused without a step runs nothing. Only the step
   * flag ever changes, and after the budget no step is pending unless the
   * core is running.
   */
  lemma BudgetModes(m: Mode, speed: int)
    ensures var b := TickBudget(m, speed);
            && (m.paused && m.step ==> b.cycles == Some(m.stepSize) && !b.mode.step)
            && (!m.paused ==> b.cycles == Some(30000 * speed) && b.mode == m)
            && (m.paused && !m.step ==> b.cycles == None && b.mode == m)
            && b.mode.paused == m.paused && b.mode.stepSize == m.stepSize
            && (b.mode.step ==> !b.mode.paused)
  {
  }

  /** The sleep and the next deadline computed at the end of a tick. */
  datatype Pace = Pace(delay: nat, next: nat)

  /**
   * The pacing block: sleep until the deadline if it is still ahead, and set
   * the next deadline one heartbeat after the moment the loop wakes (on an
   * overrun, one heartbeat after now: no catching up).
   */
  function PaceTick(now: nat, next: nat): (p: Pace)
    ensures now + p.delay == (if now < next then next else now)
    ensures p.next == now + p.delay + EMU_TIMER
    ensures p.next >= next + EMU_TIMER && p.next > now
    ensures now >= next ==> p.delay == 0
  {
    if now < next then Pace(next - now, next + EMU_TIMER)
    else Pace(0, now + EMU_TIMER)
  }

  /**
   * Time never runs backwards, so a tick that starts after the previous wake
   * sleeps at most one heartbeat.
   */
  lemma DelayAtMostOneTick(now: nat, next: nat, now': nat)
    requires now' >= now + PaceTick(now, next).delay
    ensures PaceTick(now', PaceTick(now, next).next).delay <= EMU_TIMER
  {
  }

  /** The deadline after pacing each of the given clock readings in turn. */
  function Deadline(next: nat, nows: seq<nat>): nat
    decreases |nows|
  {
    if nows == [] then next
    else Deadline(PaceTick(nows[0], next).next, nows[1..])
  }

  /** Every clock reading came before its deadline: no tick overran. */
  predicate OnTime(next: nat, nows: seq<nat>)
    decreases |nows|
  {
    nows == [] || (nows[0] < next && OnTime(PaceTick(nows[0], next).next, nows[1..]))
  }

  /**
   * Over any run of ticks the deadline advances by at least one heartbeat per
   * tick, by exactly one per tick when no tick overruns, and always ends at
   * least one heartbeat after the last clock reading.
   */
  lemma {:induction false} Cadence(next: nat, nows: seq<nat>)
    ensures Deadline(next, nows) >= next + |nows| * EMU_TIMER
    ensures OnTime(next, nows) ==> Deadline(next, nows) == next + |nows| * EMU_TIMER
    ensures nows != [] ==> Deadline(next, nows) >= nows[|nows| - 1] + EMU_TIMER
    decreases |nows|
  {
    if nows != [] {
      var p := PaceTick(nows[0], next);
      Cadence(p.next, nows[1..]);
      if |nows| > 1 {
        assert nows[1..][|nows[1..]| - 1] == nows[|nows| - 1];
      }
    }
  }
}
