/**
 Shutdown of the UDP relay: once the read loop has closed the mapped sockets and the context is
 cancelled, every goroutine runs out of steps, and the relay ends with nothing open, mapped or counted.
 */
module UdpDrain {
  import opened Prelude
  import opened UdpRelay
  import opened UdpSafety

  /** The read loop is done with the sockets and the context is cancelled. */
  ghost predicate Draining(s: Relay) {
    Inv(s) && s.cancelled && (s.reader.Waiting? || s.reader.Stopped?)
  }

  /** Steps a pump still takes once its socket is closed. */
  function PumpWork(f: Flow): nat {
    match f.pump
    case Touching => 6
    case Writing => 5
    case Reading => 4
    case Closing => 3
    case Deleting => 2
    case Signalling => 1
    case _ => 0
  }

  /** What is left to do; a pending tick may make the reaper scan once more before it leaves. */
  function Remaining(s: Relay): nat {
    Total(s.flows, PumpWork)
    + (if s.reader.Stopped? then 0 else 1)
    + (match s.reaper case Ticking => 2 case Leaving => 1 case Gone => 0)
    + (if s.reaper.Ticking? && s.tick then 1 else 0)
  }

  /** Closing the mapped sockets leaves no target socket open. */
  lemma CloseAllClosesEverything(s: Relay)
    requires Inv(s) && Enabled(s, CloseAll)
    ensures forall i :: 0 <= i < |s.flows| ==> !Apply(s, CloseAll).flows[i].open
    ensures s.cancelled ==> Draining(Apply(s, CloseAll))
  {
    CloseAllInv(s);
  }

  /** A pump whose socket is closed has less to do after each of its steps. */
  lemma PumpedDrops(s: Relay, step: Step)
    requires OfPump(step) && Enabled(s, step) && !s.flows[step.flow].open
    ensures PumpWork(Pumped(s.flows[step.flow], step)) < PumpWork(s.flows[step.flow])
  {
  }

  lemma PumpApplies(s: Relay, step: Step)
    requires OfPump(step) && Enabled(s, step)
    ensures step.flow < |s.flows| && Apply(s, step).reader == s.reader && Apply(s, step).reaper == s.reaper
    ensures Apply(s, step).tick == s.tick
    ensures Apply(s, step).flows == s.flows[step.flow := Pumped(s.flows[step.flow], step)]
  {
    hide ReaderStep, Pumped, Unmapped;
  }

  lemma PumpDrains(s: Relay, step: Step)
    requires OfPump(step) && Enabled(s, step) && !s.flows[step.flow].open
    ensures Remaining(Apply(s, step)) < Remaining(s)
  {
    hide Apply, Enabled, Pumped, PumpWork, Total;
    PumpedDrops(s, step);
    PumpApplies(s, step);
    TotalUpdate(s.flows, step.flow, Pumped(s.flows[step.flow], step), PumpWork);
  }

  lemma ReaperDrains(s: Relay, step: Step)
    requires Enabled(s, step) && (step.Reap? || step.ReaperLeave? || step.ReaperDone?)
    ensures Remaining(Apply(s, step)) < Remaining(s)
  {
    if step.Reap? {
      TotalSame(s.flows, Closed(s.flows, FlowsOf(s.sessions, step.victims)), PumpWork);
    }
  }

  /** Every step of the relay's own goroutines brings the end nearer, and draining goes on. */
  lemma DrainStep(s: Relay, step: Step)
    requires Draining(s) && Enabled(s, step) && !OfSurroundings(step)
    ensures Draining(Apply(s, step)) && Remaining(Apply(s, step)) < Remaining(s)
  {
    StepInv(s, step);
    if OfPump(step) {
      assert AfterLoop(s);
      PumpDrains(s, step);
    } else if step.Reap? || step.ReaperLeave? || step.ReaperDone? {
      ReaperDrains(s, step);
    }
  }

  /** The surroundings only ever add a tick. */
  lemma SurroundingsStep(s: Relay, step: Step)
    requires Draining(s) && Enabled(s, step) && OfSurroundings(step)
    ensures Draining(Apply(s, step))
    ensures Remaining(Apply(s, step)) <= Remaining(s) + (if step.Tick? then 1 else 0)
  {
    StepInv(s, step);
  }

  /** Until the relay has stopped, one of its goroutines can always take a step. */
  lemma NeverStuck(s: Relay)
    requires Draining(s) && !s.reader.Stopped?
    ensures exists step :: Enabled(s, step) && !OfSurroundings(step)
  {
    if exists i :: 0 <= i < |s.flows| && Unfinished(s.flows[i]) != 0 {
      var i :| 0 <= i < |s.flows| && Unfinished(s.flows[i]) != 0;
      var step := match s.flows[i].pump
        case Reading => PumpReadError(i)
        case Touching => PumpTouch(i, 0.0)
        case Writing => PumpWrite(i, false)
        case Closing => PumpClose(i)
        case Deleting => PumpDelete(i)
        case Signalling => PumpDone(i)
        case _ => WaitDone;
      assert Enabled(s, step) && !OfSurroundings(step);
    } else if !s.reaper.Gone? {
      var step := if s.reaper.Ticking? then ReaperLeave else ReaperDone;
      assert Enabled(s, step) && !OfSurroundings(step);
    } else {
      TotalZero(s.flows, Unfinished);
      assert Enabled(s, WaitDone) && !OfSurroundings(WaitDone);
    }
  }

  /** A stopped relay has count zero, an empty map, no open socket, and no goroutine left. */
  lemma StoppedIsEmpty(s: Relay)
    requires Inv(s) && s.reader.Stopped?
    ensures s.count == 0 && s.sessions == map[] && s.reaper.Gone?
    ensures forall i :: 0 <= i < |s.flows| ==> !s.flows[i].open && s.flows[i].pump == Finished
  {
    TotalZero(s.flows, Unfinished);
    forall c | c in s.sessions
      ensures false
    {
      var i := s.sessions[c];
      assert Mapped(s, i);
    }
    forall i | 0 <= i < |s.flows|
      ensures !s.flows[i].open && s.flows[i].pump == Finished
    {
      assert Unfinished(s.flows[i]) == 0;
    }
  }

  function OwnSteps(steps: seq<Step>, lo: nat, hi: nat): nat
    requires lo <= hi <= |steps|
    decreases hi
  {
    if lo == hi then 0 else OwnSteps(steps, lo, hi - 1) + (if OfSurroundings(steps[hi - 1]) then 0 else 1)
  }

  function Ticks(steps: seq<Step>, lo: nat, hi: nat): nat
    requires lo <= hi <= |steps|
    decreases hi
  {
    if lo == hi then 0 else Ticks(steps, lo, hi - 1) + (if steps[hi - 1].Tick? then 1 else 0)
  }

  lemma {:induction false} DrainRun(states: seq<Relay>, steps: seq<Step>, lo: nat, hi: nat)
    requires IsRun(states, steps) && lo <= hi < |states| && Draining(states[lo])
    ensures Draining(states[hi])
    ensures OwnSteps(steps, lo, hi) + Remaining(states[hi]) <= Remaining(states[lo]) + Ticks(steps, lo, hi)
    decreases hi
  {
    hide Draining, Apply, Remaining;
    if lo < hi {
      DrainRun(states, steps, lo, hi - 1);
      var s, step := states[hi - 1], steps[hi - 1];
      assert Enabled(s, step) && states[hi] == Apply(s, step);
      if OfSurroundings(step) {
        SurroundingsStep(s, step);
      } else {
        DrainStep(s, step);
      }
    }
  }

  /**
   Shutdown drains: from a cancelled state `lo` whose sockets the read loop has closed, the relay takes at
   most `Remaining` steps plus one per tick, can always take one until it has stopped, and is then empty.
   */
  lemma {:induction false} ShutdownDrains(states: seq<Relay>, steps: seq<Step>, lo: nat, hi: nat)
    requires IsRun(states, steps) && lo <= hi < |states|
    requires states[lo].cancelled && states[lo].reader.Waiting?
    ensures forall i :: 0 <= i < |states[hi].flows| ==> !states[hi].flows[i].open
    ensures states[hi].count == (if states[hi].reaper.Gone? then 0 else 1) + Total(states[hi].flows, Unfinished)
    ensures OwnSteps(steps, lo, hi) <= Remaining(states[lo]) + Ticks(steps, lo, hi)
    ensures states[hi].reader.Stopped? || exists step :: Enabled(states[hi], step) && !OfSurroundings(step)
    ensures states[hi].reader.Stopped? ==> states[hi].count == 0 && states[hi].sessions == map[]
  {
    RunInv(states, steps, lo);
    DrainRun(states, steps, lo, hi);
    if states[hi].reader.Stopped? {
      StoppedIsEmpty(states[hi]);
    } else {
      NeverStuck(states[hi]);
    }
  }
}
