/**
 What the reply pump of a flow does, read from the steps alone: it copies datagrams from the target to the client
 one after the other, and a flow is closed only for a cause that the run shows.
 */
module UdpPumps {
  import opened Prelude
  import opened UdpRelay
  import opened UdpAdmission
  import UdpSafety

  predicate Own(step: Step, i: nat) {
    OfPump(step) && step.flow == i
  }

  /** The last step before step `n` that the pump of flow `i` took. */
  function LastOf(steps: seq<Step>, i: nat, n: nat): (last: Option<Step>)
    requires n <= |steps|
    ensures last.Some? ==> Own(last.value, i)
    decreases n
  {
    if n == 0 then None
    else if Own(steps[n - 1], i) then Some(steps[n - 1])
    else LastOf(steps, i, n - 1)
  }

  /** The pump waits for the target: it has just started, or has delivered a reply. */
  predicate Idles(last: Option<Step>) {
    last.None? || (last.value.PumpWrite? && last.value.written)
  }

  /** The pump could not read, or could not deliver. */
  predicate Failed(last: Option<Step>) {
    last.Some? && (last.value.PumpReadError? || (last.value.PumpWrite? && !last.value.written))
  }

  /** Where the pump is, by its last step. */
  predicate PumpFits(pc: PumpPc, last: Option<Step>) {
    match pc
    case Unborn => last.None?
    case Reading => Idles(last)
    case Touching => last.Some? && last.value.PumpRead?
    case Writing => last.Some? && last.value.PumpTouch?
    case Closing => Failed(last)
    case Deleting => last.Some? && last.value.PumpClose?
    case Signalling => last.Some? && last.value.PumpDelete?
    case Finished => last.Some? && last.value.PumpDone?
  }

  lemma OwnStepFits(s: Relay, step: Step, i: nat)
    requires Enabled(s, step) && Own(step, i)
    ensures i < |s.flows| && i < |Apply(s, step).flows| && PumpFits(Apply(s, step).flows[i].pump, Some(step))
  {
    assert Apply(s, step) == PumpStep(s, step);
    hide Apply, Unmapped;
  }

  lemma OtherPumpStep(s: Relay, step: Step, i: nat)
    requires Enabled(s, step) && OfPump(step) && i < |s.flows| && step.flow != i
    ensures Apply(s, step).flows == s.flows[step.flow := Pumped(s.flows[step.flow], step)]
    ensures Apply(s, step).flows[i] == s.flows[i]
  {
    assert Apply(s, step) == PumpStep(s, step);
    hide Apply, Unmapped, Pumped;
  }

  lemma OtherStepKeepsPump(s: Relay, step: Step, i: nat)
    requires Enabled(s, step) && i < |s.flows| && !Own(step, i)
    ensures i < |Apply(s, step).flows|
    ensures Apply(s, step).flows[i].pump == s.flows[i].pump
         || (step.Spawn? && s.reader.flow == i && Apply(s, step).flows[i].pump == Reading)
  {
    if OfPump(step) {
      OtherPumpStep(s, step, i);
      hide Apply;
    }
    hide PumpStep;
  }

  lemma NewFlowIsUnborn(s: Relay, step: Step, i: nat)
    requires Enabled(s, step) && |s.flows| <= i < |Apply(s, step).flows|
    ensures Apply(s, step).flows[i].pump == Unborn
  {
    FlowsAdded(s, step);
  }

  /** A pump that has not started has taken no step. */
  lemma {:induction false} NoStepsYet(states: seq<Relay>, steps: seq<Step>, n: nat, i: nat)
    requires IsRun(states, steps) && n < |states| && |states[n].flows| <= i
    ensures LastOf(steps, i, n).None?
  {
    hide Apply, Own, Enabled;
    if n > 0 {
      RunStep(states, steps, n - 1);
      FlowsAdded(states[n - 1], steps[n - 1]);
      NotOfPump(states[n - 1], steps[n - 1], i);
      NoStepsYet(states, steps, n - 1, i);
    }
  }

  lemma SpawnsUnborn(s: Relay, step: Step)
    requires UdpSafety.Inv(s) && Enabled(s, step) && step.Spawn?
    ensures s.flows[s.reader.flow].pump == Unborn
  {
  }

  lemma {:induction false} PumpsFit(states: seq<Relay>, steps: seq<Step>, n: nat, i: nat)
    requires IsRun(states, steps) && n < |states| && i < |states[n].flows|
    ensures PumpFits(states[n].flows[i].pump, LastOf(steps, i, n))
  {
    hide *;
    RunLengths(states, steps);
    var s, step := states[n - 1], steps[n - 1];
    RunStep(states, steps, n - 1);
    LastStep(steps, i, n);
    if i >= |s.flows| {
      NoStepsYet(states, steps, n - 1, i);
      NewFlowIsUnborn(s, step, i);
      NotOfPump(s, step, i);
      UnbornFits();
    } else {
      PumpsFit(states, steps, n - 1, i);
      if Own(step, i) {
        OwnStepFits(s, step, i);
      } else {
        OtherStepKeepsPump(s, step, i);
        if step.Spawn? {
          UdpSafety.RunInv(states, steps, n - 1);
          SpawnsUnborn(s, step);
          StartedFits(LastOf(steps, i, n - 1));
        }
      }
    }
  }

  lemma {:induction false} LastStep(steps: seq<Step>, i: nat, n: nat)
    requires 0 < n <= |steps|
    ensures LastOf(steps, i, n) == if Own(steps[n - 1], i) then Some(steps[n - 1]) else LastOf(steps, i, n - 1)
  {
  }

  lemma NotOfPump(s: Relay, step: Step, i: nat)
    requires Enabled(s, step) && |s.flows| <= i
    ensures !Own(step, i)
  {
  }

  lemma UnbornFits()
    ensures PumpFits(Unborn, None)
  {
  }

  lemma StartedFits(last: Option<Step>)
    ensures PumpFits(Unborn, last) ==> PumpFits(Reading, last)
  {
  }

  // ---- replies ---------------------------------------------------------------------------

  /**
   Replies reach the client one by one and none twice: a pump reads only when it has just started or delivered, and
   what it tries to deliver is what it read last, its flow marked as active in between.
   */
  lemma {:induction false} RepliesInOrder(states: seq<Relay>, steps: seq<Step>, n: nat, i: nat)
    requires IsRun(states, steps) && n < |steps|
    ensures steps[n].PumpRead? && steps[n].flow == i ==> Idles(LastOf(steps, i, n))
    ensures steps[n].PumpTouch? && steps[n].flow == i ==> LastOf(steps, i, n) == Some(PumpRead(i))
    ensures steps[n].PumpWrite? && steps[n].flow == i ==> LastOf(steps, i, n).Some? && LastOf(steps, i, n).value.PumpTouch?
  {
    RunStep(states, steps, n);
    if Own(steps[n], i) {
      assert PumpAtFlow(states[n], i);
      PumpsFit(states, steps, n, i);
    }
    hide Apply;
  }

  predicate PumpAtFlow(s: Relay, i: nat) {
    i < |s.flows|
  }

  // ---- closing ----------------------------------------------------------------------------

  /** Closing the relay, or a reaper that finds the flow idle, closes a flow that is its client's entry. */
  predicate ClosedFromOutside(s: Relay, step: Step, i: nat) {
    && i < |s.flows| && s.flows[i].client in s.sessions && s.sessions[s.flows[i].client] == i
    && (step.CloseAll? || (step.Reap? && s.flows[i].client in step.victims && s.flows[i].lastActive < step.now - 120.0))
  }

  lemma ClosingStep(s: Relay, step: Step, i: nat)
    requires UdpSafety.Inv(s) && Enabled(s, step) && i < |s.flows| && s.flows[i].open
    requires i < |Apply(s, step).flows| && !Apply(s, step).flows[i].open
    ensures ClosedFromOutside(s, step, i) || step == PumpClose(i)
  {
    if Own(step, i) {
      assert Apply(s, step) == PumpStep(s, step);
      hide Apply;
    } else if OfPump(step) {
      OtherPumpStep(s, step, i);
      hide Apply;
    }
    hide PumpStep, UdpSafety.CountsGoroutines, UdpSafety.CleanupInOrder, UdpSafety.UnbornAreHeld, UdpSafety.ReaderKnows, UdpSafety.AfterLoop;
  }

  /**
   A flow's socket is closed only if the relay closes, if the reaper found it idle, or by its own pump after a read
   that failed or a reply that could not be delivered.
   */
  lemma {:induction false} FlowsCloseForCause(states: seq<Relay>, steps: seq<Step>, n: nat, i: nat)
    requires IsRun(states, steps) && n < |steps| && i < |states[n].flows| && states[n].flows[i].open
    requires i < |states[n + 1].flows| && !states[n + 1].flows[i].open
    ensures ClosedFromOutside(states[n], steps[n], i) || (steps[n] == PumpClose(i) && Failed(LastOf(steps, i, n)))
  {
    hide LastOf, UdpSafety.Inv, ClosedFromOutside, Apply, Enabled;
    RunStep(states, steps, n);
    UdpSafety.RunInv(states, steps, n);
    ClosingStep(states[n], steps[n], i);
    if steps[n] == PumpClose(i) {
      PumpsFit(states, steps, n, i);
      ClosingPump(states[n], i);
    }
  }

  lemma ClosingPump(s: Relay, i: nat)
    requires Enabled(s, PumpClose(i))
    ensures i < |s.flows| && s.flows[i].pump == Closing
  {
  }
}
