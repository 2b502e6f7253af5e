/** What holds of the UDP relay's session map and sockets in every state of every interleaving. */
module UdpSafety {
  import opened Prelude
  import opened UdpRelay

  predicate Mapped(s: Relay, i: nat) {
    i < |s.flows| && s.flows[i].client in s.sessions && s.sessions[s.flows[i].client] == i
  }

  /** Each entry of the map is a flow of its own client. */
  ghost predicate OwnEntries(s: Relay) {
    forall c :: c in s.sessions ==> s.sessions[c] < |s.flows| && s.flows[s.sessions[c]].client == c
  }

  predicate JustDialled(s: Relay, i: nat) {
    s.reader.Inserting? && s.reader.flow == i
  }

  /** Every open target socket is the map entry of its client, or was only just dialled. */
  ghost predicate OpenAreMapped(s: Relay) {
    forall i :: 0 <= i < |s.flows| && s.flows[i].open ==> JustDialled(s, i) || Mapped(s, i)
  }

  /** What the read loop relies on between its steps. */
  ghost predicate ReaderKnows(s: Relay) {
    match s.reader
    case Admitting(who) => who !in s.sessions
    case Dialling(who) => who !in s.sessions
    case Inserting(who, i) =>
      who !in s.sessions && i < |s.flows| && s.flows[i].client == who && s.flows[i].pump == Unborn
    case Spawning(i) => i < |s.flows| && s.flows[i].pump == Unborn
    case Bumping(i) => i < |s.flows|
    case Sending(i) => i < |s.flows|
    case _ => true
  }

  /** A pump is unborn only while the reader holds its flow. */
  ghost predicate UnbornAreHeld(s: Relay) {
    forall i :: 0 <= i < |s.flows| && s.flows[i].pump == Unborn ==> JustDialled(s, i) || s.reader == Spawning(i)
  }

  /** A pump that cleans up has closed its socket, and then unmapped its flow. */
  ghost predicate CleanupInOrder(s: Relay) {
    forall i :: 0 <= i < |s.flows| ==>
      && (s.flows[i].pump in {Deleting, Signalling, Finished} ==> !s.flows[i].open)
      && (s.flows[i].pump in {Signalling, Finished} ==> !Mapped(s, i))
  }

  function Unfinished(f: Flow): nat {
    if f.pump == Unborn || f.pump == Finished then 0 else 1
  }

  /** The wait group counts the reaper and the unfinished pumps. */
  predicate CountsGoroutines(s: Relay) {
    s.count == (if s.reaper.Gone? then 0 else 1) + Total(s.flows, Unfinished)
  }

  /** Once the mapped sockets are closed no target socket is open, and a stopped relay is empty-handed. */
  ghost predicate AfterLoop(s: Relay) {
    && (s.reader.Waiting? || s.reader.Stopped? ==> forall i :: 0 <= i < |s.flows| ==> !s.flows[i].open)
    && (s.reader.Stopped? ==> s.count == 0)
    && (s.reaper.Leaving? || s.reaper.Gone? ==> s.cancelled)
  }

  ghost predicate Inv(s: Relay) {
    OwnEntries(s) && OpenAreMapped(s) && ReaderKnows(s) && UnbornAreHeld(s) && CleanupInOrder(s) && CountsGoroutines(s) && AfterLoop(s)
  }

  lemma StartInv()
    ensures Inv(START)
  {
  }

  lemma DialledInv(s: Relay, who: Client, now: real)
    requires Inv(s) && s.reader == Dialling(who)
    ensures Inv(s.(flows := s.flows + [Flow(who, true, now, Unborn)], reader := Inserting(who, |s.flows|)))
  {
    TotalAppend(s.flows, Flow(who, true, now, Unborn), Unfinished);
  }

  lemma DialInv(s: Relay, now: real)
    requires Inv(s) && Enabled(s, Dial(true, now))
    ensures Inv(Apply(s, Dial(true, now)))
  {
    hide Inv;
    DialledInv(s, s.reader.who, now);
  }

  lemma InsertedInv(s: Relay, who: Client, i: nat)
    requires Inv(s) && s.reader == Inserting(who, i)
    ensures Inv(s.(sessions := s.sessions[who := i], reader := Spawning(i)))
  {
    hide Total, Unfinished;
  }

  lemma InsertInv(s: Relay)
    requires Inv(s) && Enabled(s, Insert)
    ensures Inv(Apply(s, Insert))
  {
    hide Inv;
    InsertedInv(s, s.reader.who, s.reader.flow);
  }

  lemma SpawnedInv(s: Relay, i: nat)
    requires Inv(s) && s.reader == Spawning(i)
    ensures Inv(s.(flows := s.flows[i := s.flows[i].(pump := Reading)], count := s.count + 1, reader := Bumping(i)))
  {
    TotalUpdate(s.flows, i, s.flows[i].(pump := Reading), Unfinished);
  }

  lemma SpawnInv(s: Relay)
    requires Inv(s) && Enabled(s, Spawn)
    ensures Inv(Apply(s, Spawn))
  {
    hide Inv;
    SpawnedInv(s, s.reader.flow);
  }

  lemma BumpedInv(s: Relay, i: nat, now: real)
    requires Inv(s) && s.reader == Bumping(i)
    ensures Inv(s.(flows := s.flows[i := s.flows[i].(lastActive := now)], reader := Sending(i)))
  {
    TotalUpdate(s.flows, i, s.flows[i].(lastActive := now), Unfinished);
  }

  lemma BumpInv(s: Relay, now: real)
    requires Inv(s) && Enabled(s, Bump(now))
    ensures Inv(Apply(s, Bump(now)))
  {
    hide Inv;
    BumpedInv(s, s.reader.flow, now);
  }

  lemma AllClosedInv(s: Relay)
    requires Inv(s) && s.reader.LeftLoop?
    ensures Inv(s.(flows := Closed(s.flows, s.sessions.Values), reader := Waiting))
  {
    TotalSame(s.flows, Closed(s.flows, s.sessions.Values), Unfinished);
    forall i | 0 <= i < |s.flows| && s.flows[i].open
      ensures i in s.sessions.Values
    {
      assert Mapped(s, i);
    }
    hide Total;
  }

  lemma CloseAllInv(s: Relay)
    requires Inv(s) && Enabled(s, CloseAll)
    ensures Inv(Apply(s, CloseAll))
  {
    hide Inv;
    AllClosedInv(s);
  }

  predicate HoldsFlow(r: ReaderPc) {
    r.Inserting? || r.Spawning?
  }

  /** The reader moves on and holds no flow before or after. */
  lemma MovedInv(s: Relay, r: ReaderPc, listening: bool)
    requires Inv(s) && ReaderKnows(s.(reader := r)) && !HoldsFlow(s.reader) && !HoldsFlow(r)
    requires r.Waiting? ==> s.reader.Waiting?
    requires r.Stopped? ==> s.reader.Waiting? && s.count == 0
    ensures Inv(s.(reader := r, listening := listening))
  {
    hide Total, Unfinished;
  }

  /** Steps of the reader that only move it on. */
  predicate IsMove(step: Step) {
    step.Receive? || step.ReceiveError? || step.LookUp? || step.Admit? || (step.Dial? && !step.dialled) || step.Send? || step.WaitDone?
  }

  lemma MoveKnows(s: Relay, step: Step)
    requires OwnEntries(s) && ReaderKnows(s) && Enabled(s, step) && IsMove(step)
    ensures var s' := Apply(s, step);
            && s' == s.(reader := s'.reader, listening := s'.listening) && ReaderKnows(s.(reader := s'.reader))
            && !HoldsFlow(s.reader) && !HoldsFlow(s'.reader) && !s'.reader.Waiting?
            && (s'.reader.Stopped? ==> s.reader.Waiting? && s.count == 0)
  {
    hide PumpStep;
  }

  lemma MoveInv(s: Relay, step: Step)
    requires Inv(s) && Enabled(s, step) && IsMove(step)
    ensures Inv(Apply(s, step))
  {
    MoveKnows(s, step);
    hide Apply, Enabled, ReaderKnows, OwnEntries, OpenAreMapped, UnbornAreHeld, CleanupInOrder, CountsGoroutines, AfterLoop;
    MovedInv(s, Apply(s, step).reader, Apply(s, step).listening);
  }

  lemma ReaderInv(s: Relay, step: Step)
    requires Inv(s) && Enabled(s, step) && !OfPump(step) && !OfSurroundings(step)
    requires !step.Reap? && !step.ReaperLeave? && !step.ReaperDone?
    ensures Inv(Apply(s, step))
  {
    hide Inv, Apply, Enabled;
    match step
    case Dial(dialled, now) =>
      if dialled {
        DialInv(s, now);
      } else {
        MoveInv(s, step);
      }
    case Insert => InsertInv(s);
    case Spawn => SpawnInv(s);
    case Bump(now) => BumpInv(s, now);
    case CloseAll => CloseAllInv(s);
    case _ => MoveInv(s, step);
  }

  /** A pump's flow may become this one without being unmapped. */
  predicate MayMove(f: Flow, f': Flow) {
    && f'.client == f.client && (f'.open ==> f.open) && f.pump != Unborn && f'.pump != Unborn && f'.pump != Signalling
    && (f'.pump == Finished ==> f.pump == Signalling) && (f'.pump == Deleting ==> !f'.open)
  }

  lemma MovedPumpIsMapped(s: Relay, i: nat, f: Flow)
    requires OwnEntries(s) && OpenAreMapped(s) && ReaderKnows(s) && UnbornAreHeld(s) && i < |s.flows| && MayMove(s.flows[i], f)
    ensures var s' := s.(flows := s.flows[i := f]);
            OwnEntries(s') && OpenAreMapped(s') && ReaderKnows(s') && UnbornAreHeld(s')
  {
  }

  lemma MovedPumpIsInOrder(s: Relay, i: nat, f: Flow)
    requires CleanupInOrder(s) && AfterLoop(s) && i < |s.flows| && MayMove(s.flows[i], f)
    ensures CleanupInOrder(s.(flows := s.flows[i := f])) && AfterLoop(s.(flows := s.flows[i := f]))
  {
  }

  /** A pump moves on without unmapping its flow. */
  lemma PumpMoveInv(s: Relay, i: nat, f: Flow, count: int)
    requires Inv(s) && i < |s.flows| && MayMove(s.flows[i], f)
    requires count - Unfinished(f) == s.count - Unfinished(s.flows[i])
    requires s.reader.Stopped? ==> count == 0
    ensures Inv(s.(flows := s.flows[i := f], count := count))
  {
    TotalUpdate(s.flows, i, f, Unfinished);
    MovedPumpIsMapped(s, i, f);
    MovedPumpIsInOrder(s, i, f);
    var s' := s.(flows := s.flows[i := f]);
    OnlyCount(s', count);
    hide OwnEntries, OpenAreMapped, ReaderKnows, UnbornAreHeld, CleanupInOrder, MayMove, Total, Unfinished, AfterLoop;
  }

  lemma OnlyCount(s: Relay, count: int)
    ensures var s' := s.(count := count);
            && (OwnEntries(s) ==> OwnEntries(s')) && (OpenAreMapped(s) ==> OpenAreMapped(s')) && (ReaderKnows(s) ==> ReaderKnows(s'))
            && (UnbornAreHeld(s) ==> UnbornAreHeld(s')) && (CleanupInOrder(s) ==> CleanupInOrder(s'))
            && (AfterLoop(s) && (s.reader.Stopped? ==> count == 0) ==> AfterLoop(s'))
  {
  }

  lemma PumpUnmapInv(s: Relay, i: nat)
    requires Inv(s) && PumpAt(s, i, Deleting)
    ensures Inv(s.(flows := s.flows[i := s.flows[i].(pump := Signalling)], sessions := Unmapped(s, i)))
  {
    TotalUpdate(s.flows, i, s.flows[i].(pump := Signalling), Unfinished);
  }

  /** No pump is left when the count is zero, so none moves after the relay has stopped. */
  lemma StoppedIsDone(s: Relay, i: nat)
    requires Inv(s) && s.reader.Stopped? && i < |s.flows|
    ensures Unfinished(s.flows[i]) == 0 && s.reaper.Gone?
  {
    TotalZero(s.flows, Unfinished);
  }

  lemma PumpInv(s: Relay, step: Step)
    requires Inv(s) && Enabled(s, step) && OfPump(step)
    ensures Inv(Apply(s, step))
  {
    hide Inv;
    var i := step.flow;
    if s.reader.Stopped? {
      StoppedIsDone(s, i);
      assert false;
    }
    if step.PumpDelete? {
      PumpUnmapInv(s, i);
    } else {
      PumpMoveInv(s, i, Pumped(s.flows[i], step), if step.PumpDone? then s.count - 1 else s.count);
    }
  }

  lemma ReapedInv(s: Relay, victims: set<Client>)
    requires Inv(s)
    ensures Inv(s.(flows := Closed(s.flows, FlowsOf(s.sessions, victims)), sessions := s.sessions - victims, tick := false))
  {
    TotalSame(s.flows, Closed(s.flows, FlowsOf(s.sessions, victims)), Unfinished);
  }

  lemma ReapInv(s: Relay, victims: set<Client>, now: real)
    requires Inv(s) && Enabled(s, Reap(victims, now))
    ensures Inv(Apply(s, Reap(victims, now)))
  {
    hide Inv;
    ReapedInv(s, victims);
  }

  lemma ReaperDoneInv(s: Relay)
    requires Inv(s) && Enabled(s, ReaperDone)
    ensures Inv(Apply(s, ReaperDone))
  {
    if s.reader.Stopped? {
      TotalZero(s.flows, Unfinished);
    }
  }

  lemma OutsideInv(s: Relay, step: Step)
    requires Inv(s) && Enabled(s, step) && (OfSurroundings(step) || step.ReaperLeave?)
    ensures Inv(Apply(s, step))
  {
    hide ReaderStep, PumpStep;
    assert Total(Apply(s, step).flows, Unfinished) == Total(s.flows, Unfinished);
  }

  lemma StepInv(s: Relay, step: Step)
    requires Inv(s) && Enabled(s, step)
    ensures Inv(Apply(s, step))
  {
    hide Inv, Apply, Enabled;
    match step
    case Reap(victims, now) => ReapInv(s, victims, now);
    case ReaperLeave => OutsideInv(s, step);
    case ReaperDone => ReaperDoneInv(s);
    case _ =>
      if OfPump(step) {
        PumpInv(s, step);
      } else if OfSurroundings(step) {
        OutsideInv(s, step);
      } else {
        ReaderInv(s, step);
      }
  }

  lemma {:induction false} RunInv(states: seq<Relay>, steps: seq<Step>, n: nat)
    requires IsRun(states, steps) && n < |states|
    ensures Inv(states[n])
  {
    if n == 0 {
      StartInv();
    } else {
      RunInv(states, steps, n - 1);
      StepInv(states[n - 1], steps[n - 1]);
    }
  }

  // ---- what the invariant means ---------------------------------------------------

  predicate BothOpen(s: Relay, i: nat, j: nat) {
    i < |s.flows| && j < |s.flows| && s.flows[i].open && s.flows[j].open
  }

  /**
   In every state of every interleaving each map entry is a flow of its own client, every open target
   socket is its client's map entry or was only just dialled, and no client has two open sockets.
   */
  lemma MapSafety(states: seq<Relay>, steps: seq<Step>, n: nat)
    requires IsRun(states, steps) && n < |states|
    ensures var s := states[n];
            && (forall c :: c in s.sessions ==> s.sessions[c] < |s.flows| && s.flows[s.sessions[c]].client == c)
            && (forall i :: 0 <= i < |s.flows| && s.flows[i].open ==> JustDialled(s, i) || Mapped(s, i))
            && (forall i: nat, j: nat :: BothOpen(s, i, j) && s.flows[i].client == s.flows[j].client ==> i == j)
  {
    RunInv(states, steps, n);
    var s := states[n];
    forall i: nat, j: nat | BothOpen(s, i, j) && s.flows[i].client == s.flows[j].client
      ensures i == j
    {
      assert JustDialled(s, i) || Mapped(s, i);
      assert JustDialled(s, j) || Mapped(s, j);
    }
  }

  /** An insert never overwrites an entry: the client is still unmapped, although the map was unlocked since the lookup. */
  lemma InsertNeverOverwrites(states: seq<Relay>, steps: seq<Step>, n: nat)
    requires IsRun(states, steps) && n < |steps| && steps[n] == Insert
    ensures states[n].reader.Inserting? && states[n].reader.who !in states[n].sessions
    ensures forall c :: c in states[n].sessions ==> c in states[n + 1].sessions && states[n + 1].sessions[c] == states[n].sessions[c]
  {
    RunInv(states, steps, n);
    assert Enabled(states[n], steps[n]);
  }

  lemma RemovalStep(s: Relay, step: Step, c: Client)
    requires Inv(s) && Enabled(s, step) && c in s.sessions && c !in Apply(s, step).sessions
    ensures var i := s.sessions[c];
            && i < |Apply(s, step).flows| && !Apply(s, step).flows[i].open
            && (step.Reap? || step == PumpDelete(i))
  {
    hide OpenAreMapped, ReaderKnows, UnbornAreHeld, CountsGoroutines, AfterLoop, IdleVictims;
    var i := s.sessions[c];
    assert i < |s.flows| && s.flows[i].client == c;
    if step.Reap? {
      assert i in FlowsOf(s.sessions, step.victims);
    } else if OfPump(step) {
      hide ReaderStep;
    } else {
      hide PumpStep;
    }
  }

  /**
   Whatever step removes an entry closes its socket by then, and a pump's cleanup removes at most the
   entry of its own flow, even if its client has been mapped again since.
   */
  lemma RemovalIsClean(states: seq<Relay>, steps: seq<Step>, n: nat, c: Client)
    requires IsRun(states, steps) && n < |steps|
    requires c in states[n].sessions && c !in states[n + 1].sessions
    ensures states[n].sessions[c] < |states[n + 1].flows| && !states[n + 1].flows[states[n].sessions[c]].open
    ensures OfPump(steps[n]) ==> steps[n] == PumpDelete(states[n].sessions[c])
    ensures OfPump(steps[n]) || steps[n].Reap?
  {
    hide Inv, Apply, Enabled;
    RunInv(states, steps, n);
    var s, step := states[n], steps[n];
    assert Enabled(s, step) && states[n + 1] == Apply(s, step);
    RemovalStep(s, step, c);
  }

  // ---- only idle flows are reaped ------------------------------------------------------

  /** When a step handled a datagram of flow `i`: dialling for it, forwarding to it, or a reply from it. */
  function TouchTime(s: Relay, step: Step, i: nat): Option<real> {
    match step
    case Dial(dialled, now) => if dialled && i == |s.flows| then Some(now) else None
    case Bump(now) => if s.reader.Bumping? && s.reader.flow == i then Some(now) else None
    case PumpTouch(j, now) => if i == j then Some(now) else None
    case _ => None
  }

  function Clock(step: Step): Option<real> {
    match step
    case Dial(_, now) => Some(now)
    case Bump(now) => Some(now)
    case PumpTouch(_, now) => Some(now)
    case Reap(_, now) => Some(now)
    case _ => None
  }

  ghost predicate ClockRunsOn(steps: seq<Step>) {
    forall i, j :: 0 <= i <= j < |steps| && Clock(steps[i]).Some? && Clock(steps[j]).Some? ==>
      Clock(steps[i]).value <= Clock(steps[j]).value
  }

  lemma ActivityStep(s: Relay, step: Step, i: nat, t: real)
    requires Enabled(s, step) && i < |s.flows| && s.flows[i].lastActive >= t
    requires Clock(step).Some? ==> Clock(step).value >= t
    ensures i < |Apply(s, step).flows| && Apply(s, step).flows[i].lastActive >= t
  {
    if OfPump(step) {
      hide ReaderStep;
    } else if step.Reap? {
      hide PumpStep, ReaderStep;
    } else {
      hide PumpStep, IdleVictims;
    }
  }

  lemma TouchStep(s: Relay, step: Step, i: nat)
    requires Enabled(s, step) && TouchTime(s, step, i).Some?
    ensures Clock(step) == TouchTime(s, step, i)
    ensures i < |Apply(s, step).flows| && Apply(s, step).flows[i].lastActive == TouchTime(s, step, i).value
  {
  }

  /** A flow keeps at least the time of every datagram handled for it. */
  lemma {:induction false} ActivityIsKept(states: seq<Relay>, steps: seq<Step>, k: nat, n: nat, i: nat)
    requires IsRun(states, steps) && k < n < |states| && ClockRunsOn(steps)
    requires TouchTime(states[k], steps[k], i).Some?
    ensures i < |states[n].flows| && states[n].flows[i].lastActive >= TouchTime(states[k], steps[k], i).value
  {
    hide Apply, Enabled, TouchTime, Clock;
    var s, step := states[n - 1], steps[n - 1];
    assert Enabled(s, step) && states[n] == Apply(s, step);
    assert Enabled(states[k], steps[k]) && states[k + 1] == Apply(states[k], steps[k]);
    TouchStep(states[k], steps[k], i);
    if n > k + 1 {
      ActivityIsKept(states, steps, k, n - 1, i);
      ActivityStep(s, step, i, TouchTime(states[k], steps[k], i).value) by {
        if Clock(step).Some? { assert Clock(steps[k]).value <= Clock(step).value; }
      }
    }
  }

  /** A flow that the reaper closes at `now` has had no datagram in either direction for the whole timeout. */
  lemma ReapedWereIdle(states: seq<Relay>, steps: seq<Step>, k: nat, n: nat, c: Client)
    requires IsRun(states, steps) && k < n < |steps| && ClockRunsOn(steps)
    requires steps[n].Reap? && c in steps[n].victims
    requires c in states[n].sessions && TouchTime(states[k], steps[k], states[n].sessions[c]).Some?
    ensures TouchTime(states[k], steps[k], states[n].sessions[c]).value < steps[n].now - 120.0
  {
    assert Enabled(states[n], steps[n]);
    ActivityIsKept(states, steps, k, n, states[n].sessions[c]);
  }
}
