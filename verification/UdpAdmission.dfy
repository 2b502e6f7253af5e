/**
 What the UDP relay does with each datagram, read from the steps alone: which clients it dials for, on whose
 flow a datagram is sent on, and which datagrams it drops.
 */
module UdpAdmission {
  import opened Prelude
  import opened UdpRelay
  import opened UdpSafety

  predicate OfReader(step: Step) {
    step.Receive? || step.ReceiveError? || step.LookUp? || step.Admit? || step.Dial? || step.Insert? || step.Spawn? || step.Bump?
    || step.Send? || step.CloseAll? || step.WaitDone?
  }

  /** The read loop's steps before step `n`, since it last received a datagram. */
  function Trail(steps: seq<Step>, n: nat): seq<Step>
    requires n <= |steps|
    decreases n
  {
    if n == 0 then []
    else if steps[n - 1].Receive? then [steps[n - 1]]
    else if OfReader(steps[n - 1]) then Trail(steps, n - 1) + [steps[n - 1]]
    else Trail(steps, n - 1)
  }

  /** The trail is that of a datagram from `c` whose client was admitted and dialled for. */
  predicate Dialled(trail: seq<Step>, c: Client) {
    |trail| >= 4 && trail[0] == Receive(c) && trail[1] == LookUp && trail[2] == Admit(true) && trail[3].Dial? && trail[3].dialled
  }

  /** The datagram reached a flow: its client was mapped, or was admitted, dialled for and mapped. */
  predicate OnItsFlow(trail: seq<Step>, c: Client) {
    || (2 <= |trail| <= 4 && trail[..2] == [Receive(c), LookUp] && (|trail| > 2 ==> trail[2].Bump?))
    || (Dialled(trail, c) && 6 <= |trail| <= 8 && trail[4] == Insert && trail[5] == Spawn && (|trail| > 6 ==> trail[6].Bump?))
  }

  /** How a datagram ends: sent on, refused, or without a socket. */
  ghost predicate WasSent(trail: seq<Step>) {
    (|trail| == 4 || |trail| == 8) && trail[|trail| - 1] == Send && exists c :: OnItsFlow(trail, c)
  }

  predicate WasRefused(trail: seq<Step>) {
    |trail| == 3 && trail[0].Receive? && trail[1] == LookUp && trail[2] == Admit(false)
  }

  predicate WasUndialled(trail: seq<Step>) {
    |trail| == 4 && trail[0].Receive? && trail[1] == LookUp && trail[2] == Admit(true) && trail[3].Dial? && !trail[3].dialled
  }

  predicate OwnFlow(s: Relay, i: nat, c: Client) {
    i < |s.flows| && s.flows[i].client == c
  }

  /** Where the read loop is, by its trail. */
  ghost predicate Fits(s: Relay, trail: seq<Step>) {
    match s.reader
    case Receiving => trail == [] || WasSent(trail) || WasRefused(trail) || WasUndialled(trail)
    case LookingUp(c) => trail == [Receive(c)]
    case Admitting(c) => trail == [Receive(c), LookUp]
    case Dialling(c) => trail == [Receive(c), LookUp, Admit(true)]
    case Inserting(c, i) => |trail| == 4 && Dialled(trail, c) && OwnFlow(s, i, c)
    case Spawning(i) => |trail| == 5 && trail[4] == Insert && exists c :: Dialled(trail, c) && OwnFlow(s, i, c)
    case Bumping(i) => (|trail| == 2 || |trail| == 6) && exists c :: OnItsFlow(trail, c) && OwnFlow(s, i, c)
    case Sending(i) => (|trail| == 3 || |trail| == 7) && exists c :: OnItsFlow(trail, c) && OwnFlow(s, i, c)
    case _ => true
  }

  lemma KeepsClients(s: Relay, step: Step, i: nat, c: Client)
    requires Enabled(s, step) && OwnFlow(s, i, c)
    ensures OwnFlow(Apply(s, step), i, c)
  {
    if OfPump(step) {
      hide ReaderStep;
    } else {
      hide PumpStep;
    }
  }

  lemma OthersKeepReader(s: Relay, step: Step)
    requires Enabled(s, step) && !OfReader(step)
    ensures Apply(s, step).reader == s.reader
  {
    hide ReaderStep;
  }

  lemma OthersFit(s: Relay, step: Step, trail: seq<Step>)
    requires Enabled(s, step) && !OfReader(step) && Fits(s, trail)
    ensures Fits(Apply(s, step), trail)
  {
    hide Apply, Enabled, OnItsFlow, Dialled, WasSent, OwnFlow, OfReader;
    OthersKeepReader(s, step);
    match s.reader
    case Inserting(c, i) => KeepsClients(s, step, i, c);
    case Spawning(i) =>
      var c :| Dialled(trail, c) && OwnFlow(s, i, c);
      KeepsClients(s, step, i, c);
    case Bumping(i) =>
      var c :| OnItsFlow(trail, c) && OwnFlow(s, i, c);
      KeepsClients(s, step, i, c);
    case Sending(i) =>
      var c :| OnItsFlow(trail, c) && OwnFlow(s, i, c);
      KeepsClients(s, step, i, c);
    case _ =>
  }

  function Extended(trail: seq<Step>, step: Step): seq<Step> {
    if step.Receive? then [step] else trail + [step]
  }

  lemma LookUpFits(s: Relay, trail: seq<Step>)
    requires OwnEntries(s) && Enabled(s, LookUp) && Fits(s, trail)
    ensures Fits(Apply(s, LookUp), trail + [LookUp])
  {
    hide PumpStep;
    var c := s.reader.who;
    assert trail + [LookUp] == [Receive(c), LookUp];
    if c in s.sessions {
      assert OnItsFlow(trail + [LookUp], c) && OwnFlow(Apply(s, LookUp), s.sessions[c], c);
    }
  }

  lemma InsertFits(s: Relay, trail: seq<Step>)
    requires Enabled(s, Insert) && Fits(s, trail)
    ensures Fits(Apply(s, Insert), trail + [Insert])
  {
    hide PumpStep;
    assert Dialled(trail + [Insert], s.reader.who) && OwnFlow(Apply(s, Insert), s.reader.flow, s.reader.who);
  }

  lemma SpawnGoes(s: Relay)
    requires Enabled(s, Spawn)
    ensures s.reader.Spawning? && Apply(s, Spawn).reader == Bumping(s.reader.flow)
  {
    hide PumpStep;
  }

  lemma BumpGoes(s: Relay, now: real)
    requires Enabled(s, Bump(now))
    ensures s.reader.Bumping? && Apply(s, Bump(now)).reader == Sending(s.reader.flow)
  {
    hide PumpStep;
  }

  lemma SendGoes(s: Relay)
    requires Enabled(s, Send)
    ensures s.reader.Sending? && Apply(s, Send).reader == Receiving
  {
    hide PumpStep;
  }

  lemma SpawnOntoFlow(trail: seq<Step>, c: Client)
    requires |trail| == 5 && Dialled(trail, c) && trail[4] == Insert
    ensures OnItsFlow(trail + [Spawn], c)
  {
  }

  lemma SpawnFits(s: Relay, trail: seq<Step>)
    requires Enabled(s, Spawn) && Fits(s, trail)
    ensures Fits(Apply(s, Spawn), trail + [Spawn])
  {
    hide Apply, Enabled, OwnFlow;
    SpawnGoes(s);
    var i := s.reader.flow;
    var c :| Dialled(trail, c) && OwnFlow(s, i, c);
    KeepsClients(s, Spawn, i, c);
    SpawnOntoFlow(trail, c);
    hide OnItsFlow, Dialled;
  }

  lemma BumpOnFlow(trail: seq<Step>, c: Client, now: real)
    requires (|trail| == 2 || |trail| == 6) && OnItsFlow(trail, c)
    ensures OnItsFlow(trail + [Bump(now)], c)
  {
    assert (trail + [Bump(now)])[..2] == trail[..2];
  }

  lemma BumpFits(s: Relay, now: real, trail: seq<Step>)
    requires Enabled(s, Bump(now)) && Fits(s, trail)
    ensures Fits(Apply(s, Bump(now)), trail + [Bump(now)])
  {
    hide Apply, Enabled, OwnFlow, OnItsFlow;
    BumpGoes(s, now);
    var i := s.reader.flow;
    var c :| OnItsFlow(trail, c) && OwnFlow(s, i, c);
    KeepsClients(s, Bump(now), i, c);
    BumpOnFlow(trail, c, now);
  }

  lemma SendOnFlow(trail: seq<Step>, c: Client)
    requires (|trail| == 3 || |trail| == 7) && OnItsFlow(trail, c)
    ensures OnItsFlow(trail + [Send], c)
  {
    assert (trail + [Send])[..2] == trail[..2];
  }

  lemma SendFits(s: Relay, trail: seq<Step>)
    requires Enabled(s, Send) && Fits(s, trail)
    ensures Fits(Apply(s, Send), trail + [Send])
  {
    hide Apply, Enabled, OwnFlow, OnItsFlow;
    SendGoes(s);
    var c :| OnItsFlow(trail, c) && OwnFlow(s, s.reader.flow, c);
    SendOnFlow(trail, c);
  }

  lemma DecisionFits(s: Relay, step: Step, trail: seq<Step>)
    requires Enabled(s, step) && (step.Admit? || step.Dial?) && Fits(s, trail)
    ensures Fits(Apply(s, step), trail + [step])
  {
    hide PumpStep, OnItsFlow;
  }

  lemma ReaderFits(s: Relay, step: Step, trail: seq<Step>)
    requires Inv(s) && Enabled(s, step) && OfReader(step) && Fits(s, trail)
    ensures Fits(Apply(s, step), Extended(trail, step))
  {
    hide PumpStep, Fits;
    if step.LookUp? {
      LookUpFits(s, trail);
    } else if step.Insert? {
      InsertFits(s, trail);
    } else if step.Spawn? {
      SpawnFits(s, trail);
    } else if step.Bump? {
      BumpFits(s, step.now, trail);
    } else if step.Send? {
      SendFits(s, trail);
    } else if step.Admit? || step.Dial? {
      DecisionFits(s, step, trail);
    } else {
      LooseFits(Apply(s, step), Extended(trail, step));
    }
  }

  /** With a datagram just received, or out of the loop, nothing else is asked of the trail. */
  lemma LooseFits(s: Relay, trail: seq<Step>)
    requires match s.reader
             case LookingUp(c) => trail == [Receive(c)]
             case LeftLoop => true
             case Waiting => true
             case Stopped => true
             case _ => false
    ensures Fits(s, trail)
  {
  }

  lemma {:induction false} RunFits(states: seq<Relay>, steps: seq<Step>, n: nat)
    requires IsRun(states, steps) && n < |states|
    ensures Fits(states[n], Trail(steps, n))
  {
    if n > 0 {
      RunFits(states, steps, n - 1);
      RunInv(states, steps, n - 1);
      var s, step := states[n - 1], steps[n - 1];
      assert Enabled(s, step) && states[n] == Apply(s, step);
      hide Fits, Apply, Enabled, Inv;
      if OfReader(step) {
        ReaderFits(s, step, Trail(steps, n - 1));
      } else {
        OthersFit(s, step, Trail(steps, n - 1));
      }
    }
  }

  lemma RunStep(states: seq<Relay>, steps: seq<Step>, k: nat)
    requires IsRun(states, steps) && k < |steps|
    ensures k + 1 < |states| && Enabled(states[k], steps[k]) && states[k + 1] == Apply(states[k], steps[k])
  {
    hide Enabled, Apply;
  }

  lemma RunLengths(states: seq<Relay>, steps: seq<Step>)
    requires IsRun(states, steps)
    ensures |states| == |steps| + 1 && |states[0].flows| == 0
  {
  }

  // ---- what the steps say --------------------------------------------------------------

  lemma FlowsAdded(s: Relay, step: Step)
    requires Enabled(s, step)
    ensures var s' := Apply(s, step);
            if step.Dial? && step.dialled
            then s.reader.Dialling? && |s'.flows| == |s.flows| + 1 && s'.flows[|s.flows|].client == s.reader.who
            else |s'.flows| == |s.flows|
  {
    if OfPump(step) {
      hide ReaderStep;
    } else {
      hide PumpStep;
    }
  }

  /** Flow `i` was dialled at step `d`, right after its client's datagram was looked up in vain and admitted. */
  ghost predicate AdmittedAt(states: seq<Relay>, steps: seq<Step>, i: nat, c: Client, d: nat)
    requires d < |steps| && |steps| < |states|
  {
    && steps[d].Dial? && steps[d].dialled && |states[d].flows| == i
    && Trail(steps, d) == [Receive(c), LookUp, Admit(true)]
  }

  lemma FlowKeepsClient(s: Relay, step: Step, i: nat)
    requires Enabled(s, step) && i < |s.flows|
    ensures i < |Apply(s, step).flows| && Apply(s, step).flows[i].client == s.flows[i].client
  {
    hide Apply, Enabled;
    KeepsClients(s, step, i, s.flows[i].client);
  }

  lemma DialTrail(s: Relay, trail: seq<Step>)
    requires Fits(s, trail) && s.reader.Dialling?
    ensures trail == [Receive(s.reader.who), LookUp, Admit(true)]
  {
  }

  lemma {:induction false} IsAdmitted(states: seq<Relay>, steps: seq<Step>, i: nat, c: Client, d: nat)
    requires d < |steps| < |states| && steps[d].Dial? && steps[d].dialled && |states[d].flows| == i
    requires Trail(steps, d) == [Receive(c), LookUp, Admit(true)]
    ensures AdmittedAt(states, steps, i, c, d)
  {
  }

  /**
   Every flow, in every state of every interleaving, was dialled for its own client by a dial whose last
   steps of the read loop before it are that client's datagram, its lookup and its admission.
   */
  lemma {:induction false} FlowsAreAdmitted(states: seq<Relay>, steps: seq<Step>, n: nat, i: nat) returns (d: nat)
    requires IsRun(states, steps) && n < |states| && i < |states[n].flows|
    ensures d < n && AdmittedAt(states, steps, i, states[n].flows[i].client, d)
  {
    hide *;
    RunLengths(states, steps);
    var s, step := states[n - 1], steps[n - 1];
    RunStep(states, steps, n - 1);
    FlowsAdded(s, step);
    if i < |s.flows| {
      d := FlowsAreAdmitted(states, steps, n - 1, i);
      FlowKeepsClient(s, step, i);
    } else {
      d := n - 1;
      RunFits(states, steps, d);
      DialTrail(s, Trail(steps, d));
      IsAdmitted(states, steps, i, s.reader.who, d);
    }
  }

  predicate Quiet(r: ReaderPc) {
    r.Receiving? || r.LookingUp? || r.LeftLoop? || r.Waiting? || r.Stopped?
  }

  /** No entry is new or changed. */
  predicate OnlyRemoves(s: Relay, s': Relay) {
    forall c :: c in s'.sessions ==> c in s.sessions && s'.sessions[c] == s.sessions[c]
  }

  lemma QuietStep(s: Relay, step: Step)
    requires Enabled(s, step) && Quiet(s.reader) && !step.LookUp?
    ensures Quiet(Apply(s, step).reader) && |Apply(s, step).flows| == |s.flows| && OnlyRemoves(s, Apply(s, step))
  {
    FlowsAdded(s, step);
    if OfPump(step) {
      hide ReaderStep;
    } else {
      hide PumpStep;
    }
  }

  lemma RefusalStep(s: Relay)
    requires Enabled(s, Admit(false))
    ensures Apply(s, Admit(false)) == s.(reader := Receiving)
  {
    hide PumpStep;
  }

  /** After a refusal no flow is dialled and no entry added before the next lookup. */
  lemma {:induction false} RefusedAddsNothing(states: seq<Relay>, steps: seq<Step>, a: nat, n: nat)
    requires IsRun(states, steps) && a < n < |states| && steps[a] == Admit(false)
    requires forall k :: a < k < n ==> !steps[k].LookUp?
    ensures Quiet(states[n].reader) && |states[n].flows| == |states[a].flows| && OnlyRemoves(states[a], states[n])
  {
    hide *;
    RunLengths(states, steps);
    var s, step := states[n - 1], steps[n - 1];
    RunStep(states, steps, n - 1);
    if n == a + 1 {
      RefusalStep(s);
      RefusalQuiet(s);
    } else {
      RefusedAddsNothing(states, steps, a, n - 1);
      QuietStep(s, step);
      RemovesTwice(states[a], s, states[n]);
    }
  }

  lemma RefusalQuiet(s: Relay)
    ensures Quiet(s.(reader := Receiving).reader) && OnlyRemoves(s, s.(reader := Receiving))
  {
  }

  lemma RemovesTwice(s: Relay, s': Relay, s'': Relay)
    requires OnlyRemoves(s, s') && OnlyRemoves(s', s'')
    ensures OnlyRemoves(s, s'')
  {
  }

  /** Since a lookup of `c` at `l`: on the flow it found, on the way to one dialled since, or done with the datagram. */
  predicate Holds(s: Relay, r: ReaderPc, now: Relay, c: Client) {
    || Quiet(r)
    || (if c in s.sessions then r == Bumping(s.sessions[c]) || r == Sending(s.sessions[c])
        else
          || r == Admitting(c) || r == Dialling(c)
          || (r.Inserting? && r.who == c && r.flow >= |s.flows| && OwnFlow(now, r.flow, c))
          || ((r.Spawning? || r.Bumping? || r.Sending?) && r.flow >= |s.flows| && OwnFlow(now, r.flow, c)))
  }

  predicate WithFlow(r: ReaderPc) {
    r.Inserting? || r.Spawning? || r.Bumping? || r.Sending?
  }

  /** The reader keeps its flow, or takes the one it just dialled, or lets go of it. */
  lemma ReaderMoves(s: Relay, step: Step)
    requires Enabled(s, step) && OfReader(step) && !step.LookUp? && !Quiet(s.reader)
    ensures var r, r' := s.reader, Apply(s, step).reader;
            || Quiet(r')
            || (r.Admitting? && r' == Dialling(r.who))
            || (r.Dialling? && r' == Inserting(r.who, |s.flows|) && OwnFlow(Apply(s, step), |s.flows|, r.who))
            || (r.Inserting? && r' == Spawning(r.flow))
            || (r.Spawning? && r' == Bumping(r.flow))
            || (r.Bumping? && r' == Sending(r.flow))
  {
    hide PumpStep;
  }

  lemma HoldsStep(s0: Relay, s: Relay, step: Step, c: Client)
    requires Enabled(s, step) && Holds(s0, s.reader, s, c) && |s0.flows| <= |s.flows| && !step.LookUp?
    ensures Holds(s0, Apply(s, step).reader, Apply(s, step), c)
  {
    hide Apply, Enabled, OwnFlow;
    if WithFlow(s.reader) && OwnFlow(s, s.reader.flow, c) {
      KeepsClients(s, step, s.reader.flow, c);
    }
    if !OfReader(step) {
      OthersKeepReader(s, step);
    } else if Quiet(s.reader) {
      QuietStep(s, step);
    } else {
      ReaderMoves(s, step);
    }
    hide OfReader;
  }

  lemma LookUpHolds(s: Relay)
    requires Enabled(s, LookUp)
    ensures Holds(s, Apply(s, LookUp).reader, Apply(s, LookUp), s.reader.who) && |Apply(s, LookUp).flows| == |s.flows|
  {
    hide PumpStep;
  }

  lemma {:induction false} HoldsSince(states: seq<Relay>, steps: seq<Step>, l: nat, n: nat)
    requires IsRun(states, steps) && l < n < |states| && steps[l] == LookUp
    requires forall k :: l < k < n ==> !steps[k].LookUp?
    ensures states[l].reader.LookingUp? && Holds(states[l], states[n].reader, states[n], states[l].reader.who)
    ensures |states[l].flows| <= |states[n].flows|
  {
    hide *;
    RunLengths(states, steps);
    RunStep(states, steps, l);
    LookUpAt(states[l]);
    var s, step := states[n - 1], steps[n - 1];
    RunStep(states, steps, n - 1);
    if n == l + 1 {
      LookUpHolds(s);
    } else {
      HoldsSince(states, steps, l, n - 1);
      FlowsAdded(s, step);
      HoldsStep(states[l], s, step, states[l].reader.who);
    }
  }

  lemma LookUpAt(s: Relay)
    requires Enabled(s, LookUp)
    ensures s.reader.LookingUp?
  {
  }

  lemma SendAt(s: Relay)
    requires Enabled(s, Send)
    ensures s.reader.Sending?
  {
  }

  /**
   A datagram that is sent on goes to the flow its client was mapped to when it was looked up, or, if there
   was none, to a flow dialled for that client since.
   */
  lemma SentOnOwnFlow(states: seq<Relay>, steps: seq<Step>, l: nat, n: nat)
    requires IsRun(states, steps) && l < n < |steps| && steps[l] == LookUp && steps[n] == Send
    requires forall k :: l < k < n ==> !steps[k].LookUp?
    ensures states[l].reader.LookingUp? && states[n].reader.Sending?
    ensures var c, i := states[l].reader.who, states[n].reader.flow;
            && OwnFlow(states[n], i, c)
            && if c in states[l].sessions then i == states[l].sessions[c] else i >= |states[l].flows|
  {
    hide IsRun, Enabled, Inv;
    RunLengths(states, steps);
    HoldsSince(states, steps, l, n);
    RunStep(states, steps, n);
    SendAt(states[n]);
    RunInv(states, steps, l);
    var c := states[l].reader.who;
    if c in states[l].sessions {
      EntryIsOwn(states[l], c);
      OwnFlowsStay(states, steps, l, n, states[l].sessions[c], c);
    }
  }

  lemma EntryIsOwn(s: Relay, c: Client)
    requires Inv(s) && c in s.sessions
    ensures OwnFlow(s, s.sessions[c], c)
  {
  }

  lemma {:induction false} OwnFlowsStay(states: seq<Relay>, steps: seq<Step>, l: nat, n: nat, i: nat, c: Client)
    requires IsRun(states, steps) && l <= n < |states| && OwnFlow(states[l], i, c)
    ensures OwnFlow(states[n], i, c)
    decreases n
  {
    hide *;
    if l < n {
      OwnFlowsStay(states, steps, l, n - 1, i, c);
      RunLengths(states, steps);
      RunStep(states, steps, n - 1);
      KeepsClients(states[n - 1], steps[n - 1], i, c);
    }
  }

  /**
   When the read loop is back to receive, the last datagram was sent on, or was refused by an `Admit(false)`,
   or found no socket by a failed dial: one of the three and only one.
   */
  lemma {:induction false} SentOrDropped(states: seq<Relay>, steps: seq<Step>, n: nat)
    requires IsRun(states, steps) && n < |states| && states[n].reader.Receiving? && Trail(steps, n) != []
    ensures var trail := Trail(steps, n);
            && (WasSent(trail) || WasRefused(trail) || WasUndialled(trail))
            && (WasSent(trail) <==> !WasRefused(trail) && !WasUndialled(trail))
            && !(WasRefused(trail) && WasUndialled(trail))
            && (WasRefused(trail) <==> Admit(false) in trail)
            && (WasUndialled(trail) <==> exists now :: Dial(false, now) in trail)
            && (WasSent(trail) <==> Send in trail)
  {
    RunFits(states, steps, n);
    FateOfTrail(states[n], Trail(steps, n));
    hide *;
  }

  lemma FateOfTrail(s: Relay, trail: seq<Step>)
    requires Fits(s, trail) && s.reader.Receiving? && trail != []
    ensures WasSent(trail) || WasRefused(trail) || WasUndialled(trail)
    ensures WasSent(trail) <==> !WasRefused(trail) && !WasUndialled(trail)
    ensures !(WasRefused(trail) && WasUndialled(trail))
    ensures WasRefused(trail) <==> Admit(false) in trail
    ensures WasUndialled(trail) <==> exists now :: Dial(false, now) in trail
    ensures WasSent(trail) <==> Send in trail
  {
    if WasSent(trail) {
      SentHasNoRefusal(trail);
    }
    if WasUndialled(trail) {
      assert Dial(false, trail[3].now) in trail;
    }
    if WasRefused(trail) {
      assert trail[2] in trail;
    }
    hide OnItsFlow;
  }

  lemma SentHasNoRefusal(trail: seq<Step>)
    requires WasSent(trail)
    ensures Admit(false) !in trail && (forall now :: Dial(false, now) !in trail) && Send in trail
  {
    var c :| OnItsFlow(trail, c);
    if trail[..2] == [Receive(c), LookUp] {
      assert trail[0] == trail[..2][0] && trail[1] == trail[..2][1];
    }
  }
}
