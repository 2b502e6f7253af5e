/**
 The UDP relay as an interleaving of its goroutines: the read loop, one reply pump per flow and the
 idle reaper share a session map. A step is one lock region, one socket call or one other action that
 the goroutines can observe; looking a client up, dialling for it and inserting it are separate steps.
 */
module UdpRelay {
  import opened Prelude

  /** A client's source address, the key of the session map. */
  type Client = string

  /** Seconds a flow may sit idle before it is reaped. */
  const SESSION_TIMEOUT: real := 120.0

  /** Where a session's reply pump is. `Unborn` until its goroutine starts. */
  datatype PumpPc = Unborn | Reading | Touching | Writing | Closing | Deleting | Signalling | Finished

  /** One dialled flow. A session is known by its index in `Relay.flows`. */
  datatype Flow = Flow(client: Client, open: bool, lastActive: real, pump: PumpPc)

  datatype ReaderPc =
    | Receiving
    | LookingUp(who: Client)
    | Admitting(who: Client)
    | Dialling(who: Client)
    | Inserting(who: Client, flow: nat)
    | Spawning(flow: nat)
    | Bumping(flow: nat)
    | Sending(flow: nat)
    | LeftLoop
    | Waiting
    | Stopped

  datatype ReaperPc = Ticking | Leaving | Gone

  /**
   `count` is the wait group's counter, `tick` a pending tick of the reaper's ticker, `cancelled` the
   context, `listening` whether the listen socket is open.
   */
  datatype Relay = Relay(
    sessions: map<Client, nat>,
    flows: seq<Flow>,
    reader: ReaderPc,
    reaper: ReaperPc,
    count: int,
    cancelled: bool,
    listening: bool,
    tick: bool)

  /** The relay once it listens and its reaper runs. */
  const START := Relay(map[], [], Receiving, Ticking, 1, false, true, false)

  datatype Step =
    // the surroundings
    | Cancel
    | CloseListener
    | Tick
    // the read loop
    | Receive(who: Client)
    | ReceiveError
    | LookUp
    | Admit(allowed: bool)
    | Dial(dialled: bool, now: real)
    | Insert
    | Spawn
    | Bump(now: real)
    | Send
    | CloseAll
    | WaitDone
    // the pump of one flow
    | PumpRead(flow: nat)
    | PumpReadError(flow: nat)
    | PumpTouch(flow: nat, now: real)
    | PumpWrite(flow: nat, written: bool)
    | PumpClose(flow: nat)
    | PumpDelete(flow: nat)
    | PumpDone(flow: nat)
    // the reaper
    | Reap(victims: set<Client>, now: real)
    | ReaperLeave
    | ReaperDone

  predicate PumpAt(s: Relay, i: nat, pc: PumpPc) {
    i < |s.flows| && s.flows[i].pump == pc
  }

  /** Mapped clients whose flow has been idle too long; a flow touched during the scan may escape it. */
  predicate IdleVictims(s: Relay, victims: set<Client>, now: real) {
    forall c :: c in victims ==>
      c in s.sessions && s.sessions[c] < |s.flows| && s.flows[s.sessions[c]].lastActive < now - SESSION_TIMEOUT
  }

  /** What each goroutine may do next. */
  predicate Enabled(s: Relay, step: Step) {
    match step
    case Cancel => true
    case CloseListener => s.cancelled
    case Tick => true
    case Receive(_) => s.reader.Receiving? && s.listening
    case ReceiveError => s.reader.Receiving?
    case LookUp => s.reader.LookingUp?
    case Admit(_) => s.reader.Admitting?
    case Dial(_, _) => s.reader.Dialling?
    case Insert => s.reader.Inserting?
    case Spawn => s.reader.Spawning? && s.reader.flow < |s.flows|
    case Bump(_) => s.reader.Bumping? && s.reader.flow < |s.flows|
    case Send => s.reader.Sending?
    case CloseAll => s.reader.LeftLoop?
    case WaitDone => s.reader.Waiting? && s.count == 0
    case PumpRead(i) => PumpAt(s, i, Reading) && s.flows[i].open
    case PumpReadError(i) => PumpAt(s, i, Reading)
    case PumpTouch(i, _) => PumpAt(s, i, Touching)
    case PumpWrite(i, written) => PumpAt(s, i, Writing) && (written ==> s.listening)
    case PumpClose(i) => PumpAt(s, i, Closing)
    case PumpDelete(i) => PumpAt(s, i, Deleting)
    case PumpDone(i) => PumpAt(s, i, Signalling)
    case Reap(victims, now) => s.reaper.Ticking? && s.tick && IdleVictims(s, victims, now)
    case ReaperLeave => s.reaper.Ticking? && s.cancelled
    case ReaperDone => s.reaper.Leaving?
  }

  /** The flows after the target sockets of some of them are closed. */
  function Closed(flows: seq<Flow>, which: set<nat>): (r: seq<Flow>)
    ensures |r| == |flows|
    ensures forall i :: 0 <= i < |r| ==> r[i] == flows[i].(open := flows[i].open && i !in which)
  {
    seq(|flows|, i requires 0 <= i < |flows| => flows[i].(open := flows[i].open && i !in which))
  }

  function FlowsOf(sessions: map<Client, nat>, who: set<Client>): set<nat> {
    set c | c in who && c in sessions :: sessions[c]
  }

  /** The reader's part of `Apply`. */
  function ReaderStep(s: Relay, step: Step): Relay
    requires Enabled(s, step)
  {
    match step
    case Receive(who) => s.(reader := LookingUp(who))
    case ReceiveError => s.(reader := LeftLoop)
    case LookUp =>
      var who := s.reader.who;
      s.(reader := if who in s.sessions then Bumping(s.sessions[who]) else Admitting(who))
    case Admit(allowed) =>
      s.(reader := if allowed then Dialling(s.reader.who) else Receiving)
    case Dial(dialled, now) =>
      var who := s.reader.who;
      if dialled
      then s.(flows := s.flows + [Flow(who, true, now, Unborn)], reader := Inserting(who, |s.flows|))
      else s.(reader := Receiving)
    case Insert =>
      s.(sessions := s.sessions[s.reader.who := s.reader.flow], reader := Spawning(s.reader.flow))
    case Spawn =>
      var i := s.reader.flow;
      s.(flows := s.flows[i := s.flows[i].(pump := Reading)], count := s.count + 1, reader := Bumping(i))
    case Bump(now) =>
      var i := s.reader.flow;
      s.(flows := s.flows[i := s.flows[i].(lastActive := now)], reader := Sending(i))
    case Send => s.(reader := Receiving)
    case CloseAll => s.(flows := Closed(s.flows, s.sessions.Values), reader := Waiting)
    case WaitDone => s.(reader := Stopped, listening := false)
    case _ => s
  }

  /** A flow after its pump took a step. */
  function Pumped(f: Flow, step: Step): Flow
    requires OfPump(step)
  {
    match step
    case PumpRead(_) => f.(pump := PumpPc.Touching)
    case PumpReadError(_) => f.(pump := Closing)
    case PumpTouch(_, now) => f.(lastActive := now, pump := Writing)
    case PumpWrite(_, written) => f.(pump := if written then Reading else Closing)
    case PumpClose(_) => f.(open := false, pump := Deleting)
    case PumpDelete(_) => f.(pump := Signalling)
    case PumpDone(_) => f.(pump := Finished)
  }

  /** The map after the pump of flow `i` removed its entry, if the entry is still its own. */
  function Unmapped(s: Relay, i: nat): map<Client, nat>
    requires i < |s.flows|
  {
    var c := s.flows[i].client;
    if c in s.sessions && s.sessions[c] == i then s.sessions - {c} else s.sessions
  }

  function PumpStep(s: Relay, step: Step): Relay
    requires Enabled(s, step) && OfPump(step)
  {
    s.(
      flows := s.flows[step.flow := Pumped(s.flows[step.flow], step)],
      sessions := if step.PumpDelete? then Unmapped(s, step.flow) else s.sessions,
      count := if step.PumpDone? then s.count - 1 else s.count)
  }

  function Apply(s: Relay, step: Step): Relay
    requires Enabled(s, step)
  {
    match step
    case Cancel => s.(cancelled := true)
    case CloseListener => s.(listening := false)
    case Tick => s.(tick := true)
    case Reap(victims, _) =>
      s.(flows := Closed(s.flows, FlowsOf(s.sessions, victims)), sessions := s.sessions - victims, tick := false)
    case ReaperLeave => s.(reaper := Leaving)
    case ReaperDone => s.(reaper := Gone, count := s.count - 1)
    case _ => if OfPump(step) then PumpStep(s, step) else ReaderStep(s, step)
  }

  predicate OfPump(step: Step) {
    step.PumpRead? || step.PumpReadError? || step.PumpTouch? || step.PumpWrite? || step.PumpClose? || step.PumpDelete? || step.PumpDone?
  }

  predicate OfSurroundings(step: Step) {
    step.Cancel? || step.CloseListener? || step.Tick?
  }

  /** An interleaving: every step is enabled where it is taken. */
  ghost predicate IsRun(states: seq<Relay>, steps: seq<Step>) {
    && |states| == |steps| + 1
    && states[0] == START
    && forall k :: 0 <= k < |steps| ==> Enabled(states[k], steps[k]) && states[k + 1] == Apply(states[k], steps[k])
  }

  // ---- sums over flows ----------------------------------------------------------

  function Total(flows: seq<Flow>, f: Flow -> nat): nat {
    if flows == [] then 0 else Total(flows[..|flows| - 1], f) + f(flows[|flows| - 1])
  }

  lemma {:induction false} TotalSame(a: seq<Flow>, b: seq<Flow>, f: Flow -> nat)
    requires |a| == |b| && forall i :: 0 <= i < |a| ==> f(a[i]) == f(b[i])
    ensures Total(a, f) == Total(b, f)
  {
    if a != [] {
      TotalSame(a[..|a| - 1], b[..|b| - 1], f);
    }
  }

  lemma {:induction false} TotalUpdate(flows: seq<Flow>, i: nat, x: Flow, f: Flow -> nat)
    requires i < |flows|
    ensures Total(flows[i := x], f) == Total(flows, f) - f(flows[i]) + f(x)
    ensures Total(flows, f) >= f(flows[i])
  {
    var last := |flows| - 1;
    if i == last {
      assert flows[i := x][..last] == flows[..last];
    } else {
      TotalUpdate(flows[..last], i, x, f);
      assert flows[i := x][..last] == flows[..last][i := x];
    }
  }

  lemma {:induction false} TotalAppend(flows: seq<Flow>, x: Flow, f: Flow -> nat)
    ensures Total(flows + [x], f) == Total(flows, f) + f(x)
  {
    assert (flows + [x])[..|flows|] == flows;
  }

  lemma {:induction false} TotalZero(flows: seq<Flow>, f: Flow -> nat)
    ensures Total(flows, f) == 0 <==> forall i :: 0 <= i < |flows| ==> f(flows[i]) == 0
  {
    if flows != [] {
      TotalZero(flows[..|flows| - 1], f);
      assert forall i :: 0 <= i < |flows| - 1 ==> flows[i] == flows[..|flows| - 1][i];
    }
  }
}
